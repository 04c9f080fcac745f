/**
 * The web app's service worker: public API answers are remembered in a bounded cache and, while the
 * network fails, served from it with a "stale" signal to the client; the next answer that client gets
 * from the network is announced as "fresh". Tasks are cut at their awaits and interleave freely.
 */
module ServiceWorker {
  import opened Numbers
  import opened Sequences
  import opened Wrappers

  const STALE_MAX_AGE_MS := 10 * 60 * 1000
  const API_CACHE_LIMIT := 80

  /** A stored answer: `stampedAt` is the header the worker wrote, `storedAt` when the entry appeared. */
  datatype Entry = Entry(request: string, response: string, stampedAt: int, storedAt: int)

  // ---- The cache: entries in the order they were put ----

  function Keep(entries: seq<Entry>, gone: set<string>): (kept: seq<Entry>)
    ensures |kept| <= |entries|
    ensures forall e :: e in kept <==> e in entries && e.request !in gone
  {
    if entries == [] then []
    else
      var rest := Keep(entries[1..], gone);
      assert entries == [entries[0]] + entries[1..];
      if entries[0].request in gone then rest else [entries[0]] + rest
  }

  /** An entry for the same request is replaced; the new one goes to the end. */
  function Put(entries: seq<Entry>, e: Entry): seq<Entry> {
    Keep(entries, {e.request}) + [e]
  }

  function Requests(entries: seq<Entry>): (keys: seq<string>)
    ensures |keys| == |entries| && forall i | 0 <= i < |keys| :: keys[i] == entries[i].request
  {
    seq(|entries|, i requires 0 <= i < |entries| => entries[i].request)
  }

  /** The oldest keys, as many as the cache is over its limit. */
  function Surplus(entries: seq<Entry>): seq<string> {
    if |entries| > API_CACHE_LIMIT then Requests(entries)[..|entries| - API_CACHE_LIMIT] else []
  }

  function Match(entries: seq<Entry>, request: string): (r: Option<Entry>)
    ensures r.Some? ==> r.value in entries && r.value.request == request
    ensures r.None? ==> forall e | e in entries :: e.request != request
  {
    if entries == [] then None
    else if entries[0].request == request then Some(entries[0])
    else Match(entries[1..], request)
  }

  predicate Servable(cached: Option<Entry>, now: int) {
    cached.Some? && now - cached.value.stampedAt <= STALE_MAX_AGE_MS
  }

  /** The worker's own state, and what its code does to it between awaits. */
  class Worker {
    var entries: seq<Entry>
    var staleClients: set<string>

    constructor ()
      ensures entries == [] && staleClients == {}
    {
      entries, staleClients := [], {};
    }

    /** `remember` at its `put`. */
    method Store(request: string, response: string, stampedAt: int, now: int)
      modifies this`entries
      ensures entries == Put(old(entries), Entry(request, response, stampedAt, now))
    {
      entries := Keep(entries, {request});
      entries := entries + [Entry(request, response, stampedAt, now)];
    }

    /**
     * `remember` after its `put`, when nothing else runs in between: the loop over the surplus keys. `listed`
     * says whether `keys` answers, `allowed` how many deletions do before one is rejected.
     */
    method Trim(listed: bool, allowed: nat) returns (finished: bool)
      modifies this`entries
      ensures finished <==> listed && allowed >= |Surplus(old(entries))|
      ensures var done := if !listed then 0 else if finished then |Surplus(old(entries))| else allowed;
              entries == Keep(old(entries), Elements(Surplus(old(entries))[..done]))
      ensures finished ==> |entries| <= API_CACHE_LIMIT
    {
      var keys := Surplus(entries);
      KeepNone(entries, keys);
      if !listed {
        return false;
      }
      SurplusCovers(entries);
      var i := 0;
      while i < |keys|
        invariant 0 <= i <= |keys| && i <= allowed
        invariant entries == Keep(old(entries), Elements(keys[..i]))
      {
        if i == allowed {
          return false;
        }
        KeepOneMore(old(entries), keys, i);
        entries := Keep(entries, {keys[i]});
        i := i + 1;
      }
      assert keys[..|keys|] == keys;
      return true;
    }

    /** `publicApi` once `fetch` has answered: whether the client is told its data is fresh again. */
    method Answered(client: string) returns (again: bool)
      modifies this`staleClients
      ensures again == (client in old(staleClients)) && staleClients == old(staleClients) - {client}
    {
      again := client in staleClients;
      if again {
        staleClients := staleClients - {client};
      }
    }

    /** `publicApi` once `fetch` has failed and the cache was asked: the entry served, if any. */
    method Unreachable(client: string, cached: Option<Entry>, now: int) returns (served: Option<Entry>)
      modifies this`staleClients
      ensures served == if Servable(cached, now) then cached else None
      ensures staleClients == old(staleClients) + if Servable(cached, now) then {client} else {}
    {
      if cached.None? || now - cached.value.stampedAt > STALE_MAX_AGE_MS {
        return None;
      }
      staleClients := staleClients + {client};
      return cached;
    }
  }

  lemma {:induction false} KeepTwice(entries: seq<Entry>, a: set<string>, b: set<string>)
    ensures Keep(Keep(entries, a), b) == Keep(entries, a + b)
  {
    if entries != [] {
      KeepTwice(entries[1..], a, b);
      if entries[0].request !in a {
        assert Keep(entries, a)[1..] == Keep(entries[1..], a);
      }
    }
  }

  lemma {:induction false} KeepNothing(entries: seq<Entry>)
    ensures Keep(entries, {}) == entries
  {
    if entries != [] {
      KeepNothing(entries[1..]);
    }
  }

  lemma KeepNone(entries: seq<Entry>, keys: seq<string>)
    ensures Keep(entries, Elements(keys[..0])) == entries
  {
    KeepNothing(entries);
    assert Elements(keys[..0]) == {};
  }

  lemma KeepOneMore(entries: seq<Entry>, keys: seq<string>, i: nat)
    requires i < |keys|
    ensures Keep(Keep(entries, Elements(keys[..i])), {keys[i]}) == Keep(entries, Elements(keys[..i + 1]))
  {
    KeepTwice(entries, Elements(keys[..i]), {keys[i]});
    assert keys[..i + 1] == keys[..i] + [keys[i]];
    assert Elements(keys[..i + 1]) == Elements(keys[..i]) + {keys[i]};
  }

  lemma {:induction false} KeepTail(entries: seq<Entry>, gone: set<string>, n: nat)
    requires n <= |entries| && forall i | 0 <= i < n :: entries[i].request in gone
    ensures |Keep(entries, gone)| <= |entries| - n
  {
    if n > 0 {
      KeepTail(entries[1..], gone, n - 1);
    }
  }

  lemma SurplusCovers(entries: seq<Entry>)
    ensures |Keep(entries, Elements(Surplus(entries)))| <= API_CACHE_LIMIT
  {
    var n := |Surplus(entries)|;
    forall i | 0 <= i < n
      ensures entries[i].request in Elements(Surplus(entries))
    {
      assert Surplus(entries)[i] == entries[i].request;
    }
    KeepTail(entries, Elements(Surplus(entries)), n);
  }

  // ---- What trimming keeps ----

  predicate DistinctRequests(entries: seq<Entry>) {
    forall i, j | 0 <= i < j < |entries| :: entries[i].request != entries[j].request
  }

  lemma {:induction false} KeepAbsent(entries: seq<Entry>, key: string)
    requires forall i | 0 <= i < |entries| :: entries[i].request != key
    ensures Keep(entries, {key}) == entries
  {
    if entries != [] {
      KeepAbsent(entries[1..], key);
    }
  }

  lemma RequestsStep(entries: seq<Entry>, n: nat)
    requires 0 < n <= |entries|
    ensures Elements(Requests(entries)[..n]) == {entries[0].request} + Elements(Requests(entries[1..])[..n - 1])
  {
    assert Requests(entries)[..n] == [entries[0].request] + Requests(entries[1..])[..n - 1];
  }

  lemma FirstGone(entries: seq<Entry>, gone: set<string>)
    requires DistinctRequests(entries) && entries != []
    ensures Keep(entries, {entries[0].request} + gone) == Keep(entries[1..], gone)
  {
    KeepAbsent(entries[1..], entries[0].request);
    KeepTwice(entries[1..], {entries[0].request}, gone);
  }

  /** Deleting the first `n` keys of distinct entries leaves the rest, in order. */
  lemma {:induction false} KeepSuffix(entries: seq<Entry>, n: nat)
    requires DistinctRequests(entries) && n <= |entries|
    ensures Keep(entries, Elements(Requests(entries)[..n])) == entries[n..]
  {
    if n == 0 {
      KeepNone(entries, Requests(entries));
    } else {
      var rest := entries[1..];
      KeepSuffix(rest, n - 1);
      RequestsStep(entries, n);
      FirstGone(entries, Elements(Requests(rest)[..n - 1]));
      assert rest[n - 1..] == entries[n..];
    }
  }

  /** Of distinct entries, trimming keeps the newest eighty and drops nothing while there are no more. */
  lemma TrimKeepsNewest(entries: seq<Entry>)
    requires DistinctRequests(entries)
    ensures Keep(entries, Elements(Surplus(entries)))
            == if |entries| > API_CACHE_LIMIT then entries[|entries| - API_CACHE_LIMIT..] else entries
  {
    KeepSuffix(entries, if |entries| > API_CACHE_LIMIT then |entries| - API_CACHE_LIMIT else 0);
    KeepNone(entries, Requests(entries));
  }

  lemma {:induction false} KeepKeepsDistinct(entries: seq<Entry>, gone: set<string>)
    requires DistinctRequests(entries)
    ensures DistinctRequests(Keep(entries, gone))
  {
    if entries != [] {
      var kept := Keep(entries[1..], gone);
      KeepKeepsDistinct(entries[1..], gone);
      forall j | 0 <= j < |kept|
        ensures kept[j].request != entries[0].request
      {
        assert kept[j] in entries[1..];
      }
    }
  }

  // ---- All tasks together ----

  datatype Remember =
    | Opening(request: string, response: string)
    | Stamped(request: string, response: string, at: int)
    | Stored
    | Deleting(rest: seq<string>)

  datatype Fallback =
    | Failed(request: string, client: string)
    | Asked(request: string, client: string, cached: Option<Entry>)

  datatype Signal = Fresh(client: string) | Stale(client: string)

  datatype Served = Served(request: string, entry: Entry, at: int)

  /** How the trim of the `remember` that stored last stands. */
  datatype LastTrim =
    | Nothing           // nothing was stored yet
    | Pending(id: nat)  // it is under way
    | Finished
    | Rejected          // a call of it was rejected, or the worker was stopped during it

  /** `stored` counts what was stored since a last storer's trim finished. */
  datatype State = State(
    now: int,
    entries: seq<Entry>,
    staleClients: set<string>,
    remembers: map<nat, Remember>,
    fallbacks: map<nat, Fallback>,
    lastTrim: LastTrim,
    stored: nat,
    answers: set<(string, string)>,   // every (request, response) the network gave and that may be kept
    signals: seq<Signal>,
    served: seq<Served>)

  datatype Event =
    | Advance(to: int)
    | FetchAnswers(id: nat, request: string, response: string, cacheable: bool, client: string)
    | Stamp(id: nat)
    | Store(id: nat)
    | StoreFails(id: nat)
    | ListKeys(id: nat)
    | DeleteNext(id: nat)
    | TrimFails(id: nat)
    | FetchFails(id: nat, request: string, client: string)
    | Ask(id: nat)
    | Answer(id: nat)
    | Restart   // the browser stops the worker, idle or not: its variables and tasks are lost, the cache is not

  function Init(now: int): State {
    State(now, [], {}, map[], map[], Nothing, 0, {}, [], [])
  }

  function Step(s: State, e: Event): State {
    match e
    case Advance(to) => if s.now <= to then s.(now := to) else s
    case FetchAnswers(id, request, response, cacheable, client) =>
      if id in s.remembers then s else
      s.(answers := if cacheable then s.answers + {(request, response)} else s.answers,
         remembers := if cacheable then s.remembers[id := Opening(request, response)] else s.remembers,
         signals := if client in s.staleClients then s.signals + [Fresh(client)] else s.signals,
         staleClients := s.staleClients - {client})
    case Stamp(id) =>
      if id in s.remembers && s.remembers[id].Opening?
      then s.(remembers := s.remembers[id := Stamped(s.remembers[id].request, s.remembers[id].response, s.now)]) else s
    case Store(id) =>
      if id in s.remembers && s.remembers[id].Stamped?
      then s.(entries := Put(s.entries,
                             Entry(s.remembers[id].request, s.remembers[id].response, s.remembers[id].at, s.now)),
              remembers := s.remembers[id := Stored], lastTrim := Pending(id), stored := s.stored + 1) else s
    case StoreFails(id) =>
      if id in s.remembers && (s.remembers[id].Opening? || s.remembers[id].Stamped?)
      then s.(remembers := s.remembers - {id}) else s
    case ListKeys(id) =>
      if id in s.remembers && s.remembers[id].Stored?
      then s.(remembers := s.remembers[id := Deleting(Surplus(s.entries))]) else s
    case DeleteNext(id) =>
      if id !in s.remembers || !s.remembers[id].Deleting? then s
      else if s.remembers[id].rest == [] then
        s.(remembers := s.remembers - {id},
           lastTrim := if s.lastTrim == Pending(id) then Finished else s.lastTrim,
           stored := if s.lastTrim == Pending(id) then 0 else s.stored)
      else s.(entries := Keep(s.entries, {s.remembers[id].rest[0]}),
              remembers := s.remembers[id := Deleting(s.remembers[id].rest[1..])])
    case TrimFails(id) =>
      if id in s.remembers && (s.remembers[id].Stored? || s.remembers[id].Deleting?)
      then s.(remembers := s.remembers - {id},
              lastTrim := if s.lastTrim == Pending(id) then Rejected else s.lastTrim) else s
    case FetchFails(id, request, client) =>
      if id in s.fallbacks then s else s.(fallbacks := s.fallbacks[id := Failed(request, client)])
    case Ask(id) =>
      if id in s.fallbacks && s.fallbacks[id].Failed?
      then
        var f := s.fallbacks[id];
        s.(fallbacks := s.fallbacks[id := Asked(f.request, f.client, Match(s.entries, f.request))])
      else s
    case Answer(id) =>
      if id !in s.fallbacks || !s.fallbacks[id].Asked? then s else
      var f := s.fallbacks[id];
      var s := s.(fallbacks := s.fallbacks - {id});
      if Servable(f.cached, s.now)
      then s.(staleClients := s.staleClients + {f.client}, signals := s.signals + [Stale(f.client)],
              served := s.served + [Served(f.request, f.cached.value, s.now)]) else s
    case Restart =>
      s.(staleClients := {}, remembers := map[], fallbacks := map[],
         lastTrim := if s.lastTrim.Pending? then Rejected else s.lastTrim)
  }

  function Run(start: State, events: seq<Event>): State {
    if events == [] then start else Step(Run(start, events[..|events| - 1]), events[|events| - 1])
  }

  // ---- The bound ----

  /** This task, if it runs to its end, will bring the cache down to its limit. */
  ghost predicate WillTrim(s: State, id: nat) {
    && id in s.remembers
    && (s.remembers[id].Stored?
        || (s.remembers[id].Deleting? && |Keep(s.entries, Elements(s.remembers[id].rest))| <= API_CACHE_LIMIT))
  }

  /**
   * The last storer is on its way to trim, or has trimmed, or could not; at worst everything stored since is surplus.
   */
  ghost predicate Bounded(s: State) {
    && |s.entries| <= API_CACHE_LIMIT + s.stored
    && match s.lastTrim
       case Nothing => |s.entries| <= API_CACHE_LIMIT
       case Pending(id) => WillTrim(s, id)
       case Finished => |s.entries| <= API_CACHE_LIMIT
       case Rejected => true
  }

  lemma StepIsBounded(s: State, e: Event)
    requires Bounded(s)
    ensures Bounded(Step(s, e))
  {
    match e
    case ListKeys(id) => SurplusCovers(s.entries);
    case DeleteNext(id) => DeleteIsBounded(s, id);
    case _ =>
  }

  lemma DeleteIsBounded(s: State, id: nat)
    requires Bounded(s)
    ensures Bounded(Step(s, DeleteNext(id)))
  {
    if id in s.remembers && s.remembers[id].Deleting? {
      if s.remembers[id].rest == [] {
        KeepNothing(s.entries);
        assert Elements<string>([]) == {};
      } else if s.lastTrim.Pending? {
        DeleteKeepsTrim(s, id, s.lastTrim.id);
      }
    }
  }

  /** Deleting the first key of the rest leaves the same to be kept at the end. */
  lemma DeleteOwn(entries: seq<Entry>, rest: seq<string>)
    requires rest != []
    ensures Keep(Keep(entries, {rest[0]}), Elements(rest[1..])) == Keep(entries, Elements(rest))
  {
    KeepTwice(entries, {rest[0]}, Elements(rest[1..]));
    assert rest == [rest[0]] + rest[1..];
    assert Elements(rest) == {rest[0]} + Elements(rest[1..]);
  }

  /** Another task's deletion can only shorten what will be kept. */
  lemma DeleteForeign(entries: seq<Entry>, key: string, gone: set<string>)
    ensures |Keep(Keep(entries, {key}), gone)| <= |Keep(entries, gone)|
  {
    KeepTwice(entries, {key}, gone);
    KeepTwice(entries, gone, {key});
    assert {key} + gone == gone + {key};
  }

  lemma DeleteKeepsTrim(s: State, id: nat, w: nat)
    requires WillTrim(s, w) && id in s.remembers && s.remembers[id].Deleting? && s.remembers[id].rest != []
    ensures WillTrim(Step(s, DeleteNext(id)), w)
  {
    var t, rest := Step(s, DeleteNext(id)), s.remembers[id].rest;
    assert t.entries == Keep(s.entries, {rest[0]});
    if id == w {
      assert t.remembers[w] == Deleting(rest[1..]);
      DeleteOwn(s.entries, rest);
    } else if s.remembers[w].Deleting? {
      assert t.remembers[w] == s.remembers[w];
      DeleteForeign(s.entries, rest[0], Elements(s.remembers[w].rest));
    } else {
      assert t.remembers[w] == s.remembers[w];
    }
  }

  /**
   * Whenever no `remember` is in flight, the cache holds at most eighty entries unless the trim of the one
   * that stored last was cut short; what other trims met does not matter. However many trims fail, the
   * cache is never over its limit by more than was stored since a last storer's trim finished.
   */
  lemma {:induction false} CacheIsBounded(now: int, events: seq<Event>)
    ensures var s := Run(Init(now), events);
            && Bounded(s)
            && (s.remembers == map[] && !s.lastTrim.Rejected? ==> |s.entries| <= API_CACHE_LIMIT)
            && |s.entries| <= API_CACHE_LIMIT + s.stored
  {
    if events != [] {
      CacheIsBounded(now, events[..|events| - 1]);
      StepIsBounded(Run(Init(now), events[..|events| - 1]), events[|events| - 1]);
    }
  }

  /**
   * One `remember` alone on an idle worker whose put succeeds: `keys` is rejected, or is answered and the
   * deletion after the first `allowed` is rejected, or there are no more and it runs to its end.
   */
  function Remembered(s: State, id: nat, request: string, response: string, listed: bool, allowed: nat): State {
    var stored := Step(Step(Step(s, FetchAnswers(id, request, response, true, "")), Stamp(id)), Store(id));
    if listed then Trimmed(Step(stored, ListKeys(id)), id, allowed) else Step(stored, TrimFails(id))
  }

  function Trimmed(s: State, id: nat, allowed: nat): State
    decreases allowed
  {
    if id !in s.remembers || !s.remembers[id].Deleting? then s
    else if s.remembers[id].rest == [] then Step(s, DeleteNext(id))
    else if allowed == 0 then Step(s, TrimFails(id))
    else Trimmed(Step(s, DeleteNext(id)), id, allowed - 1)
  }

  /** Nothing else runs, and the keys still to be deleted are those of the oldest entries. */
  predicate Trimming(s: State, id: nat) {
    && s.remembers.Keys == {id} && s.remembers[id].Deleting?
    && DistinctRequests(s.entries)
    && |s.remembers[id].rest| <= |s.entries|
    && s.remembers[id].rest == Requests(s.entries)[..|s.remembers[id].rest|]
  }

  lemma DeleteOldest(s: State, id: nat)
    requires Trimming(s, id) && s.remembers[id].rest != []
    ensures var t := Step(s, DeleteNext(id));
            && Trimming(t, id) && t.entries == s.entries[1..]
            && |t.remembers[id].rest| == |s.remembers[id].rest| - 1
  {
    var rest := s.remembers[id].rest;
    assert rest[0] == s.entries[0].request;
    KeepAbsent(s.entries[1..], rest[0]);
    assert Requests(s.entries)[1..] == Requests(s.entries[1..]);
    assert rest[1..] == Requests(s.entries[1..])[..|rest| - 1];
  }

  /** What a trim cut short after `allowed` deletions leaves. */
  predicate Leaves(s: State, id: nat, allowed: nat, t: State) {
    t == Trimmed(s, id, allowed)
  }

  /** `t` is left when `allowed` deletions of the rest succeed, or all of them. */
  predicate Shortened(s: State, id: nat, allowed: nat, t: State)
    requires id in s.remembers && s.remembers[id].Deleting?
  {
    t.remembers == map[] && |t.entries| == |s.entries| - Min(allowed, |s.remembers[id].rest|)
  }

  lemma {:induction false} TrimmedByOne(s: State, id: nat, allowed: nat, t: State)
    requires Trimming(s, id) && Leaves(s, id, allowed, t)
    ensures Shortened(s, id, allowed, t)
    decreases allowed
  {
    if s.remembers[id].rest == [] || allowed == 0 {
      TrimEnds(s, id, allowed, t);
    } else {
      var next := OneDeleted(s, id, allowed, t);
      TrimmedByOne(next, id, allowed - 1, t);
      OneMore(s, id, allowed, next, t);
    }
  }

  lemma OneMore(s: State, id: nat, allowed: nat, next: State, t: State)
    requires Trimming(s, id) && Trimming(next, id) && allowed > 0 && Shortened(next, id, allowed - 1, t)
    requires |next.entries| == |s.entries| - 1 && |next.remembers[id].rest| == |s.remembers[id].rest| - 1
    ensures Shortened(s, id, allowed, t)
  {
  }

  lemma OneDeleted(s: State, id: nat, allowed: nat, t: State) returns (next: State)
    requires Trimming(s, id) && s.remembers[id].rest != [] && allowed > 0 && Leaves(s, id, allowed, t)
    ensures Trimming(next, id) && Leaves(next, id, allowed - 1, t)
    ensures |next.entries| == |s.entries| - 1 && |next.remembers[id].rest| == |s.remembers[id].rest| - 1
  {
    DeleteOldest(s, id);
    next := Step(s, DeleteNext(id));
    TrimmedNext(s, id, allowed, next, t);
  }

  lemma TrimmedNext(s: State, id: nat, allowed: nat, next: State, t: State)
    requires Trimming(s, id) && s.remembers[id].rest != [] && allowed > 0 && next == Step(s, DeleteNext(id))
    requires Leaves(s, id, allowed, t)
    ensures Leaves(next, id, allowed - 1, t)
  {
  }

  lemma TrimEnds(s: State, id: nat, allowed: nat, t: State)
    requires Trimming(s, id) && (s.remembers[id].rest == [] || allowed == 0) && Leaves(s, id, allowed, t)
    ensures t.remembers == map[] && t.entries == s.entries
  {
  }

  lemma PutStarts(s: State, id: nat, request: string, response: string)
    requires s.remembers == map[] && DistinctRequests(s.entries)
    ensures var t := Step(Step(Step(s, FetchAnswers(id, request, response, true, "")), Stamp(id)), Store(id));
            && t.remembers == map[id := Stored]
            && DistinctRequests(t.entries) && |t.entries| == |Keep(s.entries, {request})| + 1
  {
    KeepKeepsDistinct(s.entries, {request});
  }

  lemma ListingStarts(s: State, id: nat)
    requires s.remembers == map[id := Stored] && DistinctRequests(s.entries)
    ensures var t := Step(s, ListKeys(id));
            && Trimming(t, id) && t.entries == s.entries
            && |t.remembers[id].rest| == if |s.entries| > API_CACHE_LIMIT then |s.entries| - API_CACHE_LIMIT else 0
  {
  }

  /**
   * After one more answer, wherever its trim is cut short, the bound holds exactly if fewer than eighty other
   * requests were cached or the deletions that were allowed cover the surplus.
   */
  lemma RejectedTrimBreaksTheBound(now: int, events: seq<Event>, id: nat, request: string, response: string,
          listed: bool, allowed: nat)
    requires Run(Init(now), events).remembers == map[]
    ensures var s := Run(Init(now), events); var t := Remembered(s, id, request, response, listed, allowed);
            var others := |Keep(s.entries, {request})|;
            && t.remembers == map[]
            && (|t.entries| <= API_CACHE_LIMIT
                <==> others < API_CACHE_LIMIT || (listed && allowed >= others + 1 - API_CACHE_LIMIT))
  {
    var s := Run(Init(now), events);
    OneEntryPerRequest(now, events);
    PutStarts(s, id, request, response);
    var stored := Step(Step(Step(s, FetchAnswers(id, request, response, true, "")), Stamp(id)), Store(id));
    if listed {
      ListingStarts(stored, id);
      var listing := Step(stored, ListKeys(id));
      TrimmedByOne(listing, id, allowed, Trimmed(listing, id, allowed));
    }
  }

  /** The requests "", "a", "aa", and so on: no two alike. */
  function Name(n: nat): (name: string)
    ensures |name| == n
  {
    seq(n, _ => 'a')
  }

  function Failing(n: nat): seq<Event> {
    if n == 0 then []
    else Failing(n - 1) + [FetchAnswers(0, Name(n), "", true, ""), Stamp(0), Store(0), TrimFails(0)]
  }

  lemma RunMore(start: State, events: seq<Event>, e: Event)
    ensures Run(start, events + [e]) == Step(Run(start, events), e)
  {
    assert (events + [e])[..|events|] == events;
  }

  lemma RunFailing(start: State, n: nat)
    requires n > 0
    ensures Run(start, Failing(n)) == Remembered(Run(start, Failing(n - 1)), 0, Name(n), "", false, 0)
  {
    var before, fetched := Failing(n - 1), FetchAnswers(0, Name(n), "", true, "");
    RunMore(start, before, fetched);
    RunMore(start, before + [fetched], Stamp(0));
    RunMore(start, before + [fetched] + [Stamp(0)], Store(0));
    RunMore(start, before + [fetched] + [Stamp(0)] + [Store(0)], TrimFails(0));
    assert before + [fetched] + [Stamp(0)] + [Store(0)] + [TrimFails(0)] == Failing(n);
  }

  lemma RejectedTrimAdds(s: State, request: string)
    requires s.remembers == map[] && forall i | 0 <= i < |s.entries| :: s.entries[i].request != request
    ensures var t := Remembered(s, 0, request, "", false, 0);
            t.remembers == map[] && t.entries == s.entries + [Entry(request, "", s.now, s.now)]
  {
    KeepAbsent(s.entries, request);
  }

  predicate Piled(s: State, n: nat) {
    s.remembers == map[] && |s.entries| == n && forall i | 0 <= i < n :: |s.entries[i].request| == i + 1
  }

  lemma PileGrows(s: State, n: nat, t: State)
    requires n > 0 && Piled(s, n - 1) && t == Remembered(s, 0, Name(n), "", false, 0)
    ensures Piled(t, n)
  {
    forall i | 0 <= i < |s.entries|
      ensures s.entries[i].request != Name(n)
    {
      assert |s.entries[i].request| != |Name(n)|;
    }
    RejectedTrimAdds(s, Name(n));
  }

  /** With every trim rejected the cache grows with every new request: after eighty-one it is over its limit. */
  lemma {:induction false} RejectedTrimsPileUp(now: int, n: nat)
    ensures Piled(Run(Init(now), Failing(n)), n)
  {
    if n > 0 {
      RejectedTrimsPileUp(now, n - 1);
      RunFailing(Init(now), n);
      PileGrows(Run(Init(now), Failing(n - 1)), n, Run(Init(now), Failing(n)));
    }
  }

  /** The cache never holds two entries for one request. */
  lemma {:induction false} OneEntryPerRequest(now: int, events: seq<Event>)
    ensures DistinctRequests(Run(Init(now), events).entries)
  {
    if events != [] {
      var s, e := Run(Init(now), events[..|events| - 1]), events[|events| - 1];
      OneEntryPerRequest(now, events[..|events| - 1]);
      match e
      case Store(id) =>
        if id in s.remembers && s.remembers[id].Stamped? {
          KeepKeepsDistinct(s.entries, {s.remembers[id].request});
        }
      case DeleteNext(id) =>
        if id in s.remembers && s.remembers[id].Deleting? && s.remembers[id].rest != [] {
          KeepKeepsDistinct(s.entries, {s.remembers[id].rest[0]});
        }
      case _ =>
    }
  }

  // ---- What is served ----

  predicate Genuine(s: State, e: Entry) {
    (e.request, e.response) in s.answers && e.stampedAt <= e.storedAt <= s.now
  }

  ghost predicate EntriesGenuine(s: State) {
    forall e | e in s.entries :: Genuine(s, e)
  }

  ghost predicate RemembersGenuine(s: State) {
    && (forall id | id in s.remembers && (s.remembers[id].Opening? || s.remembers[id].Stamped?) ::
          (s.remembers[id].request, s.remembers[id].response) in s.answers)
    && (forall id | id in s.remembers && s.remembers[id].Stamped? :: s.remembers[id].at <= s.now)
  }

  ghost predicate FallbacksGenuine(s: State) {
    forall id | id in s.fallbacks && s.fallbacks[id].Asked? && s.fallbacks[id].cached.Some? ::
      s.fallbacks[id].cached.value.request == s.fallbacks[id].request && Genuine(s, s.fallbacks[id].cached.value)
  }

  ghost predicate OnlyGenuine(s: State) {
    EntriesGenuine(s) && RemembersGenuine(s) && FallbacksGenuine(s)
  }

  /** The answer served is one the network gave to that request, stored at most ten minutes before. */
  predicate WellServed(s: State, v: Served) {
    && v.entry.request == v.request
    && (v.request, v.entry.response) in s.answers
    && v.entry.storedAt <= v.at <= v.entry.storedAt + STALE_MAX_AGE_MS
  }

  lemma EntriesStayGenuine(s: State, e: Event)
    requires EntriesGenuine(s) && RemembersGenuine(s)
    ensures EntriesGenuine(Step(s, e))
  {
    var t := Step(s, e);
    assert s.answers <= t.answers && s.now <= t.now;
    assert forall x | x in t.entries && x in s.entries :: Genuine(t, x);
  }

  lemma RemembersStayGenuine(s: State, e: Event)
    requires RemembersGenuine(s)
    ensures RemembersGenuine(Step(s, e))
  {
    assert s.answers <= Step(s, e).answers;
  }

  lemma FallbacksStayGenuine(s: State, e: Event)
    requires EntriesGenuine(s) && FallbacksGenuine(s)
    ensures FallbacksGenuine(Step(s, e))
  {
    assert s.answers <= Step(s, e).answers && s.now <= Step(s, e).now;
  }

  lemma StepServesWell(s: State, e: Event)
    requires FallbacksGenuine(s) && forall v | v in s.served :: WellServed(s, v)
    ensures var t := Step(s, e); forall v | v in t.served :: WellServed(t, v)
  {
    var t := Step(s, e);
    assert s.answers <= t.answers;
    assert forall v | v in s.served :: WellServed(t, v);
  }

  lemma {:induction false} ServedAreRecent(now: int, events: seq<Event>)
    ensures var s := Run(Init(now), events); OnlyGenuine(s) && forall v | v in s.served :: WellServed(s, v)
  {
    if events != [] {
      var s, e := Run(Init(now), events[..|events| - 1]), events[|events| - 1];
      ServedAreRecent(now, events[..|events| - 1]);
      EntriesStayGenuine(s, e);
      RemembersStayGenuine(s, e);
      FallbacksStayGenuine(s, e);
      StepServesWell(s, e);
    }
  }

  // ---- When a failed fetch is answered from the cache ----

  /** The entry of the request, young enough to be served. */
  predicate Young(s: State, e: Entry, request: string) {
    e in s.entries && e.request == request && s.now - e.stampedAt <= 10 * 60 * 1000
  }

  lemma OnlyOneEntry(entries: seq<Entry>, a: Entry, b: Entry)
    requires DistinctRequests(entries) && a in entries && b in entries && a.request == b.request
    ensures a == b
  {
    var i :| 0 <= i < |entries| && entries[i] == a;
    var j :| 0 <= j < |entries| && entries[j] == b;
  }

  /** Asked, the cache gives the one entry of the request, or nothing if it has none. */
  lemma AskFindsTheEntry(now: int, events: seq<Event>, id: nat, e: Entry)
    requires var s := Run(Init(now), events); id in s.fallbacks && s.fallbacks[id].Failed?
    ensures var s := Run(Init(now), events); var t := Step(s, Ask(id));
            && id in t.fallbacks && t.fallbacks[id].Asked?
            && (t.fallbacks[id].cached == Some(e) <==> e in s.entries && e.request == s.fallbacks[id].request)
            && (t.fallbacks[id].cached == None
                <==> forall x | x in s.entries :: x.request != s.fallbacks[id].request)
  {
    var s := Run(Init(now), events);
    var found := Match(s.entries, s.fallbacks[id].request);
    OneEntryPerRequest(now, events);
    if found.Some? && e in s.entries && e.request == s.fallbacks[id].request {
      OnlyOneEntry(s.entries, found.value, e);
    }
  }

  /** What the cache gave is served, and announced as stale, exactly if it is at most ten minutes old by then. */
  lemma YoungAnswersAreServed(s: State, id: nat)
    requires id in s.fallbacks && s.fallbacks[id].Asked?
    ensures var f := s.fallbacks[id]; var t := Step(s, Answer(id));
            && id !in t.fallbacks
            && if f.cached.Some? && s.now - f.cached.value.stampedAt <= 10 * 60 * 1000
               then t.served == s.served + [Served(f.request, f.cached.value, s.now)]
                    && t.signals == s.signals + [Stale(f.client)] && t.staleClients == s.staleClients + {f.client}
               else t.served == s.served && t.signals == s.signals && t.staleClients == s.staleClients
  {
  }

  /** In every run: a fetch that fails with no wait after it is answered exactly if a young entry is cached for it. */
  lemma FailureIsAnsweredFromCache(now: int, events: seq<Event>, id: nat, request: string, client: string, e: Entry)
    requires id !in Run(Init(now), events).fallbacks
    ensures var s := Run(Init(now), events);
            var t := Step(Step(Step(s, FetchFails(id, request, client)), Ask(id)), Answer(id));
            && (Young(s, e, request) ==> t.served == s.served + [Served(request, e, s.now)])
            && ((forall x | x in s.entries :: !Young(s, x, request)) ==> t.served == s.served)
  {
    var s := Run(Init(now), events);
    var failed := Step(s, FetchFails(id, request, client));
    var found := Match(s.entries, request);
    OneEntryPerRequest(now, events);
    if found.Some? && Young(s, e, request) {
      OnlyOneEntry(s.entries, found.value, e);
    }
    YoungAnswersAreServed(Step(failed, Ask(id)), id);
  }

  // ---- Signals ----

  /** A stale signal to the client before position `j`, with no fresh one after it. */
  ghost predicate PendingStale(signals: seq<Signal>, client: string, j: nat) {
    exists i :: 0 <= i < j <= |signals| && signals[i] == Stale(client)
        && forall k | i < k < j :: signals[k] != Fresh(client)
  }

  ghost predicate FreshFollowsStale(signals: seq<Signal>) {
    forall j | 0 <= j < |signals| && signals[j].Fresh? :: PendingStale(signals, signals[j].client, j)
  }

  ghost predicate SignalsTracked(s: State) {
    && FreshFollowsStale(s.signals)
    && forall c | c in s.staleClients :: PendingStale(s.signals, c, |s.signals|)
  }

  lemma PendingStays(signals: seq<Signal>, client: string, j: nat, next: Signal)
    requires PendingStale(signals, client, j)
    ensures PendingStale(signals + [next], client, j)
    ensures j == |signals| && next != Fresh(client) ==> PendingStale(signals + [next], client, j + 1)
  {
    var i :| 0 <= i < j <= |signals| && signals[i] == Stale(client)
        && forall k | i < k < j :: signals[k] != Fresh(client);
    var all := signals + [next];
    assert all[i] == Stale(client);
    assert forall k | i < k < j :: all[k] == signals[k];
  }

  lemma StepTracksSignals(s: State, e: Event)
    requires SignalsTracked(s)
    ensures SignalsTracked(Step(s, e))
  {
    var t := Step(s, e);
    if t.signals != s.signals {
      var next := t.signals[|s.signals|];
      assert t.signals == s.signals + [next];
      forall j | 0 <= j < |t.signals| && t.signals[j].Fresh?
        ensures PendingStale(t.signals, t.signals[j].client, j)
      {
        PendingStays(s.signals, t.signals[j].client, j, next);
      }
      forall c | c in t.staleClients
        ensures PendingStale(t.signals, c, |t.signals|)
      {
        if next == Stale(c) {
          assert t.signals[|s.signals|] == Stale(c);
        } else {
          PendingStays(s.signals, c, |s.signals|, next);
        }
      }
    }
  }

  /** For each client every fresh signal answers a stale one not yet answered. */
  lemma {:induction false} FreshAnswersStale(now: int, events: seq<Event>)
    ensures SignalsTracked(Run(Init(now), events)) && FreshFollowsStale(Run(Init(now), events).signals)
  {
    if events != [] {
      FreshAnswersStale(now, events[..|events| - 1]);
      StepTracksSignals(Run(Init(now), events[..|events| - 1]), events[|events| - 1]);
    }
  }

  predicate NoRestart(events: seq<Event>) {
    forall i | 0 <= i < |events| :: !events[i].Restart?
  }

  /** A signal other than "stale" to the client leaves it pending only if it was, and is not the "fresh" one. */
  lemma PendingWas(signals: seq<Signal>, client: string, next: Signal)
    requires PendingStale(signals + [next], client, |signals| + 1) && next != Stale(client)
    ensures PendingStale(signals, client, |signals|) && next != Fresh(client)
  {
    var all := signals + [next];
    var i :| 0 <= i < |all| && all[i] == Stale(client) && forall k | i < k < |all| :: all[k] != Fresh(client);
    assert all[|signals|] == next;
    assert signals[i] == Stale(client);
    forall k | i < k < |signals|
      ensures signals[k] != Fresh(client)
    {
      assert all[k] == signals[k];
    }
  }

  ghost predicate StaleKnown(s: State) {
    forall c | PendingStale(s.signals, c, |s.signals|) :: c in s.staleClients
  }

  lemma StepForgetsNone(s: State, e: Event)
    requires !e.Restart? && StaleKnown(s)
    ensures StaleKnown(Step(s, e))
  {
    var t := Step(s, e);
    if t.signals != s.signals {
      var next := t.signals[|s.signals|];
      assert t.signals == s.signals + [next];
      forall c | PendingStale(t.signals, c, |t.signals|)
        ensures c in t.staleClients
      {
        if next != Stale(c) {
          PendingWas(s.signals, c, next);
        }
      }
    }
  }

  lemma {:induction false} StaleAreKnown(now: int, events: seq<Event>)
    requires NoRestart(events)
    ensures StaleKnown(Run(Init(now), events))
  {
    if events != [] {
      var s := Run(Init(now), events[..|events| - 1]);
      StaleAreKnown(now, events[..|events| - 1]);
      StepForgetsNone(s, events[|events| - 1]);
    }
  }

  /**
   * While the worker is not restarted, the next answer a client gets from the network is announced as
   * fresh exactly when it was last told its data was stale.
   */
  lemma FreshExactlyAfterStale(now: int, events: seq<Event>, id: nat, request: string, response: string,
          cacheable: bool, client: string)
    requires NoRestart(events) && id !in Run(Init(now), events).remembers
    ensures var s := Run(Init(now), events);
            Step(s, FetchAnswers(id, request, response, cacheable, client)).signals
            == s.signals + if PendingStale(s.signals, client, |s.signals|) then [Fresh(client)] else []
  {
    FreshAnswersStale(now, events);
    StaleAreKnown(now, events);
  }
}
