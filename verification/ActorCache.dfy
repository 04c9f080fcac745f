/**
 * Who a token belongs to, asked of identity and remembered in Redis for a short while. Resolves of any
 * number of gateway processes interleave; identity revokes a session by ending it and then deleting its key.
 */
module ActorCache {
  import opened Numbers
  import opened Wrappers

  /** What identity says of a token: the actor, and when the session ends (`None` when that does not parse). */
  datatype Answer<A> = Answer(actor: A, expiresAt: Option<int>)

  datatype Refusal = SessionExpired | Unauthenticated | UpstreamUnavailable

  const SESSION_CODES := ["UNAUTHENTICATED", "SESSION_EXPIRED", "FORBIDDEN", "ERR_RPC_UNAUTHORIZED",
      "ERR_RPC_FORBIDDEN"]

  /** The error a failed call to identity becomes; `None` is a failure that is no RPC error. */
  function RefusalFor(code: Option<string>): (r: Refusal)
    ensures r == SessionExpired <==> code == Some("SESSION_EXPIRED")
    ensures r == Unauthenticated <==>
            code in [Some("UNAUTHENTICATED"), Some("FORBIDDEN"),
                     Some("ERR_RPC_UNAUTHORIZED"), Some("ERR_RPC_FORBIDDEN")]
  {
    if code.None? || code.value !in SESSION_CODES then UpstreamUnavailable
    else if code.value == "SESSION_EXPIRED" then SessionExpired
    else Unauthenticated
  }

  /** So many seconds from `now` are allowed, and end with the session or before. */
  predicate Lasts(cacheSeconds: int, expiresAt: Option<int>, now: int, seconds: int) {
    seconds <= cacheSeconds && expiresAt.Some? && now + seconds * 1000 <= expiresAt.value
  }

  /** The most whole seconds to cache for, if any. A date that does not parse makes Redis refuse the command. */
  function Ttl(cacheSeconds: int, expiresAt: Option<int>, now: int): (ttl: Option<int>)
    ensures ttl.Some? ==> 0 < ttl.value && Lasts(cacheSeconds, expiresAt, now, ttl.value)
    ensures forall k: int | 0 < k && Lasts(cacheSeconds, expiresAt, now, k) :: ttl.Some? && k <= ttl.value
  {
    if expiresAt.None? then None else
    var remaining := (expiresAt.value - now) / 1000;
    var ttl := if cacheSeconds <= remaining then cacheSeconds else remaining;
    if cacheSeconds == 0 || ttl <= 0 then None else Some(ttl)
  }

  datatype Cached<A> = Cached(actor: A, until: int)

  function Find<A>(cache: map<string, Cached<A>>, key: string, now: int): Option<A> {
    if key in cache && now < cache[key].until then Some(cache[key].actor) else None
  }

  /** The cache after the SET, if one is sent and succeeds: the lifetime is counted from when Redis stores it. */
  function Remembered<A>(cache: map<string, Cached<A>>, key: string, actor: A, ttl: Option<int>,
          storedAt: int): map<string, Cached<A>> {
    if ttl.Some? then cache[key := Cached(actor, storedAt + ttl.value * 1000)] else cache
  }

  /** One process, with the calls it makes failing or not as the parameters say. */
  class Resolver<A> {
    const keyOf: string -> string
    const hasRedis: bool
    const cacheSeconds: int
    var cache: map<string, Cached<A>>

    constructor (keyOf: string -> string, hasRedis: bool, cacheSeconds: int)
      ensures this.keyOf == keyOf && this.hasRedis == hasRedis && this.cacheSeconds == cacheSeconds && cache == map[]
    {
      this.keyOf, this.hasRedis, this.cacheSeconds, cache := keyOf, hasRedis, cacheSeconds, map[];
    }

    method ReadCache(key: string, now: int, fails: bool) returns (actor: Option<A>)
      ensures actor == if hasRedis && cacheSeconds != 0 && !fails then Find(cache, key, now) else None
    {
      if !hasRedis || cacheSeconds == 0 || fails {
        return None;
      }
      if key in cache && now < cache[key].until {
        return Some(cache[key].actor);
      }
      return None;
    }

    method WriteCache(key: string, actor: A, expiresAt: Option<int>, computedAt: int, storedAt: int, fails: bool)
      modifies this
      ensures cache ==
              if hasRedis && !fails
              then Remembered(old(cache), key, actor, Ttl(cacheSeconds, expiresAt, computedAt), storedAt)
              else old(cache)
    {
      if !hasRedis || cacheSeconds == 0 || expiresAt.None? {
        return;
      }
      var ttl := (expiresAt.value - computedAt) / 1000;
      if cacheSeconds < ttl {
        ttl := cacheSeconds;
      }
      if ttl <= 0 || fails {
        return;
      }
      cache := cache[key := Cached(actor, storedAt + ttl * 1000)];
    }

    /** A refusal leaves the cache alone, and a cached actor is answered without asking identity. */
    method Resolve(token: string, readAt: int, readFails: bool, identity: Result<Answer<A>, Option<string>>,
            answeredAt: int, storedAt: int, writeFails: bool)
      returns (r: Result<A, Refusal>)
      modifies this
      ensures var hit :=
                if hasRedis && cacheSeconds != 0 && !readFails then Find(old(cache), keyOf(token), readAt) else None;
              if hit.Some? then r == Ok(hit.value) && cache == old(cache)
              else if identity.Err? then r == Err(RefusalFor(identity.error)) && cache == old(cache)
              else
                var answer := identity.value;
                && r == Ok(answer.actor)
                && cache == if hasRedis && !writeFails
                            then Remembered(old(cache), keyOf(token), answer.actor,
                                Ttl(cacheSeconds, answer.expiresAt, answeredAt), storedAt)
                            else old(cache)
    {
      var key := keyOf(token);
      var hit := ReadCache(key, readAt, readFails);
      if hit.Some? {
        return Ok(hit.value);
      }
      match identity
      case Ok(answer) =>
        WriteCache(key, answer.actor, answer.expiresAt, answeredAt, storedAt, writeFails);
        return Ok(answer.actor);
      case Err(code) =>
        return Err(RefusalFor(code));
    }
  }

  // ---- All processes together ----

  /**
   * One thing identity said: of which token, the lifetime the gateway gave it, computed when, and when Redis stored
   * it.
   */
  datatype Origin<A> = Origin(token: string, answer: Answer<A>, ttl: int, computedAt: int, storedAt: int)

  /** An actor given to a caller from the cache: Redis answered the read at `at`. */
  datatype Served<A> = Served(token: string, actor: A, at: int, origin: Origin<A>)

  /** What a resolve waits for; in `Found` and `Answered` the other side has spoken and the reply is on its way. */
  datatype Phase<A> =
    | Reading(token: string)
    | Found(token: string, actor: A, at: int, origin: Origin<A>)
    | Asking(token: string)
    | Answered(token: string, answer: Answer<A>)
    | Storing(token: string, answer: Answer<A>, ttl: int, computedAt: int)

  /** `origins` is bookkeeping: where the value now under each key came from. */
  datatype State<A> = State(
    now: int,
    cache: map<string, Cached<A>>,
    origins: map<string, Origin<A>>,
    resolves: map<nat, Phase<A>>,
    answers: seq<(string, Answer<A>)>,
    served: seq<Served<A>>)

  /**
   * `Get`, `Reply` and `Store` are the moments at which Redis or identity act; `Deliver`, `Accept`, `ReadFails` and
   * `Refuse` those at which the gateway learns of it, or of a failure.
   */
  datatype Event<A> =
    | Advance(to: int)
    | Begin(id: nat, token: string)
    | Get(id: nat)
    | Deliver(id: nat)
    | ReadFails(id: nat)
    | Reply(id: nat, answer: Answer<A>)
    | Accept(id: nat)
    | Refuse(id: nat)
    | Store(id: nat)
    | StoreFails(id: nat)
    | Revoke(token: string)

  datatype Config = Config(keyOf: string -> string, cacheSeconds: int)

  ghost predicate Injective(keyOf: string -> string) {
    forall a, b :: keyOf(a) == keyOf(b) ==> a == b
  }

  function Init<A>(now: int): State<A> {
    State(now, map[], map[], map[], [], [])
  }

  /** What the GET of a token's key leaves a resolve with. */
  function Got<A>(c: Config, s: State<A>, token: string): Phase<A> {
    var key := c.keyOf(token);
    var actor := Find(s.cache, key, s.now);
    if actor.Some? && key in s.origins then Found(token, actor.value, s.now, s.origins[key]) else Asking(token)
  }

  function Delivered<A>(p: Phase<A>): Served<A>
    requires p.Found?
  {
    Served(p.token, p.actor, p.at, p.origin)
  }

  function Step<A>(c: Config, s: State<A>, e: Event<A>): State<A> {
    match e
    case Advance(to) => if s.now <= to then s.(now := to) else s
    case Begin(id, token) =>
      if id in s.resolves then s
      else s.(resolves := s.resolves[id := if c.cacheSeconds == 0 then Asking(token) else Reading(token)])
    case Get(id) =>
      if id !in s.resolves || !s.resolves[id].Reading? then s
      else s.(resolves := s.resolves[id := Got(c, s, s.resolves[id].token)])
    case Deliver(id) =>
      if id !in s.resolves || !s.resolves[id].Found? then s
      else s.(served := s.served + [Delivered(s.resolves[id])], resolves := s.resolves - {id})
    case ReadFails(id) =>
      if id !in s.resolves || !(s.resolves[id].Reading? || s.resolves[id].Found?) then s
      else s.(resolves := s.resolves[id := Asking(s.resolves[id].token)])
    case Reply(id, answer) =>
      if id !in s.resolves || !s.resolves[id].Asking? then s else
      var token := s.resolves[id].token;
      s.(answers := s.answers + [(token, answer)], resolves := s.resolves[id := Answered(token, answer)])
    case Accept(id) =>
      if id !in s.resolves || !s.resolves[id].Answered? then s else
      var p := s.resolves[id];
      var ttl := Ttl(c.cacheSeconds, p.answer.expiresAt, s.now);
      s.(resolves := if ttl.Some?
                     then s.resolves[id := Storing(p.token, p.answer, ttl.value, s.now)]
                     else s.resolves - {id})
    case Refuse(id) =>
      if id in s.resolves && (s.resolves[id].Asking? || s.resolves[id].Answered?)
      then s.(resolves := s.resolves - {id}) else s
    case Store(id) =>
      if id !in s.resolves || !s.resolves[id].Storing? then s else
      var p := s.resolves[id];
      var key := c.keyOf(p.token);
      s.(cache := Remembered(s.cache, key, p.answer.actor, Some(p.ttl), s.now),
         origins := s.origins[key := Origin(p.token, p.answer, p.ttl, p.computedAt, s.now)],
         resolves := s.resolves - {id})
    case StoreFails(id) =>
      if id in s.resolves && s.resolves[id].Storing? then s.(resolves := s.resolves - {id}) else s
    case Revoke(token) =>
      s.(cache := s.cache - {c.keyOf(token)}, origins := s.origins - {c.keyOf(token)})
  }

  function Run<A>(c: Config, start: State<A>, events: seq<Event<A>>): State<A> {
    if events == [] then start else Step(c, Run(c, start, events[..|events| - 1]), events[|events| - 1])
  }

  lemma {:induction false} RunAppend<A>(c: Config, start: State<A>, a: seq<Event<A>>, b: seq<Event<A>>)
    ensures Run(c, start, a + b) == Run(c, Run(c, start, a), b)
  {
    if b == [] {
      assert a + b == a;
    } else {
      var all, n := a + b, |b| - 1;
      RunAppend(c, start, a, b[..n]);
      assert all[..|all| - 1] == a + b[..n];
      assert all[|all| - 1] == b[n];
    }
  }

  lemma RunCons<A>(c: Config, start: State<A>, e: Event<A>, rest: seq<Event<A>>)
    ensures Run(c, start, [e] + rest) == Run(c, Step(c, start, e), rest)
  {
    assert [e][..0] == [] && Run(c, start, [e]) == Step(c, Run(c, start, []), e);
    RunAppend(c, start, [e], rest);
  }

  predicate Traced<A(==)>(s: State<A>, o: Origin<A>) {
    (o.token, o.answer) in s.answers && o.computedAt <= o.storedAt <= s.now && o.answer.expiresAt.Some?
  }

  /** A cached value is what identity answered for the token of its key, and ends in time. */
  predicate Backed<A(==)>(c: Config, s: State<A>, key: string, v: Cached<A>, o: Origin<A>) {
    && key == c.keyOf(o.token)
    && Traced(s, o)
    && v.actor == o.answer.actor
    && v.until == o.storedAt + o.ttl * 1000
    && 0 < o.ttl <= c.cacheSeconds
    && o.computedAt + o.ttl * 1000 <= o.answer.expiresAt.value
  }

  ghost predicate CacheTraced<A>(c: Config, s: State<A>) {
    s.cache.Keys == s.origins.Keys && forall key | key in s.cache :: Backed(c, s, key, s.cache[key], s.origins[key])
  }

  /**
   * An actor served from the cache is the one identity gave for that very token, stored less than
   * `cacheSeconds` before, and read before the session's end, give or take the time the store command
   * took to reach Redis.
   */
  ghost predicate WellServed<A>(c: Config, s: State<A>, v: Served<A>) {
    && v.origin.token == v.token
    && Traced(s, v.origin)
    && v.actor == v.origin.answer.actor
    && 0 < v.origin.ttl <= c.cacheSeconds
    && v.origin.storedAt <= v.at < v.origin.storedAt + v.origin.ttl * 1000
    && v.origin.computedAt + v.origin.ttl * 1000 <= v.origin.answer.expiresAt.value
  }

  predicate ToStore<A(==)>(c: Config, s: State<A>, p: Phase<A>)
    requires p.Storing?
  {
    && (p.token, p.answer) in s.answers
    && p.computedAt <= s.now
    && 0 < p.ttl <= c.cacheSeconds
    && p.answer.expiresAt.Some? && p.computedAt + p.ttl * 1000 <= p.answer.expiresAt.value
  }

  /** Everything on its way comes from identity, by way of the cache or directly. */
  ghost predicate ResolveTraced<A>(c: Config, s: State<A>, p: Phase<A>) {
    && (p.Found? ==> WellServed(c, s, Delivered(p)))
    && (p.Answered? ==> (p.token, p.answer) in s.answers)
    && (p.Storing? ==> ToStore(c, s, p))
  }

  ghost predicate ResolvesTraced<A>(c: Config, s: State<A>) {
    forall id | id in s.resolves :: ResolveTraced(c, s, s.resolves[id])
  }

  ghost predicate Sound<A>(c: Config, s: State<A>) {
    CacheTraced(c, s) && ResolvesTraced(c, s) && forall i | 0 <= i < |s.served| :: WellServed(c, s, s.served[i])
  }

  /** Time passes, identity answers, keys go: what is left in the cache stays backed. */
  lemma RestStaysTraced<A>(c: Config, s: State<A>, t: State<A>)
    requires CacheTraced(c, s) && s.now <= t.now && t.cache.Keys == t.origins.Keys
    requires forall a | a in s.answers :: a in t.answers
    requires forall key | key in t.cache ::
               key in s.cache && t.cache[key] == s.cache[key] && t.origins[key] == s.origins[key]
    ensures CacheTraced(c, t)
  {
    forall key | key in t.cache
      ensures Backed(c, t, key, t.cache[key], t.origins[key])
    {
      assert Backed(c, s, key, s.cache[key], s.origins[key]);
    }
  }

  lemma StoreStaysTraced<A>(c: Config, s: State<A>, id: nat)
    requires CacheTraced(c, s) && ResolvesTraced(c, s) && id in s.resolves && s.resolves[id].Storing?
    ensures CacheTraced(c, Step(c, s, Store(id)))
  {
    var t := Step(c, s, Store(id));
    assert ResolveTraced(c, s, s.resolves[id]);
    forall key | key in t.cache
      ensures Backed(c, t, key, t.cache[key], t.origins[key])
    {
      if key != c.keyOf(s.resolves[id].token) {
        assert Backed(c, s, key, s.cache[key], s.origins[key]);
      }
    }
  }

  lemma OnlyStoreWrites<A>(c: Config, s: State<A>, e: Event<A>)
    requires !e.Store?
    ensures var t := Step(c, s, e);
            && (e.Revoke? || (t.cache == s.cache && t.origins == s.origins))
            && (s.cache.Keys == s.origins.Keys ==> t.cache.Keys == t.origins.Keys)
            && (forall key | key in t.cache :: key in s.cache && t.cache[key] == s.cache[key])
            && (forall key | key in t.origins :: key in s.origins && t.origins[key] == s.origins[key])
  {
  }

  lemma CacheStaysTraced<A>(c: Config, s: State<A>, e: Event<A>)
    requires CacheTraced(c, s) && ResolvesTraced(c, s)
    ensures CacheTraced(c, Step(c, s, e))
  {
    if e.Store? {
      if e.id in s.resolves && s.resolves[e.id].Storing? {
        StoreStaysTraced(c, s, e.id);
      }
    } else {
      StepGrows(c, s, e);
      OnlyStoreWrites(c, s, e);
      RestStaysTraced(c, s, Step(c, s, e));
    }
  }

  /** Clock and answers only grow. */
  lemma StepGrows<A>(c: Config, s: State<A>, e: Event<A>)
    ensures s.now <= Step(c, s, e).now && forall a | a in s.answers :: a in Step(c, s, e).answers
  {
    assert e.Advance? || Step(c, s, e).now == s.now;
    assert e.Reply? || Step(c, s, e).answers == s.answers;
  }

  lemma GotIsTraced<A>(c: Config, s: State<A>, token: string)
    requires Injective(c.keyOf) && CacheTraced(c, s)
    ensures ResolveTraced(c, s, Got(c, s, token))
  {
    var key := c.keyOf(token);
    assert key in s.cache ==> Backed(c, s, key, s.cache[key], s.origins[key]);
  }

  /** What a resolve newly waits for is traced. */
  lemma NewPhaseIsTraced<A>(c: Config, s: State<A>, e: Event<A>, id: nat)
    requires Injective(c.keyOf) && CacheTraced(c, s) && ResolvesTraced(c, s)
    requires id in Step(c, s, e).resolves && (id in s.resolves ==> Step(c, s, e).resolves[id] != s.resolves[id])
    ensures ResolveTraced(c, Step(c, s, e), Step(c, s, e).resolves[id])
  {
    var t := Step(c, s, e);
    match e {
      case Get(_) =>
        GotIsTraced(c, s, s.resolves[id].token);
      case Reply(_, answer) =>
        assert t.answers[|s.answers|] == (s.resolves[id].token, answer);
      case Accept(_) =>
        assert ResolveTraced(c, s, s.resolves[id]);
      case _ =>
    }
  }

  lemma ResolvesStayTraced<A>(c: Config, s: State<A>, e: Event<A>)
    requires Injective(c.keyOf) && CacheTraced(c, s) && ResolvesTraced(c, s)
    ensures ResolvesTraced(c, Step(c, s, e))
  {
    var t := Step(c, s, e);
    StepGrows(c, s, e);
    forall id | id in t.resolves
      ensures ResolveTraced(c, t, t.resolves[id])
    {
      if id in s.resolves && t.resolves[id] == s.resolves[id] {
        assert ResolveTraced(c, s, s.resolves[id]);
      } else {
        NewPhaseIsTraced(c, s, e, id);
      }
    }
  }

  lemma StepServesWell<A>(c: Config, s: State<A>, e: Event<A>)
    requires Sound(c, s)
    ensures forall v | v in Step(c, s, e).served :: WellServed(c, Step(c, s, e), v)
  {
    var t := Step(c, s, e);
    StepGrows(c, s, e);
    forall v | v in t.served
      ensures WellServed(c, t, v)
    {
      if v in s.served {
        assert WellServed(c, s, v);
      } else {
        assert ResolveTraced(c, s, s.resolves[e.id]);
      }
    }
  }

  lemma {:induction false} ServedFromIdentity<A>(c: Config, now: int, events: seq<Event<A>>)
    requires Injective(c.keyOf)
    ensures Sound(c, Run(c, Init(now), events))
  {
    if events != [] {
      var s := Run(c, Init(now), events[..|events| - 1]);
      ServedFromIdentity(c, now, events[..|events| - 1]);
      CacheStaysTraced(c, s, events[|events| - 1]);
      ResolvesStayTraced(c, s, events[|events| - 1]);
      StepServesWell(c, s, events[|events| - 1]);
    }
  }

  // ---- The end of the session ----

  /** Redis stored the answer early enough for its lifetime to end with the session. */
  predicate StoredInTime<A(==)>(o: Origin<A>) {
    o.answer.expiresAt.Some? && o.storedAt + o.ttl * 1000 <= o.answer.expiresAt.value
  }

  /** What was stored in time is never read at or after the end of the session. */
  lemma NeverServedPastExpiry<A>(c: Config, now: int, events: seq<Event<A>>, i: nat)
    requires Injective(c.keyOf)
    requires var s := Run(c, Init(now), events); i < |s.served| && StoredInTime(s.served[i].origin)
    ensures var v := Run(c, Init(now), events).served[i];
            v.origin.answer.expiresAt.Some? && v.at < v.origin.answer.expiresAt.value
  {
    ServedFromIdentity(c, now, events);
    assert WellServed(c, Run(c, Init(now), events), Run(c, Init(now), events).served[i]);
  }

  /** An undelayed store is in time. */
  lemma UndelayedIsInTime<A>(c: Config, now: int, events: seq<Event<A>>, i: nat)
    requires Injective(c.keyOf)
    requires var s := Run(c, Init(now), events);
             i < |s.served| && s.served[i].origin.storedAt == s.served[i].origin.computedAt
    ensures StoredInTime(Run(c, Init(now), events).served[i].origin)
  {
    ServedFromIdentity(c, now, events);
    assert WellServed(c, Run(c, Init(now), events), Run(c, Init(now), events).served[i]);
  }

  /** A resolve of the token from its beginning, when Redis has the key and answers at once. */
  function ReadBack<A>(c: Config, s: State<A>, id: nat, token: string): State<A> {
    Step(c, Step(c, Step(c, s, Begin(id, token)), Get(id)), Deliver(id))
  }

  /** Stores the pending answer, waits for the end of its session, and resolves the token. */
  function ReadAtEnd<A>(c: Config, s: State<A>, id: nat): State<A>
    requires id in s.resolves && s.resolves[id].Storing? && s.resolves[id].answer.expiresAt.Some?
  {
    var p := s.resolves[id];
    var end := Max(s.now, p.answer.expiresAt.value);
    ReadBack(c, Step(c, Step(c, s, Store(id)), Advance(end)), id, p.token)
  }

  lemma ReadBackServes<A>(c: Config, s: State<A>, id: nat, token: string)
    requires id !in s.resolves && c.cacheSeconds != 0
    ensures ReadBack(c, s, id, token).served
            == s.served + if Got(c, s, token).Found? then [Delivered(Got(c, s, token))] else []
  {
    var t := Step(c, s, Begin(id, token));
    assert t.resolves[id] == Reading(token) && Got(c, t, token) == Got(c, s, token);
    var u := Step(c, t, Get(id));
    assert u.served == s.served;
  }

  /** A pending answer can be served at or after the end of its session exactly if it is stored too late. */
  lemma LateStoreOutlivesSession<A>(c: Config, now: int, events: seq<Event<A>>, id: nat)
    requires Injective(c.keyOf)
    requires var s := Run(c, Init(now), events); id in s.resolves && s.resolves[id].Storing?
    ensures var s := Run(c, Init(now), events); var p := s.resolves[id];
            && p.answer.expiresAt.Some?
            && var origin := Origin(p.token, p.answer, p.ttl, p.computedAt, s.now);
               var end := Max(s.now, p.answer.expiresAt.value);
               ReadAtEnd(c, s, id).served
               == s.served + if StoredInTime(origin) then [] else [Served(p.token, p.answer.actor, end, origin)]
  {
    ServedFromIdentity(c, now, events);
    var s := Run(c, Init(now), events);
    assert ResolveTraced(c, s, s.resolves[id]);
    var p := s.resolves[id];
    var end := Max(s.now, p.answer.expiresAt.value);
    ReadBackServes(c, Step(c, Step(c, s, Store(id)), Advance(end)), id, p.token);
  }

  // ---- Revocation ----

  /** The resolve is waiting for identity to answer on the token. */
  predicate Awaits<A>(s: State<A>, id: nat, token: string) {
    id in s.resolves && s.resolves[id].Asking? && s.resolves[id].token == token
  }

  /** Identity answers nothing on the token in the run: it no longer knows the session. */
  ghost predicate NothingReplied<A>(c: Config, start: State<A>, token: string, events: seq<Event<A>>) {
    forall i | 0 <= i < |events| && events[i].Reply? :: !Awaits(Run(c, start, events[..i]), events[i].id, token)
  }

  ghost predicate ServedSince<A>(s: State<A>, token: string, n: nat) {
    exists i :: n <= i < |s.served| && s.served[i].token == token
  }

  /**
   * What a resolve of the token waits for can still serve it: a value Redis has found, an answer on its way to
   * Redis, or one on its way to the gateway that leaves a lifetime to cache it for.
   */
  predicate MayServe<A>(c: Config, s: State<A>, id: nat, token: string) {
    && id in s.resolves
    && s.resolves[id].token == token
    && match s.resolves[id] {
         case Found(_, _, _, _) => true
         case Storing(_, _, _, _) => true
         case Answered(_, answer) => Ttl(c.cacheSeconds, answer.expiresAt, s.now).Some?
         case _ => false
       }
  }

  /** The token is out of the cache, nothing on its way can serve it, and nothing was served for it. */
  ghost predicate Forgotten<A>(c: Config, s: State<A>, token: string, n: nat) {
    && c.keyOf(token) !in s.cache
    && c.keyOf(token) !in s.origins
    && (forall id | id in s.resolves :: !MayServe(c, s, id, token))
    && n <= |s.served|
    && !ServedSince(s, token, n)
  }

  /** What there was no time to cache for, there is none later. */
  lemma NoLifetimeLater(cacheSeconds: int, expiresAt: Option<int>, now: int, later: int)
    requires now <= later && Ttl(cacheSeconds, expiresAt, now).None?
    ensures Ttl(cacheSeconds, expiresAt, later).None?
  {
    if expiresAt.Some? {
      assert (expiresAt.value - later) / 1000 <= (expiresAt.value - now) / 1000;
    }
  }

  lemma StepMayNotServe<A>(c: Config, s: State<A>, e: Event<A>, token: string, n: nat, id: nat)
    requires Forgotten(c, s, token, n) && id in Step(c, s, e).resolves
    requires e.Reply? ==> !Awaits(s, e.id, token)
    ensures !MayServe(c, Step(c, s, e), id, token)
  {
    var t := Step(c, s, e);
    StepGrows(c, s, e);
    assert id in s.resolves ==> !MayServe(c, s, id, token);
    if t.resolves[id].Answered? && id in s.resolves && s.resolves[id] == t.resolves[id]
       && Ttl(c.cacheSeconds, s.resolves[id].answer.expiresAt, s.now).None? {
      NoLifetimeLater(c.cacheSeconds, s.resolves[id].answer.expiresAt, s.now, t.now);
    }
  }

  lemma StepForgets<A>(c: Config, s: State<A>, e: Event<A>, token: string, n: nat)
    requires Injective(c.keyOf) && Forgotten(c, s, token, n)
    requires e.Reply? ==> !Awaits(s, e.id, token)
    ensures Forgotten(c, Step(c, s, e), token, n)
  {
    var t := Step(c, s, e);
    if e.Store? && e.id in s.resolves {
      assert !MayServe(c, s, e.id, token);
    }
    if e.Deliver? && e.id in s.resolves {
      assert !MayServe(c, s, e.id, token);
    }
    forall id | id in t.resolves
      ensures !MayServe(c, t, id, token)
    {
      StepMayNotServe(c, s, e, token, n, id);
    }
    forall i | n <= i < |t.served|
      ensures t.served[i].token != token
    {
      assert i < |s.served| ==> t.served[i] == s.served[i];
    }
  }

  lemma {:induction false} RunForgets<A>(c: Config, start: State<A>, token: string, events: seq<Event<A>>)
    requires Injective(c.keyOf) && Forgotten(c, start, token, |start.served|)
             && NothingReplied(c, start, token, events)
    ensures Forgotten(c, Run(c, start, events), token, |start.served|)
  {
    if events != [] {
      var n := |events| - 1;
      forall i | 0 <= i < n && events[..n][i].Reply?
        ensures !Awaits(Run(c, start, events[..n][..i]), events[..n][i].id, token)
      {
        assert events[..n][..i] == events[..i];
      }
      RunForgets(c, start, token, events[..n]);
      StepForgets(c, Run(c, start, events[..n]), events[n], token, |start.served|);
    }
  }

  /** The actor a resolve under way may serve. */
  function ActorOf<A>(p: Phase<A>): A
    requires p.Found? || p.Answered? || p.Storing?
  {
    if p.Found? then p.actor else p.answer.actor
  }

  /** The rest of the run that serves what the resolve waits for: its own, and another resolve of the token. */
  function Finish<A>(p: Phase<A>, id: nat): seq<Event<A>> {
    match p
    case Found(_, _, _, _) => [Deliver(id)]
    case Answered(_, _) => [Accept(id), Store(id), Begin(id, p.token), Get(id), Deliver(id)]
    case _ => [Store(id), Begin(id, p.token), Get(id), Deliver(id)]
  }

  lemma ReadBackIsRun<A>(c: Config, s: State<A>, id: nat, token: string)
    ensures Run(c, s, [Begin(id, token), Get(id), Deliver(id)]) == ReadBack(c, s, id, token)
  {
    var b, g, d := Begin(id, token), Get(id), Deliver(id);
    assert [b, g, d] == [b] + ([g] + ([d] + []));
    RunCons(c, s, b, [g] + ([d] + []));
    RunCons(c, Step(c, s, b), g, [d] + []);
    RunCons(c, Step(c, Step(c, s, b), g), d, []);
  }

  /** A pending answer is stored and the next resolve of the token serves it. */
  lemma StoredIsServed<A>(c: Config, s: State<A>, id: nat)
    requires id in s.resolves && s.resolves[id].Storing? && 0 < s.resolves[id].ttl <= c.cacheSeconds
    ensures var p := s.resolves[id];
            Run(c, s, Finish(p, id)).served
            == s.served + [Served(p.token, p.answer.actor, s.now,
                               Origin(p.token, p.answer, p.ttl, p.computedAt, s.now))]
  {
    var p, t := s.resolves[id], Step(c, s, Store(id));
    var rest := [Begin(id, p.token), Get(id), Deliver(id)];
    assert Finish(p, id) == [Store(id)] + rest;
    RunCons(c, s, Store(id), rest);
    ReadBackIsRun(c, t, id, p.token);
    ReadBackServes(c, t, id, p.token);
  }

  /** A lifetime under way is one the cache takes. */
  predicate Timed<A>(c: Config, p: Phase<A>) {
    p.Storing? ==> 0 < p.ttl <= c.cacheSeconds
  }

  lemma FinishServes<A>(c: Config, s: State<A>, token: string, id: nat)
    requires MayServe(c, s, id, token) && Timed(c, s.resolves[id])
    ensures var served := Run(c, s, Finish(s.resolves[id], id)).served;
            && |served| == |s.served| + 1
            && served[|s.served|].token == token && served[|s.served|].actor == ActorOf(s.resolves[id])
  {
    var p := s.resolves[id];
    match p {
      case Found(_, _, _, _) =>
        assert Finish(p, id) == [Deliver(id)] + [];
        RunCons(c, s, Deliver(id), []);
      case Answered(_, _) =>
        var t := Step(c, s, Accept(id));
        var rest := Finish(t.resolves[id], id);
        assert Finish(p, id) == [Accept(id)] + rest;
        RunCons(c, s, Accept(id), rest);
        StoredIsServed(c, t, id);
      case _ =>
        StoredIsServed(c, s, id);
    }
  }

  /** What was under way when the key is deleted goes on all the same, and the token is served. */
  lemma StoreUndoesRevocation<A>(c: Config, now: int, before: seq<Event<A>>, token: string, id: nat)
    requires Injective(c.keyOf) && MayServe(c, Run(c, Init(now), before), id, token)
    ensures var s := Run(c, Init(now), before);
            var start, events := Step(c, s, Revoke(token)), Finish(s.resolves[id], id);
            && NothingReplied(c, start, token, events)
            && var served := Run(c, start, events).served;
               && |served| == |s.served| + 1
               && served[|s.served|].token == token && served[|s.served|].actor == ActorOf(s.resolves[id])
  {
    ServedFromIdentity(c, now, before);
    var s := Run(c, Init(now), before);
    var events := Finish(s.resolves[id], id);
    assert forall i | 0 <= i < |events| :: !events[i].Reply?;
    assert ResolveTraced(c, s, s.resolves[id]);
    FinishServes(c, Step(c, s, Revoke(token)), token, id);
  }

  /** Some run after the revocation, in which identity answers nothing on the token, serves it from the cache. */
  ghost predicate ServedAgain<A(!new)>(c: Config, s: State<A>, token: string) {
    var start := Step(c, s, Revoke(token));
    exists more: seq<Event<A>> ::
      NothingReplied(c, start, token, more) && ServedSince(Run(c, start, more), token, |start.served|)
  }

  /**
   * In every reachable state: once identity has deleted the key and knows the session no more, the cache can
   * still serve the token if and only if at that moment Redis had found it for some resolve, an answer on it
   * was on its way to Redis, or one was on its way to the gateway with time left to cache it.
   */
  lemma RevokedIsForgotten<A(!new)>(c: Config, now: int, events: seq<Event<A>>, token: string)
    requires Injective(c.keyOf)
    ensures var s := Run(c, Init(now), events);
            ServedAgain(c, s, token) <==> exists id :: MayServe(c, s, id, token)
  {
    ServedFromIdentity(c, now, events);
    var s := Run(c, Init(now), events);
    var start := Step(c, s, Revoke(token));
    if id :| MayServe(c, s, id, token) {
      StoreUndoesRevocation(c, now, events, token, id);
      assert ServedSince(Run(c, start, Finish(s.resolves[id], id)), token, |start.served|);
    } else {
      assert forall id :: MayServe(c, start, id, token) == MayServe(c, s, id, token);
      forall more: seq<Event<A>> | NothingReplied(c, start, token, more)
        ensures !ServedSince(Run(c, start, more), token, |start.served|)
      {
        RunForgets(c, start, token, more);
      }
    }
  }

  /** A resolve of the token that asks identity and stores the answer, and one that finds it. */
  function StoreThenFind<A>(token: string, answer: Answer<A>): seq<Event<A>> {
    [Begin(0, token), Get(0), Reply(0, answer), Accept(0), Store(0), Begin(0, token), Get(0), Deliver(0)]
  }

  lemma RunNext<A>(c: Config, start: State<A>, events: seq<Event<A>>, k: nat)
    requires k < |events|
    ensures Run(c, start, events[..k + 1]) == Step(c, Run(c, start, events[..k]), events[k])
  {
    assert events[..k + 1][..k] == events[..k];
  }

  /** Where the resolve of `StoreThenFind` stands after `k` events, from identity's answer on. */
  ghost predicate Stage<A>(c: Config, now: int, token: string, answer: Answer<A>, s: State<A>, k: nat)
    requires Ttl(c.cacheSeconds, answer.expiresAt, now).Some?
  {
    var ttl := Ttl(c.cacheSeconds, answer.expiresAt, now).value;
    var found := Found(token, answer.actor, now, Origin(token, answer, ttl, now, now));
    && s.now == now && s.served == []
    && (k >= 5 ==> Got(c, s, token) == found)
    && match k {
         case 3 => s.resolves == map[0 := Answered(token, answer)]
         case 4 => s.resolves == map[0 := Storing(token, answer, ttl, now)]
         case 5 => s.resolves == map[]
         case 6 => s.resolves == map[0 := Reading(token)]
         case _ => s.resolves == map[0 := found]
       }
  }

  lemma Answers<A>(c: Config, now: int, token: string, answer: Answer<A>)
    requires Ttl(c.cacheSeconds, answer.expiresAt, now).Some?
    ensures Stage(c, now, token, answer, Run(c, Init(now), StoreThenFind(token, answer)[..3]), 3)
  {
    var start, events := Init<A>(now), StoreThenFind(token, answer);
    assert events[..0] == [];
    RunNext(c, start, events, 0);
    assert Run(c, start, events[..1]).resolves == map[0 := Reading(token)];
    RunNext(c, start, events, 1);
    assert Run(c, start, events[..2]).resolves == map[0 := Asking(token)];
    RunNext(c, start, events, 2);
  }

  lemma NextStage<A>(c: Config, now: int, token: string, answer: Answer<A>, s: State<A>, k: nat)
    requires Ttl(c.cacheSeconds, answer.expiresAt, now).Some? && 3 <= k < 7 && Stage(c, now, token, answer, s, k)
    ensures Stage(c, now, token, answer, Step(c, s, StoreThenFind(token, answer)[k]), k + 1)
  {
  }

  lemma {:induction false} StageOf<A>(c: Config, now: int, token: string, answer: Answer<A>, k: nat)
    requires Ttl(c.cacheSeconds, answer.expiresAt, now).Some? && 3 <= k <= 7
    ensures Stage(c, now, token, answer, Run(c, Init(now), StoreThenFind(token, answer)[..k]), k)
  {
    if k == 3 {
      Answers(c, now, token, answer);
    } else {
      StageOf(c, now, token, answer, k - 1);
      RunNext(c, Init(now), StoreThenFind(token, answer), k - 1);
      NextStage(c, now, token, answer, Run(c, Init(now), StoreThenFind(token, answer)[..k - 1]), k - 1);
    }
  }

  /** A value that is only in Redis when the key is deleted is served to nobody. */
  lemma DeletedAtRest<A>(c: Config, now: int, token: string, answer: Answer<A>, s: State<A>, k: nat)
    requires Ttl(c.cacheSeconds, answer.expiresAt, now).Some? && 5 <= k <= 6 && Stage(c, now, token, answer, s, k)
    ensures Run(c, Step(c, s, Revoke(token)), StoreThenFind(token, answer)[k..]).served == []
  {
    var start := Step(c, s, Revoke(token));
    var rest := StoreThenFind(token, answer)[k..];
    if k == 5 {
      assert rest == [Begin(0, token), Get(0), Deliver(0)];
      ReadBackIsRun(c, start, 0, token);
      ReadBackServes(c, start, 0, token);
    } else {
      assert rest == [Get(0)] + ([Deliver(0)] + []);
      RunCons(c, start, Get(0), [Deliver(0)] + []);
      RunCons(c, Step(c, start, Get(0)), Deliver(0), []);
      assert Step(c, start, Get(0)).resolves == map[0 := Asking(token)];
    }
  }

  lemma DeletedUnderWay<A>(c: Config, now: int, token: string, answer: Answer<A>, s: State<A>, k: nat)
    requires Ttl(c.cacheSeconds, answer.expiresAt, now).Some? && k in {3, 4, 7} && Stage(c, now, token, answer, s, k)
    ensures var served := Run(c, Step(c, s, Revoke(token)), StoreThenFind(token, answer)[k..]).served;
            |served| == 1 && served[0].token == token && served[0].actor == answer.actor
  {
    assert StoreThenFind(token, answer)[k..] == Finish(s.resolves[0], 0);
    FinishServes(c, Step(c, s, Revoke(token)), token, 0);
  }

  /**
   * Identity answers, and deletes the key at some moment before the end of the run: the actor is served, except
   * when Redis holds the value and no reply is on its way.
   */
  lemma RevokedIsServedOnce<A>(c: Config, now: int, token: string, answer: Answer<A>, k: nat)
    requires Ttl(c.cacheSeconds, answer.expiresAt, now).Some? && 3 <= k <= 7
    ensures var events := StoreThenFind(token, answer);
            var served := Run(c, Init(now), events[..k] + ([Revoke(token)] + events[k..])).served;
            if k == 5 || k == 6 then served == []
            else |served| == 1 && served[0].token == token && served[0].actor == answer.actor
  {
    var first, rest := StoreThenFind(token, answer)[..k], StoreThenFind(token, answer)[k..];
    var s := Run(c, Init(now), first);
    StageOf(c, now, token, answer, k);
    RunAppend(c, Init(now), first, [Revoke(token)] + rest);
    RunCons(c, s, Revoke(token), rest);
    if k == 5 || k == 6 {
      DeletedAtRest(c, now, token, answer, s, k);
    } else {
      DeletedUnderWay(c, now, token, answer, s, k);
    }
  }

  predicate Delivers<A(==)>(s: State<A>, id: nat, v: Served<A>) {
    id in s.resolves && s.resolves[id].Found? && Delivered(s.resolves[id]) == v
  }

  /** The value was stored since `s`, or Redis had found it by then and its reply was on the way. */
  ghost predicate SinceOrUnderWay<A>(s: State<A>, v: Served<A>) {
    s.now <= v.origin.storedAt || exists id :: Delivers(s, id, v)
  }

  /** What is cached for the token, found for it, or served for it after `s`, was stored since or under way then. */
  ghost predicate StoredSince<A>(c: Config, s: State<A>, t: State<A>, token: string) {
    && s.now <= t.now
    && |s.served| <= |t.served|
    && (c.keyOf(token) in t.origins ==> s.now <= t.origins[c.keyOf(token)].storedAt)
    && (forall id | id in t.resolves && t.resolves[id].Found? && t.resolves[id].token == token ::
          SinceOrUnderWay(s, Delivered(t.resolves[id])))
    && (forall i | |s.served| <= i < |t.served| && t.served[i].token == token :: SinceOrUnderWay(s, t.served[i]))
  }

  lemma StepStoredSince<A>(c: Config, s: State<A>, t: State<A>, e: Event<A>, token: string)
    requires StoredSince(c, s, t, token)
    ensures StoredSince(c, s, Step(c, t, e), token)
  {
    var u := Step(c, t, e);
    forall id | id in u.resolves && u.resolves[id].Found? && u.resolves[id].token == token
      ensures SinceOrUnderWay(s, Delivered(u.resolves[id]))
    {
      assert (id in t.resolves && t.resolves[id] == u.resolves[id]) || e == Get(id);
    }
    forall i | |s.served| <= i < |u.served| && u.served[i].token == token
      ensures SinceOrUnderWay(s, u.served[i])
    {
      assert if i < |t.served| then u.served[i] == t.served[i]
             else e.Deliver? && u.served[i] == Delivered(t.resolves[e.id]);
    }
  }

  /** Whatever is served for a revoked token was stored after the revocation, or found before it. */
  lemma {:induction false} ServedIsStoredSince<A>(c: Config, s: State<A>, token: string, events: seq<Event<A>>)
    ensures StoredSince(c, s, Run(c, Step(c, s, Revoke(token)), events), token)
  {
    var start := Step(c, s, Revoke(token));
    if events == [] {
      forall id | id in start.resolves && start.resolves[id].Found? && start.resolves[id].token == token
        ensures SinceOrUnderWay(s, Delivered(start.resolves[id]))
      {
        assert Delivers(s, id, Delivered(start.resolves[id]));
      }
    } else {
      var before := events[..|events| - 1];
      ServedIsStoredSince(c, s, token, before);
      StepStoredSince(c, s, Run(c, start, before), events[|events| - 1], token);
    }
  }
}
