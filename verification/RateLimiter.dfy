/**
 * The gateway's fixed-window limiter: one Redis counter per key, shared by any number of gateway
 * processes, and one circuit breaker per process. A hit is cut at its awaits, so hits of all
 * processes interleave freely and a reply can be lost before or after the counter moved.
 */
module RateLimiter {
  import opened Wrappers
  import Cardinality

  const BREAKER_MS := 2000

  /** The configuration refuses a window of zero seconds; a limit of zero switches the rule off. */
  type Seconds = n: int | 1 <= n witness 1

  datatype Rule = Rule(limit: nat, windowSeconds: Seconds)

  function WindowMs(rule: Rule): (ms: int)
    ensures ms >= 1000
  {
    rule.windowSeconds * 1000
  }

  // ---- Redis ----

  datatype Counter = Counter(count: nat, expiresAt: int)

  datatype Reply = Reply(count: nat, ttl: int)

  predicate Live(counters: map<string, Counter>, key: string, now: int) {
    key in counters && now < counters[key].expiresAt
  }

  /** INCR and EXPIRE NX in one transaction. */
  function Incremented(counters: map<string, Counter>, key: string, windowSeconds: Seconds, now: int): Counter {
    if Live(counters, key, now)
    then Counter(counters[key].count + 1, counters[key].expiresAt)
    else Counter(1, now + windowSeconds * 1000)
  }

  /** TTL answers in seconds, rounded to the nearest. */
  function TtlSeconds(counter: Counter, now: int): int {
    (counter.expiresAt - now + 500) / 1000
  }

  class Redis {
    var counters: map<string, Counter>

    constructor ()
      ensures counters == map[]
    {
      counters := map[];
    }

    method IncrExpireTtl(key: string, windowSeconds: Seconds, now: int) returns (reply: Reply)
      modifies this
      ensures counters == old(counters)[key := Incremented(old(counters), key, windowSeconds, now)]
      ensures reply == Reply(counters[key].count, TtlSeconds(counters[key], now))
      ensures forall other | other in old(counters) && other != key ::
                other in counters && counters[other] == old(counters[other])
    {
      if key in counters && counters[key].expiresAt <= now {
        counters := counters - {key};
      }
      var hits: nat := if key in counters then counters[key].count + 1 else 1;
      var expiresAt := if key in counters then counters[key].expiresAt else now + windowSeconds * 1000;
      counters := counters[key := Counter(hits, expiresAt)];
      reply := Reply(hits, TtlSeconds(counters[key], now));
    }
  }

  // ---- One gateway process ----

  datatype Breaker = Breaker(warned: bool, downUntil: int)

  datatype Outcome = Admitted | Unavailable | TooMany(retryAfter: int)

  function OnReply(b: Breaker): Breaker { b.(warned := false) }

  function OnFailure(b: Breaker, now: int): Breaker { Breaker(true, now + BREAKER_MS) }

  /** What `hit` does with the count, or with having none. */
  function Decide(reply: Option<Reply>, rule: Rule, failClosed: bool): Outcome {
    match reply
    case None => if failClosed then Unavailable else Admitted
    case Some(r) =>
      if r.count > rule.limit
      then TooMany(if r.ttl > 0 then r.ttl else rule.windowSeconds)
      else Admitted
  }

  /** What `hit` answers without asking Redis, if it does. */
  function AtOnce(b: Breaker, hasRedis: bool, rule: Rule, failClosed: bool, now: int): Option<Outcome> {
    if rule.limit == 0 then Some(Admitted)
    else if hasRedis && now >= b.downUntil then None
    else Some(Decide(None, rule, failClosed))
  }

  /** The closure of one process, cut at the await on Redis. */
  class Limiter {
    const hasRedis: bool
    var warned: bool
    var downUntil: int

    function View(): Breaker reads this { Breaker(warned, downUntil) }

    constructor (hasRedis: bool)
      ensures this.hasRedis == hasRedis && View() == Breaker(false, 0)
    {
      this.hasRedis := hasRedis;
      warned, downUntil := false, 0;
    }

    /** Up to the await: either Redis is asked, or the hit is settled at once. */
    method Begin(rule: Rule, failClosed: bool, now: int) returns (settled: Option<Outcome>)
      ensures settled == AtOnce(View(), hasRedis, rule, failClosed, now)
    {
      if rule.limit == 0 {
        return Some(Admitted);
      }
      if !hasRedis || now < downUntil {
        return Some(if failClosed then Unavailable else Admitted);
      }
      return None;
    }

    method Answered(reply: Reply, rule: Rule, failClosed: bool) returns (outcome: Outcome)
      modifies this
      ensures View() == OnReply(old(View()))
      ensures outcome == Decide(Some(reply), rule, failClosed)
    {
      warned := false;
      if reply.count > rule.limit {
        return TooMany(if reply.ttl > 0 then reply.ttl else rule.windowSeconds);
      }
      return Admitted;
    }

    method Failed(rule: Rule, failClosed: bool, now: int) returns (outcome: Outcome, logged: bool)
      modifies this
      ensures View() == OnFailure(old(View()), now)
      ensures logged == !old(warned)
      ensures outcome == Decide(None, rule, failClosed)
    {
      downUntil := now + BREAKER_MS;
      logged := !warned;
      if !warned {
        warned := true;
      }
      outcome := if failClosed then Unavailable else Admitted;
    }
  }

  // ---- All processes together ----

  datatype Request = Request(gateway: int, key: string, rule: Rule, failClosed: bool)

  datatype Flight =
    | Sent(request: Request)                   // Redis has not run the transaction
    | Answering(request: Request, reply: Reply) // it has, the reply is on its way
    | Abandoned(request: Request)              // the caller gave up; Redis may still run it

  /** One executed transaction: `window` is the moment its counter expires. */
  datatype Count = Count(key: string, at: int, window: int, count: nat)

  /** How a hit was settled, and whether a reply of Redis settled it. */
  datatype Decision = Decision(request: Request, replied: bool, outcome: Outcome)

  datatype Kind = Attempt | Failure | Success | Warning

  datatype Mark = Mark(gateway: int, kind: Kind, at: int)

  datatype State = State(
    now: int,
    withRedis: set<int>,
    counters: map<string, Counter>,
    breakers: map<int, Breaker>,
    nextId: nat,
    flights: map<int, Flight>,
    counted: map<int, Count>,
    decided: map<int, Decision>,
    marks: seq<Mark>)

  datatype Event =
    | Advance(to: int)
    | Hit(request: Request)
    | Execute(id: int)
    | Deliver(id: int)
    | Break(id: int)

  function BreakerOf(s: State, gateway: int): Breaker {
    if gateway in s.breakers then s.breakers[gateway] else Breaker(false, 0)
  }

  function Init(withRedis: set<int>, now: int): State {
    State(now, withRedis, map[], map[], 0, map[], map[], map[], [])
  }

  function OnHit(s: State, q: Request): State {
    var id := s.nextId;
    match AtOnce(BreakerOf(s, q.gateway), q.gateway in s.withRedis, q.rule, q.failClosed, s.now)
    case None =>
      s.(nextId := id + 1, flights := s.flights[id := Sent(q)], marks := s.marks + [Mark(q.gateway, Attempt, s.now)])
    case Some(outcome) =>
      s.(nextId := id + 1, decided := s.decided[id := Decision(q, false, outcome)])
  }

  function OnExecute(s: State, id: int): State
    requires id in s.flights && !s.flights[id].Answering?
  {
    var q := s.flights[id].request;
    var c := Incremented(s.counters, q.key, q.rule.windowSeconds, s.now);
    s.(counters := s.counters[q.key := c],
       counted := s.counted[id := Count(q.key, s.now, c.expiresAt, c.count)],
       flights := if s.flights[id].Sent?
                  then s.flights[id := Answering(q, Reply(c.count, TtlSeconds(c, s.now)))]
                  else s.flights - {id})
  }

  function OnDeliver(s: State, id: int): State
    requires id in s.flights && s.flights[id].Answering?
  {
    var q := s.flights[id].request;
    s.(breakers := s.breakers[q.gateway := OnReply(BreakerOf(s, q.gateway))],
       flights := s.flights - {id},
       decided := s.decided[id := Decision(q, true, Decide(Some(s.flights[id].reply), q.rule, q.failClosed))],
       marks := s.marks + [Mark(q.gateway, Success, s.now)])
  }

  /** A failure, and a warning unless one is pending. */
  function FailureMarks(s: State, gateway: int): seq<Mark> {
    [Mark(gateway, Failure, s.now)] + if BreakerOf(s, gateway).warned then [] else [Mark(gateway, Warning, s.now)]
  }

  function OnBreak(s: State, id: int): State
    requires id in s.flights && !s.flights[id].Abandoned?
  {
    var q := s.flights[id].request;
    var b := BreakerOf(s, q.gateway);
    s.(breakers := s.breakers[q.gateway := OnFailure(b, s.now)],
       flights := if s.flights[id].Sent? then s.flights[id := Abandoned(q)] else s.flights - {id},
       decided := s.decided[id := Decision(q, false, Decide(None, q.rule, q.failClosed))],
       marks := s.marks + FailureMarks(s, q.gateway))
  }

  function Step(s: State, e: Event): State {
    match e
    case Advance(to) => if s.now <= to then s.(now := to) else s
    case Hit(q) => OnHit(s, q)
    case Execute(id) => if id in s.flights && !s.flights[id].Answering? then OnExecute(s, id) else s
    case Deliver(id) => if id in s.flights && s.flights[id].Answering? then OnDeliver(s, id) else s
    case Break(id) => if id in s.flights && !s.flights[id].Abandoned? then OnBreak(s, id) else s
  }

  function Run(start: State, events: seq<Event>): State {
    if events == [] then start else Step(Run(start, events[..|events| - 1]), events[|events| - 1])
  }

  // ---- At most `limit` per window ----

  /** Every hit on `key` is a fail-closed hit under this one rule. */
  predicate Governed(events: seq<Event>, key: string, rule: Rule) {
    forall i | 0 <= i < |events| && events[i].Hit? && events[i].request.key == key ::
      events[i].request.rule == rule && events[i].request.failClosed
  }

  predicate Ruled(q: Request, key: string, rule: Rule) {
    q.key == key ==> q.rule == rule && q.failClosed
  }

  ghost predicate FlightsRuled(s: State, key: string, rule: Rule) {
    forall id | id in s.flights :: Ruled(s.flights[id].request, key, rule)
  }

  /** Redis has run the transaction of exactly the flights whose reply is on its way. */
  ghost predicate Tracked(f: Flight, id: int, counted: map<int, Count>) {
    && (f.Answering? <==> id in counted)
    && (f.Answering? ==> counted[id].key == f.request.key && counted[id].count == f.reply.count)
  }

  ghost predicate FlightsTracked(s: State) {
    && (forall id | id in s.flights :: 0 <= id < s.nextId && Tracked(s.flights[id], id, s.counted))
    && (forall id | id in s.counted :: 0 <= id < s.nextId)
  }

  ghost predicate CounterOpened(s: State, key: string, rule: Rule) {
    key in s.counters ==> s.counters[key].expiresAt - WindowMs(rule) <= s.now && 1 <= s.counters[key].count
  }

  ghost predicate CountsTrackCounter(s: State, key: string, rule: Rule) {
    forall id | id in s.counted && s.counted[id].key == key ::
      var c := s.counted[id];
      && key in s.counters
      && 1 <= c.count
      && c.at <= s.now
      && c.window - WindowMs(rule) <= c.at < c.window
      && (c.count == 1 ==> c.at == c.window - WindowMs(rule))
      && if c.window == s.counters[key].expiresAt then c.count <= s.counters[key].count
         else c.window <= s.counters[key].expiresAt - WindowMs(rule)
  }

  ghost predicate CountsApart(s: State, key: string, rule: Rule) {
    forall a, b | a in s.counted && b in s.counted && a != b && s.counted[a].key == key && s.counted[b].key == key ::
      && (s.counted[a].window == s.counted[b].window ==> s.counted[a].count != s.counted[b].count)
      && (s.counted[a].window < s.counted[b].window ==> s.counted[a].window + WindowMs(rule) <= s.counted[b].window)
  }

  predicate AdmittedOn(s: State, id: int, key: string) {
    id in s.decided && s.decided[id].request.key == key && s.decided[id].outcome == Admitted
  }

  ghost predicate AdmissionsCounted(s: State, key: string, rule: Rule) {
    forall id | AdmittedOn(s, id, key) ::
      id in s.counted && s.counted[id].key == key && s.counted[id].count <= rule.limit
  }

  ghost predicate Safe(s: State, key: string, rule: Rule) {
    && FlightsTracked(s)
    && FlightsRuled(s, key, rule)
    && CounterOpened(s, key, rule)
    && CountsTrackCounter(s, key, rule)
    && CountsApart(s, key, rule)
    && AdmissionsCounted(s, key, rule)
  }

  /** The counter of the key itself moves: a new window opens, or the live one counts one more. */
  lemma CountingKeepsWindows(s: State, t: State, id: int, key: string, rule: Rule)
    requires CounterOpened(s, key, rule) && CountsTrackCounter(s, key, rule) && CountsApart(s, key, rule)
    requires id !in s.counted && t.now == s.now
    requires t.counters == s.counters[key := Incremented(s.counters, key, rule.windowSeconds, s.now)]
    requires t.counted == s.counted[id := Count(key, s.now, t.counters[key].expiresAt, t.counters[key].count)]
    ensures CounterOpened(t, key, rule) && CountsTrackCounter(t, key, rule) && CountsApart(t, key, rule)
  {
    assert forall other | other in s.counted :: t.counted[other] == s.counted[other];
  }

  lemma CountIsSafe(s: State, id: int, key: string, rule: Rule)
    requires Safe(s, key, rule) && id in s.flights && !s.flights[id].Answering?
    ensures Safe(OnExecute(s, id), key, rule)
  {
    CountTracks(s, id);
    CountKeepsRest(s, id, key, rule);
    if s.flights[id].request.key == key {
      CountingKeepsWindows(s, OnExecute(s, id), id, key, rule);
    } else {
      CountElsewhere(s, id, key, rule);
    }
  }

  lemma CountKeepsRest(s: State, id: int, key: string, rule: Rule)
    requires FlightsRuled(s, key, rule) && AdmissionsCounted(s, key, rule) && id !in s.counted
    requires id in s.flights && !s.flights[id].Answering?
    ensures FlightsRuled(OnExecute(s, id), key, rule) && AdmissionsCounted(OnExecute(s, id), key, rule)
  {
    var t := OnExecute(s, id);
    assert forall f | f in t.flights :: f in s.flights && t.flights[f].request == s.flights[f].request;
    assert forall d | AdmittedOn(t, d, key) :: AdmittedOn(s, d, key);
  }

  lemma CountElsewhere(s: State, id: int, key: string, rule: Rule)
    requires CounterOpened(s, key, rule) && CountsTrackCounter(s, key, rule) && CountsApart(s, key, rule)
             && id !in s.counted
    requires id in s.flights && !s.flights[id].Answering? && s.flights[id].request.key != key
    ensures CounterOpened(OnExecute(s, id), key, rule)
    ensures CountsTrackCounter(OnExecute(s, id), key, rule) && CountsApart(OnExecute(s, id), key, rule)
  {
  }

  lemma CountTracks(s: State, id: int)
    requires FlightsTracked(s) && id in s.flights && !s.flights[id].Answering?
    ensures FlightsTracked(OnExecute(s, id)) && id !in s.counted
  {
    var t := OnExecute(s, id);
    assert Tracked(s.flights[id], id, s.counted);
    forall f | f in t.flights
      ensures 0 <= f < t.nextId && Tracked(t.flights[f], f, t.counted)
    {
      assert Tracked(s.flights[f], f, s.counted);
    }
  }

  /** One hit takes off or settles: only its own flight and decision change, and nothing is counted. */
  ghost predicate Settling(s: State, t: State, id: int) {
    && t.counters == s.counters && t.counted == s.counted && t.now == s.now && s.nextId <= t.nextId
       && 0 <= id < t.nextId
    && (forall f | f in t.flights && f != id :: f in s.flights && t.flights[f] == s.flights[f])
    && (id in t.flights ==> Tracked(t.flights[id], id, t.counted))
    && (forall d | d in t.decided && d != id :: d in s.decided && t.decided[d] == s.decided[d])
  }

  lemma SettlingTracks(s: State, t: State, id: int)
    requires FlightsTracked(s) && Settling(s, t, id)
    ensures FlightsTracked(t)
  {
    forall f | f in t.flights
      ensures 0 <= f < t.nextId && Tracked(t.flights[f], f, t.counted)
    {
      if f != id {
        assert Tracked(s.flights[f], f, s.counted);
      }
    }
  }

  lemma HitSettles(s: State, q: Request)
    requires FlightsTracked(s)
    ensures Settling(s, OnHit(s, q), s.nextId) && s.nextId !in s.counted && s.nextId !in s.flights
  {
    assert s.nextId !in s.counted && s.nextId !in s.flights;
  }

  lemma DeliverSettles(s: State, id: int)
    requires FlightsTracked(s) && id in s.flights && s.flights[id].Answering?
    ensures Settling(s, OnDeliver(s, id), id) && Tracked(s.flights[id], id, s.counted)
  {
  }

  lemma BreakSettles(s: State, id: int)
    requires FlightsTracked(s) && id in s.flights && !s.flights[id].Abandoned?
    ensures Settling(s, OnBreak(s, id), id)
  {
    assert Tracked(s.flights[id], id, s.counted);
  }

  ghost predicate DecidedWell(s: State, id: int, key: string, rule: Rule) {
    AdmittedOn(s, id, key) ==> id in s.counted && s.counted[id].key == key && s.counted[id].count <= rule.limit
  }

  lemma SettlingIsSafe(s: State, t: State, id: int, key: string, rule: Rule)
    requires Safe(s, key, rule) && Settling(s, t, id) && DecidedWell(t, id, key, rule)
    requires id in t.flights ==> Ruled(t.flights[id].request, key, rule)
    ensures Safe(t, key, rule)
  {
    SettlingTracks(s, t, id);
    forall d | AdmittedOn(t, d, key)
      ensures d in t.counted && t.counted[d].key == key && t.counted[d].count <= rule.limit
    {
      if d != id {
        assert AdmittedOn(s, d, key);
      }
    }
  }

  lemma HitIsSafe(s: State, q: Request, key: string, rule: Rule)
    requires Safe(s, key, rule) && rule.limit > 0 && Ruled(q, key, rule)
    ensures Safe(OnHit(s, q), key, rule)
  {
    HitSettles(s, q);
    SettlingIsSafe(s, OnHit(s, q), s.nextId, key, rule);
  }

  lemma DeliverIsSafe(s: State, id: int, key: string, rule: Rule)
    requires Safe(s, key, rule) && id in s.flights && s.flights[id].Answering?
    ensures Safe(OnDeliver(s, id), key, rule)
  {
    DeliverSettles(s, id);
    assert Ruled(s.flights[id].request, key, rule);
    SettlingIsSafe(s, OnDeliver(s, id), id, key, rule);
  }

  lemma BreakIsSafe(s: State, id: int, key: string, rule: Rule)
    requires Safe(s, key, rule) && id in s.flights && !s.flights[id].Abandoned?
    ensures Safe(OnBreak(s, id), key, rule)
  {
    BreakSettles(s, id);
    assert Ruled(s.flights[id].request, key, rule);
    SettlingIsSafe(s, OnBreak(s, id), id, key, rule);
  }

  lemma StepIsSafe(s: State, e: Event, key: string, rule: Rule)
    requires Safe(s, key, rule) && rule.limit > 0
    requires e.Hit? ==> Ruled(e.request, key, rule)
    ensures Safe(Step(s, e), key, rule)
  {
    match e
    case Advance(to) =>
    case Hit(q) => HitIsSafe(s, q, key, rule);
    case Execute(id) => if id in s.flights && !s.flights[id].Answering? { CountIsSafe(s, id, key, rule); }
    case Deliver(id) => if id in s.flights && s.flights[id].Answering? { DeliverIsSafe(s, id, key, rule); }
    case Break(id) => if id in s.flights && !s.flights[id].Abandoned? { BreakIsSafe(s, id, key, rule); }
  }

  lemma {:induction false} RunIsSafe(withRedis: set<int>, now: int, events: seq<Event>, key: string, rule: Rule)
    requires rule.limit > 0 && Governed(events, key, rule)
    ensures Safe(Run(Init(withRedis, now), events), key, rule)
  {
    if events != [] {
      var before := events[..|events| - 1];
      RunIsSafe(withRedis, now, before, key, rule);
      StepIsSafe(Run(Init(withRedis, now), before), events[|events| - 1], key, rule);
    }
  }

  ghost function AdmittedHits(s: State, key: string): set<int> {
    set id | id in s.decided && AdmittedOn(s, id, key)
  }

  ghost function AdmittedInWindow(s: State, key: string, window: int): set<int> {
    set id | id in AdmittedHits(s, key) && id in s.counted && s.counted[id].window == window
  }

  ghost function AdmittedInSpan(s: State, key: string, from: int, ms: int): set<int> {
    set id | id in AdmittedHits(s, key) && id in s.counted && from <= s.counted[id].at < from + ms
  }

  /** Admitted hits of one window whose counts start at `low`. */
  lemma WindowHolds(s: State, key: string, rule: Rule, hits: set<int>, window: int, low: nat)
    requires AdmissionsCounted(s, key, rule) && CountsApart(s, key, rule) && low <= rule.limit + 1
    requires forall id | id in hits ::
               id in AdmittedHits(s, key) && s.counted[id].window == window && low <= s.counted[id].count
    ensures |hits| <= rule.limit + 1 - low
  {
    Cardinality.InjectiveIntoRange(hits, map id | id in hits :: s.counted[id].count, low, rule.limit + 1);
  }

  /**
   * No admission without a count, and no window admits more than `limit` hits, whichever process they
   * came through and however many replies were lost.
   */
  lemma AtMostLimitPerWindow(withRedis: set<int>, now: int, events: seq<Event>, key: string, rule: Rule, window: int)
    requires rule.limit > 0 && Governed(events, key, rule)
    ensures var s := Run(Init(withRedis, now), events);
            (forall id | id in AdmittedHits(s, key) :: id in s.counted)
                && |AdmittedInWindow(s, key, window)| <= rule.limit
  {
    RunIsSafe(withRedis, now, events, key, rule);
    SafePerWindow(Run(Init(withRedis, now), events), key, rule, window);
  }

  ghost predicate AdmittedIn(s: State, key: string, id: int) {
    AdmittedOn(s, id, key) && id in s.counted && s.counted[id].key == key && 1 <= s.counted[id].count
  }

  lemma AdmittedAreCounted(s: State, key: string, rule: Rule)
    requires Safe(s, key, rule)
    ensures forall id | id in AdmittedHits(s, key) :: AdmittedIn(s, key, id)
  {
    forall id | id in AdmittedHits(s, key)
      ensures AdmittedIn(s, key, id)
    {
      assert AdmittedOn(s, id, key);
      assert s.counted[id].key == key;
    }
  }

  lemma SafePerWindow(s: State, key: string, rule: Rule, window: int)
    requires Safe(s, key, rule)
    ensures (forall id | id in AdmittedHits(s, key) :: id in s.counted)
            && |AdmittedInWindow(s, key, window)| <= rule.limit
  {
    AdmittedAreCounted(s, key, rule);
    WindowHolds(s, key, rule, AdmittedInWindow(s, key, window), window, 1);
  }

  /**
   * Three hits of one span: if two are of later windows than the first, those two share a window, and the
   * first did not open its own.
   */
  lemma SpanMeetsTwoWindows(s: State, key: string, rule: Rule, from: int, a: int, b: int, c: int)
    requires CountsTrackCounter(s, key, rule) && CountsApart(s, key, rule)
    requires AdmittedIn(s, key, a) && AdmittedIn(s, key, b) && AdmittedIn(s, key, c)
    requires from <= s.counted[a].at && s.counted[b].at < from + WindowMs(rule)
             && s.counted[c].at < from + WindowMs(rule)
    requires s.counted[a].window < s.counted[b].window && s.counted[a].window < s.counted[c].window
    ensures s.counted[b].window == s.counted[c].window && s.counted[a].count != 1
  {
    var x, y, z := s.counted[a], s.counted[b], s.counted[c];
    assert x.window + WindowMs(rule) <= y.window && x.window + WindowMs(rule) <= z.window;
    assert x.at < x.window && y.window - WindowMs(rule) <= y.at && z.window - WindowMs(rule) <= z.at;
    assert y.window < z.window ==> y.window + WindowMs(rule) <= z.window;
    assert z.window < y.window ==> z.window + WindowMs(rule) <= y.window;
  }

  /**
   * In any half-open span of one window length fewer than `2 * limit` hits are admitted: the span
   * meets at most two windows, and it misses the hit that opened the earlier one.
   */
  lemma FewerThanTwiceLimitPerSpan(withRedis: set<int>, now: int, events: seq<Event>, key: string, rule: Rule,
          from: int)
    requires rule.limit > 0 && Governed(events, key, rule)
    ensures var s := Run(Init(withRedis, now), events);
            (forall id | id in AdmittedHits(s, key) :: id in s.counted)
                && |AdmittedInSpan(s, key, from, WindowMs(rule))| < 2 * rule.limit
  {
    RunIsSafe(withRedis, now, events, key, rule);
    SafePerSpan(Run(Init(withRedis, now), events), key, rule, from);
  }

  lemma LaterHits(s: State, key: string, rule: Rule, from: int, opener: int, late: set<int>)
    requires Safe(s, key, rule) && late != {}
    requires opener in AdmittedInSpan(s, key, from, WindowMs(rule))
             && late <= AdmittedInSpan(s, key, from, WindowMs(rule))
    requires forall id | id in late :: s.counted[opener].window < s.counted[id].window
    ensures |late| <= rule.limit
  {
    AdmittedAreCounted(s, key, rule);
    var l := Cardinality.SomeElement(late);
    forall id | id in late
      ensures s.counted[id].window == s.counted[l].window
    {
      SpanMeetsTwoWindows(s, key, rule, from, opener, l, id);
    }
    WindowHolds(s, key, rule, late, s.counted[l].window, 1);
  }

  lemma EarlierHits(s: State, key: string, rule: Rule, from: int, later: int, early: set<int>, window: int)
    requires Safe(s, key, rule) && rule.limit > 0
    requires later in AdmittedInSpan(s, key, from, WindowMs(rule))
             && early <= AdmittedInSpan(s, key, from, WindowMs(rule))
    requires forall id | id in early :: s.counted[id].window == window < s.counted[later].window
    ensures |early| < rule.limit
  {
    AdmittedAreCounted(s, key, rule);
    forall id | id in early
      ensures 2 <= s.counted[id].count
    {
      SpanMeetsTwoWindows(s, key, rule, from, id, later, later);
    }
    WindowHolds(s, key, rule, early, window, 2);
  }

  lemma PartsAddUp(all: set<int>, part: set<int>)
    requires part <= all
    ensures |all| == |part| + |all - part| && (all - part == {} ==> part == all)
  {
    assert all == part + (all - part);
  }

  lemma SafePerSpan(s: State, key: string, rule: Rule, from: int)
    requires Safe(s, key, rule) && rule.limit > 0
    ensures (forall id | id in AdmittedHits(s, key) :: id in s.counted)
            && |AdmittedInSpan(s, key, from, WindowMs(rule))| < 2 * rule.limit
  {
    AdmittedAreCounted(s, key, rule);
    var span := AdmittedInSpan(s, key, from, WindowMs(rule));
    if span != {} {
      var first, opener := EarliestWindow(s, span);
      var early := set id | id in span && s.counted[id].window == first;
      var late := span - early;
      PartsAddUp(span, early);
      if late == {} {
        WindowHolds(s, key, rule, early, first, 1);
      } else {
        LaterHits(s, key, rule, from, opener, late);
        var later := Cardinality.SomeElement(late);
        EarlierHits(s, key, rule, from, later, early, first);
      }
    }
  }

  lemma {:induction false} EarliestWindow(s: State, ids: set<int>) returns (window: int, opener: int)
    requires ids != {} && forall id | id in ids :: id in s.counted
    ensures opener in ids && s.counted[opener].window == window
    ensures forall id | id in ids :: window <= s.counted[id].window
    decreases ids
  {
    var id := Cardinality.SomeElement(ids);
    window, opener := s.counted[id].window, id;
    if ids != {id} {
      var w, o := EarliestWindow(s, ids - {id});
      if w < window {
        window, opener := w, o;
      }
    }
  }

  /** A hit on a live window, admitted or refused, leaves the end of that window where it was. */
  lemma HitsNeverExtendAWindow(s: State, e: Event, key: string)
    requires Live(s.counters, key, s.now)
    ensures key in Step(s, e).counters && Step(s, e).counters[key].expiresAt == s.counters[key].expiresAt
    ensures e.Execute? && Step(s, e).counters != s.counters && s.flights[e.id].request.key == key
            ==> Step(s, e).counters[key].count == s.counters[key].count + 1
  {
  }

  // ---- The advised wait ----

  /** Every hit on `key` is under this one rule, whether it fails open or closed. */
  predicate Uniform(events: seq<Event>, key: string, rule: Rule) {
    forall i | 0 <= i < |events| && events[i].Hit? && events[i].request.key == key :: events[i].request.rule == rule
  }

  predicate WaitsWithin(outcome: Outcome, rule: Rule) {
    outcome.TooMany? ==> 1 <= outcome.retryAfter <= rule.windowSeconds
  }

  predicate FlightWaits(f: Flight, key: string, rule: Rule) {
    f.request.key == key ==> f.request.rule == rule && (f.Answering? ==> f.reply.ttl <= rule.windowSeconds)
  }

  /** No counter of the key lives longer than a window from now, and every reply and refusal agrees. */
  ghost predicate Advised(s: State, key: string, rule: Rule) {
    && (key in s.counters ==> s.counters[key].expiresAt <= s.now + WindowMs(rule))
    && (forall id | id in s.flights :: FlightWaits(s.flights[id], key, rule))
    && (forall id | id in s.decided && s.decided[id].request.key == key :: WaitsWithin(s.decided[id].outcome, rule))
  }

  lemma ReplyWaits(reply: Reply, rule: Rule, failClosed: bool)
    requires reply.ttl <= rule.windowSeconds
    ensures WaitsWithin(Decide(Some(reply), rule, failClosed), rule)
  {
  }

  lemma ExecuteAdvises(s: State, id: int, key: string, rule: Rule)
    requires Advised(s, key, rule) && id in s.flights && !s.flights[id].Answering?
    ensures Advised(OnExecute(s, id), key, rule)
  {
    var t := OnExecute(s, id);
    forall f | f in t.flights
      ensures FlightWaits(t.flights[f], key, rule)
    {
      assert FlightWaits(s.flights[f], key, rule);
    }
  }

  lemma DeliverAdvises(s: State, id: int, key: string, rule: Rule)
    requires Advised(s, key, rule) && id in s.flights && s.flights[id].Answering?
    ensures Advised(OnDeliver(s, id), key, rule)
  {
    var f := s.flights[id];
    assert FlightWaits(f, key, rule);
    if f.request.key == key {
      ReplyWaits(f.reply, rule, f.request.failClosed);
    }
  }

  lemma BreakAdvises(s: State, id: int, key: string, rule: Rule)
    requires Advised(s, key, rule) && id in s.flights && !s.flights[id].Abandoned?
    ensures Advised(OnBreak(s, id), key, rule)
  {
    assert FlightWaits(s.flights[id], key, rule);
  }

  lemma StepAdvises(s: State, e: Event, key: string, rule: Rule)
    requires Advised(s, key, rule) && (e.Hit? && e.request.key == key ==> e.request.rule == rule)
    ensures Advised(Step(s, e), key, rule)
  {
    match e
    case Advance(to) =>
    case Hit(q) =>
    case Execute(id) => if id in s.flights && !s.flights[id].Answering? { ExecuteAdvises(s, id, key, rule); }
    case Deliver(id) => if id in s.flights && s.flights[id].Answering? { DeliverAdvises(s, id, key, rule); }
    case Break(id) => if id in s.flights && !s.flights[id].Abandoned? { BreakAdvises(s, id, key, rule); }
  }

  lemma {:induction false} RunAdvises(withRedis: set<int>, now: int, events: seq<Event>, key: string, rule: Rule)
    requires Uniform(events, key, rule)
    ensures Advised(Run(Init(withRedis, now), events), key, rule)
  {
    if events != [] {
      var before := events[..|events| - 1];
      RunAdvises(withRedis, now, before, key, rule);
      StepAdvises(Run(Init(withRedis, now), before), events[|events| - 1], key, rule);
    }
  }

  /** In every run, a hit refused on a key under one rule is told to wait at least a second and at most the window. */
  lemma RetryAfterWithinWindow(withRedis: set<int>, now: int, events: seq<Event>, key: string, rule: Rule, id: int)
    requires Uniform(events, key, rule)
    requires var s := Run(Init(withRedis, now), events);
             id in s.decided && s.decided[id].request.key == key && s.decided[id].outcome.TooMany?
    ensures 1 <= Run(Init(withRedis, now), events).decided[id].outcome.retryAfter <= rule.windowSeconds
  {
    RunAdvises(withRedis, now, events, key, rule);
    assert WaitsWithin(Run(Init(withRedis, now), events).decided[id].outcome, rule);
  }

  // ---- No hit is refused too early ----

  /** Some executed hit on `key` was number `k` of its window. */
  ghost predicate CountedAs(counted: map<int, Count>, key: string, window: int, k: int) {
    exists id :: id in counted && counted[id].key == key && counted[id].window == window && counted[id].count == k
  }

  /** The first `n` numbers of the window have all been given out. */
  ghost predicate Filled(counted: map<int, Count>, key: string, window: int, n: int) {
    forall k | 1 <= k <= n :: CountedAs(counted, key, window, k)
  }

  ghost predicate WindowsFilled(s: State) {
    && (forall key | key in s.counters :: Filled(s.counted, key, s.counters[key].expiresAt, s.counters[key].count))
    && (forall id | id in s.counted :: Filled(s.counted, s.counted[id].key, s.counted[id].window, s.counted[id].count))
  }

  lemma FilledStays(counted: map<int, Count>, more: map<int, Count>, key: string, window: int, n: int)
    requires Filled(counted, key, window, n) && forall id | id in counted :: id in more && more[id] == counted[id]
    ensures Filled(more, key, window, n)
  {
    forall k | 1 <= k <= n
      ensures CountedAs(more, key, window, k)
    {
      assert CountedAs(counted, key, window, k);
      var id :| id in counted && counted[id].key == key && counted[id].window == window && counted[id].count == k;
      assert id in more && more[id] == counted[id];
    }
  }

  /** The number just given out closes the row: one for a new window, the next one for a live one. */
  lemma CountFillsOwn(s: State, t: State, id: int, key: string, windowSeconds: Seconds)
    requires WindowsFilled(s) && id !in s.counted
    requires var c := Incremented(s.counters, key, windowSeconds, s.now);
             t.counted == s.counted[id := Count(key, s.now, c.expiresAt, c.count)]
    ensures var c := Incremented(s.counters, key, windowSeconds, s.now); Filled(t.counted, key, c.expiresAt, c.count)
  {
    var c := Incremented(s.counters, key, windowSeconds, s.now);
    if Live(s.counters, key, s.now) {
      FilledStays(s.counted, t.counted, key, c.expiresAt, c.count - 1);
    }
    assert t.counted[id].count == c.count;
    assert CountedAs(t.counted, key, c.expiresAt, c.count);
  }

  lemma CountFills(s: State, id: int)
    requires WindowsFilled(s) && FlightsTracked(s) && id in s.flights && !s.flights[id].Answering?
    ensures WindowsFilled(OnExecute(s, id))
  {
    var t, q := OnExecute(s, id), s.flights[id].request;
    CountTracks(s, id);
    CountFillsOwn(s, t, id, q.key, q.rule.windowSeconds);
    forall key | key in t.counters
      ensures Filled(t.counted, key, t.counters[key].expiresAt, t.counters[key].count)
    {
      if key != q.key {
        FilledStays(s.counted, t.counted, key, s.counters[key].expiresAt, s.counters[key].count);
      }
    }
    forall other | other in t.counted
      ensures Filled(t.counted, t.counted[other].key, t.counted[other].window, t.counted[other].count)
    {
      if other != id {
        FilledStays(s.counted, t.counted, s.counted[other].key, s.counted[other].window, s.counted[other].count);
      }
    }
  }

  /** The hit was counted, beyond its own rule's limit. */
  ghost predicate Earned(counted: map<int, Count>, id: int, d: Decision) {
    d.outcome.TooMany? ==> id in counted && counted[id].key == d.request.key && counted[id].count > d.request.rule.limit
  }

  ghost predicate RefusalsEarned(s: State) {
    && FlightsTracked(s)
    && WindowsFilled(s)
    && forall id | id in s.decided :: Earned(s.counted, id, s.decided[id])
  }

  lemma SettlingStaysEarned(s: State, t: State, id: int)
    requires RefusalsEarned(s) && Settling(s, t, id) && (id in t.decided ==> Earned(t.counted, id, t.decided[id]))
    ensures RefusalsEarned(t)
  {
    SettlingTracks(s, t, id);
    forall d | d in t.decided
      ensures Earned(t.counted, d, t.decided[d])
    {
      if d != id {
        assert Earned(s.counted, d, s.decided[d]);
      }
    }
  }

  lemma ExecuteStaysEarned(s: State, id: int)
    requires RefusalsEarned(s) && id in s.flights && !s.flights[id].Answering?
    ensures RefusalsEarned(OnExecute(s, id))
  {
    CountTracks(s, id);
    CountFills(s, id);
    forall d | d in s.decided
      ensures Earned(OnExecute(s, id).counted, d, s.decided[d])
    {
      assert Earned(s.counted, d, s.decided[d]);
    }
  }

  lemma StepStaysEarned(s: State, e: Event)
    requires RefusalsEarned(s)
    ensures RefusalsEarned(Step(s, e))
  {
    match e
    case Advance(to) =>
    case Hit(q) =>
      HitSettles(s, q);
      assert s.nextId in s.decided ==> Earned(s.counted, s.nextId, s.decided[s.nextId]);
      SettlingStaysEarned(s, OnHit(s, q), s.nextId);
    case Execute(id) => if id in s.flights && !s.flights[id].Answering? { ExecuteStaysEarned(s, id); }
    case Deliver(id) =>
      if id in s.flights && s.flights[id].Answering? {
        DeliverSettles(s, id);
        SettlingStaysEarned(s, OnDeliver(s, id), id);
      }
    case Break(id) =>
      if id in s.flights && !s.flights[id].Abandoned? {
        BreakSettles(s, id);
        SettlingStaysEarned(s, OnBreak(s, id), id);
      }
  }

  lemma {:induction false} RunStaysEarned(withRedis: set<int>, now: int, events: seq<Event>)
    ensures RefusalsEarned(Run(Init(withRedis, now), events))
  {
    if events != [] {
      RunStaysEarned(withRedis, now, events[..|events| - 1]);
      StepStaysEarned(Run(Init(withRedis, now), events[..|events| - 1]), events[|events| - 1]);
    }
  }

  /**
   * Whatever the rules, a hit is refused as one too many only if its window had counted as many other hits
   * on its key as its limit allows: one of each number from one to the limit, its own number being higher.
   */
  lemma RefusedOnlyWhenFull(withRedis: set<int>, now: int, events: seq<Event>, id: int)
    requires var s := Run(Init(withRedis, now), events); id in s.decided && s.decided[id].outcome.TooMany?
    ensures var s := Run(Init(withRedis, now), events); var q := s.decided[id].request;
            && id in s.counted && s.counted[id].key == q.key && s.counted[id].count > q.rule.limit
            && Filled(s.counted, q.key, s.counted[id].window, q.rule.limit)
  {
    RunStaysEarned(withRedis, now, events);
    var s := Run(Init(withRedis, now), events);
    assert Earned(s.counted, id, s.decided[id]);
    assert Filled(s.counted, s.counted[id].key, s.counted[id].window, s.counted[id].count);
  }

  // ---- What each hit is answered ----

  /** To the nearest second, a half counting up. */
  predicate NearestSeconds(ms: int, seconds: int) {
    1000 * seconds - 500 <= ms < 1000 * seconds + 500
  }

  /** The answer to a hit with this count: admitted within the limit, else told when its window ends. */
  predicate AnswersCount(c: Count, rule: Rule, outcome: Outcome) {
    if c.count <= rule.limit then outcome == Admitted
    else
      && outcome.TooMany?
      && if c.window - c.at >= 500 then NearestSeconds(c.window - c.at, outcome.retryAfter)
         else outcome.retryAfter == rule.windowSeconds
  }

  /** The answer to a hit that got no count: let through, unless a limit is to be kept at any price. */
  predicate AnswersWithoutCount(q: Request, outcome: Outcome) {
    outcome == if q.failClosed && q.rule.limit > 0 then Unavailable else Admitted
  }

  predicate AnsweredRight(counted: map<int, Count>, id: int, d: Decision) {
    if d.replied
    then
      && d.request.rule.limit > 0
      && id in counted && counted[id].key == d.request.key
      && AnswersCount(counted[id], d.request.rule, d.outcome)
    else AnswersWithoutCount(d.request, d.outcome)
  }

  /** A reply on its way tells the count of its hit and the rest of the window. */
  predicate FlightRight(s: State, id: int, f: Flight) {
    && 0 <= id < s.nextId && f.request.rule.limit > 0
    && (f.Abandoned? <==> id in s.decided)
    && (f.Abandoned? ==> !s.decided[id].replied)
    && (f.Answering? ==>
          && id in s.counted && s.counted[id].key == f.request.key && s.counted[id].count == f.reply.count
          && NearestSeconds(s.counted[id].window - s.counted[id].at, f.reply.ttl))
  }

  ghost predicate HitsAnswered(s: State) {
    && (forall id | id in s.flights :: FlightRight(s, id, s.flights[id]))
    && (forall id | id in s.decided :: 0 <= id < s.nextId && AnsweredRight(s.counted, id, s.decided[id]))
  }

  /** What an event settles and records. A hit, once settled, is settled for good. */
  ghost predicate SettlesAs(s: State, e: Event, t: State) {
    && (forall id | id in s.decided :: id in t.decided && t.decided[id] == s.decided[id])
    && match e
       case Hit(q) =>
         && t.nextId == s.nextId + 1
         && if s.nextId in t.flights
            then t.flights[s.nextId] == Sent(q) && t.decided == s.decided
                 && t.marks == s.marks + [Mark(q.gateway, Attempt, s.now)]
            else DecidesOnly(s, s.nextId, q, false, t) && t.marks == s.marks
       case Deliver(id) =>
         if id in s.flights && s.flights[id].Answering?
         then DecidesOnly(s, id, s.flights[id].request, true, t) && id !in t.flights
              && t.marks == s.marks + [Mark(s.flights[id].request.gateway, Success, s.now)]
         else t == s
       case Break(id) =>
         if id in s.flights && !s.flights[id].Abandoned?
         then DecidesOnly(s, id, s.flights[id].request, false, t)
              && (if s.flights[id].Sent? then id in t.flights && t.flights[id] == Abandoned(s.flights[id].request)
                  else id !in t.flights)
              && s.marks + [Mark(s.flights[id].request.gateway, Failure, s.now)] <= t.marks
         else t == s
       case _ => t.decided == s.decided && t.marks == s.marks
  }

  ghost predicate DecidesOnly(s: State, id: int, q: Request, replied: bool, t: State) {
    && id in t.decided && t.decided[id].request == q && t.decided[id].replied == replied
    && t.decided == s.decided[id := t.decided[id]]
  }

  lemma HitSettlesAs(s: State, q: Request)
    requires s.nextId !in s.decided && s.nextId !in s.flights
    ensures SettlesAs(s, Hit(q), OnHit(s, q))
  {
  }

  lemma HitIsAnswered(s: State, q: Request)
    requires HitsAnswered(s)
    ensures HitsAnswered(OnHit(s, q)) && SettlesAs(s, Hit(q), OnHit(s, q))
  {
    var t, id := OnHit(s, q), s.nextId;
    assert id !in s.decided && id !in s.flights;
    HitSettlesAs(s, q);
    forall other | other in t.flights
      ensures FlightRight(t, other, t.flights[other])
    {
      assert other != id ==> FlightRight(s, other, s.flights[other]);
    }
    forall other | other in t.decided
      ensures 0 <= other < t.nextId && AnsweredRight(t.counted, other, t.decided[other])
    {
      assert other != id ==> AnsweredRight(s.counted, other, s.decided[other]);
    }
  }

  lemma ExecuteIsAnswered(s: State, id: int)
    requires HitsAnswered(s) && id in s.flights && !s.flights[id].Answering?
    ensures HitsAnswered(OnExecute(s, id)) && SettlesAs(s, Execute(id), OnExecute(s, id))
  {
    var t := OnExecute(s, id);
    assert FlightRight(s, id, s.flights[id]);
    forall other | other in t.flights
      ensures FlightRight(t, other, t.flights[other])
    {
      assert FlightRight(s, other, s.flights[other]);
    }
    forall other | other in t.decided
      ensures AnsweredRight(t.counted, other, t.decided[other])
    {
      assert AnsweredRight(s.counted, other, s.decided[other]);
    }
  }

  lemma DeliverIsAnswered(s: State, id: int)
    requires HitsAnswered(s) && id in s.flights && s.flights[id].Answering?
    ensures HitsAnswered(OnDeliver(s, id)) && SettlesAs(s, Deliver(id), OnDeliver(s, id))
  {
    var t := OnDeliver(s, id);
    assert FlightRight(s, id, s.flights[id]);
    assert AnsweredRight(t.counted, id, t.decided[id]);
    forall other | other in t.flights
      ensures FlightRight(t, other, t.flights[other])
    {
      assert FlightRight(s, other, s.flights[other]);
    }
  }

  lemma BreakIsAnswered(s: State, id: int)
    requires HitsAnswered(s) && id in s.flights && !s.flights[id].Abandoned?
    ensures HitsAnswered(OnBreak(s, id)) && SettlesAs(s, Break(id), OnBreak(s, id))
  {
    var t := OnBreak(s, id);
    assert FlightRight(s, id, s.flights[id]);
    forall other | other in t.flights
      ensures FlightRight(t, other, t.flights[other])
    {
      assert FlightRight(s, other, s.flights[other]);
    }
  }

  lemma StepIsAnswered(s: State, e: Event)
    requires HitsAnswered(s)
    ensures HitsAnswered(Step(s, e)) && SettlesAs(s, e, Step(s, e))
  {
    match e
    case Advance(to) =>
    case Hit(q) => HitIsAnswered(s, q);
    case Execute(id) => if id in s.flights && !s.flights[id].Answering? { ExecuteIsAnswered(s, id); }
    case Deliver(id) => if id in s.flights && s.flights[id].Answering? { DeliverIsAnswered(s, id); }
    case Break(id) => if id in s.flights && !s.flights[id].Abandoned? { BreakIsAnswered(s, id); }
  }

  /**
   * In every run, a hit settled by a reply is admitted exactly if its count is within its limit, and is otherwise
   * told the seconds to the end of its window; a hit settled without one is turned away exactly if it fails closed
   * under a positive limit.
   */
  lemma {:induction false} EveryHitIsAnswered(withRedis: set<int>, now: int, events: seq<Event>)
    ensures HitsAnswered(Run(Init(withRedis, now), events))
  {
    if events != [] {
      EveryHitIsAnswered(withRedis, now, events[..|events| - 1]);
      StepIsAnswered(Run(Init(withRedis, now), events[..|events| - 1]), events[|events| - 1]);
    }
  }

  /** In every reachable state: a hit is settled by a reply exactly when its reply is delivered, and only once. */
  lemma HitsSettleOnce(withRedis: set<int>, now: int, events: seq<Event>, e: Event)
    ensures var s := Run(Init(withRedis, now), events); SettlesAs(s, e, Step(s, e))
  {
    EveryHitIsAnswered(withRedis, now, events);
    StepIsAnswered(Run(Init(withRedis, now), events), e);
  }

  // ---- What a count counts ----

  /** The hits on the key that Redis has counted in the window. */
  ghost function CountedIn(counted: map<int, Count>, key: string, window: int): set<int> {
    set id | id in counted && counted[id].key == key && counted[id].window == window
  }

  /** The window is the counter's, or over. */
  predicate LastOrOver(s: State, c: Count) {
    c.key in s.counters && (c.window == s.counters[c.key].expiresAt || c.window <= s.now)
  }

  /** A counter is the number of hits counted in its window, and every earlier window of its key is over. */
  ghost predicate CountersCount(s: State) {
    && (forall id | id in s.counted :: LastOrOver(s, s.counted[id]))
    && (forall key | key in s.counters ::
          1 <= |CountedIn(s.counted, key, s.counters[key].expiresAt)| == s.counters[key].count)
  }

  lemma CountedGrows(counted: map<int, Count>, id: int, c: Count, key: string, window: int)
    requires id !in counted
    ensures |CountedIn(counted[id := c], key, window)|
            == |CountedIn(counted, key, window)| + if c.key == key && c.window == window then 1 else 0
  {
    var more := counted[id := c];
    if c.key == key && c.window == window {
      assert CountedIn(more, key, window) == CountedIn(counted, key, window) + {id};
    } else {
      assert CountedIn(more, key, window) == CountedIn(counted, key, window);
    }
  }

  lemma NothingCountedYet(s: State, key: string, window: int)
    requires CountersCount(s) && !Live(s.counters, key, s.now) && window > s.now
    ensures CountedIn(s.counted, key, window) == {}
  {
    forall id | id in s.counted && s.counted[id].key == key
      ensures s.counted[id].window != window
    {
      assert LastOrOver(s, s.counted[id]);
    }
  }

  lemma ExecuteCounts(s: State, id: int)
    requires CountersCount(s) && FlightsTracked(s) && id in s.flights && !s.flights[id].Answering?
    ensures CountersCount(OnExecute(s, id))
    ensures var t, key := OnExecute(s, id), s.flights[id].request.key;
            |CountedIn(s.counted, key, t.counters[key].expiresAt)| == t.counters[key].count - 1
  {
    var t, q := OnExecute(s, id), s.flights[id].request;
    var c := t.counted[id];
    assert Tracked(s.flights[id], id, s.counted);
    if !Live(s.counters, q.key, s.now) {
      NothingCountedYet(s, q.key, c.window);
    }
    forall key | key in t.counters
      ensures 1 <= |CountedIn(t.counted, key, t.counters[key].expiresAt)| == t.counters[key].count
    {
      CountedGrows(s.counted, id, c, key, t.counters[key].expiresAt);
    }
    forall other | other in t.counted
      ensures LastOrOver(t, t.counted[other])
    {
      assert other != id ==> LastOrOver(s, s.counted[other]);
    }
  }

  lemma OthersKeepCounts(s: State, e: Event)
    requires CountersCount(s) && !(e.Execute? && e.id in s.flights && !s.flights[e.id].Answering?)
    ensures CountersCount(Step(s, e))
  {
    var t := Step(s, e);
    OnlyExecuteCounts(s, e);
    forall id | id in t.counted
      ensures LastOrOver(t, t.counted[id])
    {
      assert LastOrOver(s, s.counted[id]);
    }
  }

  lemma OnlyExecuteCounts(s: State, e: Event)
    requires !(e.Execute? && e.id in s.flights && !s.flights[e.id].Answering?)
    ensures Step(s, e).counted == s.counted && Step(s, e).counters == s.counters && s.now <= Step(s, e).now
  {
  }

  lemma {:induction false} RunCounts(withRedis: set<int>, now: int, events: seq<Event>)
    ensures CountersCount(Run(Init(withRedis, now), events)) && FlightsTracked(Run(Init(withRedis, now), events))
  {
    if events != [] {
      var before, e := events[..|events| - 1], events[|events| - 1];
      var s := Run(Init(withRedis, now), before);
      RunCounts(withRedis, now, before);
      RunStaysEarned(withRedis, now, events);
      if e.Execute? && e.id in s.flights && !s.flights[e.id].Answering? {
        ExecuteCounts(s, e.id);
      } else {
        OthersKeepCounts(s, e);
      }
    }
  }

  /** A window of the key is open: some hit on it was counted in a window that has not ended. */
  ghost predicate Open(s: State, key: string, window: int) {
    window > s.now && CountedIn(s.counted, key, window) != {}
  }

  /**
   * In every run, what Redis counts for a hit it executes is the hit's number in its window: the window open on the
   * key, or else a new one as long as the hit's own rule says. A caller still waiting gets that number as its reply.
   */
  lemma HitsAreCounted(withRedis: set<int>, now: int, events: seq<Event>, id: int)
    requires var s := Run(Init(withRedis, now), events); id in s.flights && !s.flights[id].Answering?
    ensures var s := Run(Init(withRedis, now), events); var t := Step(s, Execute(id));
            var q := s.flights[id].request;
            && id !in s.counted && id in t.counted && t.counted == s.counted[id := t.counted[id]]
            && var c := t.counted[id];
               && c.key == q.key && c.at == s.now && c.window > s.now
               && c.count == |CountedIn(s.counted, q.key, c.window)| + 1
               && (forall window | Open(s, q.key, window) :: c.window == window)
               && ((forall window :: !Open(s, q.key, window)) ==> c.window == s.now + q.rule.windowSeconds * 1000)
               && if s.flights[id].Sent?
                  then id in t.flights && t.flights[id].Answering? && t.flights[id].reply.count == c.count
                  else id !in t.flights
  {
    RunCounts(withRedis, now, events);
    var s := Run(Init(withRedis, now), events);
    var q := s.flights[id].request;
    assert Tracked(s.flights[id], id, s.counted);
    ExecuteCounts(s, id);
    if Live(s.counters, q.key, s.now) {
      LiveIsOpen(s, q.key);
    } else {
      DeadIsNotOpen(s, q.key);
    }
  }

  lemma LiveIsOpen(s: State, key: string)
    requires CountersCount(s) && Live(s.counters, key, s.now)
    ensures Open(s, key, s.counters[key].expiresAt)
    ensures forall window | Open(s, key, window) :: window == s.counters[key].expiresAt
  {
    forall window | Open(s, key, window)
      ensures window == s.counters[key].expiresAt
    {
      var id := Cardinality.SomeElement(CountedIn(s.counted, key, window));
      assert LastOrOver(s, s.counted[id]);
    }
  }

  lemma DeadIsNotOpen(s: State, key: string)
    requires CountersCount(s) && !Live(s.counters, key, s.now)
    ensures forall window :: !Open(s, key, window)
  {
    forall window | window > s.now
      ensures CountedIn(s.counted, key, window) == {}
    {
      NothingCountedYet(s, key, window);
    }
  }

  // ---- The breaker ----

  ghost predicate BreakerQuiet(marks: seq<Mark>) {
    forall i, j | 0 <= i < j < |marks| && marks[i].gateway == marks[j].gateway
                  && marks[i].kind == Failure && marks[j].kind == Attempt ::
      marks[i].at + BREAKER_MS <= marks[j].at
  }

  ghost predicate SuccessBetween(marks: seq<Mark>, gateway: int, i: int, j: int) {
    exists m :: i < m < j <= |marks| && 0 <= m && marks[m] == Mark(gateway, Success, marks[m].at)
  }

  ghost predicate WarnsOnce(marks: seq<Mark>) {
    forall i, j | 0 <= i < j < |marks| && marks[i].gateway == marks[j].gateway
                  && marks[i].kind == Warning && marks[j].kind == Warning ::
      SuccessBetween(marks, marks[i].gateway, i, j)
  }

  ghost predicate FailuresHoldDown(s: State) {
    forall i | 0 <= i < |s.marks| && s.marks[i].kind == Failure ::
      s.marks[i].at <= s.now && s.marks[i].at + BREAKER_MS <= BreakerOf(s, s.marks[i].gateway).downUntil
  }

  ghost predicate WarningsRemembered(s: State) {
    forall i | 0 <= i < |s.marks| && s.marks[i].kind == Warning && !BreakerOf(s, s.marks[i].gateway).warned ::
      SuccessBetween(s.marks, s.marks[i].gateway, i, |s.marks|)
  }

  lemma AttemptKeepsQuiet(s: State, t: State, gateway: int)
    requires FailuresHoldDown(s) && BreakerQuiet(s.marks) && BreakerOf(s, gateway).downUntil <= s.now
    requires t.marks == s.marks + [Mark(gateway, Attempt, s.now)] && t.breakers == s.breakers && t.now == s.now
    ensures FailuresHoldDown(t) && BreakerQuiet(t.marks)
  {
  }

  /** Marks that are neither attempts nor, but for the first, failures, and a breaker that closes no earlier. */
  lemma OthersKeepQuiet(s: State, t: State, gateway: int, b: Breaker, more: seq<Mark>)
    requires FailuresHoldDown(s) && BreakerQuiet(s.marks)
    requires t.marks == s.marks + more && t.breakers == s.breakers[gateway := b] && s.now == t.now
    requires forall i | 0 <= i < |more| :: more[i].gateway == gateway && more[i].at == s.now && more[i].kind != Attempt
    requires b.downUntil == s.now + BREAKER_MS
             || (b.downUntil == BreakerOf(s, gateway).downUntil
                && forall i | 0 <= i < |more| :: more[i].kind != Failure)
    ensures FailuresHoldDown(t) && BreakerQuiet(t.marks)
  {
  }

  lemma StepKeepsQuiet(s: State, e: Event)
    requires FailuresHoldDown(s) && BreakerQuiet(s.marks)
    ensures FailuresHoldDown(Step(s, e)) && BreakerQuiet(Step(s, e).marks)
  {
    var t := Step(s, e);
    if e.Hit? {
      HitKeepsQuiet(s, e.request);
    } else if e.Deliver? && t != s {
      DeliverKeepsQuiet(s, e.id);
    } else if e.Break? && t != s {
      BreakKeepsQuiet(s, e.id);
    }
  }

  lemma HitKeepsQuiet(s: State, q: Request)
    requires FailuresHoldDown(s) && BreakerQuiet(s.marks)
    ensures FailuresHoldDown(OnHit(s, q)) && BreakerQuiet(OnHit(s, q).marks)
  {
    if OnHit(s, q).marks != s.marks {
      AttemptKeepsQuiet(s, OnHit(s, q), q.gateway);
    }
  }

  lemma DeliverKeepsQuiet(s: State, id: int)
    requires FailuresHoldDown(s) && BreakerQuiet(s.marks) && id in s.flights && s.flights[id].Answering?
    ensures FailuresHoldDown(OnDeliver(s, id)) && BreakerQuiet(OnDeliver(s, id).marks)
  {
    var gateway := s.flights[id].request.gateway;
    OthersKeepQuiet(s, OnDeliver(s, id), gateway, OnReply(BreakerOf(s, gateway)), [Mark(gateway, Success, s.now)]);
  }

  lemma BreakKeepsQuiet(s: State, id: int)
    requires FailuresHoldDown(s) && BreakerQuiet(s.marks) && id in s.flights && !s.flights[id].Abandoned?
    ensures FailuresHoldDown(OnBreak(s, id)) && BreakerQuiet(OnBreak(s, id).marks)
  {
    var gateway := s.flights[id].request.gateway;
    OthersKeepQuiet(s, OnBreak(s, id), gateway, OnFailure(BreakerOf(s, gateway), s.now), FailureMarks(s, gateway));
  }

  lemma SuccessStays(marks: seq<Mark>, more: seq<Mark>, gateway: int, i: int, j: int)
    requires 0 <= i < j <= |marks| && SuccessBetween(marks, gateway, i, j)
    ensures forall k | j <= k <= |marks| + |more| :: SuccessBetween(marks + more, gateway, i, k)
  {
    var m :| i < m < j <= |marks| && 0 <= m && marks[m] == Mark(gateway, Success, marks[m].at);
    assert (marks + more)[m] == marks[m];
  }

  /** Marks that add a success, or a warning only where none was pending. */
  lemma WarningsAppended(marks: seq<Mark>, more: seq<Mark>)
    requires WarnsOnce(marks)
    requires forall j | 0 <= j < |more| && more[j].kind == Warning ::
               forall i | 0 <= i < |marks| && marks[i].gateway == more[j].gateway && marks[i].kind == Warning ::
                 SuccessBetween(marks, marks[i].gateway, i, |marks|)
    requires |more| <= 2 && (|more| == 2 ==> more[0].kind != Warning)
    ensures WarnsOnce(marks + more)
  {
    var all := marks + more;
    forall i, j | 0 <= i < j < |all| && all[i].gateway == all[j].gateway && all[i].kind == Warning
        && all[j].kind == Warning
      ensures SuccessBetween(all, all[i].gateway, i, j)
    {
      assert i < |marks|;
      SuccessStays(marks, more, all[i].gateway, i, if j < |marks| then j else |marks|);
    }
  }

  /** One process, `gateway`, writes `more` and leaves its breaker at `b`. */
  lemma WritingKeepsWarnings(s: State, t: State, gateway: int, b: Breaker, more: seq<Mark>)
    requires WarningsRemembered(s) && WarnsOnce(s.marks)
    requires t.marks == s.marks + more && t.breakers == s.breakers[gateway := b]
    requires forall i | 0 <= i < |more| :: more[i].gateway == gateway
    requires forall i | 0 <= i < |more| :: more[i].kind == Warning ==> b.warned && !BreakerOf(s, gateway).warned
    requires |more| <= 2 && (|more| == 2 ==> more[0].kind != Warning)
    requires BreakerOf(s, gateway).warned && !b.warned ==> |more| > 0 && more[0].kind == Success
    ensures WarningsRemembered(t) && WarnsOnce(t.marks)
  {
    WarningsAppended(s.marks, more);
    forall i | 0 <= i < |t.marks| && t.marks[i].kind == Warning && !BreakerOf(t, t.marks[i].gateway).warned
      ensures SuccessBetween(t.marks, t.marks[i].gateway, i, |t.marks|)
    {
      assert i < |s.marks| && t.marks[i] == s.marks[i];
      if BreakerOf(s, t.marks[i].gateway).warned {
        assert t.marks[|s.marks|] == more[0];
      } else {
        SuccessStays(s.marks, more, t.marks[i].gateway, i, |s.marks|);
      }
    }
  }

  lemma StepKeepsWarnings(s: State, e: Event)
    requires WarningsRemembered(s) && WarnsOnce(s.marks)
    ensures WarningsRemembered(Step(s, e)) && WarnsOnce(Step(s, e).marks)
  {
    var t := Step(s, e);
    if e.Hit? {
      HitKeepsWarnings(s, e.request);
    } else if e.Deliver? && t != s {
      DeliverKeepsWarnings(s, e.id);
    } else if e.Break? && t != s {
      BreakKeepsWarnings(s, e.id);
    }
  }

  lemma HitKeepsWarnings(s: State, q: Request)
    requires WarningsRemembered(s) && WarnsOnce(s.marks)
    ensures WarningsRemembered(OnHit(s, q)) && WarnsOnce(OnHit(s, q).marks)
  {
    if OnHit(s, q).marks != s.marks {
      WarningsAppended(s.marks, [Mark(q.gateway, Attempt, s.now)]);
      QuietMarkKeepsWarnings(s, OnHit(s, q));
    }
  }

  lemma DeliverKeepsWarnings(s: State, id: int)
    requires WarningsRemembered(s) && WarnsOnce(s.marks) && id in s.flights && s.flights[id].Answering?
    ensures WarningsRemembered(OnDeliver(s, id)) && WarnsOnce(OnDeliver(s, id).marks)
  {
    var gateway := s.flights[id].request.gateway;
    WritingKeepsWarnings(s, OnDeliver(s, id), gateway, OnReply(BreakerOf(s, gateway)), [Mark(gateway, Success, s.now)]);
  }

  lemma BreakKeepsWarnings(s: State, id: int)
    requires WarningsRemembered(s) && WarnsOnce(s.marks) && id in s.flights && !s.flights[id].Abandoned?
    ensures WarningsRemembered(OnBreak(s, id)) && WarnsOnce(OnBreak(s, id).marks)
  {
    var gateway := s.flights[id].request.gateway;
    WritingKeepsWarnings(s, OnBreak(s, id), gateway, OnFailure(BreakerOf(s, gateway), s.now), FailureMarks(s, gateway));
  }

  lemma QuietMarkKeepsWarnings(s: State, t: State)
    requires WarningsRemembered(s) && t.breakers == s.breakers
    requires |t.marks| == |s.marks| + 1 && s.marks <= t.marks && t.marks[|s.marks|].kind != Warning
    ensures WarningsRemembered(t)
  {
    forall i | 0 <= i < |t.marks| && t.marks[i].kind == Warning && !BreakerOf(t, t.marks[i].gateway).warned
      ensures SuccessBetween(t.marks, t.marks[i].gateway, i, |t.marks|)
    {
      SuccessStays(s.marks, t.marks[|s.marks|..], t.marks[i].gateway, i, |s.marks|);
      assert s.marks + t.marks[|s.marks|..] == t.marks;
    }
  }

  /**
   * After a failure recorded by a process, that process starts no new attempt on Redis for two seconds,
   * and between two of its warnings Redis answered it at least once.
   */
  lemma {:induction false} BreakerHolds(withRedis: set<int>, now: int, events: seq<Event>)
    ensures var s := Run(Init(withRedis, now), events);
            BreakerQuiet(s.marks) && WarnsOnce(s.marks) && FailuresHoldDown(s) && WarningsRemembered(s)
  {
    if events != [] {
      var s := Run(Init(withRedis, now), events[..|events| - 1]);
      BreakerHolds(withRedis, now, events[..|events| - 1]);
      StepKeepsQuiet(s, events[|events| - 1]);
      StepKeepsWarnings(s, events[|events| - 1]);
    }
  }

  // ---- The breaker opens only for failures, and failures are told ----

  predicate FailureAt(marks: seq<Mark>, gateway: int, i: int) {
    0 <= i < |marks| && marks[i].gateway == gateway && marks[i].kind == Failure
  }

  /** A process that was ever down owes it to a failure of its own, two seconds before the breaker closes. */
  ghost predicate DownOnlyForFailures(s: State) {
    forall g | g in s.breakers && s.breakers[g].downUntil != 0 ::
      exists i :: FailureAt(s.marks, g, i) && s.marks[i].at + BREAKER_MS == s.breakers[g].downUntil
  }

  lemma StepKeepsCause(s: State, e: Event)
    requires DownOnlyForFailures(s)
    ensures DownOnlyForFailures(Step(s, e))
  {
    var t := Step(s, e);
    assert s.marks <= t.marks;
    forall g | g in t.breakers && t.breakers[g].downUntil != 0
      ensures exists i :: FailureAt(t.marks, g, i) && t.marks[i].at + BREAKER_MS == t.breakers[g].downUntil
    {
      if BreakerOf(s, g).downUntil == t.breakers[g].downUntil {
        var i :| FailureAt(s.marks, g, i) && s.marks[i].at + BREAKER_MS == s.breakers[g].downUntil;
        assert FailureAt(t.marks, g, i) && t.marks[i] == s.marks[i];
      } else {
        assert t.marks[|s.marks|] == Mark(g, Failure, s.now);
        assert FailureAt(t.marks, g, |s.marks|);
      }
    }
  }

  lemma {:induction false} DownForACause(withRedis: set<int>, now: int, events: seq<Event>)
    ensures DownOnlyForFailures(Run(Init(withRedis, now), events))
  {
    if events != [] {
      DownForACause(withRedis, now, events[..|events| - 1]);
      StepKeepsCause(Run(Init(withRedis, now), events[..|events| - 1]), events[|events| - 1]);
    }
  }

  lemma {:induction false} RedisStays(withRedis: set<int>, now: int, events: seq<Event>)
    ensures Run(Init(withRedis, now), events).withRedis == withRedis
  {
    if events != [] {
      RedisStays(withRedis, now, events[..|events| - 1]);
      StepKeepsRedis(Run(Init(withRedis, now), events[..|events| - 1]), events[|events| - 1]);
    }
  }

  lemma StepKeepsRedis(s: State, e: Event)
    ensures Step(s, e).withRedis == s.withRedis
  {
  }

  /**
   * A hit goes to Redis exactly when its limit is positive, its process has a Redis and recorded no failure within
   * the last two seconds.
   */
  lemma AttemptsExactlyWhenQuiet(withRedis: set<int>, now: int, events: seq<Event>, q: Request)
    requires Run(Init(withRedis, now), events).now >= 0
    ensures var s := Run(Init(withRedis, now), events);
            s.nextId in Step(s, Hit(q)).flights
            <==> q.rule.limit > 0 && q.gateway in withRedis
                 && forall i | FailureAt(s.marks, q.gateway, i) :: s.marks[i].at + BREAKER_MS <= s.now
  {
    BreakerHolds(withRedis, now, events);
    DownForACause(withRedis, now, events);
    RedisStays(withRedis, now, events);
    EveryHitIsAnswered(withRedis, now, events);
    var s := Run(Init(withRedis, now), events);
    assert s.nextId !in s.flights;
    if BreakerOf(s, q.gateway).downUntil > s.now {
      var i :| FailureAt(s.marks, q.gateway, i) && s.marks[i].at + BREAKER_MS == s.breakers[q.gateway].downUntil;
    }
  }

  /** A warning of the process before position `to`, with no success of it in between. */
  ghost predicate WarnedBefore(marks: seq<Mark>, gateway: int, to: int) {
    exists j :: 0 <= j < to <= |marks| && marks[j].gateway == gateway && marks[j].kind == Warning
                && forall m | j < m < to && marks[m].gateway == gateway :: marks[m].kind != Success
  }

  /** Every failure is covered by a warning: an earlier one still pending, or the one written with it. */
  ghost predicate FailuresWarned(marks: seq<Mark>) {
    forall i | 0 <= i < |marks| && marks[i].kind == Failure ::
      WarnedBefore(marks, marks[i].gateway, i)
          || (i + 1 < |marks| && marks[i + 1].gateway == marks[i].gateway && marks[i + 1].kind == Warning)
  }

  ghost predicate WarnedAreTold(s: State) {
    forall g | g in s.breakers && s.breakers[g].warned :: WarnedBefore(s.marks, g, |s.marks|)
  }

  lemma WarnedStays(marks: seq<Mark>, more: seq<Mark>, gateway: int, to: int)
    requires WarnedBefore(marks, gateway, to)
    ensures WarnedBefore(marks + more, gateway, to)
    ensures to == |marks| && (forall k | 0 <= k < |more| && more[k].gateway == gateway :: more[k].kind != Success)
            ==> WarnedBefore(marks + more, gateway, |marks + more|)
  {
    var j :| 0 <= j < to <= |marks| && marks[j].gateway == gateway && marks[j].kind == Warning
             && forall m | j < m < to && marks[m].gateway == gateway :: marks[m].kind != Success;
    var all := marks + more;
    assert all[j] == marks[j];
    assert forall m | 0 <= m < |marks| :: all[m] == marks[m];
  }

  lemma AppendKeepsWarned(marks: seq<Mark>, more: seq<Mark>)
    requires FailuresWarned(marks)
    requires |more| > 0 && more[0].kind == Failure ==>
               WarnedBefore(marks, more[0].gateway, |marks|)
                   || (|more| > 1 && more[1].gateway == more[0].gateway && more[1].kind == Warning)
    requires forall k | 1 <= k < |more| :: more[k].kind != Failure
    ensures FailuresWarned(marks + more)
  {
    var all := marks + more;
    forall i | 0 <= i < |all| && all[i].kind == Failure
      ensures WarnedBefore(all, all[i].gateway, i)
              || (i + 1 < |all| && all[i + 1].gateway == all[i].gateway && all[i + 1].kind == Warning)
    {
      if i < |marks| {
        if WarnedBefore(marks, marks[i].gateway, i) {
          WarnedStays(marks, more, marks[i].gateway, i);
        }
      } else if WarnedBefore(marks, more[0].gateway, |marks|) {
        WarnedStays(marks, more, more[0].gateway, |marks|);
      }
    }
  }

  lemma BreakIsTold(s: State, id: int)
    requires WarnedAreTold(s) && FailuresWarned(s.marks) && id in s.flights && !s.flights[id].Abandoned?
    ensures WarnedAreTold(OnBreak(s, id)) && FailuresWarned(OnBreak(s, id).marks)
  {
    var t, gateway := OnBreak(s, id), s.flights[id].request.gateway;
    var more := FailureMarks(s, gateway);
    AppendKeepsWarned(s.marks, more);
    forall g | g in t.breakers && t.breakers[g].warned
      ensures WarnedBefore(t.marks, g, |t.marks|)
    {
      if BreakerOf(s, g).warned {
        WarnedStays(s.marks, more, g, |s.marks|);
      } else {
        assert t.marks[|s.marks| + 1] == Mark(g, Warning, s.now);
      }
    }
  }

  lemma OtherMarkIsTold(s: State, t: State, x: Mark)
    requires WarnedAreTold(s) && FailuresWarned(s.marks) && t.marks == s.marks + [x]
             && (x.kind == Attempt || x.kind == Success)
    requires forall g | g in t.breakers && t.breakers[g].warned ::
               BreakerOf(s, g).warned && (x.gateway == g ==> x.kind != Success)
    ensures WarnedAreTold(t) && FailuresWarned(t.marks)
  {
    AppendKeepsWarned(s.marks, [x]);
    forall g | g in t.breakers && t.breakers[g].warned
      ensures WarnedBefore(t.marks, g, |t.marks|)
    {
      WarnedStays(s.marks, [x], g, |s.marks|);
    }
  }

  lemma StepIsTold(s: State, e: Event)
    requires WarnedAreTold(s) && FailuresWarned(s.marks)
    ensures WarnedAreTold(Step(s, e)) && FailuresWarned(Step(s, e).marks)
  {
    var t := Step(s, e);
    if e.Break? && t != s {
      BreakIsTold(s, e.id);
    } else if t.marks != s.marks {
      var gateway := if e.Hit? then e.request.gateway else s.flights[e.id].request.gateway;
      OtherMarkIsTold(s, t, Mark(gateway, if e.Hit? then Attempt else Success, s.now));
    }
  }

  /** No failure goes unheard: a warning of its process is pending when it happens, or is given with it. */
  lemma {:induction false} EveryFailureWarned(withRedis: set<int>, now: int, events: seq<Event>)
    ensures var s := Run(Init(withRedis, now), events); WarnedAreTold(s) && FailuresWarned(s.marks)
  {
    if events != [] {
      EveryFailureWarned(withRedis, now, events[..|events| - 1]);
      StepIsTold(Run(Init(withRedis, now), events[..|events| - 1]), events[|events| - 1]);
    }
  }
}
