/**
 * The ticketed reader behind every screen: only the newest read may land, a tick never starts a second
 * read, and a cleanup disowns what is still running. Methods are the steps between awaits; any order of
 * completions, ticks, manual refreshes, dependency changes and unmounts is a sequence of them.
 */
module UseAsync {
  import opened Wrappers

  /** A run of `read`: its ticket, whether the user asked for it, and the mount or gap it began in. */
  datatype Started = Started(ticket: nat, manual: bool, epoch: nat)

  /** A run whose result reached the state: `newest` is the last run begun by then. */
  datatype Landing<T, E> = Landing(ticket: nat, epoch: nat, newest: nat, outcome: Result<T, E>)

  /** What happened so far. Every effect and every cleanup begins a new epoch. */
  datatype Trace<T, E> = Trace(started: seq<Started>, settled: set<nat>, epoch: nat, landings: seq<Landing<T, E>>)

  datatype State<T, E> = State(
    generation: nat,
    inFlight: Option<nat>,
    data: Option<T>,
    error: Option<E>,
    loading: bool,
    refreshing: bool,
    active: bool,   // the interval and the foreground listener are installed
    trace: Trace<T, E>)

  datatype Event<T, E> =
    | Effect
    | Cleanup
    | Tick
    | Refresh
    | Settle(ticket: nat, outcome: Result<T, E>)
    | Clear(cleared: nat)

  function Init<T, E>(): State<T, E> {
    State(0, None, None, None, true, false, false, Trace([], {}, 0, []))
  }

  function Begin<T, E>(s: State<T, E>, manual: bool): State<T, E> {
    var ticket := s.generation + 1;
    s.(generation := ticket,
       inFlight := Some(ticket),
       refreshing := s.refreshing || manual,
       trace := s.trace.(started := s.trace.started + [Started(ticket, manual, s.trace.epoch)]))
  }

  predicate Running<T, E>(t: Trace<T, E>, ticket: nat) {
    ticket !in t.settled && exists i :: 0 <= i < |t.started| && t.started[i].ticket == ticket
  }

  function InfoOf<T, E>(t: Trace<T, E>, ticket: nat): (r: Started)
    requires Running(t, ticket)
    ensures r in t.started && r.ticket == ticket
  {
    FindStarted(t.started, ticket)
  }

  function FindStarted(started: seq<Started>, ticket: nat): (r: Started)
    requires exists i :: 0 <= i < |started| && started[i].ticket == ticket
    ensures r in started && r.ticket == ticket
  {
    if started[0].ticket == ticket then started[0] else FindStarted(started[1..], ticket)
  }

  function Land<T, E>(s: State<T, E>, ticket: nat, outcome: Result<T, E>): State<T, E>
    requires Running(s.trace, ticket)
  {
    var run := InfoOf(s.trace, ticket);
    s.(data := if outcome.Ok? then Some(outcome.value) else s.data,
       error := if outcome.Ok? then None else Some(outcome.error),
       loading := false,
       refreshing := s.refreshing && !run.manual,
       trace := s.trace.(settled := s.trace.settled + {ticket},
                         landings := s.trace.landings
                           + [Landing(ticket, s.trace.epoch, s.trace.started[|s.trace.started| - 1].ticket, outcome)]))
  }

  /** The effect, up to its first read. */
  function Mounted<T, E>(s: State<T, E>): State<T, E> {
    s.(inFlight := None, loading := true, refreshing := false, active := true,
       trace := s.trace.(epoch := s.trace.epoch + 1))
  }

  function Step<T, E>(s: State<T, E>, e: Event<T, E>): State<T, E> {
    match e
    case Effect =>
      if s.active then s else
      Begin(Mounted(s), false)
    case Cleanup =>
      if !s.active then s else
      s.(generation := s.generation + 1, active := false, trace := s.trace.(epoch := s.trace.epoch + 1))
    case Tick => if s.active && s.inFlight.None? then Begin(s, false) else s
    case Refresh => Begin(s, true)
    case Settle(ticket, outcome) =>
      if !Running(s.trace, ticket) then s
      else if ticket == s.generation then Land(s, ticket, outcome)
      else s.(trace := s.trace.(settled := s.trace.settled + {ticket}))
    case Clear(ticket) =>
      if ticket in s.trace.settled && s.inFlight == Some(ticket) then s.(inFlight := None) else s
  }

  function Run<T, E>(events: seq<Event<T, E>>): State<T, E> {
    if events == [] then Init() else Step(Run(events[..|events| - 1]), events[|events| - 1])
  }

  // ---- The hook ----

  class Hook<T, E> {
    var generation: nat
    var inFlight: Option<nat>
    var data: Option<T>
    var error: Option<E>
    var loading: bool
    var refreshing: bool
    var active: bool
    ghost var trace: Trace<T, E>

    ghost function View(): State<T, E>
      reads this
    {
      State(generation, inFlight, data, error, loading, refreshing, active, trace)
    }

    constructor ()
      ensures View() == Init()
    {
      generation, inFlight, data, error := 0, None, None, None;
      loading, refreshing, active := true, false, false;
      trace := Trace([], {}, 0, []);
    }

    /** `run`, up to the await of `read`. */
    method RunRead(manual: bool) returns (ticket: nat)
      modifies this
      ensures View() == Begin(old(View()), manual) && ticket == generation
    {
      generation := generation + 1;
      ticket := generation;
      if manual {
        refreshing := true;
      }
      inFlight := Some(ticket);
      trace := trace.(started := trace.started + [Started(ticket, manual, trace.epoch)]);
    }

    /** `run`, after the await: `manual` is the argument the run was started with. */
    method Finish(ticket: nat, manual: bool, outcome: Result<T, E>)
      requires Running(trace, ticket) && InfoOf(trace, ticket).manual == manual
      modifies this
      ensures View() == Step(old(View()), Settle(ticket, outcome))
    {
      ghost var newest := trace.started[|trace.started| - 1].ticket;
      match outcome {
        case Ok(value) =>
          if ticket == generation {
            data := Some(value);
            error := None;
          }
        case Err(cause) =>
          if ticket == generation {
            error := Some(cause);
          }
      }
      if ticket == generation {
        loading := false;
        if manual {
          refreshing := false;
        }
        trace := trace.(landings := trace.landings + [Landing(ticket, trace.epoch, newest, outcome)]);
      }
      trace := trace.(settled := trace.settled + {ticket});
    }

    /** The `finally` attached to the pending promise. */
    method ClearInFlight(ticket: nat)
      requires ticket in trace.settled
      modifies this
      ensures View() == Step(old(View()), Clear(ticket))
    {
      if inFlight == Some(ticket) {
        inFlight := None;
      }
    }

    method Background()
      requires active
      modifies this
      ensures View() == Step(old(View()), Tick)
    {
      if inFlight.None? {
        var _ := RunRead(false);
      }
    }

    method Mount()
      requires !active
      modifies this
      ensures View() == Step(old(View()), Effect)
    {
      inFlight := None;
      loading := true;
      refreshing := false;
      active := true;
      trace := trace.(epoch := trace.epoch + 1);
      var _ := RunRead(false);
    }

    method Unmount()
      requires active
      modifies this
      ensures View() == Step(old(View()), Cleanup)
    {
      generation := generation + 1;
      active := false;
      trace := trace.(epoch := trace.epoch + 1);
    }

    method RefreshNow() returns (ticket: nat)
      modifies this
      ensures View() == Step(old(View()), Refresh)
    {
      ticket := RunRead(true);
    }
  }

  // ---- Every run ----

  function Newest<T, E>(s: State<T, E>): Started
    requires s.trace.started != []
  {
    s.trace.started[|s.trace.started| - 1]
  }

  ghost predicate Tickets<T, E>(s: State<T, E>) {
    var started := s.trace.started;
    && (forall i, j | 0 <= i < j < |started| :: started[i].ticket < started[j].ticket)
    && (forall i | 0 <= i < |started| :: started[i].ticket <= s.generation && started[i].epoch <= s.trace.epoch)
    && (forall t | t in s.trace.settled :: t <= s.generation)
  }

  /** The newest run holds the current ticket only while nothing has begun a new epoch since. */
  ghost predicate NewestIsCurrent<T, E>(s: State<T, E>) {
    s.trace.started != [] && Newest(s).ticket == s.generation ==> Newest(s).epoch == s.trace.epoch
  }

  ghost predicate StartedIn(started: seq<Started>, ticket: nat, epoch: nat) {
    exists k :: 0 <= k < |started| && started[k].ticket == ticket && started[k].epoch == epoch
  }

  /** The landing belonged to the newest run, which began in the very epoch it landed in. */
  ghost predicate LandedWell<T, E>(trace: Trace<T, E>, l: Landing<T, E>) {
    l.ticket == l.newest && l.ticket in trace.settled && l.epoch <= trace.epoch
        && StartedIn(trace.started, l.ticket, l.epoch)
  }

  /** Landed tickets strictly increase, each belonged to the newest run, and none crossed an effect or a cleanup. */
  ghost predicate LandingsInOrder<T, E>(trace: Trace<T, E>) {
    && (forall i, j | 0 <= i < j < |trace.landings| :: trace.landings[i].ticket < trace.landings[j].ticket)
    && (forall i | 0 <= i < |trace.landings| :: LandedWell(trace, trace.landings[i]))
  }

  /** Nothing has landed since the last effect or cleanup. */
  ghost predicate Waiting<T, E>(trace: Trace<T, E>) {
    forall i | 0 <= i < |trace.landings| :: trace.landings[i].epoch < trace.epoch
  }

  /** While mounted: the newest run is known, in flight until settled, and the flags follow it. */
  ghost predicate FlagsFollowNewest<T, E>(s: State<T, E>) {
    && (s.inFlight.Some? ==> s.trace.started != [] && s.inFlight.value == Newest(s).ticket)
    && (s.active ==>
          && s.trace.started != []
          && Newest(s).ticket == s.generation
          && (s.inFlight.None? ==> Newest(s).ticket in s.trace.settled)
          && (s.refreshing <==> Newest(s).manual && Newest(s).ticket !in s.trace.settled)
          && (s.loading <==> Waiting(s.trace)))
  }

  function LastData<T, E>(landings: seq<Landing<T, E>>): Option<T> {
    if landings == [] then None
    else if landings[|landings| - 1].outcome.Ok? then Some(landings[|landings| - 1].outcome.value)
    else LastData(landings[..|landings| - 1])
  }

  /** The screen shows the last value that landed, and an error only if the last landing was one. */
  ghost predicate ShowsLanded<T, E>(s: State<T, E>) {
    var landings := s.trace.landings;
    && s.data == LastData(landings)
    && s.error == if landings != [] && landings[|landings| - 1].outcome.Err?
                  then Some(landings[|landings| - 1].outcome.error)
                  else None
  }

  ghost predicate Sound<T, E>(s: State<T, E>) {
    Tickets(s) && NewestIsCurrent(s) && LandingsInOrder(s.trace) && FlagsFollowNewest(s) && ShowsLanded(s)
  }

  /** Runs that begin or settle without landing leave the landings as good as they were. */
  lemma LandingsStay<T, E>(s: Trace<T, E>, t: Trace<T, E>)
    requires LandingsInOrder(s) && t.landings == s.landings && s.settled <= t.settled && s.started <= t.started
             && s.epoch <= t.epoch
    ensures LandingsInOrder(t)
  {
    forall i | 0 <= i < |t.landings|
      ensures LandedWell(t, t.landings[i])
    {
      var l := s.landings[i];
      assert LandedWell(s, l);
      var k :| 0 <= k < |s.started| && s.started[k].ticket == l.ticket && s.started[k].epoch == l.epoch;
      assert t.started[k] == s.started[k];
    }
  }

  lemma BeginKeepsTickets<T, E>(s: State<T, E>, manual: bool)
    requires Tickets(s)
    ensures Tickets(Begin(s, manual)) && NewestIsCurrent(Begin(s, manual))
  {
  }

  lemma BeginIsSound<T, E>(s: State<T, E>, manual: bool)
    requires Tickets(s) && LandingsInOrder(s.trace) && ShowsLanded(s)
    requires s.active ==> (s.refreshing || manual <==> manual) && (s.loading <==> Waiting(s.trace))
    ensures Sound(Begin(s, manual))
  {
    BeginKeepsTickets(s, manual);
    LandingsStay(s.trace, Begin(s, manual).trace);
    assert s.generation + 1 !in s.trace.settled;
  }

  lemma LandingJoins<T, E>(s: Trace<T, E>, t: Trace<T, E>, l: Landing<T, E>)
    requires LandingsInOrder(s) && l.ticket == l.newest && l.epoch == s.epoch
    requires forall i | 0 <= i < |s.landings| :: s.landings[i].ticket < l.ticket
    requires StartedIn(s.started, l.ticket, l.epoch)
    requires t == s.(settled := s.settled + {l.ticket}, landings := s.landings + [l])
    ensures LandingsInOrder(t) && !Waiting(t)
  {
    assert t.landings[|s.landings|] == l;
    forall i | 0 <= i < |s.landings|
      ensures LandedWell(t, t.landings[i])
    {
      assert LandedWell(s, s.landings[i]);
    }
  }

  /** Only the newest run holds the current ticket, and while it runs every landing came before it. */
  lemma CurrentIsNewest<T, E>(s: State<T, E>, ticket: nat)
    requires Sound(s) && Running(s.trace, ticket) && ticket == s.generation
    ensures InfoOf(s.trace, ticket) == Newest(s) && StartedIn(s.trace.started, ticket, s.trace.epoch)
    ensures forall i | 0 <= i < |s.trace.landings| :: s.trace.landings[i].ticket < ticket
  {
    var k :| 0 <= k < |s.trace.started| && s.trace.started[k].ticket == ticket;
    assert k == |s.trace.started| - 1;
    assert s.trace.started[k].epoch == s.trace.epoch;
    forall i | 0 <= i < |s.trace.landings|
      ensures s.trace.landings[i].ticket < ticket
    {
      assert LandedWell(s.trace, s.trace.landings[i]);
    }
  }

  lemma LandIsSound<T, E>(s: State<T, E>, ticket: nat, outcome: Result<T, E>)
    requires Sound(s) && Running(s.trace, ticket) && ticket == s.generation
    ensures Sound(Land(s, ticket, outcome))
  {
    var t := Land(s, ticket, outcome);
    CurrentIsNewest(s, ticket);
    LandingJoins(s.trace, t.trace, Landing(ticket, s.trace.epoch, ticket, outcome));
    assert t.trace.landings[..|s.trace.landings|] == s.trace.landings;
  }

  /** A new epoch opens with nothing landed in it. */
  lemma EpochOpens<T, E>(s: Trace<T, E>, t: Trace<T, E>)
    requires LandingsInOrder(s) && t == s.(epoch := s.epoch + 1)
    ensures LandingsInOrder(t) && Waiting(t)
  {
    LandingsStay(s, t);
    forall i | 0 <= i < |t.landings|
      ensures t.landings[i].epoch < t.epoch
    {
      assert LandedWell(s, s.landings[i]);
    }
  }

  lemma MountedIsReady<T, E>(s: State<T, E>)
    requires Tickets(s) && LandingsInOrder(s.trace) && ShowsLanded(s)
    ensures var m := Mounted(s);
            Tickets(m) && LandingsInOrder(m.trace) && ShowsLanded(m) && Waiting(m.trace) && m.loading && !m.refreshing
  {
    EpochOpens(s.trace, Mounted(s).trace);
  }

  lemma EffectIsSound<T, E>(s: State<T, E>)
    requires Sound(s) && !s.active
    ensures Sound(Step(s, Effect))
  {
    MountedIsReady(s);
    BeginIsSound(Mounted(s), false);
  }

  /** A run that is no longer the newest settles without landing. */
  lemma DisownedIsSound<T, E>(s: State<T, E>, ticket: nat, outcome: Result<T, E>)
    requires Sound(s) && Running(s.trace, ticket) && ticket != s.generation
    ensures Sound(Step(s, Settle(ticket, outcome)))
  {
    LandingsStay(s.trace, Step(s, Settle(ticket, outcome)).trace);
  }

  lemma CleanupIsSound<T, E>(s: State<T, E>)
    requires Sound(s) && s.active
    ensures Sound(Step(s, Cleanup))
  {
    EpochOpens(s.trace, Step(s, Cleanup).trace);
  }

  lemma ClearIsSound<T, E>(s: State<T, E>, ticket: nat)
    requires Sound(s) && ticket in s.trace.settled && s.inFlight == Some(ticket)
    ensures Sound(Step(s, Clear(ticket)))
  {
    assert Step(s, Clear(ticket)) == s.(inFlight := None);
  }

  lemma StepIsSound<T, E>(s: State<T, E>, e: Event<T, E>)
    requires Sound(s)
    ensures Sound(Step(s, e))
  {
    match e
    case Effect =>
      if !s.active {
        EffectIsSound(s);
      }
    case Cleanup =>
      if s.active {
        CleanupIsSound(s);
      }
    case Tick =>
      if s.active && s.inFlight.None? {
        BeginIsSound(s, false);
      }
    case Refresh => BeginIsSound(s, true);
    case Settle(ticket, outcome) =>
      if Running(s.trace, ticket) && ticket == s.generation {
        LandIsSound(s, ticket, outcome);
      } else if Running(s.trace, ticket) {
        DisownedIsSound(s, ticket, outcome);
      }
    case Clear(ticket) =>
      if ticket in s.trace.settled && s.inFlight == Some(ticket) {
        ClearIsSound(s, ticket);
      }
  }

  lemma {:induction false} RunIsSound<T, E>(events: seq<Event<T, E>>)
    ensures Sound(Run(events))
  {
    if events != [] {
      RunIsSound(events[..|events| - 1]);
      StepIsSound(Run(events[..|events| - 1]), events[|events| - 1]);
    }
  }

  // ---- Which events start a read ----

  /** The `finally` of the run has been reached: it was settled by then. */
  ghost predicate Finished<T, E>(events: seq<Event<T, E>>, ticket: nat) {
    exists i :: 0 <= i < |events| && events[i].Clear? && events[i].cleared == ticket
                && ticket in Run(events[..i]).trace.settled
  }

  lemma FinishedStep<T, E>(events: seq<Event<T, E>>, ticket: nat)
    requires events != []
    ensures var before, e := events[..|events| - 1], events[|events| - 1];
            Finished(events, ticket)
            <==> Finished(before, ticket) || (e == Clear(ticket) && ticket in Run(before).trace.settled)
  {
    var n := |events| - 1;
    forall i | 0 <= i < n
      ensures events[..n][..i] == events[..i] && events[..n][i] == events[i]
    {
    }
    if Finished(events, ticket) {
      var i :| 0 <= i < |events| && events[i].Clear? && events[i].cleared == ticket
               && ticket in Run(events[..i]).trace.settled;
      assert i < n ==> events[..n][i].Clear? && events[..n][..i] == events[..i];
    }
  }

  /** The newest run is in flight until its `finally`. */
  ghost predicate InFlightUntilFinished<T, E>(events: seq<Event<T, E>>) {
    var s := Run(events);
    && (forall ticket | Finished(events, ticket) :: ticket in s.trace.settled)
    && (s.trace.started != [] ==> (s.inFlight.None? <==> Finished(events, Newest(s).ticket)))
  }

  lemma BegunIsInFlight<T, E>(s: State<T, E>, e: Event<T, E>)
    requires Sound(s) && Step(s, e).trace.started != s.trace.started
    ensures var t := Step(s, e);
            && t.trace.started != [] && t.inFlight == Some(Newest(t).ticket)
            && Newest(t).ticket !in s.trace.settled && t.trace.settled == s.trace.settled
            && !e.Clear?
  {
  }

  lemma OthersKeepInFlight<T, E>(s: State<T, E>, e: Event<T, E>)
    requires Step(s, e).trace.started == s.trace.started
    ensures s.trace.settled <= Step(s, e).trace.settled
    ensures Step(s, e).inFlight
            == if e.Clear? && s.inFlight == Some(e.cleared) && e.cleared in s.trace.settled then None else s.inFlight
  {
    assert e.Refresh? ==> |Step(s, e).trace.started| > |s.trace.started|;
    assert e.Effect? && !s.active ==> |Step(s, e).trace.started| > |s.trace.started|;
  }

  lemma {:induction false} NewestIsInFlight<T, E>(events: seq<Event<T, E>>)
    ensures InFlightUntilFinished(events)
  {
    if events != [] {
      var before, e := events[..|events| - 1], events[|events| - 1];
      var s, t := Run(before), Run(events);
      NewestIsInFlight(before);
      RunIsSound(before);
      forall ticket
        ensures Finished(events, ticket)
                <==> Finished(before, ticket) || (e == Clear(ticket) && ticket in s.trace.settled)
      {
        FinishedStep(events, ticket);
      }
      if t.trace.started == s.trace.started {
        OthersKeepInFlight(s, e);
      } else {
        BegunIsInFlight(s, e);
      }
    }
  }

  /** Mounted: the last effect has not been cleaned up. */
  predicate IsMounted<T, E>(events: seq<Event<T, E>>) {
    events != []
    && match events[|events| - 1]
       case Effect => true
       case Cleanup => false
       case _ => IsMounted(events[..|events| - 1])
  }

  lemma {:induction false} ActiveWhileMounted<T, E>(events: seq<Event<T, E>>)
    ensures Run(events).active <==> IsMounted(events)
  {
    if events != [] {
      ActiveWhileMounted(events[..|events| - 1]);
    }
  }

  /** The event calls `run`: the effect of a hook not mounted, the user, or a tick when nothing is under way. */
  ghost predicate Starts<T, E>(events: seq<Event<T, E>>, e: Event<T, E>) {
    var started := Run(events).trace.started;
    match e
    case Effect => !IsMounted(events)
    case Refresh => true
    case Tick => IsMounted(events) && started != [] && Finished(events, started[|started| - 1].ticket)
    case _ => false
  }

  /**
   * In every run, exactly these events start a read, one and no more, with a ticket above all before it: in
   * particular a tick while mounted does if and only if the newest run has been through its `finally`.
   */
  lemma ReadsStartExactly<T, E>(events: seq<Event<T, E>>, e: Event<T, E>)
    ensures var s := Run(events); var t := Step(s, e);
            if Starts(events, e) then
              && t.trace.started != [] && t.trace.started == s.trace.started + [Newest(t)]
              && Newest(t).manual == e.Refresh? && Newest(t).epoch == t.trace.epoch
              && forall r | r in s.trace.started :: r.ticket < Newest(t).ticket
            else t.trace.started == s.trace.started
  {
    RunIsSound(events);
    NewestIsInFlight(events);
    ActiveWhileMounted(events);
    var s := Run(events);
    if Starts(events, e) {
      StartsOne(s, e);
    } else {
      StartsNone(s, e);
    }
  }

  lemma StartsOne<T, E>(s: State<T, E>, e: Event<T, E>)
    requires Tickets(s)
    requires (e.Effect? && !s.active) || e.Refresh? || (e.Tick? && s.active && s.inFlight.None?)
    ensures var t := Step(s, e);
            && t.trace.started != [] && t.trace.started == s.trace.started + [Newest(t)]
            && Newest(t).manual == e.Refresh? && Newest(t).epoch == t.trace.epoch
            && forall r | r in s.trace.started :: r.ticket < Newest(t).ticket
  {
  }

  lemma StartsNone<T, E>(s: State<T, E>, e: Event<T, E>)
    requires !(e.Effect? && !s.active) && !e.Refresh? && !(e.Tick? && s.active && s.inFlight.None?)
    ensures Step(s, e).trace.started == s.trace.started
  {
  }

  /** A poll goes on: once the newest run has settled and its `finally` has run, the next tick reads again. */
  lemma PollGoesOn<T, E>(events: seq<Event<T, E>>, ticket: nat, outcome: Result<T, E>)
    requires IsMounted(events) && Running(Run(events).trace, ticket) && ticket == Newest(Run(events)).ticket
    ensures var s := Run(events); var t := Step(Step(Step(s, Settle(ticket, outcome)), Clear(ticket)), Tick);
            |t.trace.started| == |s.trace.started| + 1 && !Newest(t).manual && ticket < Newest(t).ticket
  {
    RunIsSound(events);
    ActiveWhileMounted(events);
    var s := Run(events);
    var settled := Step(s, Settle(ticket, outcome));
    assert settled.trace.started == s.trace.started && settled.active && ticket in settled.trace.settled;
    assert settled.inFlight == Some(ticket);
  }

  /** In no run does a tick start a read while the newest read is unfinished. */
  lemma TickNeverOverlaps<T, E>(events: seq<Event<T, E>>)
    ensures var s := Run(events);
            Step(s, Tick).trace.started != s.trace.started ==>
              s.trace.started != [] && Newest(s).ticket in s.trace.settled
  {
    RunIsSound(events);
  }

  /** A run begun before the last cleanup settles without a trace on the screen. */
  lemma CleanupDisowns<T, E>(events: seq<Event<T, E>>, ticket: nat, outcome: Result<T, E>)
    requires Running(Run(events).trace, ticket) && InfoOf(Run(events).trace, ticket).epoch < Run(events).trace.epoch
    ensures var s := Run(events); var t := Step(s, Settle(ticket, outcome));
            t == s.(trace := s.trace.(settled := s.trace.settled + {ticket}))
  {
    RunIsSound(events);
    var s := Run(events);
    var k :| 0 <= k < |s.trace.started| && s.trace.started[k] == InfoOf(s.trace, ticket);
    assert ticket == s.generation ==> k == |s.trace.started| - 1;
  }

  /** While mounted the newest run, whenever it ends, is the one whose result is shown; every other run ends unseen. */
  lemma NewestRunLands<T, E>(events: seq<Event<T, E>>, ticket: nat, outcome: Result<T, E>)
    requires Run(events).active && Running(Run(events).trace, ticket)
    ensures var s := Run(events); var t := Step(s, Settle(ticket, outcome));
            && s.trace.started != []
            && if ticket == Newest(s).ticket
               then !t.loading && !t.refreshing && (outcome.Ok? ==> t.data == Some(outcome.value) && t.error.None?)
                    && (outcome.Err? ==> t.data == s.data && t.error == Some(outcome.error))
               else t == s.(trace := s.trace.(settled := s.trace.settled + {ticket}))
  {
    RunIsSound(events);
    if ticket == Run(events).generation {
      CurrentIsNewest(Run(events), ticket);
    }
  }
}
