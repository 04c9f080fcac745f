/** The warning before a session runs out: it follows the session store and tells listeners what changed. */
module SessionMonitor {
  import opened Numbers
  import opened Wrappers
  import Session

  datatype Phase = SIGNED_OUT | ACTIVE | EXPIRING | EXPIRED

  /** `remainingMs` is `None` while the session's date does not parse. */
  datatype State = State(phase: Phase, remainingMs: Option<int>)

  const NOBODY := State(SIGNED_OUT, Some(0))

  function Compute(store: Session.Store, warnBeforeMs: int, now: int): State {
    if store.status == Session.EXPIRED then State(EXPIRED, Some(0))
    else if store.status != Session.AUTHENTICATED || store.session.None? then NOBODY
    else
      match store.session.value.expiresAt
      case None => State(ACTIVE, None)
      case Some(at) =>
        var left := Max(0, at - now);
        State(if left <= warnBeforeMs then EXPIRING else ACTIVE, Some(left))
  }

  /** The warning is up exactly from `warnBeforeMs` before the end of a live session on, and stays up as time passes. */
  lemma WarningIsExact(store: Session.Store, warnBeforeMs: nat, now: int, later: int)
    requires now <= later
    ensures Compute(store, warnBeforeMs, now).phase == EXPIRING
            <==> store.status == Session.AUTHENTICATED && store.session.Some?
                 && store.session.value.expiresAt.Some? && store.session.value.expiresAt.value - warnBeforeMs <= now
    ensures Compute(store, warnBeforeMs, now).phase == EXPIRING
            ==> Compute(store, warnBeforeMs, later).phase == EXPIRING
  {
  }

  /** The rest of the session: to its very end, never below nothing, unknown without a date and none when signed out. */
  predicate ShowsRest(s: State, store: Session.Store, now: int) {
    if store.status == Session.AUTHENTICATED && store.session.Some? then
      match store.session.value.expiresAt
      case None => s.remainingMs == None
      case Some(end) =>
        s.remainingMs.Some? && if now <= end then now + s.remainingMs.value == end else s.remainingMs.value == 0
    else s.remainingMs == Some(0)
  }

  /** What a listener shows: the phase, and the whole seconds left while the warning is up. */
  datatype Face = Face(phase: Phase, seconds: int)

  function FaceOf(s: State): Face {
    Face(s.phase, if s.phase == EXPIRING && s.remainingMs.Some? then s.remainingMs.value / 1000 else 0)
  }

  /** The comparison the monitor makes; a missing number differs from every number. */
  predicate Changed(previous: State, next: State) {
    next.phase != previous.phase
    || (next.phase == EXPIRING
        && (next.remainingMs.None? || previous.remainingMs.None?
           || next.remainingMs.value / 1000 != previous.remainingMs.value / 1000))
  }

  /**
   * `start` is the face the monitor was created with, before anyone could listen; `shown` are the notifications since.
   */
  datatype Monitor = Monitor(state: State, ticking: bool, disposed: bool, start: Face, shown: seq<Face>)

  function Update(m: Monitor, store: Session.Store, warnBeforeMs: int, now: int): Monitor {
    var next := Compute(store, warnBeforeMs, now);
    m.(state := next, shown := if Changed(m.state, next) && !m.disposed then m.shown + [FaceOf(next)] else m.shown)
  }

  function Schedule(m: Monitor, store: Session.Store): Monitor {
    m.(ticking := store.status == Session.AUTHENTICATED)
  }

  function Create(store: Session.Store, warnBeforeMs: int, now: int): Monitor {
    var state := Compute(store, warnBeforeMs, now);
    Schedule(Monitor(state, false, false, FaceOf(state), []), store)
  }

  class SessionMonitor {
    const store: Session.SessionStore
    const warnBeforeMs: int
    var state: State
    var ticking: bool
    var disposed: bool
    ghost var start: Face
    ghost var shown: seq<Face>

    ghost function View(): Monitor
      reads this
    {
      Monitor(state, ticking, disposed, start, shown)
    }

    constructor (store: Session.SessionStore, warnBeforeMs: int, now: int)
      ensures this.store == store && this.warnBeforeMs == warnBeforeMs
      ensures View() == Create(store.View(), warnBeforeMs, now)
    {
      this.store, this.warnBeforeMs := store, warnBeforeMs;
      state, ticking, disposed, start, shown := NOBODY, false, false, FaceOf(NOBODY), [];
      new;
      var _ := Refreshed(now);
      start, shown := FaceOf(state), [];
      Rescheduled();
    }

    method Refreshed(now: int) returns (fires: bool)
      modifies this
      ensures View() == Update(old(View()), store.View(), warnBeforeMs, now)
      ensures fires == (Changed(old(state), state) && !disposed)
    {
      var next := Compute(store.View(), warnBeforeMs, now);
      fires := Changed(state, next) && !disposed;
      state := next;
      if fires {
        shown := shown + [FaceOf(next)];
      }
    }

    method Rescheduled()
      modifies this
      ensures View() == Schedule(old(View()), store.View())
    {
      ticking := false;
      if store.status == Session.AUTHENTICATED {
        ticking := true;
      }
    }

    /** The listener on the store. */
    method OnStoreEvent(now: int)
      requires !disposed
      modifies this
      ensures View() == Schedule(Update(old(View()), store.View(), warnBeforeMs, now), store.View())
    {
      var _ := Refreshed(now);
      Rescheduled();
    }

    method Dispose()
      modifies this
      ensures View() == old(View()).(ticking := false, disposed := true)
    {
      ticking, disposed := false, true;
    }
  }

  // ---- The monitor beside its store ----

  datatype World = World(config: Session.Config, warnBeforeMs: int, now: int, store: Session.Store, monitor: Monitor)

  datatype Event =
    | Store(event: Session.Event)
    | Tick             // of the interval, only while it runs
    | RefreshedByUser  // `refresh`, once the platform has answered: by then the session may be gone
    | Dispose

  /** The store tells its listeners of every change it applies, which an expiry without a session is not. */
  predicate Applies(w: Session.World, e: Session.Event) {
    e.SetTo? || e.SignOut?
    || (w.store.status == Session.AUTHENTICATED
        && (e.Refuse? || (e.Fire? && w.store.timer.Some? && w.store.timer.value.deadline <= w.now)))
  }

  function Step(w: World, e: Event): World {
    match e
    case Store(event) =>
      var s := Session.Step(w.config, Session.World(w.now, w.store), event);
      w.(now := s.now, store := s.store,
         monitor := if Applies(Session.World(w.now, w.store), event) && !w.monitor.disposed
                    then Schedule(Update(w.monitor, s.store, w.warnBeforeMs, s.now), s.store) else w.monitor)
    case Tick => if w.monitor.ticking then w.(monitor := Update(w.monitor, w.store, w.warnBeforeMs, w.now)) else w
    case RefreshedByUser => w.(monitor := Update(w.monitor, w.store, w.warnBeforeMs, w.now))
    case Dispose => w.(monitor := w.monitor.(ticking := false, disposed := true))
  }

  function Start(config: Session.Config, warnBeforeMs: int, store: Session.Store, now: int): World {
    World(config, warnBeforeMs, now, store, Create(store, warnBeforeMs, now))
  }

  function Run(start: World, events: seq<Event>): World {
    if events == [] then start else Step(Run(start, events[..|events| - 1]), events[|events| - 1])
  }

  /** What somebody who listened from the start was told last, or found at the start. */
  function LastShown(m: Monitor): Face {
    if m.shown == [] then m.start else m.shown[|m.shown| - 1]
  }

  /** No notification repeats the one before it, nor the face the monitor started with. */
  predicate NeverTwice(m: Monitor) {
    && (forall i | 0 <= i < |m.shown| - 1 :: m.shown[i] != m.shown[i + 1])
    && (m.shown != [] ==> m.shown[0] != m.start)
  }

  /** The phase the store's status alone decides. */
  predicate PhaseFits(phase: Phase, status: Session.Status) {
    match status
    case EXPIRED => phase == EXPIRED
    case ANONYMOUS => phase == SIGNED_OUT
    case AUTHENTICATED => phase == ACTIVE || phase == EXPIRING
  }

  predicate Follows(w: World) {
    && (w.store.status == Session.AUTHENTICATED ==> w.store.session.Some?)
    && (!w.monitor.disposed ==>
          && PhaseFits(w.monitor.state.phase, w.store.status)
          && (w.monitor.ticking <==> w.store.status == Session.AUTHENTICATED)
          && LastShown(w.monitor) == FaceOf(w.monitor.state))
    && (w.monitor.disposed ==> !w.monitor.ticking)
    && (w.monitor.state.phase == EXPIRING ==> w.monitor.state.remainingMs.Some?)
    && NeverTwice(w.monitor)
  }

  /** Listeners are told exactly when what they show would change. */
  lemma ChangedIsNewFace(previous: State, next: State)
    requires previous.phase == EXPIRING ==> previous.remainingMs.Some?
    requires next.phase == EXPIRING ==> next.remainingMs.Some?
    ensures Changed(previous, next) <==> FaceOf(previous) != FaceOf(next)
    ensures next.phase == EXPIRING ==>
              1000 * FaceOf(next).seconds <= next.remainingMs.value < 1000 * FaceOf(next).seconds + 1000
  {
  }

  lemma UpdateFollows(w: World, m: Monitor, store: Session.Store, now: int)
    requires w.store == store && m == Update(w.monitor, store, w.warnBeforeMs, now)
    requires store.status == Session.AUTHENTICATED ==> store.session.Some?
    requires !w.monitor.disposed ==> LastShown(w.monitor) == FaceOf(w.monitor.state)
    requires w.monitor.state.phase == EXPIRING ==> w.monitor.state.remainingMs.Some?
    requires NeverTwice(w.monitor)
    ensures PhaseFits(m.state.phase, store.status)
    ensures !m.disposed ==> LastShown(m) == FaceOf(m.state)
    ensures m.state.phase == EXPIRING ==> m.state.remainingMs.Some?
    ensures NeverTwice(m)
  {
    ChangedIsNewFace(w.monitor.state, m.state);
  }

  lemma StepFollows(w: World, e: Event)
    requires Follows(w)
    ensures Follows(Step(w, e))
  {
    var t := Step(w, e);
    UpdateFollows(w.(store := t.store), Update(w.monitor, t.store, w.warnBeforeMs, t.now), t.store, t.now);
  }

  /**
   * Until it is disposed the monitor's interval runs exactly while someone is signed in, its phase fits the
   * store, and the last thing listeners were told is the phase and second it holds; they are never told the
   * same twice in a row.
   */
  lemma {:induction false} RunFollows(config: Session.Config, warnBeforeMs: int, store: Session.Store, now: int,
          events: seq<Event>)
    requires store.status == Session.AUTHENTICATED ==> store.session.Some?
    ensures Follows(Run(Start(config, warnBeforeMs, store, now), events))
  {
    if events != [] {
      RunFollows(config, warnBeforeMs, store, now, events[..|events| - 1]);
      StepFollows(Run(Start(config, warnBeforeMs, store, now), events[..|events| - 1]), events[|events| - 1]);
    }
  }

  lemma {:induction false} NotificationsGrow(start: World, events: seq<Event>)
    ensures var m := Run(start, events).monitor;
            && start.monitor.shown <= m.shown && m.start == start.monitor.start
            && (!m.disposed ==> !start.monitor.disposed)
  {
    if events != [] {
      NotificationsGrow(start, events[..|events| - 1]);
    }
  }

  /**
   * Who reads the state at some moment and then follows the notifications knows the phase and second the monitor
   * holds.
   */
  lemma SubscriberIsCurrent(config: Session.Config, warnBeforeMs: int, store: Session.Store, now: int,
          before: seq<Event>, after: seq<Event>)
    requires store.status == Session.AUTHENTICATED ==> store.session.Some?
    requires !Run(Run(Start(config, warnBeforeMs, store, now), before), after).monitor.disposed
    ensures var atFirst := Run(Start(config, warnBeforeMs, store, now), before).monitor;
            var later := Run(Run(Start(config, warnBeforeMs, store, now), before), after).monitor;
            && atFirst.shown <= later.shown
            && FaceOf(later.state)
               == if later.shown == atFirst.shown then FaceOf(atFirst.state) else later.shown[|later.shown| - 1]
  {
    var start := Start(config, warnBeforeMs, store, now);
    RunFollows(config, warnBeforeMs, store, now, before);
    RunFollows(config, warnBeforeMs, store, now, before + after);
    RunAppend(start, before, after);
    NotificationsGrow(Run(start, before), after);
  }

  lemma RunMore(start: World, events: seq<Event>, e: Event)
    ensures Run(start, events + [e]) == Step(Run(start, events), e)
  {
    assert (events + [e])[..|events|] == events;
  }

  lemma {:induction false} RunAppend(start: World, before: seq<Event>, after: seq<Event>)
    ensures Run(start, before + after) == Run(Run(start, before), after)
  {
    if after == [] {
      assert before + after == before;
    } else {
      var front, last := after[..|after| - 1], after[|after| - 1];
      RunAppend(start, before, front);
      RunMore(start, before + front, last);
      assert before + front + [last] == before + after;
    }
  }

  /** The passing of time alone tells the monitor nothing, nor does a tick of an interval that does not run. */
  lemma QuietEvents(w: World, e: Event)
    requires (e.Tick? && !w.monitor.ticking)
             || (e.Store? && Step(w, e).store == w.store && !e.event.SetTo? && !e.event.SignOut?)
    ensures Step(w, e).monitor == w.monitor
  {
  }

  /**
   * Right after every change the store applies, every tick and every refresh, the state is the one computed at that
   * moment, and tells the rest of the session to its end.
   */
  lemma StateIsCurrent(w: World, e: Event)
    requires !w.monitor.disposed
    requires e.RefreshedByUser? || (e.Tick? && w.monitor.ticking)
             || (e.Store? && Applies(Session.World(w.now, w.store), e.event))
    ensures var t := Step(w, e);
            && t.monitor.state == Compute(t.store, t.warnBeforeMs, t.now)
            && ShowsRest(t.monitor.state, t.store, t.now)
  {
  }
}
