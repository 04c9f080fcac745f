/**
 * The session store: who is signed in, a timer that ends the session, and a copy in storage that a new
 * store starts from. Behind `withoutCredential` the copy never holds the token.
 */
module Session {
  import opened Numbers
  import opened Wrappers

  const COOKIE_SESSION_TOKEN := "cookie-session"
  const MAX_DELAY_MS := 2_000_000_000

  datatype Status = ANONYMOUS | AUTHENTICATED | EXPIRED

  /** `expiresAt` is the parsed date, `None` when it does not parse; `profile` is whatever else is kept. */
  datatype Session = Session(token: string, expiresAt: Option<int>, profile: string)

  /** `read` is `None` where parsing throws or the token is not a string. */
  datatype Json = Json(write: Session -> string, read: string -> Option<Session>)

  /** How the store was created: with or without storage that can remove, credential kept or not. */
  datatype Config = Config(json: Json, hasStorage: bool, canRemove: bool, withoutCredential: bool)

  ghost predicate Faithful(config: Config) {
    forall s :: config.json.write(s) != [] && config.json.read(config.json.write(s)) == Some(s)
  }

  datatype Timer = Timer(armedAt: int, deadline: int)

  datatype Store = Store(status: Status, session: Option<Session>, timer: Option<Timer>, stored: Option<string>)

  /** An unparsable date arms the timer with no delay. */
  function Delay(session: Session, now: int): int {
    match session.expiresAt
    case None => 0
    case Some(at) => Min(Max(at - now, 0), MAX_DELAY_MS)
  }

  /** What is written for a session. */
  function Kept(config: Config, session: Session): Session {
    if config.withoutCredential then session.(token := COOKIE_SESSION_TOKEN) else session
  }

  function Persist(config: Config, stored: Option<string>, session: Option<Session>): Option<string> {
    if !config.hasStorage then stored
    else if session.Some? then Some(config.json.write(Kept(config, session.value)))
    else if config.canRemove then None
    else Some("")
  }

  function Authenticated(session: Session, now: int, stored: Option<string>): Store {
    Store(AUTHENTICATED, Some(session), Some(Timer(now, now + Delay(session, now))), stored)
  }

  function Set(config: Config, s: Store, session: Session, now: int): Store {
    Authenticated(session, now, Persist(config, s.stored, Some(session)))
  }

  function Clear(config: Config, s: Store): Store {
    Store(ANONYMOUS, None, None, Persist(config, s.stored, None))
  }

  function Expire(config: Config, s: Store): Store {
    if s.status != AUTHENTICATED then s else Store(EXPIRED, s.session, None, Persist(config, s.stored, None))
  }

  function Token(s: Store): Option<string> {
    if s.status == AUTHENTICATED && s.session.Some? then Some(s.session.value.token) else None
  }

  /** A new store over what the storage holds. */
  function Restore(config: Config, stored: Option<string>, now: int): Store {
    if !config.hasStorage || stored.None? || stored.value == [] then Store(ANONYMOUS, None, None, stored)
    else
      var saved := config.json.read(stored.value);
      if saved.Some? && saved.value.expiresAt.Some? && saved.value.expiresAt.value > now
      then Authenticated(saved.value, now, stored)
      else Store(ANONYMOUS, None, None, Persist(config, stored, None))
  }

  class SessionStore {
    const config: Config
    var status: Status
    var session: Option<Session>
    var timer: Option<Timer>
    var stored: Option<string>

    function View(): Store
      reads this
    {
      Store(status, session, timer, stored)
    }

    constructor (config: Config, raw: Option<string>, now: int)
      ensures this.config == config && View() == Restore(config, raw, now)
    {
      this.config := config;
      status, session, timer, stored := ANONYMOUS, None, None, raw;
      new;
      if config.hasStorage && raw.Some? && raw.value != [] {
        var saved := config.json.read(raw.value);
        if saved.Some? && saved.value.expiresAt.Some? && saved.value.expiresAt.value > now {
          Apply(AUTHENTICATED, saved, now);
        } else {
          PersistCopy(None);
        }
      }
    }

    method PersistCopy(s: Option<Session>)
      modifies this`stored
      ensures stored == Persist(config, old(stored), s)
    {
      if !config.hasStorage {
        return;
      }
      if s.Some? {
        stored := Some(config.json.write(Kept(config, s.value)));
      } else if config.canRemove {
        stored := None;
      } else {
        stored := Some("");
      }
    }

    /** Replaces the state and re-arms the timer. */
    method Apply(status': Status, session': Option<Session>, now: int)
      modifies this`status, this`session, this`timer
      ensures status == status' && session == session'
      ensures timer == if status' == AUTHENTICATED && session'.Some?
                       then Some(Timer(now, now + Delay(session'.value, now)))
                       else None
    {
      status, session := status', session';
      timer := None;
      if status' == AUTHENTICATED && session'.Some? {
        timer := Some(Timer(now, now + Delay(session'.value, now)));
      }
    }

    method SetSession(s: Session, now: int)
      modifies this
      ensures View() == Set(config, old(View()), s, now)
    {
      PersistCopy(Some(s));
      Apply(AUTHENTICATED, Some(s), now);
    }

    method ClearSession(now: int)
      modifies this
      ensures View() == Clear(config, old(View()))
    {
      PersistCopy(None);
      Apply(ANONYMOUS, None, now);
    }

    /** Also what the timer does when it fires. Listeners hear of it only if a session was live. */
    method ExpireSession(now: int) returns (applied: bool)
      modifies this
      ensures View() == Expire(config, old(View())) && applied == (old(status) == AUTHENTICATED)
    {
      if status != AUTHENTICATED {
        return false;
      }
      PersistCopy(None);
      Apply(EXPIRED, session, now);
      return true;
    }
  }

  // ---- Every run ----

  datatype Event =
    | Advance(to: int)
    | SetTo(session: Session)
    | SignOut
    | Refuse        // the platform rejected the token
    | Fire          // the timer, at its deadline or later

  datatype World = World(now: int, store: Store)

  function Step(config: Config, w: World, e: Event): World {
    match e
    case Advance(to) => if w.now <= to then w.(now := to) else w
    case SetTo(session) => w.(store := Set(config, w.store, session, w.now))
    case SignOut => w.(store := Clear(config, w.store))
    case Refuse => w.(store := Expire(config, w.store))
    case Fire =>
      if w.store.timer.Some? && w.store.timer.value.deadline <= w.now then w.(store := Expire(config, w.store)) else w
  }

  function Start(config: Config, stored: Option<string>, now: int): World {
    World(now, Restore(config, stored, now))
  }

  function Run(config: Config, start: World, events: seq<Event>): World {
    if events == [] then start else Step(config, Run(config, start, events[..|events| - 1]), events[|events| - 1])
  }

  predicate Blank(stored: Option<string>) {
    stored.None? || stored.value == []
  }

  /** Storage holds the session, apart from a token `withoutCredential` took out. */
  predicate Holds(config: Config, stored: Option<string>, session: Session) {
    stored.Some? && config.json.read(stored.value) in [Some(session), Some(Kept(config, session))]
  }

  predicate Sound(config: Config, s: Store) {
    && (s.status == AUTHENTICATED ==> s.session.Some?)
    && (s.timer.Some? <==> s.status == AUTHENTICATED)
    && (Token(s).Some? <==> s.status == AUTHENTICATED)
    && (config.hasStorage ==>
          if s.status == AUTHENTICATED then Holds(config, s.stored, s.session.value) else Blank(s.stored))
  }

  /**
   * In every reachable state a timer is armed, and a token handed out, exactly while someone is signed in;
   * storage then decodes to the session and is empty otherwise; and the status turns EXPIRED only from
   * AUTHENTICATED.
   */
  lemma {:induction false} RunIsSound(config: Config, stored: Option<string>, now: int, events: seq<Event>)
    requires Faithful(config)
    ensures var w := Run(config, Start(config, stored, now), events);
            && Sound(config, w.store)
            && forall e :: Step(config, w, e).store.status == EXPIRED ==> w.store.status != ANONYMOUS
  {
    if events != [] {
      RunIsSound(config, stored, now, events[..|events| - 1]);
    }
  }

  /** The session set last, if nobody signed out since; `first` is the one the store began with. */
  function LastSet(first: Option<Session>, events: seq<Event>): Option<Session> {
    if events == [] then first
    else
      match events[|events| - 1]
      case SetTo(session) => Some(session)
      case SignOut => None
      case _ => LastSet(first, events[..|events| - 1])
  }

  /** In every run the session kept is the one set last, and the token handed out while signed in is its own. */
  lemma {:induction false} TokenIsLastSet(config: Config, stored: Option<string>, now: int, events: seq<Event>)
    ensures var start := Start(config, stored, now); var w := Run(config, start, events);
            var last := LastSet(start.store.session, events);
            && w.store.session == last
            && (w.store.status == AUTHENTICATED ==> last.Some? && Token(w.store) == Some(last.value.token))
  {
    if events != [] {
      TokenIsLastSet(config, stored, now, events[..|events| - 1]);
    }
  }

  /** The armed timer has run to its deadline. */
  predicate Due(w: World) {
    w.store.timer.Some? && w.store.timer.value.deadline <= w.now
  }

  /**
   * Whoever sets a session is signed in, and stays so until a sign-out, a refusal or a timer that is due; only a
   * refusal and the timer leave a session expired.
   */
  lemma SignedInUntil(config: Config, w: World, e: Event)
    ensures Step(config, w, e).store.status == AUTHENTICATED
            <==> e.SetTo?
                 || (w.store.status == AUTHENTICATED && !e.SignOut? && !e.Refuse? && !(e.Fire? && Due(w)))
    ensures Step(config, w, e).store.status == EXPIRED
            <==> (w.store.status == EXPIRED && !e.SetTo? && !e.SignOut?)
                 || (w.store.status == AUTHENTICATED && (e.Refuse? || (e.Fire? && Due(w))))
  {
  }

  /** No clock step passes the deadline of an armed timer without firing it. */
  predicate Punctual(w: World, e: Event) {
    e.Advance? && w.store.timer.Some? ==> e.to <= w.store.timer.value.deadline
  }

  predicate PunctualRun(config: Config, start: World, events: seq<Event>) {
    forall i | 0 <= i < |events| :: Punctual(Run(config, start, events[..i]), events[i])
  }

  /**
   * The session ends no later than it runs out, or the moment it was set if it had run out by then or names no date.
   */
  predicate NotOverdue(w: World) {
    w.store.status == AUTHENTICATED && w.store.timer.Some? && w.store.session.Some? ==>
      var t := w.store.timer.value;
      && t.armedAt <= w.now <= t.deadline
      && t.deadline == t.armedAt + Delay(w.store.session.value, t.armedAt)
      && w.now <= match w.store.session.value.expiresAt case Some(at) => Max(t.armedAt, at) case None => t.armedAt
  }

  lemma StepNotOverdue(config: Config, w: World, e: Event)
    requires Sound(config, w.store) && NotOverdue(w) && Punctual(w, e)
    ensures NotOverdue(Step(config, w, e))
  {
  }

  lemma {:induction false} NeverOverdue(config: Config, stored: Option<string>, now: int, events: seq<Event>)
    requires Faithful(config) && PunctualRun(config, Start(config, stored, now), events)
    ensures NotOverdue(Run(config, Start(config, stored, now), events))
  {
    if events != [] {
      var start, n := Start(config, stored, now), |events| - 1;
      assert events[..n] + [events[n]] == events;
      PunctualBefore(config, start, events, n);
      NeverOverdue(config, stored, now, events[..n]);
      RunIsSound(config, stored, now, events[..n]);
      StepNotOverdue(config, Run(config, start, events[..n]), events[n]);
    }
  }

  /** In a punctual run a session is live past its end exactly if it was set, or restored, after its end. */
  lemma PastItsEndOnlyIfSetAfterIt(config: Config, stored: Option<string>, now: int, events: seq<Event>)
    requires Faithful(config) && PunctualRun(config, Start(config, stored, now), events)
    ensures var w := Run(config, Start(config, stored, now), events);
            w.store.status == AUTHENTICATED ==>
              && w.store.timer.Some? && w.store.session.Some?
              && (w.store.session.value.expiresAt.Some? ==>
                    (w.now > w.store.session.value.expiresAt.value
                     <==> w.store.timer.value.armedAt > w.store.session.value.expiresAt.value))
  {
    RunIsSound(config, stored, now, events);
    NeverOverdue(config, stored, now, events);
  }

  /** Setting a session that has ended reaches such a state, until the timer of no delay fires. */
  lemma EndedSessionIsBrieflyLive(config: Config, stored: Option<string>, now: int, session: Session)
    requires session.expiresAt.Some? && session.expiresAt.value < now
    ensures var start := Start(config, stored, now); var w := Run(config, start, [SetTo(session)]);
            && PunctualRun(config, start, [SetTo(session)])
            && w.store.status == AUTHENTICATED && w.store.session == Some(session) && w.now > session.expiresAt.value
            && Step(config, w, Fire).store.status == EXPIRED
  {
    assert [SetTo(session)][..0] == [];
  }

  lemma PunctualBefore(config: Config, start: World, events: seq<Event>, n: nat)
    requires n < |events| && PunctualRun(config, start, events)
    ensures PunctualRun(config, start, events[..n]) && Punctual(Run(config, start, events[..n]), events[n])
  {
    forall i | 0 <= i < n
      ensures Punctual(Run(config, start, events[..n][..i]), events[..n][i])
    {
      assert events[..n][..i] == events[..i];
      assert Punctual(Run(config, start, events[..i]), events[i]);
    }
  }

  /** The deadline falls before the end of the session exactly when more was left of it than a timer takes. */
  lemma DeadlineFallsShort(session: Session, armedAt: int)
    requires session.expiresAt.Some?
    ensures armedAt + Delay(session, armedAt) < session.expiresAt.value
            <==> session.expiresAt.value - armedAt > MAX_DELAY_MS
  {
  }

  /** The timer is the one armed for the session it will end. */
  predicate TimerFits(w: World) {
    w.store.timer.Some? ==>
      var t := w.store.timer.value;
      && w.store.status == AUTHENTICATED && w.store.session.Some?
      && t.armedAt <= w.now && t.deadline == t.armedAt + Delay(w.store.session.value, t.armedAt)
  }

  lemma {:induction false} RunFitsTimer(config: Config, stored: Option<string>, now: int, events: seq<Event>)
    ensures TimerFits(Run(config, Start(config, stored, now), events))
  {
    if events != [] {
      RunFitsTimer(config, stored, now, events[..|events| - 1]);
    }
  }

  /** A timer is armed for a session with a readable date. */
  predicate Dated(w: World) {
    w.store.timer.Some? && w.store.session.Some? && w.store.session.value.expiresAt.Some?
  }

  function LeftWhenArmed(w: World): int
    requires Dated(w)
  {
    w.store.session.value.expiresAt.value - w.store.timer.value.armedAt
  }

  /** In this state the timer, if it fires now, ends the session before its time. */
  predicate EndsEarly(config: Config, w: World) {
    && w.store.status == AUTHENTICATED && Step(config, w, Fire).store.status == EXPIRED
    && w.store.session.Some? && w.store.session.value.expiresAt.Some?
    && w.now < w.store.session.value.expiresAt.value
  }

  /**
   * In every run, punctual or not, the timer ends a session early only if more than two billion milliseconds
   * of it, the longest delay a timer takes, were left when it was armed; and a timer that fires at its very
   * deadline then does end it early.
   */
  lemma TimerEndsEarlyOnlyBeyondMaxDelay(config: Config, stored: Option<string>, now: int, events: seq<Event>)
    ensures var w := Run(config, Start(config, stored, now), events);
            && (EndsEarly(config, w) ==> Dated(w) && LeftWhenArmed(w) > MAX_DELAY_MS)
            && (Dated(w) && w.now == w.store.timer.value.deadline ==>
                  (EndsEarly(config, w) <==> LeftWhenArmed(w) > MAX_DELAY_MS))
  {
    RunFitsTimer(config, stored, now, events);
    var w := Run(config, Start(config, stored, now), events);
    if Dated(w) {
      DeadlineFallsShort(w.store.session.value, w.store.timer.value.armedAt);
    }
  }

  /** Every longer session, set and left alone, does end early, by a punctual timer. */
  lemma LongSessionsEndEarly(config: Config, stored: Option<string>, now: int, session: Session)
    requires session.expiresAt.Some? && session.expiresAt.value - now > MAX_DELAY_MS
    ensures var events := [SetTo(session), Advance(now + MAX_DELAY_MS)];
            && PunctualRun(config, Start(config, stored, now), events)
            && EndsEarly(config, Run(config, Start(config, stored, now), events))
  {
    var start := Start(config, stored, now);
    var events := [SetTo(session), Advance(now + MAX_DELAY_MS)];
    assert events[..1] == [SetTo(session)] && events[..0] == [];
    assert Run(config, start, events[..1]) == Step(config, start, SetTo(session)) by {
      assert [SetTo(session)][..0] == [];
    }
    assert events[..2] == events;
  }

  /**
   * A new store over the same storage signs the same person in, for as long as the session has not run
   * out, and otherwise starts anonymous with the storage emptied.
   */
  lemma RestartRestores(config: Config, stored: Option<string>, now: int, events: seq<Event>, later: int)
    requires Faithful(config) && config.hasStorage
    requires Run(config, Start(config, stored, now), events).store.status == AUTHENTICATED
    ensures var before := Run(config, Start(config, stored, now), events).store;
            var after := Restore(config, before.stored, later);
            var live := before.session.Some? && before.session.value.expiresAt.Some?
                && before.session.value.expiresAt.value > later;
            && before.session.Some?
            && (live <==> after.status == AUTHENTICATED)
            && (live ==>
                  && (after.session == before.session
                      || (config.withoutCredential
                          && after.session == Some(before.session.value.(token := COOKIE_SESSION_TOKEN))))
                  && after.stored == before.stored)
            && (!live ==> after.status == ANONYMOUS && Blank(after.stored))
  {
    RunIsSound(config, stored, now, events);
  }

  /** What is stored carries no token but the placeholder. */
  predicate NoCredential(config: Config, stored: Option<string>) {
    !Blank(stored) && config.json.read(stored.value).Some? ==>
      config.json.read(stored.value).value.token == COOKIE_SESSION_TOKEN
  }

  /** Behind `withoutCredential` storage that holds no token never comes to hold one, and none is restored from it. */
  lemma {:induction false} CredentialNeverStored(config: Config, stored: Option<string>, now: int, events: seq<Event>,
          later: int)
    requires Faithful(config) && config.withoutCredential && config.hasStorage && NoCredential(config, stored)
    ensures var w := Run(config, Start(config, stored, now), events);
            && NoCredential(config, w.store.stored)
            && Token(Restore(config, w.store.stored, later)) in [None, Some(COOKIE_SESSION_TOKEN)]
  {
    if events != [] {
      CredentialNeverStored(config, stored, now, events[..|events| - 1], later);
    }
  }
}
