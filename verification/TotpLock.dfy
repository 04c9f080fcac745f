/**
 * Handing out authenticator steps to test processes that run in parallel: a directory is the lock, a
 * file holds the last step taken. Every call of every process is one `caller`; calls interleave freely
 * and may fail at any point inside the lock, which the `finally` then releases.
 */
module TotpLock {
  import opened Wrappers

  const STEP_MS := 30_000

  datatype Phase =
    | Entered                       // the directory is ours, nothing read yet
    | Chosen(step: int, at: int)    // the step is computed, its time has not come or it is not written
    | Written(step: int, at: int)   // the file holds the step
    | Left                          // the call has returned or thrown

  /** A step returned: the clock when it was computed and when the call returned. */
  datatype Grant = Grant(caller: int, step: int, chosenAt: int, returnedAt: int)

  /** A step written to the file, and the clock when it was computed. */
  datatype Taken = Taken(step: int, chosenAt: int)

  datatype State = State(
    now: int,
    locked: bool,
    stepFile: Option<int>,
    phases: map<int, Phase>,
    writes: seq<Taken>,
    grants: seq<Grant>)

  datatype Event =
    | Advance(to: int)
    | Mkdir(caller: int)
    | Choose(caller: int)
    | Write(caller: int)
    | Return(caller: int)
    | Throw(caller: int)

  function ClockStep(now: int): int { now / STEP_MS }

  function NextStep(stepFile: Option<int>, now: int): int {
    var last := match stepFile case None => 0 case Some(n) => n;
    if ClockStep(now) >= last + 1 then ClockStep(now) else last + 1
  }

  /** The lock directory and the step file, and what one call does to them between its awaits. */
  class Files {
    var locked: bool
    var stepFile: Option<int>

    constructor (stepFile: Option<int>)
      ensures !locked && this.stepFile == stepFile
    {
      locked, this.stepFile := false, stepFile;
    }

    method Mkdir() returns (made: bool)
      modifies this`locked
      ensures made == !old(locked) && locked
    {
      made := !locked;
      locked := true;
    }

    method Rmdir()
      requires locked
      modifies this`locked
      ensures !locked
    {
      locked := false;
    }

    /**
     * The work done under the lock; `clock` holds the readings of the clock in order. Without an answer the
     * wait is not over at the last reading, and the file is untouched.
     */
    method TakeStep(clock: seq<int>) returns (step: Option<int>)
      requires locked && clock != []
      modifies this`stepFile
      ensures var next := NextStep(old(stepFile), clock[0]);
              if step.Some?
              then step.value == next && stepFile == step
                  && exists i | 1 <= i < |clock| :: ClockStep(clock[i]) >= next - 1
              else stepFile == old(stepFile) && forall i | 1 <= i < |clock| :: ClockStep(clock[i]) < next - 1
    {
      var last := match stepFile case None => 0 case Some(n) => n;
      var next := clock[0] / STEP_MS;
      if next < last + 1 {
        next := last + 1;
      }
      var i := 1;
      while i < |clock|
        invariant 1 <= i <= |clock|
        invariant forall k | 1 <= k < i :: ClockStep(clock[k]) < next - 1
      {
        if ClockStep(clock[i]) >= next - 1 {
          stepFile := Some(next);
          return stepFile;
        }
        i := i + 1;
      }
      return None;
    }
  }

  function Init(stepFile: Option<int>, now: int): State {
    State(now, false, stepFile, map[], [], [])
  }

  predicate In(s: State, caller: int) {
    caller in s.phases && !s.phases[caller].Left?
  }

  function Step(s: State, e: Event): State {
    match e
    case Advance(to) => if s.now <= to then s.(now := to) else s
    case Mkdir(c) =>
      // A directory that exists makes mkdir throw; the caller sleeps and tries again.
      if c in s.phases || s.locked then s else s.(locked := true, phases := s.phases[c := Entered])
    case Choose(c) =>
      if c in s.phases && s.phases[c].Entered?
      then s.(phases := s.phases[c := Chosen(NextStep(s.stepFile, s.now), s.now)]) else s
    case Write(c) =>
      if c in s.phases && s.phases[c].Chosen? && ClockStep(s.now) >= s.phases[c].step - 1
      then s.(stepFile := Some(s.phases[c].step), writes := s.writes + [Taken(s.phases[c].step, s.phases[c].at)],
              phases := s.phases[c := Written(s.phases[c].step, s.phases[c].at)]) else s
    case Return(c) =>
      if c in s.phases && s.phases[c].Written?
      then s.(locked := false, phases := s.phases[c := Left],
              grants := s.grants + [Grant(c, s.phases[c].step, s.phases[c].at, s.now)]) else s
    case Throw(c) =>
      if In(s, c) then s.(locked := false, phases := s.phases[c := Left]) else s
  }

  function Run(start: State, events: seq<Event>): State {
    if events == [] then start else Step(Run(start, events[..|events| - 1]), events[|events| - 1])
  }

  // ---- Mutual exclusion ----

  ghost predicate Exclusive(s: State) {
    && (forall a, b | In(s, a) && In(s, b) :: a == b)
    && (s.locked <==> exists c :: In(s, c))
  }

  // ---- The steps ----

  /** Nothing written is ahead of the file, and what is about to be written is. */
  ghost predicate FileLeads(s: State) {
    && (s.writes != [] ==> s.stepFile == Some(s.writes[|s.writes| - 1].step))
    && (forall c | c in s.phases && s.phases[c].Chosen? ::
          s.phases[c].at <= s.now && ClockStep(s.phases[c].at) <= s.phases[c].step
          && (s.stepFile.Some? ==> s.stepFile.value < s.phases[c].step))
    && (forall c | c in s.phases && s.phases[c].Written? ::
          s.phases[c].at <= s.now && ClockStep(s.phases[c].at) <= s.phases[c].step <= ClockStep(s.now) + 1
          && s.stepFile == Some(s.phases[c].step))
  }

  ghost predicate WritesRise(writes: seq<Taken>) {
    forall i, j | 0 <= i < j < |writes| :: writes[i].step < writes[j].step
  }

  ghost predicate GrantsRise(grants: seq<Grant>) {
    forall i, j | 0 <= i < j < |grants| :: grants[i].step < grants[j].step
  }

  /** What was returned has been written, and the file has come as far. */
  predicate Backed(s: State, g: Grant) {
    Taken(g.step, g.chosenAt) in s.writes && s.stepFile.Some? && g.step <= s.stepFile.value
  }

  ghost predicate Above(grants: seq<Grant>, step: int) {
    forall i | 0 <= i < |grants| :: grants[i].step < step
  }

  /** What is about to be returned has been written, and is above everything returned so far. */
  ghost predicate Fresh(s: State, p: Phase)
    requires p.Written?
  {
    Taken(p.step, p.at) in s.writes && Above(s.grants, p.step)
  }

  ghost predicate Increasing(s: State) {
    && WritesRise(s.writes)
    && GrantsRise(s.grants)
    && (forall i | 0 <= i < |s.grants| :: Backed(s, s.grants[i]))
    && (forall c | c in s.phases && s.phases[c].Written? :: Fresh(s, s.phases[c]))
  }

  predicate Timely(g: Grant) {
    g.chosenAt <= g.returnedAt && ClockStep(g.chosenAt) <= g.step <= ClockStep(g.returnedAt) + 1
  }

  ghost predicate Safe(s: State) {
    Exclusive(s) && FileLeads(s) && Increasing(s) && forall i | 0 <= i < |s.grants| :: Timely(s.grants[i])
  }

  lemma StepIsExclusive(s: State, e: Event)
    requires Exclusive(s)
    ensures Exclusive(Step(s, e))
  {
    var t := Step(s, e);
    if e.Mkdir? && !s.locked && e.caller !in s.phases {
      assert In(t, e.caller);
      assert forall c :: !In(s, c);
      assert forall c | In(t, c) :: c == e.caller || In(s, c);
    } else if !e.Advance? && In(s, e.caller) {
      assert forall c | In(t, c) :: In(s, c);
      assert In(t, e.caller) ==> t.locked;
    } else {
      assert forall c :: In(t, c) <==> In(s, c);
    }
  }

  lemma ClockStepGrows(a: int, b: int)
    requires a <= b
    ensures ClockStep(a) <= ClockStep(b)
  {
  }

  /** Inside the lock only the holder's phase matters: it alone is neither gone nor yet to come. */
  lemma OthersAreOut(s: State, caller: int)
    requires Exclusive(s) && In(s, caller)
    ensures forall c | c in s.phases && c != caller :: s.phases[c].Left?
  {
    forall c | c in s.phases && c != caller
      ensures s.phases[c].Left?
    {
      assert !In(s, c);
    }
  }

  lemma StepKeepsFileAhead(s: State, e: Event)
    requires Exclusive(s) && FileLeads(s)
    ensures FileLeads(Step(s, e))
  {
    if e.Advance? {
      if s.now <= e.to {
        ClockStepGrows(s.now, e.to);
      }
    } else if In(s, e.caller) {
      OthersAreOut(s, e.caller);
    }
  }

  lemma StepIsIncreasing(s: State, e: Event)
    requires Exclusive(s) && FileLeads(s) && Increasing(s)
    ensures Increasing(Step(s, e))
  {
    var t := Step(s, e);
    match e {
      case Write(c) =>
        if t != s {
          OthersAreOut(s, c);
          WrittenIsNew(s, t, c);
        }
      case Return(c) =>
        if t != s {
          OthersAreOut(s, c);
          ReturnedIsNew(s, t, c);
        }
      case _ =>
        RestStaysIncreasing(s, t);
    }
  }

  /** Nothing is written and nothing returned: a step that was about to be returned still may be. */
  lemma RestStaysIncreasing(s: State, t: State)
    requires Increasing(s) && t.writes == s.writes && t.grants == s.grants && t.stepFile == s.stepFile
    requires forall c | c in t.phases && t.phases[c].Written? :: c in s.phases && s.phases[c] == t.phases[c]
    ensures Increasing(t)
  {
    assert forall i | 0 <= i < |t.grants| :: Backed(s, s.grants[i]);
  }

  lemma ReturnedIsNew(s: State, t: State, c: int)
    requires FileLeads(s) && Increasing(s) && c in s.phases && s.phases[c].Written? && t == Step(s, Return(c))
    requires forall o | o in s.phases && o != c :: s.phases[o].Left?
    ensures Increasing(t)
  {
    var n := |s.grants|;
    assert Fresh(s, s.phases[c]);
    assert forall i | 0 <= i < n :: t.grants[i] == s.grants[i];
    assert t.grants[n] == Grant(c, s.phases[c].step, s.phases[c].at, s.now);
    forall i | 0 <= i < |t.grants|
      ensures Backed(t, t.grants[i])
    {
      assert i < n ==> Backed(s, s.grants[i]);
    }
    assert forall o | o in t.phases :: t.phases[o].Left?;
  }

  lemma WrittenIsNew(s: State, t: State, c: int)
    requires FileLeads(s) && Increasing(s) && c in s.phases && s.phases[c].Chosen? && t == Step(s, Write(c)) && t != s
    requires forall o | o in s.phases && o != c :: s.phases[o].Left?
    ensures Increasing(t)
  {
    var taken, n := Taken(s.phases[c].step, s.phases[c].at), |s.writes|;
    assert t.writes[n] == taken && forall i | 0 <= i < n :: t.writes[i] == s.writes[i];
    assert forall i | 0 <= i < n :: s.writes[i].step < taken.step;
    assert taken in t.writes && forall x | x in s.writes :: x in t.writes;
    forall i | 0 <= i < |s.grants|
      ensures Backed(t, s.grants[i]) && s.grants[i].step < taken.step
    {
      assert Backed(s, s.grants[i]);
    }
    assert forall o | o in t.phases && t.phases[o].Written? :: o == c;
  }

  lemma StepIsTimely(s: State, e: Event)
    requires FileLeads(s) && forall i | 0 <= i < |s.grants| :: Timely(s.grants[i])
    ensures var t := Step(s, e); forall i | 0 <= i < |t.grants| :: Timely(t.grants[i])
  {
  }

  /**
   * In every run at most one caller is inside the lock, which is taken exactly while one is; steps are
   * written, and returned, in strictly increasing order, so no two calls return the same step; and each
   * is at least the clock step when it was computed and at most one ahead of the clock step on return.
   */
  lemma {:induction false} NoStepTwice(stepFile: Option<int>, now: int, events: seq<Event>)
    ensures Safe(Run(Init(stepFile, now), events))
  {
    if events != [] {
      var s := Run(Init(stepFile, now), events[..|events| - 1]);
      NoStepTwice(stepFile, now, events[..|events| - 1]);
      StepIsExclusive(s, events[|events| - 1]);
      StepKeepsFileAhead(s, events[|events| - 1]);
      StepIsIncreasing(s, events[|events| - 1]);
      StepIsTimely(s, events[|events| - 1]);
    }
  }

  /** A caller still waiting for the lock gets it at its next try after the holder leaves. */
  lemma LockIsReleased(s: State, holder: int, next: int, e: Event)
    requires Safe(s) && In(s, holder) && next !in s.phases && holder != next
    requires e == Throw(holder) || (e == Return(holder) && s.phases[holder].Written?)
    ensures In(Step(Step(s, e), Mkdir(next)), next)
  {
  }

  /** A chosen step is written as soon as it is at most one ahead of the clock, and not before. */
  lemma WrittenWhenDue(s: State, c: int)
    requires c in s.phases && s.phases[c].Chosen?
    ensures var p := s.phases[c]; var t := Step(s, Write(c));
            if p.step <= ClockStep(s.now) + 1
            then t.writes == s.writes + [Taken(p.step, p.at)] && t.stepFile == Some(p.step)
            else t == s
  {
  }

  // ---- No step is skipped without need ----

  /** Each step written is the least the rule allows after the one before it, at the time it was computed. */
  ghost predicate Tight(s: State, first: Option<int>) {
    && s.stepFile == FileBefore(s.writes, |s.writes|, first)
    && (forall c | c in s.phases && s.phases[c].Chosen? :: s.phases[c].step == NextStep(s.stepFile, s.phases[c].at))
    && (forall i | 0 <= i < |s.writes| ::
          s.writes[i].step == NextStep(FileBefore(s.writes, i, first), s.writes[i].chosenAt))
  }

  /** What the file held when write `i` was made. */
  function FileBefore(writes: seq<Taken>, i: nat, first: Option<int>): Option<int>
    requires i <= |writes|
  {
    if i == 0 then first else Some(writes[i - 1].step)
  }

  lemma StepIsTight(s: State, e: Event, first: Option<int>)
    requires Exclusive(s) && Tight(s, first)
    ensures Tight(Step(s, e), first)
  {
    var t := Step(s, e);
    if !e.Advance? && In(s, e.caller) {
      OthersAreOut(s, e.caller);
    }
    forall i | 0 <= i < |t.writes|
      ensures t.writes[i].step == NextStep(FileBefore(t.writes, i, first), t.writes[i].chosenAt)
    {
      assert i < |s.writes| ==> t.writes[i] == s.writes[i];
      assert FileBefore(t.writes, i, first) == FileBefore(s.writes, i, first);
    }
  }

  lemma {:induction false} StepsAreTight(stepFile: Option<int>, now: int, events: seq<Event>)
    ensures Tight(Run(Init(stepFile, now), events), stepFile)
  {
    if events != [] {
      NoStepTwice(stepFile, now, events[..|events| - 1]);
      StepsAreTight(stepFile, now, events[..|events| - 1]);
      StepIsTight(Run(Init(stepFile, now), events[..|events| - 1]), events[|events| - 1], stepFile);
    }
  }

  /** A step ahead of the clock is the very next after the one written before it. */
  lemma AheadOnlyByOne(stepFile: Option<int>, now: int, events: seq<Event>, i: nat)
    requires i < |Run(Init(stepFile, now), events).writes|
    ensures var w := Run(Init(stepFile, now), events).writes;
            var before := FileBefore(w, i, stepFile).GetOr(0);
            w[i].step == ClockStep(w[i].chosenAt) || w[i].step == before + 1 > ClockStep(w[i].chosenAt)
  {
    StepsAreTight(stepFile, now, events);
    var w := Run(Init(stepFile, now), events).writes;
    assert w[i].step == NextStep(FileBefore(w, i, stepFile), w[i].chosenAt);
  }
}
