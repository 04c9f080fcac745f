/**
 * Submitting a slip: an unchanged retry after a failure reuses the client reference, so the platform can
 * tell it is the same bet; a changed slip, or an answered one, is a new submission. Created references
 * never repeat, so they are numbered in the order of their creation. One submission runs at a time.
 */
module Submission {
  import opened Wrappers
  import opened BetSlip

  datatype Outcome = ACCEPTED | PARTIALLY_ACCEPTED | LIMITED | EXPIRED | REJECTED

  datatype Entry =
    | Placed(selections: seq<Selection>, stake: int, reference: nat)
    | Threw
    | Answered(outcome: Outcome)
    | Changed

  datatype State = State(
    selections: seq<Selection>,
    stake: int,
    reference: Option<nat>,
    placing: bool,
    created: nat,
    log: seq<Entry>)

  datatype Event =
    | Edit(edit: BetSlip.Edit)
    | SetStake(amount: int)
    | Submit(online: bool)
    | Throw
    | Answer(result: Outcome)

  function Init(stake: int): State {
    State([], stake, None, false, 0, [])
  }

  /** The slip's store hands out a new list after every change; the effect then forgets the reference. */
  function Change(s: State, selections: seq<Selection>, stake: int): State {
    s.(selections := selections, stake := stake, reference := None, log := s.log + [Changed])
  }

  /** A refused toggle hands back the very same list, which is no change. */
  predicate Refused(s: State, e: BetSlip.Edit) {
    e.Toggle? && !Find(s.selections, e.next.selectionId)
        && |WithoutMatch(s.selections, e.next.matchId)| >= MAX_SELECTIONS
  }

  function Step(s: State, e: Event): State {
    match e
    case Edit(edit) => if Refused(s, edit) then s else Change(s, Apply(s.selections, edit), s.stake)
    case SetStake(amount) => if amount == s.stake then s else Change(s, s.selections, amount)
    case Submit(online) =>
      if s.placing || !online then s else
      var reference := s.reference.GetOr(s.created);
      s.(reference := Some(reference), placing := true,
         created := if s.reference.None? then s.created + 1 else s.created,
         log := s.log + [Placed(s.selections, s.stake, reference)])
    case Throw => if s.placing then s.(placing := false, log := s.log + [Threw]) else s
    case Answer(result) =>
      if !s.placing then s else
      var s := s.(placing := false, reference := None, log := s.log + [Answered(result)]);
      if result.ACCEPTED? || result.PARTIALLY_ACCEPTED? then Change(s, [], s.stake) else s
  }

  function Run(stake: int, events: seq<Event>): State {
    if events == [] then Init(stake) else Step(Run(stake, events[..|events| - 1]), events[|events| - 1])
  }

  class BetSlipSheet {
    var selections: seq<Selection>
    var stake: int
    var reference: Option<nat>
    var placing: bool
    var created: nat
    ghost var log: seq<Entry>

    ghost function View(): State
      reads this
    {
      State(selections, stake, reference, placing, created, log)
    }

    constructor (stake: int)
      ensures View() == Init(stake)
    {
      selections, this.stake, reference, placing, created, log := [], stake, None, false, 0, [];
    }

    /** The effect on a changed slip. */
    method OnSlipChange(selections: seq<Selection>, stake: int)
      modifies this
      ensures View() == Change(old(View()), selections, stake)
    {
      this.selections, this.stake := selections, stake;
      reference := None;
      log := log + [Changed];
    }

    /** `submit`, up to the call; true when the call is made. */
    method Begin(online: bool) returns (called: bool)
      requires !placing
      modifies this
      ensures View() == Step(old(View()), Submit(online)) && called == online
    {
      if !online {
        return false;
      }
      placing := true;
      if reference.None? {
        reference := Some(created);
        created := created + 1;
      }
      log := log + [Placed(selections, stake, reference.value)];
      return true;
    }

    /** `settle`, and the end of `submit`. */
    method Settle(result: Outcome)
      requires placing
      modifies this
      ensures View() == Step(old(View()), Answer(result))
    {
      log := log + [Answered(result)];
      match result {
        case ACCEPTED => OnSlipChange([], stake);
        case PARTIALLY_ACCEPTED => OnSlipChange([], stake);
        case LIMITED => reference := None;
        case EXPIRED => reference := None;
        case REJECTED => reference := None;
      }
      placing := false;
    }

    method Fail()
      requires placing
      modifies this
      ensures View() == Step(old(View()), Throw)
    {
      placing := false;
      log := log + [Threw];
    }
  }

  // ---- Which calls share a reference ----

  predicate Breaks(x: Entry) { x.Changed? || x.Answered? }

  predicate Settles(x: Entry) { x.Threw? || x.Answered? }

  /** Nothing was answered and nothing changed strictly between `i` and `j`. */
  ghost predicate Unbroken(log: seq<Entry>, i: int, j: int)
    requires 0 <= i <= j <= |log|
  {
    forall k | i < k < j :: !Breaks(log[k])
  }

  ghost predicate SettledBetween(log: seq<Entry>, i: int, j: int)
    requires 0 <= i <= j <= |log|
  {
    exists k :: i < k < j && Settles(log[k])
  }

  /** How a call in the log stands to the current slip and reference. */
  ghost predicate CallTracked(s: State, i: int)
    requires 0 <= i < |s.log| && s.log[i].Placed?
  {
    && s.log[i].reference < s.created
    && (Unbroken(s.log, i, |s.log|) <==> s.reference == Some(s.log[i].reference))
    && (Unbroken(s.log, i, |s.log|) ==> s.log[i].selections == s.selections && s.log[i].stake == s.stake)
    && (s.placing || SettledBetween(s.log, i, |s.log|))
  }

  ghost predicate PairTracked(log: seq<Entry>, i: int, j: int)
    requires 0 <= i < j < |log| && log[i].Placed? && log[j].Placed?
  {
    && (log[i].reference == log[j].reference <==> Unbroken(log, i, j))
    && (Unbroken(log, i, j) ==> log[i] == log[j])
    && SettledBetween(log, i, j)
  }

  ghost predicate Sound(s: State) {
    && (s.reference.Some? ==> s.reference.value < s.created)
    && (forall i | 0 <= i < |s.log| && s.log[i].Placed? :: CallTracked(s, i))
    && (forall i, j | 0 <= i < j < |s.log| && s.log[i].Placed? && s.log[j].Placed? :: PairTracked(s.log, i, j))
  }

  lemma PairStays(log: seq<Entry>, x: Entry, i: int, j: int)
    requires 0 <= i < j < |log| && log[i].Placed? && log[j].Placed? && PairTracked(log, i, j)
    ensures PairTracked(log + [x], i, j)
  {
    var all := log + [x];
    assert forall k | 0 <= k < |log| :: all[k] == log[k];
    var k :| i < k < j && Settles(log[k]);
    assert Settles(all[k]);
  }

  lemma SettledStays(log: seq<Entry>, x: Entry, i: int)
    requires 0 <= i < |log|
    ensures SettledBetween(log, i, |log|) || Settles(x) ==> SettledBetween(log + [x], i, |log| + 1)
    ensures Unbroken(log + [x], i, |log| + 1) <==> Unbroken(log, i, |log|) && !Breaks(x)
  {
    var all := log + [x];
    assert forall k | 0 <= k < |log| :: all[k] == log[k];
    assert all[|log|] == x;
    if SettledBetween(log, i, |log|) {
      var k :| i < k < |log| && Settles(log[k]);
      assert Settles(all[k]);
    }
  }

  /** Any step that writes a line other than a call. */
  lemma LineIsSound(s: State, t: State, x: Entry)
    requires Sound(s) && t.log == s.log + [x] && !x.Placed? && t.created == s.created
    requires Breaks(x) ==> t.reference.None?
    requires !Breaks(x) ==> t.reference == s.reference && t.selections == s.selections && t.stake == s.stake
    requires t.placing || Settles(x) || !s.placing
    ensures Sound(t)
  {
    forall i | 0 <= i < |t.log| && t.log[i].Placed?
      ensures CallTracked(t, i)
    {
      assert CallTracked(s, i);
      SettledStays(s.log, x, i);
    }
    forall i, j | 0 <= i < j < |t.log| && t.log[i].Placed? && t.log[j].Placed?
      ensures PairTracked(t.log, i, j)
    {
      assert PairTracked(s.log, i, j);
      PairStays(s.log, x, i, j);
    }
  }

  lemma CallIsSound(s: State)
    requires Sound(s) && !s.placing
    ensures Sound(Step(s, Submit(true)))
  {
    var t := Step(s, Submit(true));
    var n, x := |s.log|, t.log[|s.log|];
    forall i | 0 <= i < n && s.log[i].Placed?
      ensures CallTracked(t, i) && PairTracked(t.log, i, n)
    {
      assert CallTracked(s, i);
      SettledStays(s.log, x, i);
      assert Unbroken(t.log, i, n) <==> Unbroken(s.log, i, n);
      var k :| i < k < n && Settles(s.log[k]);
      assert Settles(t.log[k]);
    }
    forall i, j | 0 <= i < j < n && t.log[i].Placed? && t.log[j].Placed?
      ensures PairTracked(t.log, i, j)
    {
      assert PairTracked(s.log, i, j);
      PairStays(s.log, x, i, j);
    }
  }

  lemma StepIsSound(s: State, e: Event)
    requires Sound(s)
    ensures Sound(Step(s, e))
  {
    var t := Step(s, e);
    match e
    case Edit(edit) => if t != s { LineIsSound(s, t, Changed); }
    case SetStake(amount) => if t != s { LineIsSound(s, t, Changed); }
    case Submit(online) => if t != s { CallIsSound(s); }
    case Throw => if t != s { LineIsSound(s, t, Threw); }
    case Answer(result) =>
      if s.placing {
        var m := s.(placing := false, reference := None, log := s.log + [Answered(result)]);
        LineIsSound(s, m, Answered(result));
        if t != m {
          LineIsSound(m, t, Changed);
        }
      }
  }

  lemma {:induction false} RunIsSound(stake: int, events: seq<Event>)
    ensures Sound(Run(stake, events))
  {
    if events != [] {
      RunIsSound(stake, events[..|events| - 1]);
      StepIsSound(Run(stake, events[..|events| - 1]), events[|events| - 1]);
    }
  }

  /**
   * Two calls share a reference exactly when nothing was answered and the slip did not change between
   * them. They then carry the same selections and stake, and the earlier one threw.
   */
  lemma SharedReferenceIsRetry(stake: int, events: seq<Event>, i: nat, j: nat)
    requires var log := Run(stake, events).log; i < j < |log| && log[i].Placed? && log[j].Placed?
    ensures var log := Run(stake, events).log;
            && (log[i].reference == log[j].reference <==> Unbroken(log, i, j))
            && (log[i].reference == log[j].reference ==> log[i] == log[j] && exists k :: i < k < j && log[k] == Threw)
  {
    RunIsSound(stake, events);
    assert PairTracked(Run(stake, events).log, i, j);
  }

  // ---- The slip on the sheet ----

  /** An edit does to the sheet's slip what it does to a slip, also where the sheet sees no change. */
  lemma EditsApply(s: State, edit: BetSlip.Edit)
    ensures Step(s, Edit(edit)).selections == Apply(s.selections, edit)
  {
  }

  lemma {:induction false} SheetStaysWellFormed(stake: int, events: seq<Event>)
    ensures WellFormed(Run(stake, events).selections)
  {
    if events != [] {
      var s, e := Run(stake, events[..|events| - 1]), events[|events| - 1];
      SheetStaysWellFormed(stake, events[..|events| - 1]);
      if e.Edit? {
        EditsApply(s, e.edit);
        match e.edit
        case Toggle(next) => ToggleKeepsWellFormed(s.selections, next);
        case Remove(id) => RemoveKeepsWellFormed(s.selections, id);
      }
    }
  }

  // ---- What each event does to a call ----

  /** A new selection for a full slip is the one edit that changes nothing; every other one ends the reference. */
  lemma EditsForget(stake: int, events: seq<Event>, edit: BetSlip.Edit)
    ensures var s := Run(stake, events); var t := Step(s, Edit(edit));
            if edit.Toggle? && |s.selections| == 20 && forall x | x in s.selections :: Apart(x, edit.next)
            then t == s
            else t.reference == None && t.log == s.log + [Changed] && t.stake == s.stake && t.placing == s.placing
  {
    SheetStaysWellFormed(stake, events);
    var s := Run(stake, events);
    if edit.Toggle? {
      var p := (x: Selection) => x.matchId != edit.next.matchId;
      FilterNoLonger(p, s.selections);
      if |WithoutMatch(s.selections, edit.next.matchId)| >= MAX_SELECTIONS {
        FullMeansAll(p, s.selections);
      } else if forall x | x in s.selections :: Apart(x, edit.next) {
        FilterAll(p, s.selections);
      }
    }
  }

  /** The stake is the one set last, and another stake ends the reference. */
  lemma StakeIsSet(s: State, amount: int)
    ensures var t := Step(s, SetStake(amount));
            && t.stake == amount && t.selections == s.selections && t.placing == s.placing
            && if amount == s.stake then t == s else t.reference == None && t.log == s.log + [Changed]
  {
  }

  /** A submission calls exactly when online and no call is under way: with the reference kept, or a new one. */
  lemma SubmissionCalls(stake: int, events: seq<Event>, online: bool)
    ensures var s := Run(stake, events); var t := Step(s, Submit(online));
            if !online || s.placing then t == s
            else
              && t.placing && t.selections == s.selections && t.stake == s.stake && t.reference.Some?
              && t.log == s.log + [Placed(s.selections, s.stake, t.reference.value)]
              && if s.reference.Some? then t.reference == s.reference
                 else forall i | 0 <= i < |s.log| && s.log[i].Placed? :: s.log[i].reference < t.reference.value
  {
    RunIsSound(stake, events);
    var s := Run(stake, events);
    assert forall i | 0 <= i < |s.log| && s.log[i].Placed? :: CallTracked(s, i);
  }

  /** An answer ends the call and its reference; an accepted one, in part or whole, also empties the slip. */
  lemma AnswersEndTheCall(s: State, result: Outcome)
    requires s.placing
    ensures var t := Step(s, Answer(result));
            && !t.placing && t.reference == None && t.stake == s.stake
            && t.selections == (if result in {ACCEPTED, PARTIALLY_ACCEPTED} then [] else s.selections)
            && s.log + [Answered(result)] <= t.log
  {
  }

  /** A call that threw can be made again as it was: same slip, same stake, same reference. */
  lemma FailureKeepsTheCall(stake: int, events: seq<Event>)
    requires !Run(stake, events).placing
    ensures var s := Run(stake, events);
            var called := Step(s, Submit(true));
            var again := Step(Step(called, Throw), Submit(true));
            again.placing && again.log == called.log + [Threw, called.log[|called.log| - 1]]
  {
  }
}
