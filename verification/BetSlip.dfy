/** The selections on a slip: toggled and removed, never two of one match, never more than twenty. */
module BetSlip {
  import opened Sequences

  const MAX_SELECTIONS := 20

  datatype Selection = Selection(selectionId: string, matchId: string, odds: nat)

  function Find(current: seq<Selection>, selectionId: string): bool {
    exists s | s in current :: s.selectionId == selectionId
  }

  function RemoveSelection(current: seq<Selection>, selectionId: string): seq<Selection> {
    Filter((s: Selection) => s.selectionId != selectionId, current)
  }

  function WithoutMatch(current: seq<Selection>, matchId: string): seq<Selection> {
    Filter((s: Selection) => s.matchId != matchId, current)
  }

  function ToggleSelection(current: seq<Selection>, next: Selection): seq<Selection> {
    if Find(current, next.selectionId) then RemoveSelection(current, next.selectionId)
    else
      var rest := WithoutMatch(current, next.matchId);
      if |rest| >= MAX_SELECTIONS then current else rest + [next]
  }

  datatype Edit = Toggle(next: Selection) | Remove(selectionId: string)

  function Apply(current: seq<Selection>, e: Edit): seq<Selection> {
    match e
    case Toggle(next) => ToggleSelection(current, next)
    case Remove(id) => RemoveSelection(current, id)
  }

  function Run(edits: seq<Edit>): seq<Selection> {
    if edits == [] then [] else Apply(Run(edits[..|edits| - 1]), edits[|edits| - 1])
  }

  predicate Apart(a: Selection, b: Selection) {
    a.selectionId != b.selectionId && a.matchId != b.matchId
  }

  predicate Distinct(slip: seq<Selection>) {
    forall i, j | 0 <= i < j < |slip| :: Apart(slip[i], slip[j])
  }

  /** At most twenty selections, no two with the same id or of the same match. */
  predicate WellFormed(slip: seq<Selection>) {
    |slip| <= MAX_SELECTIONS && Distinct(slip)
  }

  lemma {:induction false} FilterNoLonger(p: Selection -> bool, slip: seq<Selection>)
    ensures |Filter(p, slip)| <= |slip|
  {
    if slip != [] {
      FilterNoLonger(p, slip[1..]);
    }
  }

  lemma {:induction false} FilterKeepsDistinct(p: Selection -> bool, slip: seq<Selection>)
    requires Distinct(slip)
    ensures Distinct(Filter(p, slip))
  {
    if slip != [] {
      var first, rest := slip[0], slip[1..];
      assert Distinct(rest);
      FilterKeepsDistinct(p, rest);
      FilterMembers(p, rest);
      forall k | 0 <= k < |Filter(p, rest)|
        ensures Apart(first, Filter(p, rest)[k])
      {
        var x := Filter(p, rest)[k];
        assert x in rest;
        var m :| 0 <= m < |rest| && rest[m] == x;
        assert Apart(slip[0], slip[m + 1]);
      }
    }
  }

  lemma ToggleKeepsWellFormed(slip: seq<Selection>, next: Selection)
    requires WellFormed(slip)
    ensures WellFormed(ToggleSelection(slip, next))
  {
    if Find(slip, next.selectionId) {
      RemoveKeepsWellFormed(slip, next.selectionId);
    } else {
      var rest := WithoutMatch(slip, next.matchId);
      FilterKeepsDistinct((s: Selection) => s.matchId != next.matchId, slip);
      FilterMembers((s: Selection) => s.matchId != next.matchId, slip);
      forall k | 0 <= k < |rest|
        ensures Apart(rest[k], next)
      {
        assert rest[k] in slip;
      }
    }
  }

  lemma RemoveKeepsWellFormed(slip: seq<Selection>, id: string)
    requires WellFormed(slip)
    ensures WellFormed(RemoveSelection(slip, id))
  {
    FilterKeepsDistinct((s: Selection) => s.selectionId != id, slip);
    FilterNoLonger((s: Selection) => s.selectionId != id, slip);
  }

  /** Any run of toggles and removals from an empty slip. */
  lemma {:induction false} SlipStaysWellFormed(edits: seq<Edit>)
    ensures WellFormed(Run(edits))
  {
    if edits != [] {
      var slip, e := Run(edits[..|edits| - 1]), edits[|edits| - 1];
      SlipStaysWellFormed(edits[..|edits| - 1]);
      match e
      case Toggle(next) => ToggleKeepsWellFormed(slip, next);
      case Remove(id) => RemoveKeepsWellFormed(slip, id);
    }
  }

  lemma {:induction false} FilterAll(p: Selection -> bool, slip: seq<Selection>)
    requires forall s | s in slip :: p(s)
    ensures Filter(p, slip) == slip
  {
    if slip != [] {
      assert slip == [slip[0]] + slip[1..];
      FilterAll(p, slip[1..]);
    }
  }

  /** Filtering out one element: everything else stays, in its order. */
  lemma FilterTakesOut(p: Selection -> bool, slip: seq<Selection>, k: nat)
    requires k < |slip| && forall i | 0 <= i < |slip| :: p(slip[i]) <==> i != k
    ensures Filter(p, slip) == slip[..k] + slip[k + 1..]
  {
    SplitsAt(slip, k);
    FilterAppend(p, slip[..k], [slip[k]] + slip[k + 1..]);
    FilterStep(p, slip[k], slip[k + 1..]);
    FilterAll(p, slip[..k]);
    FilterAll(p, slip[k + 1..]);
  }

  lemma OthersApart(slip: seq<Selection>, k: nat)
    requires Distinct(slip) && k < |slip|
    ensures forall i | 0 <= i < |slip| && i != k ::
              slip[i].selectionId != slip[k].selectionId && slip[i].matchId != slip[k].matchId
  {
    forall i | 0 <= i < |slip| && i != k
      ensures slip[i].selectionId != slip[k].selectionId && slip[i].matchId != slip[k].matchId
    {
      assert if i < k then Apart(slip[i], slip[k]) else Apart(slip[k], slip[i]);
    }
  }

  /** A removal takes exactly its selection off a slip and leaves the others in order, or changes nothing. */
  lemma RemoveTakesOut(slip: seq<Selection>, id: string)
    requires WellFormed(slip)
    ensures forall k | 0 <= k < |slip| && slip[k].selectionId == id ::
              RemoveSelection(slip, id) == slip[..k] + slip[k + 1..]
    ensures !Find(slip, id) ==> RemoveSelection(slip, id) == slip
  {
    var p := (s: Selection) => s.selectionId != id;
    forall k | 0 <= k < |slip| && slip[k].selectionId == id
      ensures RemoveSelection(slip, id) == slip[..k] + slip[k + 1..]
    {
      OthersApart(slip, k);
      FilterTakesOut(p, slip, k);
    }
    if !Find(slip, id) {
      FilterAll(p, slip);
    }
  }

  /**
   * What a toggle does to a slip: a selection on it goes; a new one takes the place of its match's, at the end,
   * unless twenty others stand.
   */
  lemma ToggleTakesOutOrJoins(slip: seq<Selection>, next: Selection)
    requires WellFormed(slip)
    ensures forall k | 0 <= k < |slip| && slip[k].selectionId == next.selectionId ::
              ToggleSelection(slip, next) == slip[..k] + slip[k + 1..]
    ensures !Find(slip, next.selectionId) ==>
              && (forall k | 0 <= k < |slip| && slip[k].matchId == next.matchId ::
                    ToggleSelection(slip, next) == slip[..k] + slip[k + 1..] + [next])
              && ((forall s | s in slip :: s.matchId != next.matchId) ==>
                    ToggleSelection(slip, next) == if |slip| == 20 then slip else slip + [next])
  {
    RemoveTakesOut(slip, next.selectionId);
    var p := (s: Selection) => s.matchId != next.matchId;
    if !Find(slip, next.selectionId) {
      forall k | 0 <= k < |slip| && slip[k].matchId == next.matchId
        ensures ToggleSelection(slip, next) == slip[..k] + slip[k + 1..] + [next]
      {
        OthersApart(slip, k);
        FilterTakesOut(p, slip, k);
      }
      if forall s | s in slip :: s.matchId != next.matchId {
        FilterAll(p, slip);
      }
    }
  }

  /** A new selection joins the slip and a second toggle takes it off again; a full slip refuses it. */
  lemma SecondToggleRemoves(slip: seq<Selection>, next: Selection)
    requires !Find(slip, next.selectionId)
    ensures var once := ToggleSelection(slip, next); var rest := WithoutMatch(slip, next.matchId);
            if |rest| >= MAX_SELECTIONS then once == slip
            else once == rest + [next] && ToggleSelection(once, next) == rest
  {
    var rest := WithoutMatch(slip, next.matchId);
    if |rest| < MAX_SELECTIONS {
      var p := (s: Selection) => s.selectionId != next.selectionId;
      FilterMembers((s: Selection) => s.matchId != next.matchId, slip);
      assert (rest + [next])[|rest|] == next;
      FilterAppend(p, rest, [next]);
      FilterAll(p, rest);
      assert Filter(p, [next]) == [] by { assert [next] == [next] + []; FilterStep(p, next, []); }
    }
  }

  /** Toggling twice restores the slip exactly when nothing of that match stood on it. */
  lemma ToggleTwiceRestores(slip: seq<Selection>, next: Selection)
    requires WellFormed(slip) && !Find(slip, next.selectionId)
    ensures ToggleSelection(ToggleSelection(slip, next), next) == slip
            <==> forall s | s in slip :: s.matchId != next.matchId
  {
    var p := (s: Selection) => s.matchId != next.matchId;
    SecondToggleRemoves(slip, next);
    FilterMembers(p, slip);
    if |WithoutMatch(slip, next.matchId)| >= MAX_SELECTIONS {
      FullMeansAll(p, slip);
    } else if forall s | s in slip :: s.matchId != next.matchId {
      FilterAll(p, slip);
    }
  }

  lemma {:induction false} FullMeansAll(p: Selection -> bool, slip: seq<Selection>)
    requires |Filter(p, slip)| >= |slip|
    ensures forall s | s in slip :: p(s)
  {
    if slip != [] {
      assert slip == [slip[0]] + slip[1..];
      FilterNoLonger(p, slip[1..]);
      FullMeansAll(p, slip[1..]);
    }
  }
}
