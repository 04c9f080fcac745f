/** One idempotency key per logical attempt: the same request again gets the same key, anything else a new one. */
module AttemptKey {
  import opened Wrappers

  datatype Current = Current(fingerprint: string, key: string)

  datatype Op = KeyFor(fingerprint: string) | Reset

  /** `made` counts the keys made so far; `newKey` gives each its text. */
  datatype State = State(current: Option<Current>, made: nat)

  function Step(newKey: nat -> string, s: State, op: Op): State {
    match op
    case KeyFor(fp) =>
      if s.current.Some? && s.current.value.fingerprint == fp then s
      else State(Some(Current(fp, newKey(s.made))), s.made + 1)
    case Reset => s.(current := None)
  }

  function Run(newKey: nat -> string, ops: seq<Op>): State {
    if ops == [] then State(None, 0) else Step(newKey, Run(newKey, ops[..|ops| - 1]), ops[|ops| - 1])
  }

  class AttemptKey {
    const newKey: nat -> string
    var current: Option<Current>
    var made: nat

    function View(): State
      reads this
    {
      State(current, made)
    }

    constructor (newKey: nat -> string)
      ensures this.newKey == newKey && View() == State(None, 0)
    {
      this.newKey, current, made := newKey, None, 0;
    }

    method KeyForFingerprint(fingerprint: string) returns (key: string)
      modifies this
      ensures View() == Step(newKey, old(View()), KeyFor(fingerprint))
      ensures current.Some? && key == current.value.key && current.value.fingerprint == fingerprint
    {
      if current.None? || current.value.fingerprint != fingerprint {
        current := Some(Current(fingerprint, newKey(made)));
        made := made + 1;
      }
      key := current.value.key;
    }

    method ResetKey()
      modifies this
      ensures View() == Step(newKey, old(View()), Reset)
    {
      current := None;
    }
  }

  /** The key operation `i` of the run returned. */
  function KeyAt(newKey: nat -> string, ops: seq<Op>, i: nat): string
    requires i < |ops| && ops[i].KeyFor?
  {
    Run(newKey, ops[..i + 1]).current.value.key
  }

  ghost predicate Fresh(newKey: nat -> string) {
    forall a, b :: newKey(a) == newKey(b) ==> a == b
  }

  /** Between `i` and `j` the same request was repeated and nothing else happened. */
  predicate OnlyRepeats(ops: seq<Op>, i: nat, j: nat)
    requires i <= j < |ops|
  {
    forall k | i <= k <= j :: ops[k] == ops[i]
  }

  lemma {:induction false} RunPrefix(newKey: nat -> string, ops: seq<Op>, i: nat, j: nat)
    requires i <= j <= |ops|
    ensures Run(newKey, ops[..i]).made <= Run(newKey, ops[..j]).made
  {
    if i < j {
      RunPrefix(newKey, ops, i, j - 1);
      assert ops[..j][..j - 1] == ops[..j - 1];
    }
  }

  /** The current key is the last one made. */
  lemma {:induction false} CurrentIsNewest(newKey: nat -> string, ops: seq<Op>)
    ensures var s := Run(newKey, ops); s.current.Some? ==> s.made > 0 && s.current.value.key == newKey(s.made - 1)
  {
    if ops != [] {
      CurrentIsNewest(newKey, ops[..|ops| - 1]);
    }
  }

  lemma {:induction false} RepeatsKeepState(newKey: nat -> string, ops: seq<Op>, i: nat, j: nat)
    requires i <= j < |ops| && ops[i].KeyFor? && OnlyRepeats(ops, i, j)
    ensures Run(newKey, ops[..j + 1]) == Run(newKey, ops[..i + 1])
    ensures Run(newKey, ops[..i + 1]).current.Some?
            && Run(newKey, ops[..i + 1]).current.value.fingerprint == ops[i].fingerprint
  {
    assert ops[..i + 1][..i] == ops[..i];
    if i < j {
      RepeatsKeepState(newKey, ops, i, j - 1);
      assert ops[..j + 1][..j] == ops[..j];
    }
  }

  /** A step that breaks the repetition, and a key after it: a new key is made in between. */
  lemma {:induction false} BreakMakesNew(newKey: nat -> string, ops: seq<Op>, i: nat, j: nat)
    requires i < j < |ops| && ops[i].KeyFor? && ops[j].KeyFor? && !OnlyRepeats(ops, i, j)
    ensures Run(newKey, ops[..i + 1]).made < Run(newKey, ops[..j + 1]).made
  {
    assert ops[..j + 1][..j] == ops[..j];
    if j == i + 1 || OnlyRepeats(ops, i, j - 1) {
      RepeatsKeepState(newKey, ops, i, j - 1);
    } else if ops[j - 1].KeyFor? {
      BreakMakesNew(newKey, ops, i, j - 1);
      RunPrefix(newKey, ops, j, j + 1);
    } else {
      assert ops[..j][..j - 1] == ops[..j - 1];
      RunPrefix(newKey, ops, i + 1, j);
    }
  }

  /**
   * Two calls return the same key exactly when the request was the same and no other request, and no reset, came
   * between.
   */
  lemma KeysRepeatExactly(newKey: nat -> string, ops: seq<Op>, i: nat, j: nat)
    requires Fresh(newKey) && i < j < |ops| && ops[i].KeyFor? && ops[j].KeyFor?
    ensures KeyAt(newKey, ops, i) == KeyAt(newKey, ops, j) <==> OnlyRepeats(ops, i, j)
  {
    CurrentIsNewest(newKey, ops[..i + 1]);
    CurrentIsNewest(newKey, ops[..j + 1]);
    assert ops[..i + 1][..i] == ops[..i] && ops[..j + 1][..j] == ops[..j];
    if OnlyRepeats(ops, i, j) {
      RepeatsKeepState(newKey, ops, i, j);
    } else {
      BreakMakesNew(newKey, ops, i, j);
    }
  }
}
