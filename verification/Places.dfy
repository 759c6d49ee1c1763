/** Places in a list: increasing, and exactly those to keep. Such a list of places
    determines a filtered list, its order and its repetitions included. */
module Places {

  ghost predicate Increasing(at: seq<nat>) {
    forall j, k | 0 <= j < k < |at| :: at[j] < at[k]
  }

  /** The indices below `n` to keep, in order. */
  ghost predicate Exactly(at: seq<nat>, n: nat, keep: nat -> bool) {
    Increasing(at) && forall i: nat :: i in at <==> i < n && keep(i)
  }

  lemma {:induction false} ExactlyBelow(at: seq<nat>, n: nat, keep: nat -> bool, k: nat)
    requires Exactly(at, n, keep) && k < |at|
    ensures at[k] < n && keep(at[k])
  {
    assert at[k] in at;
  }

  lemma {:induction false} ExactlyNone(keep: nat -> bool)
    ensures Exactly([], 0, keep)
  {
  }

  lemma {:induction false} ExactlyNext(at: seq<nat>, n: nat, keep: nat -> bool)
    requires Exactly(at, n, keep)
    ensures Exactly(if keep(n) then at + [n] else at, n + 1, keep)
  {
    forall k | 0 <= k < |at| ensures at[k] < n { ExactlyBelow(at, n, keep, k); }
  }
}
