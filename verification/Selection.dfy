/** Keeping some elements of a sequence, in order. */
module Selection {
  function Select<T>(xs: seq<T>, keep: T -> bool): (r: seq<T>)
    ensures |r| <= |xs| && forall i | 0 <= i < |r| :: keep(r[i])
    ensures (forall i | 0 <= i < |xs| :: keep(xs[i])) ==> r == xs
  {
    if xs == [] then []
    else if keep(xs[0]) then [xs[0]] + Select(xs[1..], keep)
    else Select(xs[1..], keep)
  }

  lemma {:induction false} SelectMembers<T>(xs: seq<T>, keep: T -> bool)
    ensures forall x :: x in Select(xs, keep) <==> x in xs && keep(x)
  {
    if xs != [] {
      SelectMembers(xs[1..], keep);
      assert forall x :: x in xs <==> x == xs[0] || x in xs[1..];
    }
  }

  lemma {:induction false} SelectsNothing<T>(xs: seq<T>, keep: T -> bool)
    requires forall i | 0 <= i < |xs| :: !keep(xs[i])
    ensures Select(xs, keep) == []
  {
    if xs != [] {
      SelectsNothing(xs[1..], keep);
    }
  }

  /** The positions from `n` on where `keep` holds. */
  function PositionsFrom<T>(xs: seq<T>, keep: T -> bool, n: nat): (at: seq<nat>)
    requires n <= |xs|
    ensures forall i | 0 <= i < |at| :: n <= at[i] < |xs| && keep(xs[at[i]])
    ensures forall i, j | 0 <= i < j < |at| :: at[i] < at[j]
    decreases |xs| - n
  {
    if n == |xs| then []
    else (if keep(xs[n]) then [n] else []) + PositionsFrom(xs, keep, n + 1)
  }

  lemma {:induction false} AllPositions<T>(xs: seq<T>, keep: T -> bool, n: nat, k: nat)
    requires n <= k < |xs| && keep(xs[k])
    ensures k in PositionsFrom(xs, keep, n)
    decreases k - n
  {
    if n < k {
      AllPositions(xs, keep, n + 1, k);
    }
  }

  lemma {:induction false} SelectsThere<T>(xs: seq<T>, keep: T -> bool, n: nat)
    requires n <= |xs|
    ensures var at, r := PositionsFrom(xs, keep, n), Select(xs[n..], keep);
      |r| == |at| && forall i | 0 <= i < |at| :: r[i] == xs[at[i]]
    decreases |xs| - n
  {
    if n < |xs| {
      SelectsThere(xs, keep, n + 1);
      assert xs[n..][1..] == xs[n + 1..];
    }
  }

  /** What is kept keeps its order: `at` says where it stood, and that is wherever `keep` holds. */
  lemma KeepsOrder<T>(xs: seq<T>, keep: T -> bool) returns (at: seq<nat>)
    ensures |Select(xs, keep)| == |at|
    ensures forall i | 0 <= i < |at| :: at[i] < |xs| && Select(xs, keep)[i] == xs[at[i]]
    ensures forall i, j | 0 <= i < j < |at| :: at[i] < at[j]
    ensures forall k: nat | k < |xs| :: k in at <==> keep(xs[k])
  {
    at := PositionsFrom(xs, keep, 0);
    SelectsThere(xs, keep, 0);
    assert xs[0..] == xs;
    forall k: nat | k < |xs| && keep(xs[k]) ensures k in at {
      AllPositions(xs, keep, 0, k);
    }
  }

  /** Of increasing positions, those not among the first three come after them. */
  lemma BehindThree(all: seq<nat>, k: nat)
    requires forall i, j | 0 <= i < j < |all| :: all[i] < all[j]
    requires 3 < |all| && k in all && k !in all[..3]
    ensures all[2] < k
  {
    var i :| 0 <= i < |all| && all[i] == k;
    assert forall j | 0 <= j < 3 :: all[j] == all[..3][j] && all[j] in all[..3];
  }
}
