/** Which positions of a sequence something was taken from. */
module Positions {

  /** `at` lists, in order, exactly the positions from `lo` up to `hi` that `keep` holds of. */
  ghost predicate Lists(at: seq<nat>, lo: nat, hi: nat, keep: nat -> bool) {
    Increasing(at) && forall i :: i in at <==> lo <= i < hi && keep(i)
  }

  predicate Increasing(at: seq<nat>) {
    forall j, k :: 0 <= j < k < |at| ==> at[j] < at[k]
  }

  /** The positions, `d` further on. */
  function MovedBy(at: seq<nat>, d: nat): (r: seq<nat>)
    ensures |r| == |at| && forall k :: 0 <= k < |at| ==> r[k] == at[k] + d
  {
    seq(|at|, (k: int) requires 0 <= k < |at| => at[k] + d)
  }

  lemma {:induction false} MovedLists(at: seq<nat>, n: nat, was: nat -> bool, d: nat, keep: nat -> bool)
    requires Lists(at, 0, n, was) && forall i: nat :: i < n ==> (was(i) <==> keep(i + d))
    ensures Lists(MovedBy(at, d), d, n + d, keep)
  {
    var r := MovedBy(at, d);
    forall i: nat
      ensures i in r <==> d <= i < n + d && keep(i)
    {
      if i in r {
        var k :| 0 <= k < |r| && r[k] == i;
        assert at[k] in at;
      }
      if d <= i < n + d && keep(i) {
        assert was(i - d);
        var k :| 0 <= k < |at| && at[k] == i - d;
        assert r[k] == i;
      }
    }
  }

  /** The positions behind the first, and the first if it is kept. */
  function Ahead(first: bool, at: seq<nat>): seq<nat> {
    (if first then [0] else []) + MovedBy(at, 1)
  }

  lemma {:induction false} ListsAhead(at: seq<nat>, n: nat, was: nat -> bool, keep: nat -> bool)
    requires Lists(at, 0, n, was) && forall i: nat :: i < n ==> (was(i) <==> keep(i + 1))
    ensures Lists(Ahead(keep(0), at), 0, n + 1, keep)
  {
    MovedLists(at, n, was, 1, keep);
    FirstLists(keep(0), MovedBy(at, 1), n + 1, keep);
  }

  lemma {:induction false} FirstIncreasing(rest: seq<nat>)
    requires Increasing(rest) && 0 !in rest
    ensures Increasing([0] + rest)
  {
    assert forall k :: 0 <= k < |rest| ==> rest[k] in rest;
  }

  lemma {:induction false} FirstLists(first: bool, rest: seq<nat>, hi: nat, keep: nat -> bool)
    requires Lists(rest, 1, hi, keep) && hi > 0 && (first <==> keep(0))
    ensures Lists((if first then [0] else []) + rest, 0, hi, keep)
  {
    if first {
      FirstIncreasing(rest);
      assert forall i :: i in [0] + rest <==> i in rest || i == 0;
    } else {
      assert [] + rest == rest;
    }
  }

  lemma {:induction false} ListsNext(at: seq<nat>, n: nat, keep: nat -> bool)
    requires Lists(at, 0, n, keep)
    ensures Lists(at + (if keep(n) then [n] else []), 0, n + 1, keep)
  {
    assert forall k :: 0 <= k < |at| ==> at[k] in at;
  }

  lemma {:induction false} ListsWithin(a: seq<nat>, b: seq<nat>, lo: nat, hi: nat, keep: nat -> bool)
    requires Lists(a, lo, hi, keep) && Lists(b, lo, hi, keep)
    ensures forall k :: 0 <= k < |a| ==> a[k] in b
  {
    forall k | 0 <= k < |a|
      ensures a[k] in b
    {
      assert a[k] in a;
    }
  }

  /** Only one list of positions does. */
  lemma {:induction false} ListsIsUnique(a: seq<nat>, b: seq<nat>, lo: nat, hi: nat, keep: nat -> bool)
    requires Lists(a, lo, hi, keep) && Lists(b, lo, hi, keep)
    ensures a == b
  {
    BothOrNone(a, b, lo, hi, keep);
    if a != [] {
      ListsWithin(a, b, lo, hi, keep);
      ListsWithin(b, a, lo, hi, keep);
      SameLast(a, b);
      WithoutLast(a, lo, hi, keep);
      WithoutLast(b, lo, hi, keep);
      ListsIsUnique(a[..|a| - 1], b[..|b| - 1], lo, a[|a| - 1], keep);
      SameWhole(a, b);
    }
  }

  lemma {:induction false} BothOrNone(a: seq<nat>, b: seq<nat>, lo: nat, hi: nat, keep: nat -> bool)
    requires Lists(a, lo, hi, keep) && Lists(b, lo, hi, keep)
    ensures a == [] <==> b == []
  {
    assert a != [] ==> a[0] in a;
    assert b != [] ==> b[0] in b;
  }

  lemma {:induction false} SameWhole(a: seq<nat>, b: seq<nat>)
    requires a != [] && b != [] && a[..|a| - 1] == b[..|b| - 1] && a[|a| - 1] == b[|b| - 1]
    ensures a == b
  {
    assert a == a[..|a| - 1] + [a[|a| - 1]] && b == b[..|b| - 1] + [b[|b| - 1]];
  }

  lemma {:induction false} SameLast(a: seq<nat>, b: seq<nat>)
    requires a != [] && b != [] && (forall k :: 0 <= k < |a| ==> a[k] in b) && (forall k :: 0 <= k < |b| ==> b[k] in a)
    requires Increasing(a) && Increasing(b)
    ensures a[|a| - 1] == b[|b| - 1]
  {
    assert a[|a| - 1] in b && b[|b| - 1] in a;
  }

  lemma {:induction false} WithoutLast(a: seq<nat>, lo: nat, hi: nat, keep: nat -> bool)
    requires a != [] && Lists(a, lo, hi, keep)
    ensures Lists(a[..|a| - 1], lo, a[|a| - 1], keep)
  {
    var front, m := a[..|a| - 1], a[|a| - 1];
    assert m in a;
    assert forall k :: 0 <= k < |front| ==> front[k] == a[k];
    forall i: nat
      ensures i in front <==> lo <= i < m && keep(i)
    {
      if i in front {
        var k :| 0 <= k < |front| && front[k] == i;
        assert a[k] in a;
      }
      if lo <= i < m && keep(i) {
        assert i in a;
        var k :| 0 <= k < |a| && a[k] == i;
        assert front[k] == i;
      }
    }
  }
}
