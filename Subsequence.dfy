/**
 * Order-preserving selection, as `Iterator::filter` and
 * `Iterator::partition` produce it: the elements that satisfy a predicate,
 * in their original order.
 */
module Subsequence {
  import opened StableSort

  /** The positions below `n` of the elements of `s` that satisfy `p`, ascending. */
  function Positions<T>(s: seq<T>, p: T -> bool, n: nat): (r: seq<nat>)
    requires n <= |s|
    ensures InRange(r, n) && |r| <= n
  {
    if n == 0 then []
    else Positions(s, p, n - 1) + (if p(s[n - 1]) then [n - 1] else [])
  }

  lemma {:induction false} PositionsSpec<T>(s: seq<T>, p: T -> bool, n: nat)
    requires n <= |s|
    ensures forall a, b :: 0 <= a < b < |Positions(s, p, n)| ==> Positions(s, p, n)[a] < Positions(s, p, n)[b]
    ensures forall k :: 0 <= k < |Positions(s, p, n)| ==> p(s[Positions(s, p, n)[k]])
    ensures forall i :: 0 <= i < n && p(s[i]) ==> i in Positions(s, p, n)
  {
    if n > 0 {
      PositionsSpec(s, p, n - 1);
    }
  }

  /** The elements of `s` that satisfy `p`, in order. */
  function Filter<T>(s: seq<T>, p: T -> bool): (r: seq<T>)
    ensures |r| <= |s|
  {
    Pick(s, Positions(s, p, |s|))
  }

  /** Filtering keeps exactly the elements that satisfy the predicate. */
  lemma FilterMembers<T>(s: seq<T>, p: T -> bool)
    ensures forall x :: x in Filter(s, p) <==> x in s && p(x)
  {
    var pos := Positions(s, p, |s|);
    PositionsSpec(s, p, |s|);
    forall x | x in s && p(x) ensures x in Filter(s, p) {
      var i :| 0 <= i < |s| && s[i] == x;
      var k :| 0 <= k < |pos| && pos[k] == i;
      assert Filter(s, p)[k] == x;
    }
  }

  /** A partition by `p` and its negation is a split of the input. */
  lemma {:induction false} PartitionSplits<T>(s: seq<T>, p: T -> bool, q: T -> bool)
    requires forall x :: q(x) == !p(x)
    ensures multiset(Filter(s, p)) + multiset(Filter(s, q)) == multiset(s)
  {
    if s != [] {
      var n := |s| - 1;
      var pre, x := s[..n], s[n];
      assert s == pre + [x];
      PartitionSplits(pre, p, q);
      FilterSnoc(pre, x, p);
      FilterSnoc(pre, x, q);
      assert q(x) == !p(x);
    }
  }

  lemma {:induction false} PositionsPrefix<T>(s: seq<T>, t: seq<T>, p: T -> bool, n: nat)
    requires n <= |s| && n <= |t| && s[..n] == t[..n]
    ensures Positions(s, p, n) == Positions(t, p, n)
  {
    if n > 0 {
      assert s[..n - 1] == s[..n][..n - 1] && t[..n - 1] == t[..n][..n - 1];
      assert s[n - 1] == s[..n][n - 1] && t[n - 1] == t[..n][n - 1];
      PositionsPrefix(s, t, p, n - 1);
    }
  }

  /** Filtering one more element appends it exactly when it satisfies the predicate. */
  lemma FilterSnoc<T>(s: seq<T>, x: T, p: T -> bool)
    ensures Filter(s + [x], p) == Filter(s, p) + (if p(x) then [x] else [])
  {
    var t := s + [x];
    assert t[..|s|] == s[..|s|];
    PositionsPrefix(s, t, p, |s|);
    var pos := Positions(s, p, |s|);
    assert Positions(t, p, |t|) == pos + (if p(x) then [|s|] else []);
    assert Pick(t, pos) == Pick(s, pos);
  }
}
