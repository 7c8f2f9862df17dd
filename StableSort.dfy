/**
 * The standard library's stable `sort_by_key` and `reverse`, as used by the
 * rendering index, stated as functions with their properties proved.
 *
 * A stable sort of `n` elements with integer keys is described by the order
 * in which it picks the input positions: `StableOrder(keys, n)` is a
 * permutation of `[0, n)` that lists positions by ascending key and, among
 * equal keys, by ascending position.  `SortBy` applies that order.
 */
module StableSort {

  /** The elements of `s` at the positions `idx`, in that order. */
  function Pick<T>(s: seq<T>, idx: seq<nat>): (r: seq<T>)
    requires forall k :: 0 <= k < |idx| ==> idx[k] < |s|
    ensures |r| == |idx|
    ensures forall k :: 0 <= k < |idx| ==> r[k] == s[idx[k]]
  {
    seq(|idx|, k requires 0 <= k < |idx| => s[idx[k]])
  }

  function Keys<T>(s: seq<T>, key: T -> int): (r: seq<int>)
    ensures |r| == |s|
    ensures forall i :: 0 <= i < |s| ==> r[i] == key(s[i])
  {
    seq(|s|, i requires 0 <= i < |s| => key(s[i]))
  }

  /** Position `i` is taken before position `j`: smaller key, or equal key and earlier. */
  predicate Before(keys: seq<int>, i: nat, j: nat)
    requires i < |keys| && j < |keys|
  {
    keys[i] < keys[j] || (keys[i] == keys[j] && i < j)
  }

  predicate InRange(idx: seq<nat>, n: nat) {
    forall k :: 0 <= k < |idx| ==> idx[k] < n
  }

  ghost predicate LexSorted(keys: seq<int>, idx: seq<nat>)
    requires InRange(idx, |keys|)
  {
    forall a, b :: 0 <= a < b < |idx| ==> Before(keys, idx[a], idx[b])
  }

  /** `idx` lists every position of `[0, n)` exactly once. */
  ghost predicate IsPermutation(idx: seq<nat>, n: nat) {
    && |idx| == n
    && InRange(idx, n)
    && (forall i :: 0 <= i < n ==> i in idx)
    && (forall a, b :: 0 <= a < b < |idx| ==> idx[a] != idx[b])
  }

  /**
   * Insertion of position `i` into an ordered list of positions: it goes
   * after every position whose key is not greater than its own.
   */
  function Insert(keys: seq<int>, idx: seq<nat>, i: nat): (r: seq<nat>)
    requires i < |keys| && InRange(idx, |keys|)
    ensures |r| == |idx| + 1
    ensures multiset(r) == multiset(idx) + multiset{i}
    decreases |idx|
  {
    if idx == [] || keys[idx[|idx| - 1]] <= keys[i] then idx + [i]
    else
      assert idx == idx[..|idx| - 1] + [idx[|idx| - 1]];
      Insert(keys, idx[..|idx| - 1], i) + [idx[|idx| - 1]]
  }

  lemma InsertInRange(keys: seq<int>, idx: seq<nat>, i: nat, n: nat)
    requires i < n <= |keys| && InRange(idx, n)
    ensures InRange(Insert(keys, idx, i), n)
  {
    var r := Insert(keys, idx, i);
    forall k | 0 <= k < |r| ensures r[k] < n {
      assert r[k] in multiset(r);
      assert r[k] in multiset(idx) || r[k] == i;
    }
  }

  /** The stable order of the first `n` positions of `keys`. */
  function StableOrder(keys: seq<int>, n: nat): (r: seq<nat>)
    requires n <= |keys|
    ensures |r| == n && InRange(r, n)
  {
    if n == 0 then []
    else
      var prev := StableOrder(keys, n - 1);
      InsertInRange(keys, prev, n - 1, n);
      Insert(keys, prev, n - 1)
  }

  lemma {:induction false} InsertLexSorted(keys: seq<int>, idx: seq<nat>, i: nat)
    requires i < |keys| && InRange(idx, |keys|)
    requires LexSorted(keys, idx)
    requires forall k :: 0 <= k < |idx| ==> idx[k] < i
    ensures InRange(Insert(keys, idx, i), |keys|)
    ensures LexSorted(keys, Insert(keys, idx, i))
    decreases |idx|
  {
    InsertInRange(keys, idx, i, |keys|);
    var r := Insert(keys, idx, i);
    if idx == [] || keys[idx[|idx| - 1]] <= keys[i] {
      forall a, b | 0 <= a < b < |r| ensures Before(keys, r[a], r[b]) {
        if b == |idx| && a < |idx| - 1 {
          assert Before(keys, idx[a], idx[|idx| - 1]);
        }
      }
    } else {
      var last := idx[|idx| - 1];
      var pre := idx[..|idx| - 1];
      InsertLexSorted(keys, pre, i);
      var q := Insert(keys, pre, i);
      assert r == q + [last];
      forall a, b | 0 <= a < b < |r| ensures Before(keys, r[a], r[b]) {
        if b == |q| {
          assert r[a] == q[a] && q[a] in multiset(q);
          if q[a] != i {
            assert q[a] in multiset(pre);
            var a' :| 0 <= a' < |pre| && pre[a'] == q[a];
            assert Before(keys, idx[a'], idx[|idx| - 1]);
          }
        }
      }
    }
  }

  lemma {:induction false} StableOrderLexSorted(keys: seq<int>, n: nat)
    requires n <= |keys|
    ensures LexSorted(keys, StableOrder(keys, n))
  {
    if n > 0 {
      var prev := StableOrder(keys, n - 1);
      StableOrderLexSorted(keys, n - 1);
      InsertLexSorted(keys, prev, n - 1);
    }
  }

  lemma {:induction false} StableOrderCovers(keys: seq<int>, n: nat)
    requires n <= |keys|
    ensures forall i :: 0 <= i < n ==> i in StableOrder(keys, n)
  {
    if n > 0 {
      var prev := StableOrder(keys, n - 1);
      StableOrderCovers(keys, n - 1);
      var r := Insert(keys, prev, n - 1);
      assert r == StableOrder(keys, n);
      forall i | 0 <= i < n ensures i in r {
        if i < n - 1 {
          assert i in prev;
          assert i in multiset(prev);
        }
        assert i in multiset(r);
      }
    }
  }

  lemma StableOrderIsStableSort(keys: seq<int>, n: nat)
    requires n <= |keys|
    ensures IsPermutation(StableOrder(keys, n), n)
    ensures LexSorted(keys, StableOrder(keys, n))
  {
    var r := StableOrder(keys, n);
    StableOrderLexSorted(keys, n);
    StableOrderCovers(keys, n);
    forall a, b | 0 <= a < b < |r| ensures r[a] != r[b] {
      assert Before(keys, r[a], r[b]);
    }
  }

  /** The order `sort_by_key(key)` takes the positions of `s` in. */
  function SortOrder<T>(s: seq<T>, key: T -> int): (r: seq<nat>)
    ensures |r| == |s| && InRange(r, |s|)
  {
    StableOrder(Keys(s, key), |s|)
  }

  /** `s` stably sorted by `key`, as Rust's `slice::sort_by_key` leaves it. */
  function SortBy<T>(s: seq<T>, key: T -> int): (r: seq<T>)
    ensures |r| == |s|
  {
    Pick(s, SortOrder(s, key))
  }

  /**
   * The full contract of a stable sort: output position `a` holds input
   * position `SortOrder(s, key)[a]`, every input position is used once, and
   * positions are taken by ascending key, ties in input order.
   */
  lemma SortByIsStable<T>(s: seq<T>, key: T -> int)
    ensures IsPermutation(SortOrder(s, key), |s|)
    ensures forall a :: 0 <= a < |s| ==> SortBy(s, key)[a] == s[SortOrder(s, key)[a]]
    ensures forall a, b :: 0 <= a < b < |s| ==>
      var i, j := SortOrder(s, key)[a], SortOrder(s, key)[b];
      key(s[i]) < key(s[j]) || (key(s[i]) == key(s[j]) && i < j)
  {
    var keys := Keys(s, key);
    StableOrderIsStableSort(keys, |s|);
    var pi := SortOrder(s, key);
    forall a, b | 0 <= a < b < |s|
      ensures key(s[pi[a]]) < key(s[pi[b]]) || (key(s[pi[a]]) == key(s[pi[b]]) && pi[a] < pi[b])
    {
      assert Before(keys, pi[a], pi[b]);
    }
  }

  /** The sorted sequence has non-decreasing keys. */
  lemma SortByOrdered<T>(s: seq<T>, key: T -> int)
    ensures forall a, b :: 0 <= a <= b < |s| ==> key(SortBy(s, key)[a]) <= key(SortBy(s, key)[b])
  {
    SortByIsStable(s, key);
  }

  lemma {:induction false} PickInsert<T>(s: seq<T>, keys: seq<int>, idx: seq<nat>, i: nat)
    requires |keys| == |s| && i < |s| && InRange(idx, |s|)
    ensures InRange(Insert(keys, idx, i), |s|)
    ensures multiset(Pick(s, Insert(keys, idx, i))) == multiset(Pick(s, idx)) + multiset{s[i]}
    decreases |idx|
  {
    InsertInRange(keys, idx, i, |s|);
    if idx == [] || keys[idx[|idx| - 1]] <= keys[i] {
      assert Pick(s, idx + [i]) == Pick(s, idx) + [s[i]];
    } else {
      var last := idx[|idx| - 1];
      var pre := idx[..|idx| - 1];
      PickInsert(s, keys, pre, i);
      InsertInRange(keys, pre, i, |s|);
      var q := Insert(keys, pre, i);
      assert Pick(s, q + [last]) == Pick(s, q) + [s[last]];
      assert Pick(s, idx) == Pick(s, pre) + [s[last]];
    }
  }

  lemma {:induction false} PickStableOrder<T>(s: seq<T>, keys: seq<int>, n: nat)
    requires |keys| == |s| && n <= |s|
    ensures InRange(StableOrder(keys, n), |s|)
    ensures multiset(Pick(s, StableOrder(keys, n))) == multiset(s[..n])
  {
    var r := StableOrder(keys, n);
    assert InRange(r, |s|);
    if n == 0 {
      assert Pick(s, r) == [] && s[..n] == [];
    } else {
      var prev := StableOrder(keys, n - 1);
      PickStableOrder(s, keys, n - 1);
      PickInsert(s, keys, prev, n - 1);
      assert r == Insert(keys, prev, n - 1);
      TakeOneMore(s, n - 1);
    }
  }

  lemma TakeOneMore<T>(s: seq<T>, n: nat)
    requires n < |s|
    ensures multiset(s[..n + 1]) == multiset(s[..n]) + multiset{s[n]}
  {
    assert s[..n + 1] == s[..n] + [s[n]];
  }

  /** Sorting only rearranges: the output is a permutation of the input. */
  lemma SortByPermutes<T>(s: seq<T>, key: T -> int)
    ensures multiset(SortBy(s, key)) == multiset(s)
  {
    PickStableOrder(s, Keys(s, key), |s|);
    assert s[..|s|] == s;
  }

  /** `s` back to front, as Rust's `slice::reverse` leaves it. */
  function Reversed<T>(s: seq<T>): (r: seq<T>)
    ensures |r| == |s|
  {
    if s == [] then [] else [s[|s| - 1]] + Reversed(s[..|s| - 1])
  }

  lemma {:induction false} ReversedAt<T>(s: seq<T>)
    ensures forall k :: 0 <= k < |s| ==> Reversed(s)[k] == s[|s| - 1 - k]
  {
    if s != [] {
      ReversedAt(s[..|s| - 1]);
    }
  }

  /** Reversing twice gives the sequence back. */
  lemma ReversedTwice<T>(s: seq<T>)
    ensures Reversed(Reversed(s)) == s
  {
    ReversedAt(s);
    ReversedAt(Reversed(s));
  }
}
