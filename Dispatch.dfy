/**
 * The ordering and streaming half of `DrawMap::handle_objects`: the
 * candidates (eight static buckets, then the cached agents) are stably
 * sorted by z-order, reversed for front-to-back drawing, and handed one by
 * one to a callback that can stop the stream.
 */
module Dispatch {
  import opened Ids
  import opened StableSort

  datatype RenderOrder = BackToFront | FrontToBack

  /** The eight buckets concatenated in bucket order. */
  function Flatten(buckets: seq<seq<Drawable>>): (r: seq<Drawable>)
    ensures forall d :: d in r <==> exists c :: 0 <= c < |buckets| && d in buckets[c]
  {
    if buckets == [] then []
    else
      var n := |buckets| - 1;
      assert buckets == buckets[..n] + [buckets[n]];
      Flatten(buckets[..n]) + buckets[n]
  }

  /** `sort_by_key(get_zorder)`, then `reverse` when drawing front to back. */
  function Arrange(candidates: seq<Drawable>, order: RenderOrder): (r: seq<Drawable>)
    ensures |r| == |candidates|
  {
    var sorted := SortBy(candidates, ZOrder);
    if order == FrontToBack then Reversed(sorted) else sorted
  }

  /**
   * Back to front: the output rearranges the candidates, has non-decreasing
   * z-orders, and keeps the candidates' order among equal z-orders.
   */
  lemma BackToFrontOrder(candidates: seq<Drawable>)
    ensures multiset(Arrange(candidates, BackToFront)) == multiset(candidates)
    ensures forall a, b :: 0 <= a <= b < |candidates| ==>
      Arrange(candidates, BackToFront)[a].zorder <= Arrange(candidates, BackToFront)[b].zorder
    ensures forall a, b :: 0 <= a < b < |candidates| ==>
      var i, j := SortOrder(candidates, ZOrder)[a], SortOrder(candidates, ZOrder)[b];
      && Arrange(candidates, BackToFront)[a] == candidates[i]
      && Arrange(candidates, BackToFront)[b] == candidates[j]
      && (candidates[i].zorder == candidates[j].zorder ==> i < j)
  {
    SortByPermutes(candidates, ZOrder);
    SortByOrdered(candidates, ZOrder);
    SortByIsStable(candidates, ZOrder);
  }

  /** Front to back is exactly the reverse of back to front, so z-orders never increase. */
  lemma FrontToBackOrder(candidates: seq<Drawable>)
    ensures forall k :: 0 <= k < |candidates| ==>
      Arrange(candidates, FrontToBack)[k] == Arrange(candidates, BackToFront)[|candidates| - 1 - k]
    ensures forall a, b :: 0 <= a <= b < |candidates| ==>
      Arrange(candidates, FrontToBack)[a].zorder >= Arrange(candidates, FrontToBack)[b].zorder
  {
    var sorted := SortBy(candidates, ZOrder);
    ReversedAt(sorted);
    SortByOrdered(candidates, ZOrder);
    forall a, b | 0 <= a <= b < |candidates|
      ensures Arrange(candidates, FrontToBack)[a].zorder >= Arrange(candidates, FrontToBack)[b].zorder
    {
      assert ZOrder(sorted[|candidates| - 1 - b]) <= ZOrder(sorted[|candidates| - 1 - a]);
    }
  }

  /**
   * An area at z-order 0, a lane at 1 and a building at 2 are drawn area,
   * lane, building back to front and building, lane, area front to back,
   * whatever order they were collected in.
   */
  lemma ThreeZOrders(area: Drawable, lane: Drawable, building: Drawable, candidates: seq<Drawable>)
    requires area.zorder == 0 && lane.zorder == 1 && building.zorder == 2
    requires multiset(candidates) == multiset{area, lane, building}
    ensures Arrange(candidates, BackToFront) == [area, lane, building]
    ensures Arrange(candidates, FrontToBack) == [building, lane, area]
  {
    BackToFrontOrder(candidates);
    FrontToBackOrder(candidates);
    var r := Arrange(candidates, BackToFront);
    assert |candidates| == 3 by {
      assert |multiset(candidates)| == 3;
    }
    assert r[0] in multiset(r) && r[1] in multiset(r) && r[2] in multiset(r);
    assert area in multiset(r) && lane in multiset(r) && building in multiset(r);
    assert r[0].zorder <= r[1].zorder <= r[2].zorder;
  }

  /** Candidates listed bucket by bucket, areas first and agents last. */
  ghost predicate Layered(candidates: seq<Drawable>) {
    forall a, b :: 0 <= a <= b < |candidates| ==> Layer(candidates[a].id) <= Layer(candidates[b].id)
  }

  /**
   * The deterministic tie-break: back to front, drawables come by z-order
   * and, among equal z-orders, by bucket.
   */
  lemma TiesBrokenByLayer(candidates: seq<Drawable>)
    requires Layered(candidates)
    ensures forall a, b :: 0 <= a < b < |candidates| ==>
      var x, y := Arrange(candidates, BackToFront)[a], Arrange(candidates, BackToFront)[b];
      x.zorder < y.zorder || (x.zorder == y.zorder && Layer(x.id) <= Layer(y.id))
  {
    BackToFrontOrder(candidates);
    SortByIsStable(candidates, ZOrder);
    var pi := SortOrder(candidates, ZOrder);
    forall a, b | 0 <= a < b < |candidates|
      ensures var x, y := Arrange(candidates, BackToFront)[a], Arrange(candidates, BackToFront)[b];
        x.zorder < y.zorder || (x.zorder == y.zorder && Layer(x.id) <= Layer(y.id))
    {
      assert ZOrder(candidates[pi[a]]) < ZOrder(candidates[pi[b]])
          || (ZOrder(candidates[pi[a]]) == ZOrder(candidates[pi[b]]) && pi[a] < pi[b]);
    }
  }

  lemma {:induction false} BucketsBeforeLayered(buckets: seq<seq<Drawable>>, tail: seq<Drawable>)
    requires forall c, d :: 0 <= c < |buckets| && d in buckets[c] ==> Layer(d.id) == c
    requires Layered(tail) && forall d :: d in tail ==> |buckets| <= Layer(d.id)
    ensures Layered(Flatten(buckets) + tail)
  {
    if buckets != [] {
      var n := |buckets| - 1;
      var rest := buckets[n] + tail;
      forall a, b | 0 <= a <= b < |rest| ensures Layer(rest[a].id) <= Layer(rest[b].id) {
        if b < |buckets[n]| {
          assert rest[a] in buckets[n] && rest[b] in buckets[n];
        } else if a < |buckets[n]| {
          assert rest[a] in buckets[n] && rest[b] == tail[b - |buckets[n]|];
        } else {
          assert rest[a] == tail[a - |buckets[n]|] && rest[b] == tail[b - |buckets[n]|];
        }
      }
      forall d | d in rest ensures n <= Layer(d.id) {
        assert d in buckets[n] || d in tail;
      }
      BucketsBeforeLayered(buckets[..n], rest);
      assert Flatten(buckets) + tail == Flatten(buckets[..n]) + rest;
    } else {
      assert Flatten(buckets) + tail == tail;
    }
  }

  /** Buckets holding only their own layer, followed by agents, are listed layer by layer. */
  lemma BucketsThenAgentsLayered(buckets: seq<seq<Drawable>>, agents: seq<Drawable>)
    requires |buckets| <= 8
    requires forall c, d :: 0 <= c < |buckets| && d in buckets[c] ==> Layer(d.id) == c
    requires forall d :: d in agents ==> IsAgent(d.id)
    ensures Layered(Flatten(buckets) + agents)
  {
    assert forall k :: 0 <= k < |agents| ==> agents[k] in agents;
    BucketsBeforeLayered(buckets, agents);
  }

  /**
   * `delivered` is what a callback that sees the stream so far receives:
   * a prefix of `ordered`, every delivery but the last was answered `true`,
   * and the stream ends early only after a `false`.
   */
  ghost predicate Streamed(delivered: seq<Drawable>, ordered: seq<Drawable>, consumer: seq<Drawable> -> bool) {
    && |delivered| <= |ordered| && delivered == ordered[..|delivered|]
    && (forall j :: 0 < j < |delivered| ==> consumer(ordered[..j]))
    && (|delivered| < |ordered| ==> delivered != [] && !consumer(delivered))
  }

  /** If every answer is `true`, the whole sequence is delivered. */
  lemma StreamedAll(delivered: seq<Drawable>, ordered: seq<Drawable>, consumer: seq<Drawable> -> bool)
    requires Streamed(delivered, ordered, consumer)
    requires forall j :: 0 < j <= |ordered| ==> consumer(ordered[..j])
    ensures delivered == ordered
  {
  }

  /** Nothing is delivered after the first `false`. */
  lemma StreamedStopsAtFalse(delivered: seq<Drawable>, ordered: seq<Drawable>, consumer: seq<Drawable> -> bool, j: nat)
    requires Streamed(delivered, ordered, consumer)
    requires 0 < j <= |ordered| && !consumer(ordered[..j])
    ensures |delivered| <= j
  {
  }

  /** The `for r in borrows { if !callback(r) { break; } }` loop. */
  method Stream(ordered: seq<Drawable>, consumer: seq<Drawable> -> bool) returns (delivered: seq<Drawable>)
    ensures Streamed(delivered, ordered, consumer)
  {
    delivered := [];
    var k := 0;
    while k < |ordered|
      invariant 0 <= k <= |ordered| && delivered == ordered[..k]
      invariant forall j :: 0 < j <= k ==> consumer(ordered[..j])
    {
      delivered := delivered + [ordered[k]];
      k := k + 1;
      assert delivered == ordered[..k];
      if !consumer(delivered) {
        break;
      }
    }
  }
}
