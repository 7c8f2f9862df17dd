/**
 * Placement of turn icons: `DrawMap::compute_turn_to_lane_offset` and the
 * offset pass of `DrawMap::new`.
 *
 * The turns leaving a lane are split into those that cross the lane's end
 * intersection and the rest; each group is stably sorted by its integer
 * angle key and numbered 0, 1, 2, ... in that order.
 */
module TurnOffsets {
  import opened Ids
  import opened StableSort
  import opened Subsequence
  import opened RoadMap

  function AngleKey(t: TurnData): int { t.angleKey }

  /** Membership of the first (`near`) or second group of the partition. */
  function InGroup(dstI: nat, near: bool): TurnData -> bool {
    (t: TurnData) => (t.id.parent == dstI) == near
  }

  /** `Iterator::partition` on `t.id.parent == l.dst_i`. */
  function Partition(turns: seq<TurnData>, dstI: nat): (r: (seq<TurnData>, seq<TurnData>))
    ensures multiset(r.0) + multiset(r.1) == multiset(turns)
    ensures forall t :: t in r.0 <==> t in turns && t.id.parent == dstI
    ensures forall t :: t in r.1 <==> t in turns && t.id.parent != dstI
  {
    PartitionSplits(turns, InGroup(dstI, true), InGroup(dstI, false));
    FilterMembers(turns, InGroup(dstI, true));
    FilterMembers(turns, InGroup(dstI, false));
    (Filter(turns, InGroup(dstI, true)), Filter(turns, InGroup(dstI, false)))
  }

  /** One group of the partition, stably sorted by angle key. */
  function SortedGroup(turns: seq<TurnData>, dstI: nat, near: bool): (r: seq<TurnData>)
    ensures multiset(r) == multiset(Filter(turns, InGroup(dstI, near)))
    ensures forall a, b :: 0 <= a <= b < |r| ==> r[a].angleKey <= r[b].angleKey
  {
    SortByPermutes(Filter(turns, InGroup(dstI, near)), AngleKey);
    SortByOrdered(Filter(turns, InGroup(dstI, near)), AngleKey);
    SortBy(Filter(turns, InGroup(dstI, near)), AngleKey)
  }

  /** Inserting `sorted[k].id -> k` for k = 0, 1, ... into `r`, as the `enumerate` loops do. */
  function Enumerate(r: map<TurnId, nat>, sorted: seq<TurnData>): (e: map<TurnId, nat>)
    ensures e.Keys == r.Keys + TurnIdSet(sorted)
  {
    if sorted == [] then r
    else
      var n := |sorted| - 1;
      assert sorted == sorted[..n] + [sorted[n]];
      Enumerate(r, sorted[..n])[sorted[n].id := n]
  }

  /** What `compute_turn_to_lane_offset(result, l, map)` leaves in `result`. */
  function LaneOffsets(result: map<TurnId, nat>, turns: seq<TurnData>, dstI: nat): (r: map<TurnId, nat>)
    ensures r.Keys == result.Keys + TurnIdSet(turns)
  {
    SortedGroupsCover(turns, dstI);
    Enumerate(Enumerate(result, SortedGroup(turns, dstI, true)), SortedGroup(turns, dstI, false))
  }

  /** The offsets `r` gives to the turns of one group. */
  ghost function GroupOffsetSet(turns: seq<TurnData>, dstI: nat, near: bool, r: map<TurnId, nat>): set<nat> {
    set p | 0 <= p < |turns| && InGroup(dstI, near)(turns[p]) && turns[p].id in r :: r[turns[p].id]
  }

  /**
   * The placement promised for one group of `n` turns: every turn has an
   * offset, the offsets are exactly 0 .. n-1, and a turn's offset is below
   * another's exactly when its angle key is smaller or, for equal keys, it
   * comes first in the lane's turn list.
   */
  ghost predicate RankedOffsets(turns: seq<TurnData>, dstI: nat, near: bool, r: map<TurnId, nat>) {
    && (forall p :: 0 <= p < |turns| && InGroup(dstI, near)(turns[p]) ==> turns[p].id in r)
    && (forall v :: v in GroupOffsetSet(turns, dstI, near, r) ==> v < |Filter(turns, InGroup(dstI, near))|)
    && (forall k: nat :: k < |Filter(turns, InGroup(dstI, near))| ==> k in GroupOffsetSet(turns, dstI, near, r))
    && (forall p, q ::
          0 <= p < |turns| && 0 <= q < |turns| && InGroup(dstI, near)(turns[p]) && InGroup(dstI, near)(turns[q])
          && turns[p].id in r && turns[q].id in r ==>
          (r[turns[p].id] < r[turns[q].id] <==>
            turns[p].angleKey < turns[q].angleKey || (turns[p].angleKey == turns[q].angleKey && p < q)))
  }

  /** The positions in `turns` of the sorted group, in sorted order. */
  function GroupOrder(turns: seq<TurnData>, dstI: nat, near: bool): (go: seq<nat>)
    ensures InRange(go, |turns|)
  {
    var pos := Positions(turns, InGroup(dstI, near), |turns|);
    Pick(pos, SortOrder(Pick(turns, pos), AngleKey))
  }

  lemma GroupOrderIsPick(turns: seq<TurnData>, dstI: nat, near: bool)
    ensures SortedGroup(turns, dstI, near) == Pick(turns, GroupOrder(turns, dstI, near))
    ensures |GroupOrder(turns, dstI, near)| == |Filter(turns, InGroup(dstI, near))|
  {
    var pos := Positions(turns, InGroup(dstI, near), |turns|);
    var g := Pick(turns, pos);
    var pi := SortOrder(g, AngleKey);
    var go := GroupOrder(turns, dstI, near);
    assert go == Pick(pos, pi);
    assert SortedGroup(turns, dstI, near) == Pick(g, pi);
  }

  lemma GroupOrderMembers(turns: seq<TurnData>, dstI: nat, near: bool)
    ensures forall k :: 0 <= k < |GroupOrder(turns, dstI, near)| ==>
      InGroup(dstI, near)(turns[GroupOrder(turns, dstI, near)[k]])
    ensures forall p :: 0 <= p < |turns| && InGroup(dstI, near)(turns[p]) ==> p in GroupOrder(turns, dstI, near)
  {
    var pos := Positions(turns, InGroup(dstI, near), |turns|);
    PositionsSpec(turns, InGroup(dstI, near), |turns|);
    var g := Pick(turns, pos);
    var pi := SortOrder(g, AngleKey);
    StableOrderIsStableSort(Keys(g, AngleKey), |g|);
    assert IsPermutation(pi, |pos|);
    var go := GroupOrder(turns, dstI, near);
    assert go == Pick(pos, pi);
    forall k | 0 <= k < |go| ensures InGroup(dstI, near)(turns[go[k]]) {
      assert go[k] == pos[pi[k]];
    }
    forall p | 0 <= p < |turns| && InGroup(dstI, near)(turns[p]) ensures p in go {
      var a :| 0 <= a < |pos| && pos[a] == p;
      assert a in pi;
      var k :| 0 <= k < |pi| && pi[k] == a;
      assert go[k] == p;
    }
  }

  lemma GroupOrderSorted(turns: seq<TurnData>, dstI: nat, near: bool)
    ensures forall a, b :: 0 <= a < b < |GroupOrder(turns, dstI, near)| ==>
      var i, j := GroupOrder(turns, dstI, near)[a], GroupOrder(turns, dstI, near)[b];
      turns[i].angleKey < turns[j].angleKey || (turns[i].angleKey == turns[j].angleKey && i < j)
  {
    var pos := Positions(turns, InGroup(dstI, near), |turns|);
    PositionsSpec(turns, InGroup(dstI, near), |turns|);
    var g := Pick(turns, pos);
    SortByIsStable(g, AngleKey);
    var pi := SortOrder(g, AngleKey);
    var go := GroupOrder(turns, dstI, near);
    assert go == Pick(pos, pi);
    forall a, b | 0 <= a < b < |go|
      ensures turns[go[a]].angleKey < turns[go[b]].angleKey
           || (turns[go[a]].angleKey == turns[go[b]].angleKey && go[a] < go[b])
    {
      assert AngleKey(g[pi[a]]) < AngleKey(g[pi[b]]) || (AngleKey(g[pi[a]]) == AngleKey(g[pi[b]]) && pi[a] < pi[b]);
      assert go[a] == pos[pi[a]] && go[b] == pos[pi[b]];
    }
  }

  lemma GroupOrderSpec(turns: seq<TurnData>, dstI: nat, near: bool)
    ensures SortedGroup(turns, dstI, near) == Pick(turns, GroupOrder(turns, dstI, near))
    ensures |GroupOrder(turns, dstI, near)| == |Filter(turns, InGroup(dstI, near))|
    ensures forall k :: 0 <= k < |GroupOrder(turns, dstI, near)| ==>
      InGroup(dstI, near)(turns[GroupOrder(turns, dstI, near)[k]])
    ensures forall p :: 0 <= p < |turns| && InGroup(dstI, near)(turns[p]) ==> p in GroupOrder(turns, dstI, near)
    ensures forall a, b :: 0 <= a < b < |GroupOrder(turns, dstI, near)| ==>
      var i, j := GroupOrder(turns, dstI, near)[a], GroupOrder(turns, dstI, near)[b];
      turns[i].angleKey < turns[j].angleKey || (turns[i].angleKey == turns[j].angleKey && i < j)
  {
    GroupOrderIsPick(turns, dstI, near);
    GroupOrderMembers(turns, dstI, near);
    GroupOrderSorted(turns, dstI, near);
  }

  lemma {:induction false} EnumerateAt(r: map<TurnId, nat>, sorted: seq<TurnData>)
    requires DistinctTurnIds(sorted)
    ensures forall k :: 0 <= k < |sorted| ==> Enumerate(r, sorted)[sorted[k].id] == k
    ensures forall id :: id in r && id !in TurnIdSet(sorted) ==> Enumerate(r, sorted)[id] == r[id]
  {
    if sorted != [] {
      var n := |sorted| - 1;
      EnumerateAt(r, sorted[..n]);
      assert sorted == sorted[..n] + [sorted[n]];
      forall k | 0 <= k < n ensures sorted[k].id != sorted[n].id { }
    }
  }

  lemma DistinctPick(ts: seq<TurnData>, idx: seq<nat>)
    requires DistinctTurnIds(ts) && InRange(idx, |ts|)
    requires forall a, b :: 0 <= a < b < |idx| ==> idx[a] != idx[b]
    ensures DistinctTurnIds(Pick(ts, idx))
  {
    var s := Pick(ts, idx);
    forall a, b | 0 <= a < b < |s| ensures s[a].id != s[b].id {
      if idx[a] < idx[b] {
        assert ts[idx[a]].id != ts[idx[b]].id;
      } else {
        assert ts[idx[b]].id != ts[idx[a]].id;
      }
    }
  }

  /**
   * `go` lists the positions of the group's turns, each once, ordered by
   * angle key and then by position.
   */
  ghost predicate SortedPositions(turns: seq<TurnData>, dstI: nat, near: bool, go: seq<nat>) {
    && |go| == |Filter(turns, InGroup(dstI, near))|
    && (forall k :: 0 <= k < |go| ==> go[k] < |turns| && InGroup(dstI, near)(turns[go[k]]))
    && (forall p :: 0 <= p < |turns| && InGroup(dstI, near)(turns[p]) ==> p in go)
    && (forall a, b :: 0 <= a < b < |go| ==>
          && go[a] < |turns| && go[b] < |turns|
          && (turns[go[a]].angleKey < turns[go[b]].angleKey
              || (turns[go[a]].angleKey == turns[go[b]].angleKey && go[a] < go[b])))
  }

  /** `r` numbers the turns at the positions `go` by their place in `go`. */
  ghost predicate NumberedAlong(turns: seq<TurnData>, go: seq<nat>, r: map<TurnId, nat>) {
    forall k :: 0 <= k < |go| ==> go[k] < |turns| && turns[go[k]].id in r && r[turns[go[k]].id] == k
  }

  lemma AlongBounded(turns: seq<TurnData>, dstI: nat, near: bool, go: seq<nat>, r: map<TurnId, nat>)
    requires SortedPositions(turns, dstI, near, go) && NumberedAlong(turns, go, r)
    ensures forall v :: v in GroupOffsetSet(turns, dstI, near, r) ==> v < |go|
  {
    forall v | v in GroupOffsetSet(turns, dstI, near, r) ensures v < |go| {
      var p :| 0 <= p < |turns| && InGroup(dstI, near)(turns[p]) && turns[p].id in r && r[turns[p].id] == v;
      var k :| 0 <= k < |go| && go[k] == p;
    }
  }

  lemma AlongCovers(turns: seq<TurnData>, dstI: nat, near: bool, go: seq<nat>, r: map<TurnId, nat>)
    requires SortedPositions(turns, dstI, near, go) && NumberedAlong(turns, go, r)
    ensures forall k: nat :: k < |go| ==> k in GroupOffsetSet(turns, dstI, near, r)
  {
    forall k: nat | k < |go| ensures k in GroupOffsetSet(turns, dstI, near, r) {
      assert turns[go[k]].id in r && r[turns[go[k]].id] == k;
    }
  }

  lemma AlongOrdered(turns: seq<TurnData>, dstI: nat, near: bool, go: seq<nat>, r: map<TurnId, nat>, p: nat, q: nat)
    requires SortedPositions(turns, dstI, near, go) && NumberedAlong(turns, go, r)
    requires p < |turns| && q < |turns| && InGroup(dstI, near)(turns[p]) && InGroup(dstI, near)(turns[q])
    ensures turns[p].id in r && turns[q].id in r
    ensures r[turns[p].id] < r[turns[q].id] <==>
      turns[p].angleKey < turns[q].angleKey || (turns[p].angleKey == turns[q].angleKey && p < q)
  {
    var kp :| 0 <= kp < |go| && go[kp] == p;
    var kq :| 0 <= kq < |go| && go[kq] == q;
    assert r[turns[p].id] == kp && r[turns[q].id] == kq;
    if kp < kq {
      assert turns[go[kp]].angleKey < turns[go[kq]].angleKey || (turns[go[kp]].angleKey == turns[go[kq]].angleKey && go[kp] < go[kq]);
    } else if kq < kp {
      assert turns[go[kq]].angleKey < turns[go[kp]].angleKey || (turns[go[kq]].angleKey == turns[go[kp]].angleKey && go[kq] < go[kp]);
    }
  }

  /** Offsets laid out along the sorted group's order satisfy the placement promise. */
  lemma OrderedOffsetsAreRanked(turns: seq<TurnData>, dstI: nat, near: bool, r: map<TurnId, nat>)
    requires forall k :: 0 <= k < |GroupOrder(turns, dstI, near)| ==>
      var t := turns[GroupOrder(turns, dstI, near)[k]];
      t.id in r && r[t.id] == k
    ensures RankedOffsets(turns, dstI, near, r)
  {
    GroupOrderSpec(turns, dstI, near);
    var go := GroupOrder(turns, dstI, near);
    assert SortedPositions(turns, dstI, near, go);
    assert NumberedAlong(turns, go, r);
    AlongBounded(turns, dstI, near, go, r);
    AlongCovers(turns, dstI, near, go, r);
    forall p, q |
      0 <= p < |turns| && 0 <= q < |turns| && InGroup(dstI, near)(turns[p]) && InGroup(dstI, near)(turns[q])
      && turns[p].id in r && turns[q].id in r
      ensures r[turns[p].id] < r[turns[q].id] <==>
        turns[p].angleKey < turns[q].angleKey || (turns[p].angleKey == turns[q].angleKey && p < q)
    {
      AlongOrdered(turns, dstI, near, go, r, p, q);
    }
    forall p | 0 <= p < |turns| && InGroup(dstI, near)(turns[p]) ensures turns[p].id in r {
      AlongOrdered(turns, dstI, near, go, r, p, p);
    }
  }

  /** The two groups together hold exactly the lane's turns. */
  lemma SortedGroupsCover(turns: seq<TurnData>, dstI: nat)
    ensures TurnIdSet(SortedGroup(turns, dstI, true)) + TurnIdSet(SortedGroup(turns, dstI, false)) == TurnIdSet(turns)
  {
    var n, f := Filter(turns, InGroup(dstI, true)), Filter(turns, InGroup(dstI, false));
    PartitionSplits(turns, InGroup(dstI, true), InGroup(dstI, false));
    SortByPermutes(n, AngleKey);
    SortByPermutes(f, AngleKey);
    var sn, sf := SortedGroup(turns, dstI, true), SortedGroup(turns, dstI, false);
    assert multiset(sn) + multiset(sf) == multiset(turns);
    forall t ensures t in turns <==> t in sn || t in sf {
      assert t in turns <==> t in multiset(turns);
      assert t in sn <==> t in multiset(sn);
      assert t in sf <==> t in multiset(sf);
    }
  }

  lemma DistinctPositions(ts: seq<TurnData>, i: nat, j: nat)
    requires DistinctTurnIds(ts) && i < |ts| && j < |ts| && i != j
    ensures ts[i].id != ts[j].id
  {
    if i < j {
      assert ts[i].id != ts[j].id;
    } else {
      assert ts[j].id != ts[i].id;
    }
  }

  lemma SortedGroupDistinct(turns: seq<TurnData>, dstI: nat, near: bool)
    requires DistinctTurnIds(turns)
    ensures DistinctTurnIds(SortedGroup(turns, dstI, near))
  {
    GroupOrderIsPick(turns, dstI, near);
    GroupOrderSorted(turns, dstI, near);
    DistinctPick(turns, GroupOrder(turns, dstI, near));
  }

  /** No turn of the first group shares its id with a turn of the second. */
  lemma GroupsDisjoint(turns: seq<TurnData>, dstI: nat)
    requires DistinctTurnIds(turns)
    ensures forall k :: 0 <= k < |GroupOrder(turns, dstI, true)| ==>
      turns[GroupOrder(turns, dstI, true)[k]].id !in TurnIdSet(SortedGroup(turns, dstI, false))
  {
    var go1 := GroupOrder(turns, dstI, true);
    var f := Filter(turns, InGroup(dstI, false));
    var sf := SortedGroup(turns, dstI, false);
    GroupOrderMembers(turns, dstI, true);
    SortByPermutes(f, AngleKey);
    FilterMembers(turns, InGroup(dstI, false));
    forall k, t | 0 <= k < |go1| && t in sf ensures t.id != turns[go1[k]].id {
      assert t in multiset(sf);
      assert t in f;
      var j :| 0 <= j < |turns| && turns[j] == t;
      DistinctPositions(turns, j, go1[k]);
    }
  }

  lemma SecondGroupRanked(r: map<TurnId, nat>, turns: seq<TurnData>, dstI: nat)
    requires DistinctTurnIds(turns)
    ensures RankedOffsets(turns, dstI, false, Enumerate(r, SortedGroup(turns, dstI, false)))
  {
    var go := GroupOrder(turns, dstI, false);
    GroupOrderIsPick(turns, dstI, false);
    GroupOrderSorted(turns, dstI, false);
    var sf := SortedGroup(turns, dstI, false);
    SortedGroupDistinct(turns, dstI, false);
    EnumerateAt(r, sf);
    var e := Enumerate(r, sf);
    forall k | 0 <= k < |go| ensures turns[go[k]].id in e && e[turns[go[k]].id] == k {
      assert sf[k] == turns[go[k]];
    }
    OrderedOffsetsAreRanked(turns, dstI, false, e);
  }

  lemma FirstGroupRanked(result: map<TurnId, nat>, turns: seq<TurnData>, dstI: nat)
    requires DistinctTurnIds(turns)
    ensures RankedOffsets(turns, dstI, true, LaneOffsets(result, turns, dstI))
  {
    var go := GroupOrder(turns, dstI, true);
    GroupOrderIsPick(turns, dstI, true);
    GroupOrderSorted(turns, dstI, true);
    var sn := SortedGroup(turns, dstI, true);
    SortedGroupDistinct(turns, dstI, true);
    EnumerateAt(result, sn);
    var e1 := Enumerate(result, sn);
    var sf := SortedGroup(turns, dstI, false);
    SortedGroupDistinct(turns, dstI, false);
    EnumerateAt(e1, sf);
    GroupsDisjoint(turns, dstI);
    var e2 := Enumerate(e1, sf);
    forall k | 0 <= k < |go| ensures turns[go[k]].id in e2 && e2[turns[go[k]].id] == k {
      assert sn[k] == turns[go[k]];
      assert e1[sn[k].id] == k;
    }
    OrderedOffsetsAreRanked(turns, dstI, true, e2);
  }

  /**
   * The property of `compute_turn_to_lane_offset`: every turn of the lane
   * gets an offset ranked within its group, and every other entry of
   * `result` is kept.
   */
  lemma LaneOffsetsRanked(result: map<TurnId, nat>, turns: seq<TurnData>, dstI: nat)
    requires DistinctTurnIds(turns)
    ensures LaneOffsets(result, turns, dstI).Keys == result.Keys + TurnIdSet(turns)
    ensures forall id :: id in result && id !in TurnIdSet(turns) ==> LaneOffsets(result, turns, dstI)[id] == result[id]
    ensures RankedOffsets(turns, dstI, true, LaneOffsets(result, turns, dstI))
    ensures RankedOffsets(turns, dstI, false, LaneOffsets(result, turns, dstI))
  {
    SortedGroupsCover(turns, dstI);
    var sn, sf := SortedGroup(turns, dstI, true), SortedGroup(turns, dstI, false);
    SortedGroupDistinct(turns, dstI, true);
    SortedGroupDistinct(turns, dstI, false);
    EnumerateAt(result, sn);
    EnumerateAt(Enumerate(result, sn), sf);
    FirstGroupRanked(result, turns, dstI);
    SecondGroupRanked(Enumerate(result, sn), turns, dstI);
  }

  lemma EnumerateStep(r: map<TurnId, nat>, s: seq<TurnData>, i: nat)
    requires i < |s|
    ensures Enumerate(r, s[..i + 1]) == Enumerate(r, s[..i])[s[i].id := i]
  {
    assert s[..i + 1][..i] == s[..i];
  }

  /** `for (idx, t) in sorted.iter().enumerate() { result.insert(t.id, idx); }` */
  method EnumerateInto(result: map<TurnId, nat>, sorted: seq<TurnData>) returns (r: map<TurnId, nat>)
    ensures r == Enumerate(result, sorted)
  {
    r := result;
    for idx := 0 to |sorted|
      invariant r == Enumerate(result, sorted[..idx])
    {
      EnumerateStep(result, sorted, idx);
      r := r[sorted[idx].id := idx];
    }
    assert sorted[..|sorted|] == sorted;
  }

  /** `DrawMap::compute_turn_to_lane_offset`, with its two `enumerate` loops. */
  method ComputeTurnToLaneOffset(result: map<TurnId, nat>, turns: seq<TurnData>, dstI: nat)
    returns (r: map<TurnId, nat>)
    ensures r == LaneOffsets(result, turns, dstI)
    ensures r.Keys == result.Keys + TurnIdSet(turns)
    ensures DistinctTurnIds(turns) ==>
      RankedOffsets(turns, dstI, true, r) && RankedOffsets(turns, dstI, false, r)
  {
    var pair := Partition(turns, dstI);
    var near, far := pair.0, pair.1;
    near := SortBy(near, AngleKey);
    far := SortBy(far, AngleKey);
    r := EnumerateInto(result, near);
    r := EnumerateInto(r, far);
    SortedGroupsCover(turns, dstI);
    if DistinctTurnIds(turns) {
      LaneOffsetsRanked(result, turns, dstI);
    }
  }

  /** Both groups of lane `l`'s turns carry ranked offsets in `r`. */
  ghost predicate LaneRanked(m: Map, l: nat, r: map<TurnId, nat>)
    requires l < |m.lanes|
  {
    && RankedOffsets(TurnsFromLane(m, l), m.lanes[l].dstI, true, r)
    && RankedOffsets(TurnsFromLane(m, l), m.lanes[l].dstI, false, r)
  }

  /** The ids of the map's turns that start at a lane numbered below `l`. */
  ghost function IdsFromLanesBelow(m: Map, l: nat): set<TurnId> {
    set t | t in m.turns && t.id.src < l :: t.id
  }

  lemma TurnsFromLaneIds(m: Map, l: nat)
    ensures TurnIdSet(TurnsFromLane(m, l)) == set t | t in m.turns && t.id.src == l :: t.id
  {
    FilterMembers(m.turns, FromLane(l));
  }

  lemma TurnsFromLaneDistinct(m: Map, l: nat)
    requires DistinctTurnIds(m.turns)
    ensures DistinctTurnIds(TurnsFromLane(m, l))
  {
    PositionsSpec(m.turns, FromLane(l), |m.turns|);
    var pos := Positions(m.turns, FromLane(l), |m.turns|);
    forall a, b | 0 <= a < b < |pos| ensures pos[a] != pos[b] { }
    DistinctPick(m.turns, pos);
  }

  /**
   * Two rankings of one group agree on every turn whose offset in either
   * is below `k`.
   */
  lemma {:induction false} RankedAgreeBelow(turns: seq<TurnData>, dstI: nat, near: bool, r: map<TurnId, nat>,
                                            r': map<TurnId, nat>, k: nat)
    requires RankedOffsets(turns, dstI, near, r) && RankedOffsets(turns, dstI, near, r')
    decreases k
    ensures forall p :: 0 <= p < |turns| && InGroup(dstI, near)(turns[p]) && r[turns[p].id] < k ==>
      r'[turns[p].id] == r[turns[p].id]
    ensures forall p :: 0 <= p < |turns| && InGroup(dstI, near)(turns[p]) && r'[turns[p].id] < k ==>
      r'[turns[p].id] == r[turns[p].id]
  {
    if k > 0 {
      RankedAgreeBelow(turns, dstI, near, r, r', k - 1);
      RankedAgreeBelow(turns, dstI, near, r', r, k - 1);
      RankedValueAgrees(turns, dstI, near, r, r', k - 1);
      RankedValueAgrees(turns, dstI, near, r', r, k - 1);
    }
  }

  /** The step of `RankedAgreeBelow`: the turn at offset `k` in `r` is at offset `k` in `r'`. */
  lemma RankedValueAgrees(turns: seq<TurnData>, dstI: nat, near: bool, r: map<TurnId, nat>,
                          r': map<TurnId, nat>, k: nat)
    requires RankedOffsets(turns, dstI, near, r) && RankedOffsets(turns, dstI, near, r')
    requires forall p :: 0 <= p < |turns| && InGroup(dstI, near)(turns[p]) && r[turns[p].id] < k ==>
      r'[turns[p].id] == r[turns[p].id]
    requires forall p :: 0 <= p < |turns| && InGroup(dstI, near)(turns[p]) && r'[turns[p].id] < k ==>
      r'[turns[p].id] == r[turns[p].id]
    ensures forall p :: 0 <= p < |turns| && InGroup(dstI, near)(turns[p]) && r[turns[p].id] == k ==>
      r'[turns[p].id] == k
  {
    var g := InGroup(dstI, near);
    forall p | 0 <= p < |turns| && g(turns[p]) && r[turns[p].id] == k
      ensures r'[turns[p].id] == k
    {
      var x := turns[p].id;
      assert r'[x] >= k;
      assert r[x] in GroupOffsetSet(turns, dstI, near, r);
      assert k in GroupOffsetSet(turns, dstI, near, r');
      var q :| 0 <= q < |turns| && g(turns[q]) && turns[q].id in r' && r'[turns[q].id] == k;
      assert r'[x] <= k;
    }
  }

  /** A group's ranking is unique: two rankings give every turn of the group the same offset. */
  lemma RankedUnique(turns: seq<TurnData>, dstI: nat, near: bool, r: map<TurnId, nat>, r': map<TurnId, nat>)
    requires RankedOffsets(turns, dstI, near, r) && RankedOffsets(turns, dstI, near, r')
    ensures forall p :: 0 <= p < |turns| && InGroup(dstI, near)(turns[p]) ==> r'[turns[p].id] == r[turns[p].id]
  {
    var g := InGroup(dstI, near);
    RankedAgreeBelow(turns, dstI, near, r, r', |Filter(turns, g)|);
    forall p | 0 <= p < |turns| && g(turns[p]) ensures r'[turns[p].id] == r[turns[p].id] {
      assert r[turns[p].id] in GroupOffsetSet(turns, dstI, near, r);
    }
  }

  /** In a ranked group, two different turns never share an offset. */
  lemma RankedSeparates(turns: seq<TurnData>, dstI: nat, near: bool, r: map<TurnId, nat>, p: nat, q: nat)
    requires RankedOffsets(turns, dstI, near, r)
    requires p < |turns| && q < |turns| && p != q
    requires InGroup(dstI, near)(turns[p]) && InGroup(dstI, near)(turns[q])
    ensures r[turns[p].id] != r[turns[q].id]
  {
  }

  /** Any two offset tables ranked for lane `l` give every turn of `l` the same offset. */
  lemma LaneRankedUnique(m: Map, l: nat, r: map<TurnId, nat>, r': map<TurnId, nat>)
    requires l < |m.lanes| && LaneRanked(m, l, r) && LaneRanked(m, l, r')
    ensures forall t :: t in m.turns && t.id.src == l ==> t.id in r && t.id in r' && r[t.id] == r'[t.id]
  {
    var ts, d := TurnsFromLane(m, l), m.lanes[l].dstI;
    RankedUnique(ts, d, true, r, r');
    RankedUnique(ts, d, false, r, r');
    FilterMembers(m.turns, FromLane(l));
    forall t | t in m.turns && t.id.src == l ensures t.id in r && t.id in r' && r[t.id] == r'[t.id] {
      assert t in ts;
      var p :| 0 <= p < |ts| && ts[p] == t;
      assert InGroup(d, true)(t) || InGroup(d, false)(t);
    }
  }

  /** Ranked offsets stay ranked when no offset of the group changes. */
  lemma RankedFrame(turns: seq<TurnData>, dstI: nat, near: bool, r: map<TurnId, nat>, r': map<TurnId, nat>)
    requires RankedOffsets(turns, dstI, near, r)
    requires forall t :: t in turns && t.id in r ==> t.id in r' && r'[t.id] == r[t.id]
    ensures RankedOffsets(turns, dstI, near, r')
  {
    assert GroupOffsetSet(turns, dstI, near, r') == GroupOffsetSet(turns, dstI, near, r);
  }

  lemma {:induction false} TurnIdSetSize(ts: seq<TurnData>)
    requires DistinctTurnIds(ts)
    ensures |TurnIdSet(ts)| == |ts|
  {
    if ts != [] {
      var n := |ts| - 1;
      TurnIdSetSize(ts[..n]);
      assert ts == ts[..n] + [ts[n]];
      assert TurnIdSet(ts) == TurnIdSet(ts[..n]) + {ts[n].id};
      forall t | t in ts[..n] ensures t.id != ts[n].id {
        var j :| 0 <= j < n && ts[j] == t;
      }
    }
  }

  lemma SubsetSize<T>(a: set<T>, b: set<T>)
    requires a <= b
    ensures |a| <= |b|
  {
    if a != {} {
      var x :| x in a;
      SubsetSize(a - {x}, b - {x});
    }
  }

  /**
   * The check `assert_eq!(turn_to_lane_offset.len(), map.all_turns().len())`
   * passes exactly when every turn starts at one of the map's lanes.
   */
  lemma OffsetCountCheck(m: Map)
    requires DistinctTurnIds(m.turns)
    ensures |IdsFromLanesBelow(m, |m.lanes|)| == |m.turns| <==> forall t :: t in m.turns ==> t.id.src < |m.lanes|
  {
    var a, all := IdsFromLanesBelow(m, |m.lanes|), TurnIdSet(m.turns);
    TurnIdSetSize(m.turns);
    if forall t :: t in m.turns ==> t.id.src < |m.lanes| {
      assert a == all;
    } else {
      var t :| t in m.turns && t.id.src >= |m.lanes|;
      SubsetSize(a, all - {t.id});
      assert |all - {t.id}| == |all| - 1;
    }
  }

  /** After lane `l`, the table holds the turns of the lanes up to `l`. */
  lemma AllOffsetsKeys(m: Map, l: nat, before: map<TurnId, nat>)
    requires l < |m.lanes| && before.Keys == IdsFromLanesBelow(m, l)
    ensures LaneOffsets(before, TurnsFromLane(m, l), m.lanes[l].dstI).Keys == IdsFromLanesBelow(m, l + 1)
  {
    var turns := TurnsFromLane(m, l);
    SortedGroupsCover(turns, m.lanes[l].dstI);
    TurnsFromLaneIds(m, l);
    var after := LaneOffsets(before, turns, m.lanes[l].dstI);
    assert after.Keys == before.Keys + TurnIdSet(turns);
  }

  /** Processing lane `l` keeps the ranking of an earlier lane `k`. */
  lemma AllOffsetsKeep(m: Map, l: nat, k: nat, before: map<TurnId, nat>)
    requires DistinctTurnIds(m.turns) && k < l < |m.lanes|
    requires LaneRanked(m, k, before)
    ensures LaneRanked(m, k, LaneOffsets(before, TurnsFromLane(m, l), m.lanes[l].dstI))
  {
    var turns := TurnsFromLane(m, l);
    var after := LaneOffsets(before, turns, m.lanes[l].dstI);
    TurnsFromLaneDistinct(m, l);
    TurnsFromLaneIds(m, l);
    TurnsFromLaneIds(m, k);
    LaneOffsetsRanked(before, turns, m.lanes[l].dstI);
    var ts', d' := TurnsFromLane(m, k), m.lanes[k].dstI;
    forall t | t in ts' && t.id in before ensures t.id in after && after[t.id] == before[t.id] {
      assert t.id in TurnIdSet(ts');
      assert t.id !in TurnIdSet(turns);
    }
    RankedFrame(ts', d', true, before, after);
    RankedFrame(ts', d', false, before, after);
  }

  lemma AllOffsetsStep(m: Map, l: nat, before: map<TurnId, nat>)
    requires DistinctTurnIds(m.turns) && l < |m.lanes|
    requires before.Keys == IdsFromLanesBelow(m, l)
    requires forall l' :: 0 <= l' < l ==> LaneRanked(m, l', before)
    ensures LaneOffsets(before, TurnsFromLane(m, l), m.lanes[l].dstI).Keys == IdsFromLanesBelow(m, l + 1)
    ensures forall l' :: 0 <= l' < l + 1 ==> LaneRanked(m, l', LaneOffsets(before, TurnsFromLane(m, l), m.lanes[l].dstI))
  {
    AllOffsetsKeys(m, l, before);
    TurnsFromLaneDistinct(m, l);
    LaneOffsetsRanked(before, TurnsFromLane(m, l), m.lanes[l].dstI);
    forall l' | 0 <= l' < l
      ensures LaneRanked(m, l', LaneOffsets(before, TurnsFromLane(m, l), m.lanes[l].dstI))
    {
      AllOffsetsKeep(m, l, l', before);
    }
  }

  /** The offset pass of `DrawMap::new`: `compute_turn_to_lane_offset` over every lane. */
  method ComputeAllOffsets(m: Map) returns (offsets: map<TurnId, nat>, ok: bool)
    requires DistinctTurnIds(m.turns)
    ensures offsets.Keys == IdsFromLanesBelow(m, |m.lanes|)
    ensures forall l :: 0 <= l < |m.lanes| ==> LaneRanked(m, l, offsets)
    ensures ok <==> forall t :: t in m.turns ==> t.id.src < |m.lanes|
    ensures ok ==> offsets.Keys == TurnIdSet(m.turns) && |offsets| == |m.turns|
  {
    offsets := map[];
    for l := 0 to |m.lanes|
      invariant offsets.Keys == IdsFromLanesBelow(m, l)
      invariant forall l' :: 0 <= l' < l ==> LaneRanked(m, l', offsets)
    {
      ghost var before := offsets;
      offsets := ComputeTurnToLaneOffset(offsets, TurnsFromLane(m, l), m.lanes[l].dstI);
      AllOffsetsStep(m, l, before);
    }
    OffsetCountCheck(m);
    ok := |offsets| == |m.turns|;
    if ok {
      TurnIdSetSize(m.turns);
      assert offsets.Keys == TurnIdSet(m.turns);
    }
  }
}

/** The three-turn example: turns at angles 170, 10 and 90 into the lane's end intersection. */
module TurnOffsetsExample {
  import opened Ids
  import opened StableSort
  import opened Subsequence
  import opened RoadMap
  import opened TurnOffsets

  ghost predicate Example(a: TurnId, b: TurnId, c: TurnId, ts: seq<TurnData>) {
    && a == TurnId(5, 0, 1) && b == TurnId(5, 0, 2) && c == TurnId(5, 0, 3)
    && ts == [TurnData(a, 170, 0), TurnData(b, 10, 0), TurnData(c, 90, 0)]
  }

  lemma ExampleGroup(a: TurnId, b: TurnId, c: TurnId, ts: seq<TurnData>)
    requires Example(a, b, c, ts)
    ensures |Filter(ts, InGroup(5, true))| == 3
    ensures TurnIdSet(ts) == {a, b, c}
  {
    var near := InGroup(5, true);
    assert Positions(ts, near, 1) == [0];
    assert Positions(ts, near, 2) == [0, 1];
    assert ts[0] in ts && ts[1] in ts && ts[2] in ts;
  }

  /** Any ranking of the example's turns numbers them by angle. */
  lemma ExampleRanking(a: TurnId, b: TurnId, c: TurnId, ts: seq<TurnData>, r: map<TurnId, nat>)
    requires Example(a, b, c, ts)
    requires RankedOffsets(ts, 5, true, r) && r.Keys == TurnIdSet(ts)
    ensures r == map[a := 2, b := 0, c := 1]
  {
    ExampleGroup(a, b, c, ts);
    var near := InGroup(5, true);
    assert near(ts[0]) && near(ts[1]) && near(ts[2]);
    assert r[b] < r[c] && r[c] < r[a];
    assert r[a] in GroupOffsetSet(ts, 5, true, r);
  }

  /** `compute_turn_to_lane_offset` gives the turns at 10, 90 and 170 degrees offsets 0, 1 and 2. */
  lemma ThreeAngles(a: TurnId, b: TurnId, c: TurnId, ts: seq<TurnData>)
    requires Example(a, b, c, ts)
    ensures LaneOffsets(map[], ts, 5) == map[a := 2, b := 0, c := 1]
  {
    LaneOffsetsRanked(map[], ts, 5);
    ExampleRanking(a, b, c, ts, LaneOffsets(map[], ts, 5));
  }
}
