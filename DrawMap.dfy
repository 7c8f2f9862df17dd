/**
 * `DrawMap`: the editor's rendering index over a road map.  It owns one
 * drawable per static map object, the per-tick agent cache, and a spatial
 * index holding every static object except turns.
 *
 * The spatial index is modelled by the multiset of ids inserted into it; a
 * query's answer is a parameter (`hits`), the sequence of inserted ids the
 * quadtree reports for the screen bounds.
 */
module Render {
  import opened Ids
  import opened StableSort
  import opened Subsequence
  import opened RoadMap
  import opened TurnOffsets
  import opened Cache
  import opened Dispatch
  import opened Frames

  /** A turn's drawable: its icon offset among its lane's turns, and its z-order. */
  datatype DrawTurn = DrawTurn(offset: nat, zorder: int)

  /** The categories whose objects are numbered densely from zero. */
  datatype Dense = Lanes | Intersections | Buildings | Parcels | ExtraShapes | Areas

  function Named(kind: Dense, i: nat): (id: Id)
    ensures KindOf(id) == Some(kind) && Slot(id) == i
  {
    match kind
    case Lanes => Lane(i)
    case Intersections => Intersection(i)
    case Buildings => Building(i)
    case Parcels => Parcel(i)
    case ExtraShapes => ExtraShape(i)
    case Areas => Area(i)
  }

  /** The densely numbered category of `id`, if it has one. */
  function KindOf(id: Id): Option<Dense> {
    match id
    case Lane(_) => Some(Lanes)
    case Intersection(_) => Some(Intersections)
    case Building(_) => Some(Buildings)
    case Parcel(_) => Some(Parcels)
    case ExtraShape(_) => Some(ExtraShapes)
    case Area(_) => Some(Areas)
    case _ => None
  }

  /** The number of a densely numbered object; 0 for the other ids. */
  function Slot(id: Id): nat {
    match id
    case Lane(l) => l
    case Intersection(i) => i
    case Building(b) => b
    case Parcel(p) => p
    case ExtraShape(e) => e
    case Area(a) => a
    case _ => 0
  }

  /** `ds` is numbered by position: the i-th drawable is object `i` of its category. */
  ghost predicate Numbered(ds: seq<Drawable>, kind: Dense) {
    forall i :: 0 <= i < |ds| ==> ds[i].id == Named(kind, i)
  }

  /** The drawables of a densely numbered category, in order. */
  function DrawAll(kind: Dense, zorders: seq<int>): (r: seq<Drawable>)
    ensures |r| == |zorders| && Numbered(r, kind)
    ensures forall i :: 0 <= i < |r| ==> r[i].zorder == zorders[i]
  {
    seq(|zorders|, i requires 0 <= i < |zorders| => Drawable(Named(kind, i), zorders[i]))
  }

  function LaneZOrders(m: Map): (r: seq<int>)
    ensures |r| == |m.lanes| && forall i :: 0 <= i < |r| ==> r[i] == m.lanes[i].zorder
  {
    seq(|m.lanes|, i requires 0 <= i < |m.lanes| => m.lanes[i].zorder)
  }

  function IntersectionZOrders(m: Map): (r: seq<int>)
    ensures |r| == |m.intersections| && forall i :: 0 <= i < |r| ==> r[i] == m.intersections[i].zorder
  {
    seq(|m.intersections|, i requires 0 <= i < |m.intersections| => m.intersections[i].zorder)
  }

  /** The offsets held by a table of turn drawables. */
  ghost function OffsetsOf(turns: map<TurnId, DrawTurn>): map<TurnId, nat> {
    map id | id in turns :: turns[id].offset
  }

  /** `map.get_t`: the map's turn with id `id`, if any. */
  function LookupTurn(ts: seq<TurnData>, id: TurnId): (r: Option<TurnData>)
    ensures r.Some? <==> id in TurnIdSet(ts)
    ensures r.Some? ==> r.value in ts && r.value.id == id
  {
    if ts == [] then None
    else
      var n := |ts| - 1;
      assert ts == ts[..n] + [ts[n]];
      if ts[n].id == id then Some(ts[n]) else LookupTurn(ts[..n], id)
  }

  /**
   * The offsets `compute_turn_to_lane_offset` gives the turns of lane `l`
   * when run on its own, as `edit_add_turn` does.
   */
  ghost function LaneOffsetsFor(m: Map, l: nat): (r: map<TurnId, nat>)
    requires l < |m.lanes|
    ensures r.Keys == set t | t in m.turns && t.id.src == l :: t.id
    ensures DistinctTurnIds(m.turns) ==> LaneRanked(m, l, r)
  {
    var ts := TurnsFromLane(m, l);
    TurnsFromLaneIds(m, l);
    SortedGroupsCover(ts, m.lanes[l].dstI);
    var r := LaneOffsets(map[], ts, m.lanes[l].dstI);
    if DistinctTurnIds(m.turns) then
      TurnsFromLaneDistinct(m, l);
      LaneOffsetsRanked(map[], ts, m.lanes[l].dstI);
      r
    else r
  }

  /** The offset pass of `edit_add_turn`, run on the turns of `t`'s source lane only. */
  method LaneOffsetOf(m: Map, t: TurnData) returns (offset: nat)
    requires t in m.turns && t.id.src < |m.lanes|
    ensures t.id in LaneOffsetsFor(m, t.id.src)
    ensures offset == LaneOffsetsFor(m, t.id.src)[t.id]
  {
    var offsets := ComputeTurnToLaneOffset(map[], TurnsFromLane(m, t.id.src), m.lanes[t.id.src].dstI);
    assert offsets == LaneOffsetsFor(m, t.id.src);
    offset := offsets[t.id];
  }

  /**
   * Offsets ranked for a lane are the ones `compute_turn_to_lane_offset`
   * computes for that lane alone: `edit_add_turn` on an unedited map
   * reproduces the offset `DrawMap::new` gave the turn.
   */
  lemma RebuiltOffsetAgrees(m: Map, offsets: map<TurnId, nat>, t: TurnData)
    requires DistinctTurnIds(m.turns) && t in m.turns && t.id.src < |m.lanes|
    requires LaneRanked(m, t.id.src, offsets)
    ensures t.id in offsets && t.id in LaneOffsetsFor(m, t.id.src)
    ensures offsets[t.id] == LaneOffsetsFor(m, t.id.src)[t.id]
  {
    LaneRankedUnique(m, t.id.src, offsets, LaneOffsetsFor(m, t.id.src));
  }

  /** Insert the ids of `objs` into the spatial index, one by one. */
  method InsertAll(tree: multiset<Id>, objs: seq<Drawable>) returns (r: multiset<Id>)
    ensures r == tree + multiset(IdsOf(objs))
  {
    r := tree;
    for k := 0 to |objs|
      invariant r == tree + multiset(IdsOf(objs[..k]))
    {
      assert IdsOf(objs[..k + 1]) == IdsOf(objs[..k]) + [objs[k].id];
      r := r + multiset{objs[k].id};
    }
    assert objs[..|objs|] == objs;
  }

  /** The quadtree of `DrawMap::new`: every category's ids but the turns'. */
  method SpatialIndex(ls: seq<Drawable>, xs: seq<Drawable>, bs: seq<Drawable>, ps: seq<Drawable>,
                      es: seq<Drawable>, stops: seq<Drawable>, az: seq<Drawable>) returns (tree: multiset<Id>)
    ensures tree == multiset(IdsOf(ls)) + multiset(IdsOf(xs)) + multiset(IdsOf(bs)) + multiset(IdsOf(ps))
                    + multiset(IdsOf(es)) + multiset(IdsOf(stops)) + multiset(IdsOf(az))
  {
    tree := multiset{};
    tree := InsertAll(tree, ls);
    tree := InsertAll(tree, xs);
    tree := InsertAll(tree, bs);
    tree := InsertAll(tree, ps);
    tree := InsertAll(tree, es);
    tree := InsertAll(tree, stops);
    tree := InsertAll(tree, az);
  }

  /** The `DrawTurn` table of `DrawMap::new`: one entry per turn, with the turn's offset. */
  method MakeTurns(m: Map, offsets: map<TurnId, nat>) returns (r: map<TurnId, DrawTurn>)
    requires DistinctTurnIds(m.turns) && TurnIdSet(m.turns) <= offsets.Keys
    ensures r.Keys == TurnIdSet(m.turns)
    ensures forall t :: t in m.turns ==> r[t.id] == DrawTurn(offsets[t.id], t.zorder)
  {
    r := map[];
    for k := 0 to |m.turns|
      invariant r.Keys == TurnIdSet(m.turns[..k])
      invariant forall j :: 0 <= j < k ==> r[m.turns[j].id] == DrawTurn(offsets[m.turns[j].id], m.turns[j].zorder)
    {
      var t := m.turns[k];
      assert m.turns[..k + 1] == m.turns[..k] + [t];
      assert t in m.turns;
      r := r[t.id := DrawTurn(offsets[t.id], t.zorder)];
    }
    assert m.turns[..|m.turns|] == m.turns;
  }

  lemma TableOffsets(m: Map, offsets: map<TurnId, nat>, r: map<TurnId, DrawTurn>)
    requires offsets.Keys == TurnIdSet(m.turns) && r.Keys == TurnIdSet(m.turns)
    requires forall t :: t in m.turns ==> r[t.id] == DrawTurn(offsets[t.id], t.zorder)
    ensures OffsetsOf(r) == offsets
  {
    forall id | id in offsets ensures OffsetsOf(r)[id] == offsets[id] {
      var t :| t in m.turns && t.id == id;
    }
  }

  /**
   * The turn table `DrawMap::new` builds for `m`: one drawable per turn with
   * its z-order, offsets ranked for every lane, and each offset the one its
   * lane alone yields.
   */
  ghost predicate TurnsBuilt(m: Map, r: map<TurnId, DrawTurn>)
    requires forall t :: t in m.turns ==> t.id.src < |m.lanes|
  {
    && r.Keys == TurnIdSet(m.turns)
    && (forall t :: t in m.turns ==> r[t.id].zorder == t.zorder)
    && (forall l :: 0 <= l < |m.lanes| ==> LaneRanked(m, l, OffsetsOf(r)))
    && (forall t :: t in m.turns ==>
          t.id in LaneOffsetsFor(m, t.id.src) && r[t.id].offset == LaneOffsetsFor(m, t.id.src)[t.id])
  }

  /** The offset pass and the `DrawTurn` loop of `DrawMap::new`. */
  method TurnTable(m: Map) returns (r: map<TurnId, DrawTurn>)
    requires DistinctTurnIds(m.turns)
    requires forall t :: t in m.turns ==> t.id.src < |m.lanes|
    ensures TurnsBuilt(m, r)
  {
    var offsets, ok := ComputeAllOffsets(m);
    assert ok && offsets.Keys == TurnIdSet(m.turns);
    r := MakeTurns(m, offsets);
    TableFacts(m, offsets, r);
  }

  lemma TableFacts(m: Map, offsets: map<TurnId, nat>, r: map<TurnId, DrawTurn>)
    requires DistinctTurnIds(m.turns)
    requires forall t :: t in m.turns ==> t.id.src < |m.lanes|
    requires offsets.Keys == TurnIdSet(m.turns)
    requires forall l :: 0 <= l < |m.lanes| ==> LaneRanked(m, l, offsets)
    requires r.Keys == TurnIdSet(m.turns)
    requires forall t :: t in m.turns ==> r[t.id] == DrawTurn(offsets[t.id], t.zorder)
    ensures TurnsBuilt(m, r)
  {
    TableOffsets(m, offsets, r);
    AllLanesAgree(m, offsets);
  }

  /** An offset table ranked for every lane holds, for each turn, the offset of its lane alone. */
  lemma AllLanesAgree(m: Map, offsets: map<TurnId, nat>)
    requires DistinctTurnIds(m.turns)
    requires forall t :: t in m.turns ==> t.id.src < |m.lanes|
    requires forall l :: 0 <= l < |m.lanes| ==> LaneRanked(m, l, offsets)
    ensures forall t :: t in m.turns ==>
      && t.id in offsets && t.id in LaneOffsetsFor(m, t.id.src)
      && offsets[t.id] == LaneOffsetsFor(m, t.id.src)[t.id]
  {
    forall t | t in m.turns
      ensures t.id in offsets && t.id in LaneOffsetsFor(m, t.id.src) && offsets[t.id] == LaneOffsetsFor(m, t.id.src)[t.id]
    {
      RebuiltOffsetAgrees(m, offsets, t);
    }
  }

  /**
   * Offsets that agree with `LaneOffsetsFor` on every turn of lane `l` are
   * ranked for `l`: redrawing all of a lane's turns keeps its icons apart.
   */
  lemma RerankedLane(m: Map, l: nat, turns: map<TurnId, DrawTurn>)
    requires DistinctTurnIds(m.turns) && l < |m.lanes|
    requires forall t :: t in m.turns && t.id.src == l ==>
      t.id in turns && t.id in LaneOffsetsFor(m, l) && turns[t.id].offset == LaneOffsetsFor(m, l)[t.id]
    ensures LaneRanked(m, l, OffsetsOf(turns))
  {
    var r := LaneOffsetsFor(m, l);
    var ts := TurnsFromLane(m, l);
    FilterMembers(m.turns, FromLane(l));
    forall t | t in ts && t.id in r ensures t.id in OffsetsOf(turns) && OffsetsOf(turns)[t.id] == r[t.id] {
      assert t in m.turns && t.id.src == l;
    }
    RankedFrame(ts, m.lanes[l].dstI, true, r, OffsetsOf(turns));
    RankedFrame(ts, m.lanes[l].dstI, false, r, OffsetsOf(turns));
  }

  /** Redraw every turn of `ts` with its offset from `offsets`; other entries are kept. */
  method RedrawTurns(turns: map<TurnId, DrawTurn>, ts: seq<TurnData>, offsets: map<TurnId, nat>)
    returns (r: map<TurnId, DrawTurn>)
    requires TurnIdSet(ts) <= offsets.Keys
    ensures r.Keys == turns.Keys + TurnIdSet(ts)
    ensures forall t :: t in ts ==> r[t.id].offset == offsets[t.id]
    ensures forall x :: x in turns && x !in TurnIdSet(ts) ==> r[x] == turns[x]
  {
    r := turns;
    for k := 0 to |ts|
      invariant r.Keys == turns.Keys + TurnIdSet(ts[..k])
      invariant forall j :: 0 <= j < k ==> r[ts[j].id].offset == offsets[ts[j].id]
      invariant forall x :: x in turns && x !in TurnIdSet(ts[..k]) ==> r[x] == turns[x]
    {
      assert ts[..k + 1] == ts[..k] + [ts[k]];
      assert ts[k] in ts;
      r := r[ts[k].id := DrawTurn(offsets[ts[k].id], ts[k].zorder)];
    }
    assert ts[..|ts|] == ts;
    forall t | t in ts ensures r[t.id].offset == offsets[t.id] {
      var j :| 0 <= j < |ts| && ts[j] == t;
    }
  }

  lemma LaneTurnsRedrawn(m: Map, l: nat, offsets: map<TurnId, nat>, r: map<TurnId, DrawTurn>)
    requires forall t :: t in TurnsFromLane(m, l) ==> t.id in offsets && t.id in r && r[t.id].offset == offsets[t.id]
    ensures forall t :: t in m.turns && t.id.src == l ==> t.id in offsets && t.id in r && r[t.id].offset == offsets[t.id]
  {
    FilterMembers(m.turns, FromLane(l));
  }

  /**
   * A lane into intersection 1 that has turn `a` (angle key 10) when the
   * map is built; the edited map adds turn `c` (angle key 5) into the same
   * intersection.
   */
  ghost predicate AddTurnScenario(m0: Map, m1: Map, a: TurnData, c: TurnData) {
    && a == TurnData(TurnId(1, 0, 1), 10, 0) && c == TurnData(TurnId(1, 0, 2), 5, 0)
    && m0 == Map([LaneData(1, 0)], [a], [], [], [], [], [])
    && m1 == m0.(turns := [a, c])
  }

  lemma ScenarioLanes(m0: Map, m1: Map, a: TurnData, c: TurnData)
    requires AddTurnScenario(m0, m1, a, c)
    ensures TurnsFromLane(m0, 0) == [a] && TurnsFromLane(m1, 0) == [a, c]
    ensures DistinctTurnIds(m0.turns) && DistinctTurnIds(m1.turns)
  {
    assert Positions(m0.turns, FromLane(0), 1) == [0];
    assert Positions(m1.turns, FromLane(0), 2) == [0, 1];
  }

  /** The only ranking of a group of one turn gives it offset 0. */
  lemma SingleRanked(a: TurnData, r: map<TurnId, nat>)
    requires a.id.parent == 1 && RankedOffsets([a], 1, true, r)
    ensures a.id in r && r[a.id] == 0
  {
    assert Positions([a], InGroup(1, true), 1) == [0];
    assert r[a.id] in GroupOffsetSet([a], 1, true, r);
  }

  /** A ranking of the group `[a, c]` gives `c`, the smaller angle key, offset 0. */
  lemma PairRanked(a: TurnData, c: TurnData, r: map<TurnId, nat>)
    requires a.id.parent == 1 && c.id.parent == 1 && c.angleKey < a.angleKey
    requires RankedOffsets([a, c], 1, true, r)
    ensures c.id in r && r[c.id] == 0
  {
    assert Positions([a, c], InGroup(1, true), 2) == [0, 1];
    assert r[a.id] in GroupOffsetSet([a, c], 1, true, r);
    assert r[c.id] < r[a.id];
  }

  /** Two turns of different angle keys at the same offset are not ranked. */
  lemma PairCollisionUnranked(a: TurnData, c: TurnData, x: map<TurnId, nat>)
    requires a.id.parent == 1 && c.id.parent == 1 && c.angleKey < a.angleKey
    requires a.id in x && c.id in x && x[a.id] == x[c.id]
    ensures !RankedOffsets([a, c], 1, true, x)
  {
    assert !(x[[a, c][1].id] < x[[a, c][0].id]);
  }

  /**
   * `edit_add_turn` as written: the build gives `a` offset 0, the edit
   * recomputes only `c` and also gets 0, so the two icons of one group
   * collide and the lane's offsets are no longer ranked.
   */
  lemma AddTurnCollides(m0: Map, m1: Map, a: TurnData, c: TurnData)
    requires AddTurnScenario(m0, m1, a, c)
    ensures a.id in LaneOffsetsFor(m0, 0) && c.id in LaneOffsetsFor(m1, 0)
    ensures LaneOffsetsFor(m0, 0)[a.id] == 0 && LaneOffsetsFor(m1, 0)[c.id] == 0
    ensures !LaneRanked(m1, 0, map[a.id := LaneOffsetsFor(m0, 0)[a.id], c.id := LaneOffsetsFor(m1, 0)[c.id]])
  {
    ScenarioLanes(m0, m1, a, c);
    OffsetsCollide(m0, m1, a, c);
  }

  lemma OffsetsCollide(m0: Map, m1: Map, a: TurnData, c: TurnData)
    requires |m0.lanes| == 1 && m1.lanes == m0.lanes && m0.lanes[0].dstI == 1
    requires a.id.parent == 1 && c.id.parent == 1 && c.angleKey < a.angleKey
    requires TurnsFromLane(m0, 0) == [a] && TurnsFromLane(m1, 0) == [a, c]
    requires DistinctTurnIds(m0.turns) && DistinctTurnIds(m1.turns)
    ensures a.id in LaneOffsetsFor(m0, 0) && c.id in LaneOffsetsFor(m1, 0)
    ensures LaneOffsetsFor(m0, 0)[a.id] == 0 && LaneOffsetsFor(m1, 0)[c.id] == 0
    ensures !LaneRanked(m1, 0, map[a.id := LaneOffsetsFor(m0, 0)[a.id], c.id := LaneOffsetsFor(m1, 0)[c.id]])
  {
    var r0, r1 := LaneOffsetsFor(m0, 0), LaneOffsetsFor(m1, 0);
    SingleRanked(a, r0);
    PairRanked(a, c, r1);
    PairCollisionUnranked(a, c, map[a.id := r0[a.id], c.id := r1[c.id]]);
  }

  ghost function StopIdSet(ss: seq<BusStopData>): set<BusStopId> {
    set s | s in ss :: s.id
  }

  /** The bus-stop table of `DrawMap::new`, keyed by stop id. */
  method MakeBusStops(m: Map) returns (r: map<BusStopId, Drawable>)
    requires DistinctStopIds(m.busStops)
    ensures r.Keys == StopIdSet(m.busStops)
    ensures forall s :: s in m.busStops ==> r[s.id] == Drawable(BusStop(s.id), s.zorder)
  {
    r := map[];
    for k := 0 to |m.busStops|
      invariant r.Keys == StopIdSet(m.busStops[..k])
      invariant forall j :: 0 <= j < k ==> r[m.busStops[j].id] == Drawable(BusStop(m.busStops[j].id), m.busStops[j].zorder)
    {
      var s := m.busStops[k];
      assert m.busStops[..k + 1] == m.busStops[..k] + [s];
      r := r[s.id := Drawable(BusStop(s.id), s.zorder)];
    }
    assert m.busStops[..|m.busStops|] == m.busStops;
  }

  /** The lanes among the ids a query returned, in query order. */
  function LanesIn(hits: seq<Id>): (r: seq<nat>)
    ensures |r| <= |hits|
  {
    if hits == [] then []
    else
      var n := |hits| - 1;
      LanesIn(hits[..n]) + (if hits[n].Lane? then [hits[n].lane] else [])
  }

  /** A lane is reported exactly when the query returned it. */
  lemma {:induction false} LanesInMembers(hits: seq<Id>)
    ensures forall l :: l in LanesIn(hits) <==> Lane(l) in hits
  {
    if hits != [] {
      var n := |hits| - 1;
      LanesInMembers(hits[..n]);
      assert hits == hits[..n] + [hits[n]];
    }
  }

  /** `get_matching_lanes`: the lanes among the query's answer. */
  method GetMatchingLanes(hits: seq<Id>) returns (r: seq<nat>)
    ensures r == LanesIn(hits)
    ensures forall l :: l in r <==> Lane(l) in hits
  {
    r := [];
    for k := 0 to |hits|
      invariant r == LanesIn(hits[..k])
    {
      assert hits[..k + 1][..k] == hits[..k];
      if hits[k].Lane? {
        r := r + [hits[k].lane];
      }
    }
    assert hits[..|hits|] == hits;
    LanesInMembers(hits);
  }

  class DrawMap {
    var lanes: seq<Drawable>
    var intersections: seq<Drawable>
    var turns: map<TurnId, DrawTurn>
    var buildings: seq<Drawable>
    var parcels: seq<Drawable>
    var extraShapes: seq<Drawable>
    var busStops: map<BusStopId, Drawable>
    var areas: seq<Drawable>
    const agents: AgentCache
    var quadtree: multiset<Id>

    /** Every drawable is named after its slot. */
    ghost predicate Indexed()
      reads this
    {
      && Numbered(lanes, Lanes)
      && Numbered(intersections, Intersections)
      && Numbered(buildings, Buildings)
      && Numbered(parcels, Parcels)
      && Numbered(extraShapes, ExtraShapes)
      && Numbered(areas, Areas)
      && (forall s :: s in busStops ==> busStops[s].id == BusStop(s))
    }

    ghost predicate Valid()
      reads this, agents
    {
      && agents.Valid()
      && Indexed()
      && (forall id :: id in quadtree ==> Indexable(id) && Get(id).Some?)
    }

    /**
     * The `get_l`, `get_i`, `get_t`, `get_b`, `get_p`, `get_es`, `get_bs` and
     * `get_a` lookups; `None` where the source's index or key lookup panics.
     * Agents and trips are not drawn by the map.
     */
    function Get(id: Id): (r: Option<Drawable>)
      reads this
      ensures Indexed() && r.Some? ==> r.value.id == id
      ensures IsAgent(id) || id.Trip? ==> r.None?
      ensures id.Turn? ==> (r.Some? <==> id.turn in turns)
    {
      match id
      case Lane(l) => if l < |lanes| then Some(lanes[l]) else None
      case Intersection(i) => if i < |intersections| then Some(intersections[i]) else None
      case Turn(t) => if t in turns then Some(Drawable(id, turns[t].zorder)) else None
      case Building(b) => if b < |buildings| then Some(buildings[b]) else None
      case Parcel(p) => if p < |parcels| then Some(parcels[p]) else None
      case ExtraShape(e) => if e < |extraShapes| then Some(extraShapes[e]) else None
      case BusStop(s) => if s in busStops then Some(busStops[s]) else None
      case Area(a) => if a < |areas| then Some(areas[a]) else None
      case Car(_) => None
      case Pedestrian(_) => None
      case Trip(_) => None
    }

    /**
     * `DrawMap::new`.  Extra shapes arrive already loaded, as their
     * z-orders.  The map's turns and bus stops have distinct ids (they are
     * keyed by id in the map), and every turn leaves from one of the map's
     * lanes: otherwise the offset count check fails.
     */
    constructor (m: Map, drawParcels: bool, extraShapeZOrders: seq<int>)
      requires DistinctTurnIds(m.turns) && DistinctStopIds(m.busStops)
      requires forall t :: t in m.turns ==> t.id.src < |m.lanes|
      ensures Valid() && fresh(agents) && agents.State() == CacheState(None, map[])
      ensures lanes == DrawAll(Lanes, LaneZOrders(m))
      ensures intersections == DrawAll(Intersections, IntersectionZOrders(m))
      ensures buildings == DrawAll(Buildings, m.buildings)
      ensures parcels == if drawParcels then DrawAll(Parcels, m.parcels) else []
      ensures extraShapes == DrawAll(ExtraShapes, extraShapeZOrders)
      ensures areas == DrawAll(Areas, m.areas)
      ensures busStops.Keys == StopIdSet(m.busStops)
      ensures forall s :: s in m.busStops ==> busStops[s.id] == Drawable(BusStop(s.id), s.zorder)
      ensures TurnsBuilt(m, turns)
      ensures forall id :: id in quadtree <==> Indexable(id) && Get(id).Some?
    {
      var ls := DrawAll(Lanes, LaneZOrders(m));
      var ts := TurnTable(m);
      var xs := DrawAll(Intersections, IntersectionZOrders(m));
      var bs := DrawAll(Buildings, m.buildings);
      var ps := if drawParcels then DrawAll(Parcels, m.parcels) else [];
      var es := DrawAll(ExtraShapes, extraShapeZOrders);
      var ss := MakeBusStops(m);
      var stops := StopDrawables(m);
      var az := DrawAll(Areas, m.areas);

      var tree := SpatialIndex(ls, xs, bs, ps, es, stops, az);

      lanes, intersections, turns, buildings := ls, xs, ts, bs;
      parcels, extraShapes, busStops, areas := ps, es, ss, az;
      agents := new AgentCache();
      quadtree := tree;
      new;
      assert Indexed();
      QuadtreeContents(m, tree, ls, xs, bs, ps, es, stops, az);
    }

    /** The spatial index built by the constructor indexes exactly the reachable static objects. */
    lemma QuadtreeContents(m: Map, tree: multiset<Id>, ls: seq<Drawable>, xs: seq<Drawable>, bs: seq<Drawable>,
                           ps: seq<Drawable>, es: seq<Drawable>, stops: seq<Drawable>, az: seq<Drawable>)
      requires Indexed()
      requires ls == lanes && xs == intersections && bs == buildings && ps == parcels
      requires es == extraShapes && az == areas
      requires stops == StopDrawables(m) && busStops.Keys == StopIdSet(m.busStops)
      requires tree == multiset(IdsOf(ls)) + multiset(IdsOf(xs)) + multiset(IdsOf(bs)) + multiset(IdsOf(ps))
                       + multiset(IdsOf(es)) + multiset(IdsOf(stops)) + multiset(IdsOf(az))
      ensures forall id :: id in tree <==> Indexable(id) && Get(id).Some?
    {
      forall id ensures id in tree <==> Indexable(id) && Get(id).Some? {
        QuadtreeHas(m, tree, ls, xs, bs, ps, es, stops, az, id);
      }
    }

    lemma QuadtreeHas(m: Map, tree: multiset<Id>, ls: seq<Drawable>, xs: seq<Drawable>, bs: seq<Drawable>,
                      ps: seq<Drawable>, es: seq<Drawable>, stops: seq<Drawable>, az: seq<Drawable>, id: Id)
      requires Indexed()
      requires ls == lanes && xs == intersections && bs == buildings && ps == parcels
      requires es == extraShapes && az == areas
      requires stops == StopDrawables(m) && busStops.Keys == StopIdSet(m.busStops)
      requires tree == multiset(IdsOf(ls)) + multiset(IdsOf(xs)) + multiset(IdsOf(bs)) + multiset(IdsOf(ps))
                       + multiset(IdsOf(es)) + multiset(IdsOf(stops)) + multiset(IdsOf(az))
      ensures id in tree <==> Indexable(id) && Get(id).Some?
    {
      TreeMembers(m, tree, ls, xs, bs, ps, es, stops, az, id);
      GetReaches(id);
    }

    /** A quadtree id's lookup succeeds exactly when the id names a drawn object. */
    lemma GetReaches(id: Id)
      ensures Indexable(id) && Get(id).Some? <==>
        Reaches(id, |lanes|, |intersections|, |buildings|, |parcels|, |extraShapes|, |areas|, busStops.Keys)
    {
    }

    /**
     * `edit_lane_type`: redraw lane `id` from the edited map.  Its bounding
     * box does not depend on the lane type, so the spatial index is kept.
     * `ok` is `false` where the map lookup or the index panics.
     */
    method EditLaneType(id: nat, m: Map) returns (ok: bool)
      requires Valid()
      modifies this
      ensures Valid()
      ensures ok <==> id < |m.lanes| && id < |old(lanes)|
      ensures lanes == if ok then old(lanes)[id := Drawable(Lane(id), m.lanes[id].zorder)] else old(lanes)
      ensures intersections == old(intersections) && turns == old(turns) && buildings == old(buildings)
      ensures parcels == old(parcels) && extraShapes == old(extraShapes) && busStops == old(busStops)
      ensures areas == old(areas) && quadtree == old(quadtree)
    {
      if id >= |m.lanes| || id >= |lanes| {
        return false;
      }
      lanes := lanes[id := Drawable(Lane(id), m.lanes[id].zorder)];
      ok := true;
    }

    /** `edit_remove_turn`: forget the turn's drawable; removing an absent turn changes nothing. */
    method EditRemoveTurn(id: TurnId)
      requires Valid()
      modifies this
      ensures Valid()
      ensures turns == old(turns) - {id}
      ensures lanes == old(lanes) && intersections == old(intersections) && buildings == old(buildings)
      ensures parcels == old(parcels) && extraShapes == old(extraShapes) && busStops == old(busStops)
      ensures areas == old(areas) && quadtree == old(quadtree)
    {
      SetTurns(turns - {id});
    }

    /** Replace the turn table; the spatial index holds no turns, so it stays valid. */
    method SetTurns(ts: map<TurnId, DrawTurn>)
      requires Valid()
      modifies this
      ensures Valid()
      ensures turns == ts
      ensures lanes == old(lanes) && intersections == old(intersections) && buildings == old(buildings)
      ensures parcels == old(parcels) && extraShapes == old(extraShapes) && busStops == old(busStops)
      ensures areas == old(areas) && quadtree == old(quadtree)
    {
      turns := ts;
    }

    /**
     * `edit_add_turn`: draw the map's turn `id` with the offset that
     * `compute_turn_to_lane_offset` gives it among the turns of its source
     * lane.  `ok` is `false` where `get_t` or `get_l` panics.
     */
    method EditAddTurn(id: TurnId, m: Map) returns (ok: bool)
      requires Valid()
      modifies this
      ensures Valid()
      ensures ok <==> id in TurnIdSet(m.turns) && id.src < |m.lanes|
      ensures ok ==> id in LaneOffsetsFor(m, id.src)
      ensures turns == if ok then old(turns)[id := DrawTurn(LaneOffsetsFor(m, id.src)[id], LookupTurn(m.turns, id).value.zorder)]
                       else old(turns)
      ensures lanes == old(lanes) && intersections == old(intersections) && buildings == old(buildings)
      ensures parcels == old(parcels) && extraShapes == old(extraShapes) && busStops == old(busStops)
      ensures areas == old(areas) && quadtree == old(quadtree)
    {
      var t := LookupTurn(m.turns, id);
      if t.None? || id.src >= |m.lanes| {
        return false;
      }
      var offset := LaneOffsetOf(m, t.value);
      SetTurns(turns[id := DrawTurn(offset, t.value.zorder)]);
      ok := true;
    }

    /**
     * `edit_add_turn` as evidently intended: every turn of the new turn's
     * source lane is redrawn with the offsets recomputed for that lane, so
     * no two icons of one group share an offset.
     */
    method EditAddTurnReranked(id: TurnId, m: Map) returns (ok: bool)
      requires Valid()
      modifies this
      ensures Valid()
      ensures ok <==> id in TurnIdSet(m.turns) && id.src < |m.lanes|
      ensures ok ==> turns.Keys == old(turns).Keys + TurnIdSet(TurnsFromLane(m, id.src))
      ensures ok ==> forall t :: t in m.turns && t.id.src == id.src ==>
        t.id in turns && t.id in LaneOffsetsFor(m, id.src) && turns[t.id].offset == LaneOffsetsFor(m, id.src)[t.id]
      ensures ok ==> forall x :: x in old(turns) && x !in TurnIdSet(TurnsFromLane(m, id.src)) ==> turns[x] == old(turns)[x]
      ensures ok && DistinctTurnIds(m.turns) ==> LaneRanked(m, id.src, OffsetsOf(turns))
      ensures !ok ==> turns == old(turns)
      ensures lanes == old(lanes) && intersections == old(intersections) && buildings == old(buildings)
      ensures parcels == old(parcels) && extraShapes == old(extraShapes) && busStops == old(busStops)
      ensures areas == old(areas) && quadtree == old(quadtree)
    {
      var t := LookupTurn(m.turns, id);
      if t.None? || id.src >= |m.lanes| {
        return false;
      }
      var l := id.src;
      var ts := TurnsFromLane(m, l);
      var offsets := ComputeTurnToLaneOffset(map[], ts, m.lanes[l].dstI);
      assert offsets == LaneOffsetsFor(m, l);
      TurnsFromLaneIds(m, l);
      var r := RedrawTurns(turns, ts, offsets);
      LaneTurnsRedrawn(m, l, offsets, r);
      SetTurns(r);
      if DistinctTurnIds(m.turns) {
        RerankedLane(m, l, r);
      }
      ok := true;
    }

    /** The turn-icon drawables of `ts`, as `get_t` returns them. */
    function TurnIcons(ts: seq<TurnId>): (r: seq<Drawable>)
      reads this
      requires forall t :: t in ts ==> t in turns
      ensures |r| == |ts|
      ensures forall k :: 0 <= k < |ts| ==> r[k] == Drawable(Turn(ts[k]), turns[ts[k]].zorder)
    {
      if ts == [] then []
      else
        var n := |ts| - 1;
        assert ts[n] in ts;
        TurnIcons(ts[..n]) + [Drawable(Turn(ts[n]), turns[ts[n]].zorder)]
    }

    /**
     * The turns of intersection `i`: icons when the intersection shows
     * them (`get_t` panics on a turn without a drawable), their agents
     * otherwise.
     */
    function IntersectionTurns(v: Visibility, m: Map, i: nat): (r: Option<Contribution>)
      reads this
      requires i < |m.intersections|
      ensures r.Some? ==> r.value.own.None?
      ensures r.None? <==> v.iconsFor(i) && exists t :: t in m.intersections[i].turns && t !in turns
      ensures r.Some? && v.iconsFor(i) ==> r.value.icons == TurnIcons(m.intersections[i].turns) && r.value.segments == []
      ensures !v.iconsFor(i) ==> r == Some(Contribution(None, [], TurnSegments(m.intersections[i].turns)))
    {
      var ts := m.intersections[i].turns;
      if !v.iconsFor(i) then Some(Contribution(None, [], TurnSegments(ts)))
      else if forall t :: t in ts ==> t in turns then Some(Contribution(None, TurnIcons(ts), []))
      else None
    }

    /**
     * What hit `id` adds in the query loop of `handle_objects`; `None`
     * where the source panics: an id that must not be in the spatial index,
     * or an index or key lookup that fails.
     */
    function Visit(v: Visibility, m: Map, id: Id): (r: Option<Contribution>)
      reads this
      ensures !v.show(id) ==> r == Some(Contribution(None, [], []))
      ensures v.show(id) && !Indexable(id) ==> r.None?
      ensures v.show(id) && r.Some? ==> Indexable(id) && r.value.own == Get(id) && Get(id).Some?
      ensures r.Some? && r.value.icons != [] ==> v.show(id) && id.Intersection?
      ensures r.Some? ==> forall d :: d in r.value.icons ==> d.id.Turn?
      ensures r.Some? && r.value.segments != [] ==> v.show(id) && (id.Lane? || id.Intersection?)
      ensures v.show(id) && id.Lane? ==> (r.Some? <==> id.lane < |lanes| && id.lane < |m.lanes|)
      ensures v.show(id) && id.Lane? && r.Some? ==>
        && r.value.icons == []
        && r.value.segments == (if v.iconsFor(m.lanes[id.lane].dstI) then [] else [OnLane(id.lane)])
      ensures v.show(id) && id.Intersection? ==>
        (r.Some? <==> id.intersection < |intersections| && id.intersection < |m.intersections|
                      && IntersectionTurns(v, m, id.intersection).Some?)
      ensures v.show(id) && id.Intersection? && r.Some? ==>
        && r.value.icons == IntersectionTurns(v, m, id.intersection).value.icons
        && r.value.segments == IntersectionTurns(v, m, id.intersection).value.segments
    {
      if !v.show(id) then Some(Contribution(None, [], []))
      else
        match id
        case Lane(l) =>
          if l < |lanes| && l < |m.lanes| then
            Some(Contribution(Some(lanes[l]), [], if v.iconsFor(m.lanes[l].dstI) then [] else [OnLane(l)]))
          else None
        case Intersection(i) =>
          if i < |intersections| && i < |m.intersections| then
            match IntersectionTurns(v, m, i)
            case None => None
            case Some(c) => Some(c.(own := Some(intersections[i])))
          else None
        case Turn(_) => None
        case Car(_) => None
        case Pedestrian(_) => None
        case Trip(_) => None
        case _ => if Get(id).Some? then Some(Contribution(Get(id), [], [])) else None
    }

    /** The buckets and recorded traversables after visiting `hits`; `None` once a hit panics. */
    function Collected(v: Visibility, m: Map, hits: seq<Id>): (r: Option<Frame>)
      reads this
      ensures r.Some? ==> |r.value.buckets| == 8
    {
      if hits == [] then Some(EmptyFrame())
      else Step(v, m, Collected(v, m, hits[..|hits| - 1]), hits[|hits| - 1])
    }

    /** Visiting one more hit. */
    function Step(v: Visibility, m: Map, acc: Option<Frame>, id: Id): (r: Option<Frame>)
      reads this
      requires acc.Some? ==> |acc.value.buckets| == 8
      ensures r.Some? ==> |r.value.buckets| == 8
      ensures r.Some? <==> acc.Some? && Visit(v, m, id).Some?
    {
      match acc
      case None => None
      case Some(f) =>
        match Visit(v, m, id)
        case None => None
        case Some(c) => Some(Add(f, id, c))
    }

    lemma CollectedSnoc(v: Visibility, m: Map, hits: seq<Id>, id: Id)
      ensures Collected(v, m, hits + [id]) == Step(v, m, Collected(v, m, hits), id)
    {
      assert (hits + [id])[..|hits|] == hits;
    }

    /** Fill the cache for `on` unless it already holds this tick's entry. */
    method EnsureCached(sim: Sim, on: Traversable)
      requires agents.Valid()
      modifies agents
      ensures agents.Valid()
      ensures agents.State() == Refreshed(old(agents.State()), sim, on)
    {
      if !agents.Has(sim.tick, on) {
        var list := sim.cars(on) + sim.peds(on);
        var ok := agents.Put(sim.tick, on, list);
        assert ok;
      }
    }

    /** The inner loop over an intersection's turns when it shows turn icons. */
    method PushTurnIcons(ts: seq<TurnId>, icons: seq<Drawable>) returns (ok: bool, icons': seq<Drawable>)
      ensures ok <==> forall t :: t in ts ==> t in turns
      ensures ok ==> icons' == icons + TurnIcons(ts)
    {
      icons' := icons;
      for j := 0 to |ts|
        invariant forall t :: t in ts[..j] ==> t in turns
        invariant icons' == icons + TurnIcons(ts[..j])
      {
        assert ts[..j + 1][..j] == ts[..j];
        assert ts[..j + 1] == ts[..j] + [ts[j]];
        if ts[j] !in turns {
          assert ts[j] in ts;
          return false, icons;
        }
        icons' := icons' + [Drawable(Turn(ts[j]), turns[ts[j]].zorder)];
      }
      assert ts[..|ts|] == ts;
      ok := true;
    }

    /** The inner loop over an intersection's turns when their agents are drawn. */
    method RecordTurnAgents(sim: Sim, ts: seq<TurnId>, segs: seq<Traversable>) returns (segs': seq<Traversable>)
      requires agents.Valid()
      modifies agents
      ensures agents.Valid()
      ensures segs' == segs + TurnSegments(ts)
      ensures agents.State() == RefreshedAll(old(agents.State()), sim, TurnSegments(ts))
    {
      ghost var s0 := agents.State();
      segs' := segs;
      for j := 0 to |ts|
        invariant agents.Valid()
        invariant segs' == segs + TurnSegments(ts[..j])
        invariant agents.State() == RefreshedAll(s0, sim, TurnSegments(ts[..j]))
      {
        EnsureCached(sim, OnTurn(ts[j]));
        TurnSegmentsSnoc(ts, j);
        RefreshedAllSnoc(s0, sim, TurnSegments(ts[..j]), OnTurn(ts[j]));
        segs' := segs' + [OnTurn(ts[j])];
      }
      assert ts[..|ts|] == ts;
    }

    /**
     * The loop over an intersection's turns.  `show_icons_for(i)` is asked
     * once per turn in the source; its answer is the same for every turn.
     */
    method VisitTurns(v: Visibility, m: Map, sim: Sim, i: nat, f: Frame) returns (ok: bool, f': Frame)
      requires agents.Valid() && i < |m.intersections| && |f.buckets| == 8
      modifies agents
      ensures agents.Valid()
      ensures ok <==> IntersectionTurns(v, m, i).Some?
      ensures ok ==> f' == Add(f, Intersection(i), IntersectionTurns(v, m, i).value)
      ensures ok ==> agents.State() == RefreshedAll(old(agents.State()), sim, IntersectionTurns(v, m, i).value.segments)
    {
      var ts := m.intersections[i].turns;
      if v.iconsFor(i) {
        var icons;
        ok, icons := PushTurnIcons(ts, f.buckets[TurnIconBucket]);
        f' := Frame(f.buckets[TurnIconBucket := icons], f.segments);
      } else {
        var segs := RecordTurnAgents(sim, ts, f.segments);
        f' := Frame(f.buckets, segs);
        ok := true;
      }
    }

    /** One iteration of the query loop of `handle_objects`. */
    method VisitHit(v: Visibility, m: Map, sim: Sim, id: Id, f: Frame) returns (ok: bool, f': Frame)
      requires agents.Valid() && |f.buckets| == 8
      modifies agents
      ensures agents.Valid()
      ensures ok <==> Visit(v, m, id).Some?
      ensures ok ==> f' == Add(f, id, Visit(v, m, id).value)
      ensures ok ==> agents.State() == RefreshedAll(old(agents.State()), sim, Visit(v, m, id).value.segments)
    {
      if !v.show(id) {
        return true, f;
      }
      match id
      case Lane(l) =>
        if l >= |lanes| || l >= |m.lanes| {
          return false, f;
        }
        var b := f.buckets[Layer(id) := f.buckets[Layer(id)] + [lanes[l]]];
        if !v.iconsFor(m.lanes[l].dstI) {
          EnsureCached(sim, OnLane(l));
          assert [OnLane(l)][..0] == [];
          f' := Frame(b, f.segments + [OnLane(l)]);
        } else {
          f' := Frame(b, f.segments);
        }
        ok := true;
      case Intersection(i) =>
        if i >= |intersections| || i >= |m.intersections| {
          return false, f;
        }
        var b := f.buckets[Layer(id) := f.buckets[Layer(id)] + [intersections[i]]];
        ok, f' := VisitTurns(v, m, sim, i, Frame(b, f.segments));
      case Turn(_) =>
        return false, f;
      case Car(_) =>
        return false, f;
      case Pedestrian(_) =>
        return false, f;
      case Trip(_) =>
        return false, f;
      case _ =>
        var d := Get(id);
        if d.None? {
          return false, f;
        }
        var b := f.buckets[Layer(id) := f.buckets[Layer(id)] + [d.value]];
        f' := Frame(b, f.segments);
        ok := true;
    }

    /**
     * `handle_objects`: visit the query's hits, bucket the shown ones,
     * fill the agent cache for the traversables whose agents are drawn,
     * then sort everything by z-order (reversed for front-to-back) and
     * stream it to `consumer`, which sees the drawables delivered so far
     * and answers `false` to stop.
     */
    method HandleObjects(hits: seq<Id>, m: Map, sim: Sim, v: Visibility, order: RenderOrder,
                         consumer: seq<Drawable> -> bool) returns (r: Outcome)
      requires Valid()
      modifies agents
      ensures Valid()
      ensures r.Panicked? <==> Collected(v, m, hits).None?
      ensures r.Delivered? ==>
        && agents.State() == RefreshedAll(old(agents.State()), sim, Collected(v, m, hits).value.segments)
        && Streamed(r.items, Arrange(Candidates(Collected(v, m, hits).value, agents.State()), order), consumer)
    {
      var ok, f := VisitAll(v, m, sim, hits);
      if !ok {
        return Panicked;
      }
      var borrows := GatherAgents(Flatten(f.buckets), f.segments);
      borrows := SortBy(borrows, ZOrder);
      if order == FrontToBack {
        borrows := Reversed(borrows);
      }
      var delivered := Stream(borrows, consumer);
      r := Delivered(delivered);
    }

    /** The query loop of `handle_objects`. */
    method VisitAll(v: Visibility, m: Map, sim: Sim, hits: seq<Id>) returns (ok: bool, f: Frame)
      requires agents.Valid()
      modifies agents
      ensures agents.Valid()
      ensures ok <==> Collected(v, m, hits).Some?
      ensures ok ==> Collected(v, m, hits) == Some(f)
      ensures ok ==> agents.State() == RefreshedAll(old(agents.State()), sim, f.segments)
    {
      f := EmptyFrame();
      ghost var s0 := agents.State();
      for k := 0 to |hits|
        invariant agents.Valid()
        invariant Collected(v, m, hits[..k]) == Some(f)
        invariant agents.State() == RefreshedAll(s0, sim, f.segments)
      {
        assert hits[..k + 1][..k] == hits[..k];
        var hitOk, f' := VisitHit(v, m, sim, hits[k], f);
        if !hitOk {
          CollectedPrefixPanics(v, m, hits, k + 1);
          return false, f;
        }
        RefreshedAllAppend(s0, sim, f.segments, Visit(v, m, hits[k]).value.segments);
        f := f';
      }
      assert hits[..|hits|] == hits;
      ok := true;
    }

    /** `borrows.extend(cache.get(on))` for every recorded traversable, in order. */
    method GatherAgents(statics: seq<Drawable>, segs: seq<Traversable>) returns (borrows: seq<Drawable>)
      requires forall on :: on in segs ==> on in agents.agentsPerOn
      ensures borrows == statics + CachedAgents(agents.agentsPerOn, segs)
    {
      borrows := statics;
      for k := 0 to |segs|
        invariant borrows == statics + CachedAgents(agents.agentsPerOn, segs[..k])
      {
        assert segs[..k + 1][..k] == segs[..k];
        borrows := borrows + agents.Get(segs[k]);
      }
      assert segs[..|segs|] == segs;
    }

    /** Once a prefix of the hits panics, the whole query does. */
    lemma {:induction false} CollectedPrefixPanics(v: Visibility, m: Map, hits: seq<Id>, j: nat)
      requires j <= |hits| && Collected(v, m, hits[..j]).None?
      ensures Collected(v, m, hits).None?
      decreases |hits| - j
    {
      if j == |hits| {
        assert hits[..j] == hits;
      } else {
        assert hits[..j + 1][..j] == hits[..j];
        CollectedPrefixPanics(v, m, hits, j + 1);
      }
    }

    /**
     * A query that returns ids of the spatial index never panics, as long
     * as the map has every drawn lane and intersection and every
     * intersection's turns are drawn.
     */
    lemma {:induction false} IndexedHitsNeverPanic(v: Visibility, m: Map, hits: seq<Id>)
      requires Valid()
      requires |lanes| <= |m.lanes| && |intersections| <= |m.intersections|
      requires forall i, t :: 0 <= i < |m.intersections| && t in m.intersections[i].turns ==> t in turns
      requires forall id :: id in hits ==> id in quadtree
      ensures Collected(v, m, hits).Some?
    {
      if hits != [] {
        var n := |hits| - 1;
        assert forall id :: id in hits[..n] ==> id in hits;
        IndexedHitsNeverPanic(v, m, hits[..n]);
        var id := hits[n];
        assert id in quadtree;
        if v.show(id) && id.Intersection? && id.intersection < |m.intersections| {
          var ts := m.intersections[id.intersection].turns;
          assert forall t :: t in ts ==> t in turns;
        }
      }
    }

    /** A shown turn, car, pedestrian or trip among the hits makes the query panic. */
    lemma ShownAgentPanics(v: Visibility, m: Map, hits: seq<Id>, k: nat)
      requires k < |hits| && v.show(hits[k]) && !Indexable(hits[k])
      ensures Collected(v, m, hits).None?
    {
      assert hits[..k + 1][..k] == hits[..k];
      CollectedPrefixPanics(v, m, hits, k + 1);
    }

    /** Hidden hits contribute nothing: only the shown hits decide the outcome. */
    lemma {:induction false} HiddenHitsIgnored(v: Visibility, m: Map, hits: seq<Id>)
      ensures Collected(v, m, hits) == Collected(v, m, Filter(hits, v.show))
    {
      if hits != [] {
        var n := |hits| - 1;
        var pre, x := hits[..n], hits[n];
        assert hits == pre + [x];
        HiddenHitsIgnored(v, m, pre);
        FilterSnoc(pre, x, v.show);
        CollectedSnoc(v, m, pre, x);
        var fs := Filter(pre, v.show);
        if v.show(x) {
          assert Filter(hits, v.show) == fs + [x];
          CollectedSnoc(v, m, fs, x);
        } else {
          assert Filter(hits, v.show) == fs;
          if Collected(v, m, pre).Some? {
            var f := Collected(v, m, pre).value;
            assert Add(f, x, Contribution(None, [], [])) == f by {
              assert f.segments + [] == f.segments;
            }
          }
        }
      }
    }

    /**
     * Each bucket holds only drawables of its own layer, and the seven
     * static buckets hold only drawables of shown hits.
     */
    /**
     * A shown lane whose end intersection hides turn icons has its
     * traversable recorded, so its agents are cached and drawn.
     */
    lemma {:induction false} ShownLaneRecorded(v: Visibility, m: Map, hits: seq<Id>, k: nat)
      requires Collected(v, m, hits).Some? && k < |hits| && hits[k].Lane? && v.show(hits[k])
      requires hits[k].lane < |m.lanes| && !v.iconsFor(m.lanes[hits[k].lane].dstI)
      ensures OnLane(hits[k].lane) in Collected(v, m, hits).value.segments
    {
      var n := |hits| - 1;
      var pre, x := hits[..n], hits[n];
      assert Collected(v, m, hits) == Step(v, m, Collected(v, m, pre), x);
      var f := Collected(v, m, pre).value;
      var con := Visit(v, m, x).value;
      assert Collected(v, m, hits).value.segments == f.segments + con.segments;
      if k < n {
        assert hits[k] == pre[k];
        ShownLaneRecorded(v, m, pre, k);
      } else {
        assert con.segments == [OnLane(x.lane)];
      }
    }

    lemma {:induction false} CollectedBuckets(v: Visibility, m: Map, hits: seq<Id>)
      requires Indexed() && Collected(v, m, hits).Some?
      ensures forall c, d :: 0 <= c < 8 && d in Collected(v, m, hits).value.buckets[c] ==> Layer(d.id) == c
      ensures forall c, d :: 0 <= c < TurnIconBucket && d in Collected(v, m, hits).value.buckets[c] ==>
        d.id in hits && v.show(d.id)
      ensures forall k :: 0 <= k < |hits| && v.show(hits[k]) ==>
        && Indexable(hits[k]) && Get(hits[k]).Some?
        && Get(hits[k]).value in Collected(v, m, hits).value.buckets[Layer(hits[k])]
    {
      if hits != [] {
        var n := |hits| - 1;
        var pre, x := hits[..n], hits[n];
        CollectedBuckets(v, m, pre);
        var f := Collected(v, m, pre).value;
        var con := Visit(v, m, x).value;
        var g := Add(f, x, con);
        assert Collected(v, m, hits) == Some(g);
        forall c, d | 0 <= c < 8 && d in g.buckets[c]
          ensures Layer(d.id) == c
          ensures c < TurnIconBucket ==> d.id in hits && v.show(d.id)
        {
          assert pre == hits[..n] && forall id :: id in pre ==> id in hits;
          if c == TurnIconBucket {
            assert d in f.buckets[c] || d in con.icons;
          } else if con.own.Some? && c == Layer(x) {
            assert d in f.buckets[c] || d == con.own.value;
          } else {
            assert d in f.buckets[c];
          }
        }
        forall k | 0 <= k < |hits| && v.show(hits[k])
          ensures Indexable(hits[k]) && Get(hits[k]).Some? && Get(hits[k]).value in g.buckets[Layer(hits[k])]
        {
          if k < n {
            assert hits[k] == pre[k];
            assert Get(hits[k]).value in f.buckets[Layer(hits[k])];
          }
        }
      }
    }

    /**
     * The candidates are listed bucket by bucket with the agents last, so
     * back to front the drawables come by z-order and, among equal
     * z-orders, by bucket.
     */
    lemma OutputOrder(v: Visibility, m: Map, hits: seq<Id>, s: CacheState)
      requires Indexed() && Collected(v, m, hits).Some?
      requires forall on :: on in Collected(v, m, hits).value.segments ==> on in s.entries
      requires AgentsOnly(s)
      ensures Layered(Candidates(Collected(v, m, hits).value, s))
      ensures forall a, b :: 0 <= a < b < |Candidates(Collected(v, m, hits).value, s)| ==>
        var x := Arrange(Candidates(Collected(v, m, hits).value, s), BackToFront)[a];
        var y := Arrange(Candidates(Collected(v, m, hits).value, s), BackToFront)[b];
        x.zorder < y.zorder || (x.zorder == y.zorder && Layer(x.id) <= Layer(y.id))
    {
      var f := Collected(v, m, hits).value;
      CollectedBuckets(v, m, hits);
      CachedAgentsAreAgents(s, f.segments);
      BucketsThenAgentsLayered(f.buckets, CachedAgents(s.entries, f.segments));
      TiesBrokenByLayer(Candidates(f, s));
    }
  }

  /** Whether `id` names one of the given numbers of densely numbered objects or one of `stops`. */
  predicate Reaches(id: Id, nl: nat, nx: nat, nb: nat, np: nat, ne: nat, na: nat, stops: set<BusStopId>) {
    match id
    case Lane(l) => l < nl
    case Intersection(i) => i < nx
    case Building(b) => b < nb
    case Parcel(p) => p < np
    case ExtraShape(e) => e < ne
    case Area(a) => a < na
    case BusStop(s) => s in stops
    case _ => false
  }

  /** The ids in a tree built from numbered categories and the map's bus stops. */
  lemma TreeMembers(m: Map, tree: multiset<Id>, ls: seq<Drawable>, xs: seq<Drawable>, bs: seq<Drawable>,
                    ps: seq<Drawable>, es: seq<Drawable>, stops: seq<Drawable>, az: seq<Drawable>, id: Id)
    requires Numbered(ls, Lanes) && Numbered(xs, Intersections) && Numbered(bs, Buildings)
    requires Numbered(ps, Parcels) && Numbered(es, ExtraShapes) && Numbered(az, Areas)
    requires stops == StopDrawables(m)
    requires tree == multiset(IdsOf(ls)) + multiset(IdsOf(xs)) + multiset(IdsOf(bs)) + multiset(IdsOf(ps))
                     + multiset(IdsOf(es)) + multiset(IdsOf(stops)) + multiset(IdsOf(az))
    ensures id in tree <==> Reaches(id, |ls|, |xs|, |bs|, |ps|, |es|, |az|, StopIdSet(m.busStops))
  {
    NumberedIds(ls, Lanes, id);
    NumberedIds(xs, Intersections, id);
    NumberedIds(bs, Buildings, id);
    NumberedIds(ps, Parcels, id);
    NumberedIds(es, ExtraShapes, id);
    NumberedIds(az, Areas, id);
    StopIds(m, id);
  }

  /** The result of `handle_objects`: what the callback received, or a panic. */
  datatype Outcome = Delivered(items: seq<Drawable>) | Panicked

  /** Every candidate drawable: the buckets in order, then the cached agents of the recorded traversables. */
  function Candidates(f: Frame, s: CacheState): (r: seq<Drawable>)
    requires forall on :: on in f.segments ==> on in s.entries
    ensures |r| == |Flatten(f.buckets)| + |CachedAgents(s.entries, f.segments)|
    ensures r[..|Flatten(f.buckets)|] == Flatten(f.buckets)
    ensures r[|Flatten(f.buckets)|..] == CachedAgents(s.entries, f.segments)
  {
    Flatten(f.buckets) + CachedAgents(s.entries, f.segments)
  }

  /** The bus stops' drawables, in the map's order. */
  function StopDrawables(m: Map): (r: seq<Drawable>)
    ensures |r| == |m.busStops|
    ensures forall k :: 0 <= k < |r| ==> r[k] == Drawable(BusStop(m.busStops[k].id), m.busStops[k].zorder)
  {
    seq(|m.busStops|, k requires 0 <= k < |m.busStops| => Drawable(BusStop(m.busStops[k].id), m.busStops[k].zorder))
  }

  lemma NumberedIds(ds: seq<Drawable>, kind: Dense, id: Id)
    requires Numbered(ds, kind)
    ensures id in multiset(IdsOf(ds)) <==> KindOf(id) == Some(kind) && Slot(id) < |ds|
  {
    if id in multiset(IdsOf(ds)) {
      assert id in IdsOf(ds);
      var k :| 0 <= k < |ds| && IdsOf(ds)[k] == id;
      assert Named(kind, k) == id;
    }
    if KindOf(id) == Some(kind) && Slot(id) < |ds| {
      assert Named(kind, Slot(id)) == id;
      assert IdsOf(ds)[Slot(id)] == id;
      assert id in IdsOf(ds);
    }
  }

  lemma StopIds(m: Map, id: Id)
    ensures id in multiset(IdsOf(StopDrawables(m))) <==> id.BusStop? && id.stop in StopIdSet(m.busStops)
  {
    var stops := StopDrawables(m);
    if id in multiset(IdsOf(stops)) {
      assert id in IdsOf(stops);
      var k :| 0 <= k < |stops| && IdsOf(stops)[k] == id;
      assert m.busStops[k] in m.busStops;
    }
    if id.BusStop? && id.stop in StopIdSet(m.busStops) {
      var s :| s in m.busStops && s.id == id.stop;
      var k :| 0 <= k < |m.busStops| && m.busStops[k] == s;
      assert IdsOf(stops)[k] == id;
      assert id in IdsOf(stops);
    }
  }
}
