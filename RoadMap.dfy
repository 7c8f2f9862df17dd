/**
 * The part of the road map (`map_model::Map`) the rendering index reads.
 *
 * Geometry is left out: each object carries the z-order its drawable gets
 * and, for a turn, the integer angle key `angle().normalized_degrees() as
 * i64`.  Lanes, intersections, buildings, parcels and areas are numbered
 * densely from zero by their position; turns and bus stops carry their ids.
 */
module RoadMap {
  import opened Ids
  import opened Subsequence

  datatype LaneData = LaneData(dstI: nat, zorder: int)
  datatype TurnData = TurnData(id: TurnId, angleKey: int, zorder: int)
  datatype IntersectionData = IntersectionData(turns: seq<TurnId>, zorder: int)
  datatype BusStopData = BusStopData(id: BusStopId, zorder: int)

  datatype Map = Map(
    lanes: seq<LaneData>,
    turns: seq<TurnData>,
    intersections: seq<IntersectionData>,
    buildings: seq<int>,
    parcels: seq<int>,
    busStops: seq<BusStopData>,
    areas: seq<int>)

  /** The map keeps its turns keyed by id: no id occurs twice. */
  ghost predicate DistinctTurnIds(ts: seq<TurnData>) {
    forall a, b :: 0 <= a < b < |ts| ==> ts[a].id != ts[b].id
  }

  ghost predicate DistinctStopIds(ss: seq<BusStopData>) {
    forall a, b :: 0 <= a < b < |ss| ==> ss[a].id != ss[b].id
  }

  ghost function TurnIdSet(ts: seq<TurnData>): set<TurnId> {
    set t | t in ts :: t.id
  }

  function FromLane(l: nat): TurnData -> bool {
    (t: TurnData) => t.id.src == l
  }

  /** The turns that start at lane `l`, in the map's order. */
  function TurnsFromLane(m: Map, l: nat): seq<TurnData> {
    Filter(m.turns, FromLane(l))
  }
}
