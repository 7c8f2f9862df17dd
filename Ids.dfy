/**
 * Identifiers and drawable records shared by the rendering index.
 *
 * Every object the editor can draw is named by an `Id`.  Static map objects
 * (lanes, intersections, turns, buildings, parcels, extra shapes, bus stops,
 * areas) live in the draw map; cars, pedestrians and trips are dynamic and
 * must never be inserted into the spatial index.
 */
module Ids {

  datatype Option<T> = None | Some(value: T)

  /** A simulation tick: only compared for equality here. */
  type Tick = nat

  /** A turn is named by the intersection it crosses and its two lanes. */
  datatype TurnId = TurnId(parent: nat, src: nat, dst: nat)

  /** A bus stop is named by its sidewalk lane and its position on it. */
  datatype BusStopId = BusStopId(sidewalk: nat, idx: nat)

  datatype Id =
    | Lane(lane: nat)
    | Intersection(intersection: nat)
    | Turn(turn: TurnId)
    | Building(building: nat)
    | Parcel(parcel: nat)
    | ExtraShape(shape: nat)
    | BusStop(stop: BusStopId)
    | Area(area: nat)
    | Car(car: nat)
    | Pedestrian(ped: nat)
    | Trip(trip: nat)

  /** A piece of roadway that can hold agents: the key of the agent cache. */
  datatype Traversable = OnLane(lane: nat) | OnTurn(turn: TurnId)

  /**
   * What the renderer needs of a drawable here: its identifier and its
   * z-order.  Bounding boxes and draw payloads are opaque and left out.
   */
  datatype Drawable = Drawable(id: Id, zorder: int)

  /** The ids the spatial index may hold: every static category but turns. */
  predicate Indexable(id: Id) {
    !(id.Turn? || id.Car? || id.Pedestrian? || id.Trip?)
  }

  /** Dynamic agents produced by the simulation. */
  predicate IsAgent(id: Id) {
    id.Car? || id.Pedestrian?
  }

  /**
   * The bucket in which the dispatcher places an object before the z-order
   * sort, from background to foreground: areas, parcels, lanes,
   * intersections, buildings, extra shapes, bus stops, turn icons; agents
   * come last.
   */
  function Layer(id: Id): (r: nat)
    ensures r <= 8
    ensures r == 7 <==> id.Turn?
    ensures r == 8 <==> (id.Car? || id.Pedestrian? || id.Trip?)
  {
    match id
    case Area(_) => 0
    case Parcel(_) => 1
    case Lane(_) => 2
    case Intersection(_) => 3
    case Building(_) => 4
    case ExtraShape(_) => 5
    case BusStop(_) => 6
    case Turn(_) => 7
    case Car(_) => 8
    case Pedestrian(_) => 8
    case Trip(_) => 8
  }

  function ZOrder(d: Drawable): int { d.zorder }

  function IdsOf(ds: seq<Drawable>): (r: seq<Id>)
    ensures |r| == |ds|
    ensures forall k :: 0 <= k < |ds| ==> r[k] == ds[k].id
  {
    seq(|ds|, k requires 0 <= k < |ds| => ds[k].id)
  }
}
