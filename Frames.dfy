/**
 * The collection half of `DrawMap::handle_objects`, on values: what each
 * query hit adds to the eight buckets and to the list of traversables whose
 * agents are drawn, and how the agent cache evolves while the hits are
 * visited.
 */
module Frames {
  import opened Ids
  import opened Cache

  /** `ShowObjects`: which objects are drawn, and at which intersections turn icons replace agents. */
  datatype Visibility = Visibility(show: Id -> bool, iconsFor: nat -> bool)

  /** `GetDrawAgents`: the current tick and the cars and pedestrians on each traversable. */
  datatype Sim = Sim(tick: Tick, cars: Traversable -> seq<Drawable>, peds: Traversable -> seq<Drawable>)

  /** The list `handle_objects` builds for a traversable: its cars, then its pedestrians. */
  function Occupants(sim: Sim, on: Traversable): (r: seq<Drawable>)
    ensures |r| == |sim.cars(on)| + |sim.peds(on)|
    ensures r[..|sim.cars(on)|] == sim.cars(on) && r[|sim.cars(on)|..] == sim.peds(on)
  {
    sim.cars(on) + sim.peds(on)
  }

  /** What one hit adds: its own drawable, turn icons, and traversables whose agents are drawn. */
  datatype Contribution = Contribution(own: Option<Drawable>, icons: seq<Drawable>, segments: seq<Traversable>)

  /** The eight buckets (areas ... turn icons) and the traversables recorded so far. */
  datatype Frame = Frame(buckets: seq<seq<Drawable>>, segments: seq<Traversable>)

  const TurnIconBucket: nat := 7

  function EmptyFrame(): (f: Frame)
    ensures |f.buckets| == 8 && f.segments == []
    ensures forall c :: 0 <= c < 8 ==> f.buckets[c] == []
  {
    Frame([[], [], [], [], [], [], [], []], [])
  }

  /** Hit `id` adds its own drawable to its bucket, its icons to the turn-icon bucket. */
  function Add(f: Frame, id: Id, c: Contribution): (r: Frame)
    requires |f.buckets| == 8 && (c.own.Some? ==> Indexable(id))
    ensures |r.buckets| == 8 && r.segments == f.segments + c.segments
    ensures forall b :: 0 <= b < 8 && b != Layer(id) && b != TurnIconBucket ==> r.buckets[b] == f.buckets[b]
    ensures c.own.Some? ==> r.buckets[Layer(id)] == f.buckets[Layer(id)] + [c.own.value]
    ensures c.own.None? ==> forall b :: 0 <= b < 8 && b != TurnIconBucket ==> r.buckets[b] == f.buckets[b]
    ensures r.buckets[TurnIconBucket] == f.buckets[TurnIconBucket] + c.icons
  {
    var b := if c.own.Some? then f.buckets[Layer(id) := f.buckets[Layer(id)] + [c.own.value]] else f.buckets;
    if c.icons == [] then
      assert b[TurnIconBucket] + c.icons == b[TurnIconBucket];
      Frame(b, f.segments + c.segments)
    else Frame(b[TurnIconBucket := b[TurnIconBucket] + c.icons], f.segments + c.segments)
  }

  /** The traversables of turns `ts`. */
  function TurnSegments(ts: seq<TurnId>): (r: seq<Traversable>)
    ensures |r| == |ts| && forall k :: 0 <= k < |ts| ==> r[k] == OnTurn(ts[k])
  {
    if ts == [] then [] else TurnSegments(ts[..|ts| - 1]) + [OnTurn(ts[|ts| - 1])]
  }

  /** `if !has(tick, on) { put(tick, on, occupants) }`: the cache then holds `on` for this tick. */
  function Refreshed(s: CacheState, sim: Sim, on: Traversable): (r: CacheState)
    ensures Holds(r, sim.tick, on)
  {
    if Holds(s, sim.tick, on) then s else Stored(s, sim.tick, on, Occupants(sim, on))
  }

  /** The cache after refreshing `segs` in order. */
  function RefreshedAll(s: CacheState, sim: Sim, segs: seq<Traversable>): (r: CacheState)
    ensures segs != [] ==> r.tick == Some(sim.tick)
    ensures forall on :: on in segs ==> on in r.entries
    ensures Coherent(s) ==> Coherent(r)
  {
    if segs == [] then s
    else
      var n := |segs| - 1;
      assert segs == segs[..n] + [segs[n]];
      Refreshed(RefreshedAll(s, sim, segs[..n]), sim, segs[n])
  }

  lemma TurnSegmentsSnoc(ts: seq<TurnId>, j: nat)
    requires j < |ts|
    ensures TurnSegments(ts[..j + 1]) == TurnSegments(ts[..j]) + [OnTurn(ts[j])]
  {
    assert ts[..j + 1][..j] == ts[..j];
  }

  lemma RefreshedAllSnoc(s: CacheState, sim: Sim, segs: seq<Traversable>, on: Traversable)
    ensures RefreshedAll(s, sim, segs + [on]) == Refreshed(RefreshedAll(s, sim, segs), sim, on)
  {
    assert (segs + [on])[..|segs|] == segs;
  }

  /**
   * The cache after a pass, in closed form: every recorded traversable has
   * an entry for the current tick, which is the one already there when it
   * was cached earlier in this tick and the simulation's occupants
   * otherwise; entries of an earlier tick are gone.
   */
  lemma {:induction false} RefreshedAllSpec(s: CacheState, sim: Sim, segs: seq<Traversable>)
    requires segs != []
    ensures forall on :: on in RefreshedAll(s, sim, segs).entries <==> on in segs || Holds(s, sim.tick, on)
    ensures forall on :: on in RefreshedAll(s, sim, segs).entries ==>
      RefreshedAll(s, sim, segs).entries[on] == if Holds(s, sim.tick, on) then s.entries[on] else Occupants(sim, on)
  {
    var n := |segs| - 1;
    var prev := segs[..n];
    assert segs == prev + [segs[n]];
    if prev == [] {
      assert RefreshedAll(s, sim, segs) == Refreshed(s, sim, segs[n]);
    } else {
      RefreshedAllSpec(s, sim, prev);
      var p := RefreshedAll(s, sim, prev);
      assert RefreshedAll(s, sim, segs) == Refreshed(p, sim, segs[n]);
      forall on ensures on in RefreshedAll(s, sim, segs).entries <==> on in segs || Holds(s, sim.tick, on) {
        assert on in segs <==> on in prev || on == segs[n];
      }
    }
  }

  /** Refreshing in two passes is refreshing once over both. */
  lemma {:induction false} RefreshedAllAppend(s: CacheState, sim: Sim, a: seq<Traversable>, b: seq<Traversable>)
    ensures RefreshedAll(RefreshedAll(s, sim, a), sim, b) == RefreshedAll(s, sim, a + b)
  {
    if b == [] {
      assert a + b == a;
    } else {
      var n := |b| - 1;
      RefreshedAllAppend(s, sim, a, b[..n]);
      assert (a + b)[..|a + b| - 1] == a + b[..n];
    }
  }

  /** The agents drawn, traversable by traversable in recorded order, from the cache's entries. */
  function CachedAgents(entries: map<Traversable, seq<Drawable>>, segs: seq<Traversable>): (r: seq<Drawable>)
    requires forall on :: on in segs ==> on in entries
    ensures forall d :: d in r <==> exists k :: 0 <= k < |segs| && d in entries[segs[k]]
  {
    if segs == [] then []
    else
      var n := |segs| - 1;
      assert segs == segs[..n] + [segs[n]];
      CachedAgents(entries, segs[..n]) + entries[segs[n]]
  }

  /** Every cached drawable is a car or a pedestrian. */
  ghost predicate AgentsOnly(s: CacheState) {
    forall on, d :: on in s.entries && d in s.entries[on] ==> IsAgent(d.id)
  }

  /** The simulation only reports cars and pedestrians. */
  ghost predicate SimAgentsOnly(sim: Sim) {
    forall on, d :: d in Occupants(sim, on) ==> IsAgent(d.id)
  }

  lemma {:induction false} RefreshedAllAgents(s: CacheState, sim: Sim, segs: seq<Traversable>)
    requires AgentsOnly(s) && SimAgentsOnly(sim)
    ensures AgentsOnly(RefreshedAll(s, sim, segs))
  {
    if segs != [] {
      RefreshedAllSpec(s, sim, segs);
    }
  }

  lemma {:induction false} CachedAgentsAreAgents(s: CacheState, segs: seq<Traversable>)
    requires AgentsOnly(s) && forall on :: on in segs ==> on in s.entries
    ensures forall d :: d in CachedAgents(s.entries, segs) ==> IsAgent(d.id)
  {
    if segs != [] {
      var n := |segs| - 1;
      assert segs == segs[..n] + [segs[n]];
      CachedAgentsAreAgents(s, segs[..n]);
    }
  }
}
