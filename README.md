# DrawMap: the editor's rendering index, modelled in Dafny

This project models `DrawMap` from abstreet's editor (`editor/src/render/map.rs`). `DrawMap` is the index the
editor draws the road map from. It holds:

- one drawable per static map object: lanes, turns, intersections, buildings, parcels, extra shapes, bus stops and
  areas;
- a spatial index (the quadtree) over every static object except turns;
- a cache of the drawables of cars and pedestrians on each traversable, kept for one simulation tick.

The model covers these parts of the source:

- **Building** (`DrawMap::new`):
  - one drawable per object, each category numbered by position;
  - the turn-icon offsets, produced by `compute_turn_to_lane_offset` over every lane and checked against the
    number of turns;
  - the turn and bus-stop tables keyed by id;
  - the quadtree, which ends up holding exactly the non-turn ids that the `get_*` lookups can find (turns have
    drawables but are never inserted).
- **Turn offsets** (`compute_turn_to_lane_offset`):
  - a lane's turns are split into the group that crosses the lane's end intersection and the rest;
  - each group is stably sorted by its integer angle key and numbered 0, 1, 2, ...;
  - the model proves the offsets are exactly 0..n-1 per group and ordered by (angle, original position);
  - it also proves that an offset table with that property is unique. So on a map whose turns are unchanged since
    the build, `edit_add_turn` reproduces the offset the build gave the turn. After other turns of the lane were
    added, it does not: see "## Findings".
- **Edits**: `edit_lane_type`, `edit_remove_turn` and `edit_add_turn` change only their own table. The quadtree is
  never touched.
- **Lookups**: the `get_*` lookups and `get_matching_lanes`.
- **`handle_objects`**:
  - the shown ids of a query are sorted into eight buckets (areas, parcels, lanes, intersections, buildings, extra
    shapes, bus stops, turn icons);
  - the agent cache is filled for the lanes and turns whose agents are drawn instead of turn icons;
  - the buckets and then the cached agents are stably sorted by z-order and reversed for front-to-back drawing;
  - the result is streamed to a callback that can stop the stream.
- **`AgentCache`** (`has`, `get`, `put`): a tick change empties the cache, a stale entry is never served, and a
  second `put` for one traversable in one tick is the source's failing assertion.

Panics of the source become explicit results:

- `ok: bool` on the edits;
- `None` from the lookups and from the per-hit model `Visit`;
- `Outcome.Panicked` from `HandleObjects`;
- `ok == false` from `AgentCache.Put`.

Files:

| file | module | contents |
|---|---|---|
| Ids.dfy | `Ids` | ids, traversables, drawables (id and z-order), bucket layers |
| StableSort.dfy | `StableSort` | `sort_by_key` as a stable index permutation, `reverse` |
| Subsequence.dfy | `Subsequence` | `filter` / `partition` in order |
| RoadMap.dfy | `RoadMap` | the parts of `map_model::Map` that are read |
| TurnOffsets.dfy | `TurnOffsets`, `TurnOffsetsExample` | turn-icon offsets |
| AgentCache.dfy | `Cache` | the per-tick agent cache (a class) |
| Frames.dfy | `Frames` | the collection step of `handle_objects`, on values |
| Dispatch.dfy | `Dispatch` | sorting, reversal and streaming of the candidates |
| DrawMap.dfy | `Render` | the `DrawMap` class: build, edits, lookups, `handle_objects` |

## Model

| member | source | states |
|---|---|---|
| StableSort.SortByIsStable | editor/src/render/map.rs:369-370 | sorting by key puts smaller keys first, and among equal keys keeps the input order |
| StableSort.SortByOrdered | editor/src/render/map.rs:369-370 | the sorted sequence has non-decreasing keys |
| StableSort.SortByPermutes | editor/src/render/map.rs:369-370 | the sorted sequence is a permutation of the input |
| StableSort.SortBy | editor/src/render/map.rs:369-370 | `sort_by_key` keeps the length; its order and permutation are proved by `SortByIsStable`, `SortByOrdered` and `SortByPermutes` |
| StableSort.Reversed | editor/src/render/map.rs:372-374 | `reverse` keeps the length; its meaning is proved by `ReversedAt` and `ReversedTwice` |
| StableSort.ReversedAt | editor/src/render/map.rs:372-374 | element k of the reversal is element n-1-k of the input |
| StableSort.ReversedTwice | editor/src/render/map.rs:372-374 | reversing twice gives back the input |
| Subsequence.Filter | editor/src/render/map.rs:188-191 | one side of `partition` is no longer than the input; its members are proved by `FilterMembers` |
| Subsequence.FilterMembers | editor/src/render/map.rs:188-191 | a filter keeps exactly the elements satisfying its predicate |
| Subsequence.PartitionSplits | editor/src/render/map.rs:188-191 | the two sides of a partition together hold exactly the input's elements |
| Subsequence.FilterSnoc | editor/src/render/map.rs:296-297 | filtering one more element appends it exactly when the predicate holds |
| TurnOffsets.Partition | editor/src/render/map.rs:188-191 | the two sides together are the lane's turns; the first holds exactly the turns into the lane's end intersection, the second exactly the others |
| TurnOffsets.SortedGroup | editor/src/render/map.rs:193-197 | a group after `sort_by_key`: the same turns as the group, with non-decreasing angle keys |
| TurnOffsets.Enumerate | editor/src/render/map.rs:199-204 | the table afterwards is keyed by its old keys and the sorted turns' ids; `EnumerateAt` gives each position |
| TurnOffsets.LaneOffsets | editor/src/render/map.rs:186-205 | the table afterwards is keyed by its old keys and every turn of the lane; `LaneOffsetsRanked` gives the offsets |
| TurnOffsets.RankedSeparates | editor/src/render/map.rs:199-204 | two different turns of one ranked group never share an offset |
| TurnOffsets.LaneOffsetsRanked | editor/src/render/map.rs:186-205 | every turn of the lane gets an offset; per group the offsets are exactly 0..n-1 and ordered by angle key, with ties in the lane's turn order; other entries of the table are kept |
| TurnOffsets.EnumerateInto | editor/src/render/map.rs:199-204 | the enumerate loop records each sorted turn's id with its position in the sorted group |
| TurnOffsets.ComputeTurnToLaneOffset | editor/src/render/map.rs:186-205 | the two enumerate loops add the lane's turn ids to the table with ranked offsets for both groups |
| TurnOffsets.RankedUnique | editor/src/render/map.rs:193-204 | two offset tables ranked for the same group give each of its turns the same offset |
| TurnOffsets.LaneRankedUnique | editor/src/render/map.rs:186-205 | two offset tables ranked for one lane agree on every turn leaving it |
| TurnOffsets.OffsetCountCheck | editor/src/render/map.rs:63-67 | the count check passes exactly when every turn starts at one of the map's lanes |
| TurnOffsets.ComputeAllOffsets | editor/src/render/map.rs:63-67 | after the loop over all lanes, every lane's turns are ranked; `ok` holds exactly when the count check passes, and then every turn has exactly one offset |
| TurnOffsetsExample.ThreeAngles | editor/src/render/map.rs:193-204 | turns at 170, 10 and 90 degrees into the lane's end intersection get offsets 2, 0 and 1 |
| Cache.Stored | editor/src/render/map.rs:405-413 | after a store at tick t, the cache is at tick t and holds the new entry; every other entry survives exactly when it is from tick t, unchanged |
| Cache.AgentCache.constructor | editor/src/render/map.rs:177-180 | a new cache has seen no tick and holds nothing |
| Cache.AgentCache.Has | editor/src/render/map.rs:390-395 | true exactly when the cache is at the asked tick and holds the traversable; never true for another tick |
| Cache.AgentCache.Get | editor/src/render/map.rs:397-403 | returns the stored list for the traversable |
| Cache.AgentCache.Put | editor/src/render/map.rs:405-413 | fails exactly when a same-tick entry already exists, and then changes nothing; otherwise the new state is `Stored` of the old one |
| Cache.StoreOncePerTick | editor/src/render/map.rs:411 | right after a store, that traversable is held at that tick (that a second store then fails is `Put`'s contract, shown by `PutTwiceInOneTick`) |
| Cache.TickChangeForgets | editor/src/render/map.rs:406-409 | after a store at a new tick, nothing of the old tick is served, and only the new entry is held |
| Cache.PutTwiceInOneTick | editor/src/render/map.rs:405-413 | two puts for one traversable in one tick: the first succeeds, the second fails, and the first list is kept |
| Cache.NewTickClears | editor/src/render/map.rs:390-413 | nothing is held before the first put; the entry is served at its own tick only and is gone after a put at another tick |
| Dispatch.Flatten | editor/src/render/map.rs:353-361 | the concatenated buckets hold exactly the drawables of the buckets |
| Dispatch.Arrange | editor/src/render/map.rs:369-374 | the sort, then the reverse for front to back, keep the length; the order is proved by `BackToFrontOrder` and `FrontToBackOrder` |
| Dispatch.BackToFrontOrder | editor/src/render/map.rs:369-370 | back to front the output is a permutation of the candidates with non-decreasing z-order, keeping the candidates' order among equal z-orders |
| Dispatch.FrontToBackOrder | editor/src/render/map.rs:372-374 | front to back is exactly the reverse of back to front, so z-orders never increase |
| Dispatch.ThreeZOrders | editor/src/render/map.rs:369-374 | an area at z 0, a lane at 1 and a building at 2 come area, lane, building back to front and the reverse front to back, in whatever order they were collected |
| Dispatch.TiesBrokenByLayer | editor/src/render/map.rs:284-292 | candidates listed layer by layer come out by z-order and, among equal z-orders, by layer |
| Dispatch.BucketsThenAgentsLayered | editor/src/render/map.rs:353-367 | eight buckets holding only their own layer, followed by agents, are listed layer by layer |
| Dispatch.StreamedAll | editor/src/render/map.rs:376-380 | if every answer of the callback is true, the whole sequence is delivered |
| Dispatch.StreamedStopsAtFalse | editor/src/render/map.rs:376-380 | nothing is delivered after the first false answer |
| Dispatch.Stream | editor/src/render/map.rs:376-380 | the callback receives a prefix of the ordered sequence; every delivery but the last was answered true, and it ends early only after a false |
| Frames.Occupants | editor/src/render/map.rs:306-312 | the list for a traversable is its cars, then its pedestrians (the same code for turns at lines 326-332) |
| Frames.CachedAgents | editor/src/render/map.rs:362-367 | a drawable is gathered exactly when it is in the cached list of some recorded traversable |
| Frames.Add | editor/src/render/map.rs:298-344 | a hit's own drawable joins its own bucket, its turn icons join the turn-icon bucket, and no other bucket changes |
| Frames.Refreshed | editor/src/render/map.rs:305-314 | after the has-or-put step, the cache holds the traversable for the current tick |
| Frames.RefreshedAll | editor/src/render/map.rs:302-336 | after refreshing a list of traversables, each is cached for the current tick and the cache stays coherent |
| Frames.RefreshedAllSpec | editor/src/render/map.rs:302-336 | closed form of the cache after a pass: an entry exists exactly for the recorded traversables and the same-tick old entries; it is the old list if one existed this tick, and the simulation's cars then pedestrians otherwise |
| Frames.RefreshedAllAppend | editor/src/render/map.rs:296-351 | refreshing in two passes equals refreshing once over both lists |
| Frames.RefreshedAllAgents | editor/src/render/map.rs:302-336 | if the simulation only reports cars and pedestrians, the cache holds only agents |
| Frames.CachedAgentsAreAgents | editor/src/render/map.rs:362-367 | the cached drawables gathered for the recorded traversables are all agents |
| Render.LookupTurn | editor/src/render/map.rs:223 | finds a turn exactly when the map has one with that id, and returns it |
| Render.LaneOffsetsFor | editor/src/render/map.rs:224-225 | the offsets computed for one lane alone cover exactly that lane's turns, ranked per group |
| Render.LaneOffsetOf | editor/src/render/map.rs:224-226 | the offset `edit_add_turn` reads is the turn's entry in its lane's offsets |
| Render.RebuiltOffsetAgrees | editor/src/render/map.rs:63-73 | any offset table ranked for a lane gives each of its turns the offset computed from that lane alone |
| Render.AllLanesAgree | editor/src/render/map.rs:63-73 | an offset table ranked for every lane gives each turn the offset its lane alone yields, which is what `edit_add_turn` recomputes on the same map |
| Render.RerankedLane | editor/src/render/map.rs:222-227 | a turn table that agrees with the lane's recomputed offsets on every turn of the lane is ranked for that lane |
| Render.AddTurnCollides | editor/src/render/map.rs:222-227 | after adding turn c (angle key 5) beside a (key 10) into one intersection, `edit_add_turn` gives c offset 0 while a keeps its build offset 0, and the lane is no longer ranked |
| Render.InsertAll | editor/src/render/map.rs:144-146 | inserting drawables adds exactly their ids to the index |
| Render.SpatialIndex | editor/src/render/map.rs:141-164 | the quadtree holds the ids of lanes, intersections, buildings, parcels, extra shapes, bus stops and areas, and nothing else |
| Render.MakeTurns | editor/src/render/map.rs:69-74 | one turn drawable per map turn, with its offset and z-order |
| Render.TurnTable | editor/src/render/map.rs:63-74 | `TurnsBuilt`: the turn table covers exactly the map's turns, with their z-orders; the offsets of every lane are ranked, and each is the offset its lane alone yields |
| Render.MakeBusStops | editor/src/render/map.rs:135-138 | the bus-stop table is keyed by exactly the map's stop ids, each with its stop's drawable |
| Render.DrawAll | editor/src/render/map.rs:56-61 | object i of a category is drawn as the i-th drawable, with its z-order |
| Render.LanesIn | editor/src/render/map.rs:264-272 | the lane ids among the query's hits, no more of them than hits; `LanesInMembers` gives its members |
| Render.Candidates | editor/src/render/map.rs:353-367 | the candidate list is the concatenated buckets followed by the cached agents of the recorded traversables |
| Render.LanesInMembers | editor/src/render/map.rs:264-272 | a lane is reported exactly when the query returned it |
| Render.GetMatchingLanes | editor/src/render/map.rs:264-272 | returns the lanes among the query's ids, in query order, and exactly those |
| Render.DrawMap.constructor | editor/src/render/map.rs:49-184 | each category is drawn in order from the map (parcels only when enabled); the turn and stop tables cover exactly the map's ids; every lane's turn offsets are ranked and match the per-lane offsets; the quadtree holds exactly the non-turn ids the lookups can find; the cache is empty |
| Render.DrawMap.QuadtreeContents | editor/src/render/map.rs:141-164 | an id is in the built quadtree exactly when it is a quadtree category and its lookup succeeds |
| Render.DrawMap.Get | editor/src/render/map.rs:231-261 | a lookup that succeeds returns the drawable named by the id; agents and trips are never found; a turn is found exactly when the table has it |
| Render.DrawMap.EditLaneType | editor/src/render/map.rs:207-216 | the lane's drawable is redrawn from the edited map where both indexes are valid; nothing else, including the quadtree, changes |
| Render.DrawMap.EditRemoveTurn | editor/src/render/map.rs:218-220 | the turn is removed from the turn table; nothing else changes |
| Render.DrawMap.SetTurns | editor/src/render/map.rs:218-227 | replacing the turn table keeps the map valid and changes no other field |
| Render.DrawMap.EditAddTurn | editor/src/render/map.rs:222-228 | succeeds exactly when the map has the turn and its source lane; the turn is then drawn with its lane's offset and its z-order; nothing else changes |
| Render.DrawMap.EditAddTurnReranked | editor/src/render/map.rs:222-227 | as `EditAddTurn`, but every turn of the lane is redrawn with the recomputed offsets, so the lane stays ranked; entries for other turns are kept |
| Render.DrawMap.TurnIcons | editor/src/render/map.rs:320-322 | one turn-icon drawable per turn, in order, with the table's z-order |
| Render.DrawMap.IntersectionTurns | editor/src/render/map.rs:320-337 | with icons shown, the turns' icons, or a panic exactly when some turn lacks a drawable; with icons hidden, the turns' traversables are recorded |
| Render.DrawMap.Visit | editor/src/render/map.rs:296-350 | a hidden hit adds nothing; a shown turn, car, pedestrian or trip panics; a shown hit otherwise adds its own drawable as the lookup returns it; a shown lane succeeds exactly when both indexes hold it and records its traversable exactly when its end intersection hides icons; a shown intersection succeeds exactly when `IntersectionTurns` does and adds its icons and traversables |
| Render.DrawMap.Collected | editor/src/render/map.rs:285-351 | the query loop yields eight buckets |
| Render.DrawMap.Step | editor/src/render/map.rs:296-350 | one iteration of the query loop keeps the eight buckets and fails exactly when an earlier hit or this one panics |
| Render.DrawMap.CollectedSnoc | editor/src/render/map.rs:296-351 | visiting one more hit is one more step of the loop |
| Render.DrawMap.CollectedPrefixPanics | editor/src/render/map.rs:346-348 | once a prefix of the hits panics, the whole query panics |
| Render.DrawMap.ShownAgentPanics | editor/src/render/map.rs:346-348 | a shown turn, car, pedestrian or trip among the hits makes the query panic |
| Render.DrawMap.IndexedHitsNeverPanic | editor/src/render/map.rs:296-350 | a query returning only ids from the quadtree never panics, if the map has every drawn lane and intersection and every intersection's turns are drawn |
| Render.DrawMap.HiddenHitsIgnored | editor/src/render/map.rs:297 | the outcome depends only on the shown hits |
| Render.DrawMap.ShownLaneRecorded | editor/src/render/map.rs:301-316 | a shown lane whose end intersection hides turn icons has its traversable recorded, so the refreshed cache holds its agents and they are drawn |
| Render.DrawMap.CollectedBuckets | editor/src/render/map.rs:298-344 | each bucket holds only its own layer, the seven static buckets hold only shown hits, and every shown hit's drawable is in its own layer's bucket |
| Render.DrawMap.OutputOrder | editor/src/render/map.rs:353-370 | the candidates are listed layer by layer, so back to front they come by z-order and, among equal z-orders, by bucket |
| Render.DrawMap.EnsureCached | editor/src/render/map.rs:304-314 | the cache afterwards is the old cache refreshed for the traversable |
| Render.DrawMap.PushTurnIcons | editor/src/render/map.rs:320-322 | succeeds exactly when every turn has a drawable, and then appends their icons |
| Render.DrawMap.RecordTurnAgents | editor/src/render/map.rs:323-336 | records every turn's traversable and refreshes the cache for each, in order |
| Render.DrawMap.VisitTurns | editor/src/render/map.rs:320-337 | succeeds exactly when `IntersectionTurns` does, adding its contribution and refreshing the cache for the recorded turns |
| Render.DrawMap.VisitHit | editor/src/render/map.rs:297-350 | succeeds exactly when `Visit` does, adding its contribution and refreshing the cache for its traversables |
| Render.DrawMap.VisitAll | editor/src/render/map.rs:296-351 | succeeds exactly when `Collected` does, returns its frame, and leaves the cache refreshed for every recorded traversable |
| Render.DrawMap.GatherAgents | editor/src/render/map.rs:362-367 | appends the cached lists of the recorded traversables, in order |
| Render.DrawMap.HandleObjects | editor/src/render/map.rs:275-381 | panics exactly when the query loop does; otherwise the cache is refreshed for the recorded traversables, and the callback receives, as a stream it can stop, the buckets then the cached agents, stably sorted by z-order and reversed for front to back |
| Render.StopDrawables | editor/src/render/map.rs:159-161 | the bus stops' drawables, in the map's order |
| Render.NumberedIds | editor/src/render/map.rs:144-158 | a category numbered from zero indexes exactly the ids below its length |
| Render.StopIds | editor/src/render/map.rs:159-161 | the bus stops index exactly the map's stop ids |
| Ids.Layer | editor/src/render/map.rs:284-294 | the bucket of each id, from areas (0) to turn icons (7), with agents last (8) |

## Left out

- Geometry is not modelled: bounding boxes, polylines, angles and the quadtree's spatial search. A query's answer is
  a parameter (`hits`), the ids the quadtree reports. The quadtree is the multiset of the ids inserted into it.
- A turn's angle is given as the integer key `angle().normalized_degrees() as i64`. The floating-point angle and its
  normalisation are not modelled.
- Loading extra shapes from KML or a binary file, and matching them to the closest road, are not modelled (lines
  105-133). The loaded shapes are given to the constructor as their z-orders, and a load failure is not modelled.
- The constructors of the drawables (`DrawLane::new`, `DrawTurn::new`, `draw_vehicle`, `DrawPedestrian::new`, ...)
  and the colour scheme and prerender resources are opaque. A drawable is its id and its z-order. The simulation is
  given as functions from a traversable to its cars' and pedestrians' drawables.
- `Timer` progress reporting is left out; it does not affect the result.
- The `RefCell` borrow checks are left out. `handle_objects` mutates the cache through an ordinary `modifies`
  frame, and the model never holds a borrow across a mutation.
- `map.get_turns_from_lane` is not part of this model. It is modelled as the map's turns whose source is the lane,
  in the map's order.
- `sort_by_key`, `reverse` and `partition` come from the standard library. They are modelled by pure functions with
  proved properties, not by in-place algorithms.
- Iteration order of hash maps: bus stops are inserted into the quadtree in the map's list order, and the turn
  table's iteration order is not observed.
- Render.DrawMap.constructor: it requires distinct turn and bus-stop ids, because the map keys them by id, and
  requires every turn to start at one of the map's lanes. The source instead panics in its count assertion; that
  assertion is characterised separately by `TurnOffsets.OffsetCountCheck` and `TurnOffsets.ComputeAllOffsets`.
- Cache.AgentCache.Get: it requires the traversable to be cached, where the source's map index would panic. Its
  only caller, the agent loop of `handle_objects`, does not call `has`: the requirement is met because the
  has-or-put step earlier in the same query stored every recorded traversable for the current tick.
- Render.DrawMap.VisitTurns: `show_icons_for(i)` is asked once per intersection rather than once per turn. It is a
  function of the intersection alone, so the answers agree.
- Dispatch.Stream: the callback is modelled as a function of the drawables delivered so far, including the current
  one. A callback's hidden state is not modelled.
- Stale spatial index after an edit that changes a bounding box: the source does not handle this case, and the model
  keeps the quadtree unchanged on every edit, as the source does.

## Findings

| source | as written | input that shows it | evidently intended | confidence | as-written member | corrected member |
|---|---|---|---|---|---|---|
| editor/src/render/map.rs:222-227 | `edit_add_turn` recomputes the offsets of the new turn's lane but redraws only the new turn; its siblings keep the offsets of the build | lane 0 into intersection 1 with turn a (angle key 10), built with offset 0; the edited map adds turn c (angle key 5) into intersection 1; c is drawn at offset 0 and collides with a | the offsets of a lane's group stay 0..n-1 in angle order, so no two icons of a group share a position | medium, not executed | Render.AddTurnCollides | Render.DrawMap.EditAddTurnReranked |
