/**
 * `AgentCache`: the drawables of the cars and pedestrians on a traversable,
 * remembered for one simulation tick.  Entries are only ever served for the
 * tick they were made in, and a new tick empties the cache.
 */
module Cache {
  import opened Ids

  /** The cache's contents as a value: the tick it holds and its entries. */
  datatype CacheState = CacheState(tick: Option<Tick>, entries: map<Traversable, seq<Drawable>>)

  /** Entries exist only once a tick has been adopted. */
  ghost predicate Coherent(s: CacheState) {
    s.tick.None? ==> s.entries == map[]
  }

  /** `has`: a fresh entry for `on` at `tick`. */
  predicate Holds(s: CacheState, tick: Tick, on: Traversable) {
    s.tick == Some(tick) && on in s.entries
  }

  /**
   * The state `put` leaves when its assertion passes: a tick change empties
   * the cache first, then the entry is added.
   */
  function Stored(s: CacheState, tick: Tick, on: Traversable, agents: seq<Drawable>): (r: CacheState)
    ensures r.tick == Some(tick) && on in r.entries && r.entries[on] == agents
    ensures forall o :: o != on ==> (o in r.entries <==> Holds(s, tick, o))
    ensures forall o :: o != on && Holds(s, tick, o) ==> r.entries[o] == s.entries[o]
  {
    var kept := if s.tick == Some(tick) then s.entries else map[];
    CacheState(Some(tick), kept[on := agents])
  }

  class AgentCache {
    var tick: Option<Tick>
    var agentsPerOn: map<Traversable, seq<Drawable>>

    ghost function State(): CacheState
      reads this
    {
      CacheState(tick, agentsPerOn)
    }

    ghost predicate Valid()
      reads this
    {
      Coherent(State())
    }

    /** An empty cache that has seen no tick. */
    constructor ()
      ensures Valid()
      ensures tick == None && agentsPerOn == map[]
    {
      tick := None;
      agentsPerOn := map[];
    }

    /** Whether the cache holds an entry for `on` made at `t`; a stale entry never counts. */
    function Has(t: Tick, on: Traversable): (r: bool)
      reads this
      ensures r <==> Holds(State(), t, on)
      ensures tick != Some(t) ==> !r
    {
      if Some(t) != tick then false else on in agentsPerOn
    }

    /**
     * The cached drawables for `on`, which must have an entry.  The agent
     * loop of `handle_objects` reads only traversables that the has-or-put
     * step stored earlier in the same query.
     */
    function Get(on: Traversable): (r: seq<Drawable>)
      reads this
      requires on in agentsPerOn
      ensures r == State().entries[on]
    {
      agentsPerOn[on]
    }

    /**
     * Store `agents` for `on` at tick `t`.  The source asserts that no entry
     * for `on` exists after the tick check; `ok` is `false` exactly when that
     * assertion would fail, and then nothing has changed.
     */
    method Put(t: Tick, on: Traversable, agents: seq<Drawable>) returns (ok: bool)
      requires Valid()
      modifies this
      ensures Valid()
      ensures ok <==> !Holds(old(State()), t, on)
      ensures ok ==> State() == Stored(old(State()), t, on, agents)
      ensures !ok ==> State() == old(State())
    {
      if Some(t) != tick {
        agentsPerOn := map[];
        tick := Some(t);
      }
      if on in agentsPerOn {
        ok := false;
        return;
      }
      agentsPerOn := agentsPerOn[on := agents];
      ok := true;
    }
  }

  /** Right after a store, the traversable is held at the store's tick. */
  lemma StoreOncePerTick(s: CacheState, tick: Tick, on: Traversable, a: seq<Drawable>)
    ensures Holds(Stored(s, tick, on, a), tick, on)
  {
  }

  /** After a tick change, nothing from the previous tick is served. */
  lemma TickChangeForgets(s: CacheState, tick: Tick, on: Traversable, a: seq<Drawable>, oldTick: Tick, o: Traversable)
    requires s.tick == Some(oldTick) && oldTick != tick
    ensures !Holds(Stored(s, tick, on, a), oldTick, o)
    ensures o != on ==> !Holds(Stored(s, tick, on, a), tick, o)
  {
  }

  /** Two puts with one tick: the first succeeds, the second fails. */
  method PutTwiceInOneTick(t: Tick, on: Traversable, first: seq<Drawable>, second: seq<Drawable>) returns (ok1: bool, ok2: bool, kept: seq<Drawable>)
    ensures ok1 && !ok2 && kept == first
  {
    var cache := new AgentCache();
    ok1 := cache.Put(t, on, first);
    ok2 := cache.Put(t, on, second);
    kept := cache.Get(on);
  }

  /**
   * A put at a new tick clears what the previous tick stored: nothing is
   * held before the first put, the entry is served at its own tick only,
   * and it is gone once another traversable is stored at a later tick.
   */
  method NewTickClears(t1: Tick, t2: Tick, a: Traversable, b: Traversable, xs: seq<Drawable>, ys: seq<Drawable>)
    returns (before: bool, fresh1: bool, got: seq<Drawable>, stale: bool, ok: bool, hasOld: bool, hasNew: bool)
    requires t1 != t2 && a != b
    ensures !before && fresh1 && got == xs && !stale
    ensures ok && !hasOld && hasNew
  {
    var cache := new AgentCache();
    before := cache.Has(t1, a);
    var _ := cache.Put(t1, a, xs);
    fresh1 := cache.Has(t1, a);
    got := cache.Get(a);
    stale := cache.Has(t2, a);
    ok := cache.Put(t2, b, ys);
    hasOld := cache.Has(t2, a) || cache.Has(t1, a);
    hasNew := cache.Has(t2, b);
  }
}
