/**
 * The first tick cache, `src/client/state.ts`. Ticks are written by clock into
 * 256-slot chunks held in a `cache` record; a chunk that has taken 256 writes
 * leaves the record for the key-value store. Around the playback time a window
 * of at most three chunks is made resident (`cacheAtom`), each taken from the
 * resident copy, the record or the store by a fixed priority, and the tick
 * shown is read from the resident chunks at the rounded smoothed time.
 */
module TimelineCache {
  import opened Js
  import opened Ticks

  /** `CHUNK_SIZE`. */
  const ChunkSize: int := 256

  /**
   * A chunk of the `cache` record: how many writes it has taken (`length`)
   * and its sparse `state` array, slot by slot.
   */
  datatype Chunk = Chunk(writes: int, slots: map<int, Item>)

  /** Where a resident chunk was taken from. */
  datatype Source = FromCache | FromStorage

  /** An entry of `cacheAtom`. */
  datatype Resident = Resident(source: Source, slots: map<int, Item>)

  /** The `cache` record together with the key-value store. */
  datatype Store = Store(cache: map<int, Chunk>, disk: map<int, map<int, Item>>)

  /** The chunk a clock belongs to, `floor(clock / CHUNK_SIZE)`. */
  function ChunkOf(clock: int): int
  {
    FloorDiv(clock, ChunkSize)
  }

  /** The slot of a clock within its chunk, `clock % CHUNK_SIZE` with JavaScript's `%`. */
  function SlotOf(clock: int): int
  {
    IntRem(clock, ChunkSize)
  }

  /** Every chunk left in the record has taken at least one and fewer than 256 writes. */
  predicate ChunksOpen(cache: map<int, Chunk>)
  {
    forall i :: i in cache ==> 0 < cache[i].writes < ChunkSize
  }

  /**
   * One iteration of `appendAtom`'s loop: the item is written into its slot
   * of its chunk (a new chunk if the record has none), the write is counted,
   * and a chunk that reaches 256 writes is removed from the record and handed
   * to the store.
   */
  function AppendOne(st: Store, item: Item): Store
  {
    var i := ChunkOf(item.state.clock);
    var old_ := if i in st.cache then st.cache[i] else Chunk(0, map[]);
    var chunk := Chunk(old_.writes + 1, old_.slots[SlotOf(item.state.clock) := item]);
    if chunk.writes == ChunkSize then Store(st.cache - {i}, st.disk[i := chunk.slots])
    else Store(st.cache[i := chunk], st.disk)
  }

  /** The loop of `appendAtom` over a batch of items, in order. */
  function AppendAll(st: Store, items: seq<Item>): Store
  {
    if items == [] then st else AppendOne(AppendAll(st, items[..|items| - 1]), items[|items| - 1])
  }

  /**
   * An appended item lands in chunk `floor(clock / 256)` at slot
   * `clock % 256`: in the record, or in the store when that write filled the
   * chunk. Every other chunk is unchanged, and the record's chunks stay open.
   */
  lemma AppendOnePlaces(st: Store, item: Item)
    requires ChunksOpen(st.cache)
    ensures var after, i, k := AppendOne(st, item), ChunkOf(item.state.clock), SlotOf(item.state.clock);
      ChunksOpen(after.cache)
      && (i in after.cache ==> after.cache[i].slots[k] == item)
      && (i !in after.cache ==> i in after.disk && after.disk[i][k] == item)
      && (forall j :: j != i ==> (j in after.cache <==> j in st.cache))
      && (forall j :: j != i && j in st.cache ==> after.cache[j] == st.cache[j])
      && (forall j :: j != i && j in st.disk ==> j in after.disk && after.disk[j] == st.disk[j])
  {
  }

  /**
   * A chunk stays in the record until its 256th write: after a batch, a
   * chunk the batch did not reach is unchanged, and the record stays open.
   */
  lemma {:induction false} AppendAllKeepsOthers(st: Store, items: seq<Item>, j: int)
    requires ChunksOpen(st.cache)
    requires forall n :: 0 <= n < |items| ==> ChunkOf(items[n].state.clock) != j
    ensures ChunksOpen(AppendAll(st, items).cache)
    ensures j in AppendAll(st, items).cache <==> j in st.cache
    ensures j in st.cache ==> AppendAll(st, items).cache[j] == st.cache[j]
    ensures j in st.disk ==> j in AppendAll(st, items).disk && AppendAll(st, items).disk[j] == st.disk[j]
  {
    if items != [] {
      var front := items[..|items| - 1];
      AppendAllKeepsOthers(st, front, j);
      AppendOnePlaces(AppendAll(st, front), items[|items| - 1]);
    }
  }

  /**
   * `currentCacheSetAtom`: the chunk of the time and its two neighbours,
   * negative indices dropped.
   */
  function Window(t: real): seq<int>
  {
    var c := Floor(t / ChunkSize as real);
    Filter([c - 1, c, c + 1])
  }

  /** `filter((i) => i >= 0)`. */
  function Filter(cs: seq<int>): (r: seq<int>)
    ensures forall x :: x in r <==> x in cs && x >= 0
    ensures |r| <= |cs|
  {
    if cs == [] then [] else (if cs[0] >= 0 then [cs[0]] else []) + Filter(cs[1..])
  }

  /**
   * The window holds at most three indices, all non-negative, exactly the
   * non-negative ones among the time's chunk and its two neighbours; for a
   * non-negative time it holds the time's own chunk.
   */
  lemma WindowShape(t: real)
    ensures var c, w := Floor(t / ChunkSize as real), Window(t);
      |w| <= 3
      && (forall x :: x in w <==> x >= 0 && c - 1 <= x <= c + 1)
      && (t >= 0.0 ==> c in w)
  {
    if t >= 0.0 {
      assert t / ChunkSize as real >= 0.0;
    }
  }

  /** A sparse array with at least one index entry has a non-zero `length`. */
  predicate HasEntries(slots: map<int, Item>)
  {
    exists k | k in slots :: k >= 0
  }

  /**
   * `load(i)` in `setCacheAtom`: a resident chunk read from storage that is
   * not empty is kept; otherwise the record's chunk is used; otherwise the
   * stored chunk, or an empty one.
   */
  function Load(prev: map<int, Resident>, st: Store, c: int): Resident
  {
    if c in prev && prev[c].source == FromStorage && HasEntries(prev[c].slots) then prev[c]
    else if c in st.cache then Resident(FromCache, st.cache[c].slots)
    else Resident(FromStorage, if c in st.disk then st.disk[c] else map[])
  }

  /** The new `cacheAtom`: the window's chunks, each loaded. */
  function Rebuild(prev: map<int, Resident>, st: Store, window: seq<int>): map<int, Resident>
  {
    map c | c in window :: Load(prev, st, c)
  }

  /**
   * After a rebuild the resident chunks are exactly the window's, each from
   * the first source that has it in the load priority.
   */
  lemma RebuildPriority(prev: map<int, Resident>, st: Store, window: seq<int>)
    ensures var r := Rebuild(prev, st, window);
      r.Keys == set c | c in window
      && (forall c :: c in r && c in prev && prev[c].source == FromStorage && HasEntries(prev[c].slots)
            ==> r[c] == prev[c])
      && (forall c :: c in r && c in st.cache && !(c in prev && prev[c].source == FromStorage && HasEntries(prev[c].slots))
            ==> r[c] == Resident(FromCache, st.cache[c].slots))
      && (forall c :: c in r && c !in st.cache && c in st.disk && !(c in prev && prev[c].source == FromStorage && HasEntries(prev[c].slots))
            ==> r[c] == Resident(FromStorage, st.disk[c]))
      && (forall c :: c in r && c !in st.cache && c !in st.disk && !(c in prev && prev[c].source == FromStorage && HasEntries(prev[c].slots))
            ==> r[c] == Resident(FromStorage, map[]))
  {
  }

  /** Rebuilding again with nothing else changed leaves the resident chunks as they are. */
  lemma RebuildIdempotent(prev: map<int, Resident>, st: Store, window: seq<int>)
    ensures Rebuild(Rebuild(prev, st, window), st, window) == Rebuild(prev, st, window)
  {
    var once := Rebuild(prev, st, window);
    forall c | c in window ensures Load(once, st, c) == once[c] {
    }
  }

  /** The resident tick at the rounded time `t`: slot `t % 256` of chunk `floor(t / 256)`. */
  function Lookup(resident: map<int, Resident>, t: int): Option<Item>
  {
    var c, k := ChunkOf(t), SlotOf(t);
    if c in resident && k in resident[c].slots then Some(resident[c].slots[k]) else None
  }

  /**
   * An appended tick is shown once the window is rebuilt around its chunk
   * and the smoothed time rounds to its clock, unless an earlier non-empty
   * stored copy of the chunk is kept: from the record while the chunk is
   * open, and from the store when this write filled it.
   */
  lemma AppendedTickIsShown(prev: map<int, Resident>, st: Store, item: Item, t: real, smoothed: real)
    requires ChunksOpen(st.cache)
    requires var i := ChunkOf(item.state.clock);
      (i in Window(t)
       && !(i in prev && prev[i].source == FromStorage && HasEntries(prev[i].slots)))
    requires Round(smoothed) == item.state.clock
    ensures Lookup(Rebuild(prev, AppendOne(st, item), Window(t)), Round(smoothed)) == Some(item)
  {
    AppendOnePlaces(st, item);
  }

  /**
   * With nothing recorded or stored and nothing resident, the window around
   * time 0 loads chunks 0 and 1 empty from storage, and no tick is found there.
   */
  lemma ClearedWindow(smoothed: real)
    ensures var r := Rebuild(map[], Store(map[], map[]), Window(0.0));
      r == map[0 := Resident(FromStorage, map[]), 1 := Resident(FromStorage, map[])]
      && Lookup(r, Round(smoothed)) == None
  {
    WindowAtZero();
    var r := Rebuild(map[], Store(map[], map[]), [0, 1]);
    assert r.Keys == {0, 1};
    var c := ChunkOf(Round(smoothed));
    assert c in r ==> r[c].slots == map[];
  }

  /** Time 0 lies in chunk 0, so its window is chunks 0 and 1. */
  lemma WindowAtZero()
    ensures Window(0.0) == [0, 1]
  {
    assert Floor(0.0 / ChunkSize as real) == 0;
    assert [-1, 0, 1][1..] == [0, 1] && [0, 1][1..] == [1] && [1][1..] == [];
    assert Filter([1]) == [1];
    assert Filter([0, 1]) == [0, 1];
  }

  /** The per-agent information shown for agent `id`. */
  datatype AgentInfo = AgentInfo(
    id: int, state: Option<string>, constraints: Option<seq<int>>, position: Vec3, rotation: Vec3)

  /**
   * The agent's entry in the current tick, if the tick has one: its status
   * tag, its constraining agents, its position moved to the cell centre with
   * y flipped, and its heading.
   */
  function CurrentInfo(current: Option<Item>, id: int): (info: Option<AgentInfo>)
    ensures info.Some? <==> current.Some? && 0 <= id < |current.value.state.agents|
    ensures info.Some? ==> info.value.id == id
    ensures info.Some? ==>
      var a := current.value;
      var agent := a.state.agents[id];
      info.value.position == Vec3(agent.x + 0.5, 0.0, -agent.y - 0.5)
      && info.value.rotation == Vec3(0.0, agent.rz, 0.0)
      && (info.value.state.Some? <==> a.agentState.Some? && id in a.agentState.value)
      && (info.value.constraints.Some? <==> a.adg.Some? && id in a.adg.value.constraints)
  {
    if current.None? || !(0 <= id < |current.value.state.agents|) then None
    else
      var a := current.value;
      var agent := a.state.agents[id];
      Some(AgentInfo(id,
        if a.agentState.Some? && id in a.agentState.value then Some(a.agentState.value[id]) else None,
        if a.adg.Some? && id in a.adg.value.constraints then Some(a.adg.value.constraints[id]) else None,
        Vec3(agent.x + 0.5, 0.0, -agent.y - 0.5), Vec3(0.0, agent.rz, 0.0)))
  }

  /** What `useAgentInfo` returns. */
  datatype Shown = Shown(value: AgentInfo, isPrevious: bool)

  function Unknown(info: AgentInfo): AgentInfo
  {
    info.(state := Some("unknown"))
  }

  /**
   * One render of `useAgentInfo` as written, from the state `prev` of
   * `usePreviousDefined(v1 || initial)`: it returns the value held before
   * the render (marked unknown when there is no current entry), and its
   * effect then stores `v1 || initial`.
   */
  function RenderAsWritten(prev: AgentInfo, v1: Option<AgentInfo>, initial: AgentInfo): (Shown, AgentInfo)
  {
    var t := if v1.Some? then v1.value else initial;
    var shown := if v1.None? then Shown(Unknown(prev), true) else Shown(prev, false);
    (shown, t)
  }

  /**
   * As written, when the current tick stops listing the agent, the first
   * render shows the last value marked unknown, but its effect stores the
   * placeholder, and the render that change triggers shows the placeholder
   * instead; after that nothing changes.
   */
  lemma AsWrittenForgetsLastValue(x: AgentInfo, initial: AgentInfo)
    requires Unknown(x) != Unknown(initial)
    ensures var (s1, p1) := RenderAsWritten(x, None, initial);
      var (s2, p2) := RenderAsWritten(p1, None, initial);
      s1 == Shown(Unknown(x), true) && s2 == Shown(Unknown(initial), true)
      && s2 != s1 && p2 == p1
  {
  }

  /**
   * The evidently intended render: `usePreviousDefined(v1)` keeps the last
   * defined entry, and with no current entry that entry (or the placeholder
   * if there never was one) is shown, marked unknown.
   */
  function Render(prev: Option<AgentInfo>, v1: Option<AgentInfo>, initial: AgentInfo): (Shown, Option<AgentInfo>)
  {
    if v1.Some? then (Shown(v1.value, false), v1)
    else (Shown(Unknown(if prev.Some? then prev.value else initial), true), prev)
  }

  /** `n` renders without a current entry; the last one's result and the hook state. */
  function RenderMissing(prev: Option<AgentInfo>, initial: AgentInfo, n: nat): (Shown, Option<AgentInfo>)
    requires n > 0
  {
    var (s, p) := Render(prev, None, initial);
    if n == 1 then (s, p) else RenderMissing(p, initial, n - 1)
  }

  /**
   * With the correction, after the agent was last seen as `x`, every later
   * render without a current entry shows `x` marked unknown, however many
   * renders follow.
   */
  lemma {:induction false} RenderRetainsLastValue(x: AgentInfo, initial: AgentInfo, n: nat)
    requires n > 0
    ensures var (_, p0) := Render(None, Some(x), initial);
      RenderMissing(p0, initial, n) == (Shown(Unknown(x), true), Some(x))
  {
    if n > 1 {
      RenderRetainsLastValue(x, initial, n - 1);
    }
  }

  /** The state of `src/client/state.ts`: the chunk record, the store and the atoms around them. */
  class Timeline {
    /** The module-level `cache` record. */
    var cache: map<int, Chunk>
    /** The key-value store (`idb-keyval`). */
    var disk: map<int, map<int, Item>>
    /** `cacheAtom`. */
    var resident: map<int, Resident>
    /** `timeAtom`, `timeSmoothAtom`, `lengthAtom`, `timespanAtom`, `selectionAtom`. */
    var time: real
    var timeSmoothed: real
    var length: int
    var timespan: int
    var selection: set<int>

    predicate Valid()
      reads this
    {
      ChunksOpen(cache)
    }

    constructor ()
      ensures Valid()
      ensures cache == map[] && disk == map[] && resident == map[]
      ensures time == 0.0 && timeSmoothed == 0.0 && length == 0 && timespan == 0 && selection == {}
    {
      cache, disk, resident := map[], map[], map[];
      time, timeSmoothed, length, timespan, selection := 0.0, 0.0, 0, 0, {};
    }

    /**
     * `appendAtom(items)`: each item is written in order, and `length` and
     * `timespan` both grow by the number of items, whatever their clocks.
     */
    method Append(items: seq<Item>)
      requires Valid()
      modifies this
      ensures Valid()
      ensures Store(cache, disk) == AppendAll(Store(old(cache), old(disk)), items)
      ensures length == old(length) + |items| && timespan == old(timespan) + |items|
      ensures resident == old(resident) && time == old(time) && timeSmoothed == old(timeSmoothed)
      ensures selection == old(selection)
    {
      var n := 0;
      while n < |items|
        invariant 0 <= n <= |items|
        invariant Valid()
        invariant Store(cache, disk) == AppendAll(Store(old(cache), old(disk)), items[..n])
        invariant length == old(length) && timespan == old(timespan)
        invariant resident == old(resident) && time == old(time) && timeSmoothed == old(timeSmoothed)
        invariant selection == old(selection)
      {
        assert items[..n + 1][..n] == items[..n];
        var item := items[n];
        var i := ChunkOf(item.state.clock);
        var chunk := if i in cache then cache[i] else Chunk(0, map[]);
        chunk := Chunk(chunk.writes + 1, chunk.slots[SlotOf(item.state.clock) := item]);
        cache := cache[i := chunk];
        if chunk.writes == ChunkSize {
          cache := cache - {i};
          disk := disk[i := chunk.slots];
        }
        n := n + 1;
      }
      assert items[..n] == items;
      timespan := timespan + |items|;
      length := length + |items|;
    }

    /** `setCacheAtom`: the resident chunks become the loaded window around `time`. */
    method SetCache()
      modifies this
      ensures resident == Rebuild(old(resident), Store(cache, disk), Window(time))
      ensures cache == old(cache) && disk == old(disk) && time == old(time)
      ensures timeSmoothed == old(timeSmoothed) && length == old(length)
      ensures timespan == old(timespan) && selection == old(selection)
    {
      resident := Rebuild(resident, Store(cache, disk), Window(time));
    }

    /** `currentItemAtom`: the resident tick at the rounded smoothed time. */
    function CurrentItem(): Option<Item>
      reads this
    {
      Lookup(resident, Round(timeSmoothed))
    }

    /**
     * `clearAtom`: the record, the store and the selection are emptied, the
     * counters and the time reset, and the window around time 0 is loaded
     * again, which leaves chunks 0 and 1 resident and empty. The smoothed
     * time is left alone, and no tick is shown.
     */
    method Clear()
      modifies this
      ensures Valid()
      ensures cache == map[] && disk == map[] && selection == {}
      ensures time == 0.0 && length == 0 && timespan == 0
      ensures resident == map[0 := Resident(FromStorage, map[]), 1 := Resident(FromStorage, map[])]
      ensures timeSmoothed == old(timeSmoothed)
      ensures CurrentItem() == None
    {
      cache := map[];
      resident := map[];
      time := 0.0;
      selection := {};
      length := 0;
      timespan := 0;
      disk := map[];
      ClearedWindow(timeSmoothed);
      SetCache();
    }
  }
}
