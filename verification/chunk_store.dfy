/**
 * The second tick cache, `src/client/store.ts`. Ticks are pushed in arrival
 * order onto 512-item chunks; the chunk being filled lives in an in-memory
 * `cache` map until it is full and is then written to the key-value store.
 * Around the smoothed playback time a required set of chunks is kept resident
 * in `chunkMapAtom`, and the tick shown is blended from the ticks at the floor
 * and the ceiling of that time.
 */
module ChunkStore {
  import opened Js
  import opened Ticks

  /** `CHUNK_SIZE`. */
  const ChunkSize: int := 512

  /**
   * Everything `store.ts` holds: the resident chunks (`chunkMapAtom`), the
   * `cache` map, the key-value store, and the time, length and timespan atoms.
   */
  datatype Snapshot = Snapshot(
    chunkMap: map<int, seq<Item>>,
    cache: map<int, seq<Item>>,
    disk: map<int, seq<Item>>,
    time: real,
    timeSmoothed: real,
    length: int,
    timespan: int)

  /** `loadChunk(i)`: the in-memory chunk, else the stored one, else empty. */
  function LoadChunk(s: Snapshot, i: int): (chunk: seq<Item>)
    ensures i in s.cache ==> chunk == s.cache[i]
    ensures i !in s.cache && i in s.disk ==> chunk == s.disk[i]
    ensures i !in s.cache && i !in s.disk ==> chunk == []
  {
    if i in s.cache then s.cache[i] else if i in s.disk then s.disk[i] else []
  }

  /**
   * The required chunks around `t`: the chunks of `⌊t⌋` and `⌈t⌉`, the one
   * after the latter, and the one before the former, raised to 0.
   */
  function RequiredList(t: real): seq<int>
  {
    var c0, c1 := FloorDiv(Floor(t), ChunkSize), FloorDiv(Ceil(t), ChunkSize);
    // `clamp(c0 - 1, 0, Infinity)` only raises to 0
    [c0, c1, c1 + 1, Max(c0 - 1, 0)]
  }

  /** The required chunks as a set. */
  function Required(t: real): set<int>
  {
    set c | c in RequiredList(t)
  }

  /**
   * At most four chunks are required; for a non-negative time they are all
   * non-negative, and they include the chunks of both neighbouring ticks and
   * `max(c0 - 1, 0)`.
   */
  lemma RequiredShape(t: real)
    ensures var r, c0, c1 := Required(t), FloorDiv(Floor(t), ChunkSize), FloorDiv(Ceil(t), ChunkSize);
      |r| <= 4
      && c0 in r && c1 in r && c1 + 1 in r && Max(c0 - 1, 0) in r
      && (forall c :: c in r ==> c == c0 || c == c1 || c == c1 + 1 || c == Max(c0 - 1, 0))
      && (t >= 0.0 ==> forall c :: c in r ==> c >= 0)
      && (c1 == c0 || c1 == c0 + 1)
  {
    var c0, c1 := FloorDiv(Floor(t), ChunkSize), FloorDiv(Ceil(t), ChunkSize);
    var r := Required(t);
    assert r == {c0} + {c1} + {c1 + 1} + {Max(c0 - 1, 0)};
    CardUnionAtMost(c0, c1, c1 + 1, Max(c0 - 1, 0));
  }

  lemma CardUnionAtMost(a: int, b: int, c: int, d: int)
    ensures |{a} + {b} + {c} + {d}| <= 4
  {
    assert |{a} + {b}| <= 2;
    assert |{a} + {b} + {c}| <= 3;
  }

  /**
   * The resident chunks after `syncChunksAtom`: exactly the required ones,
   * each kept as it was when already resident and loaded otherwise.
   */
  function Synced(s: Snapshot): (r: Snapshot)
    ensures r.chunkMap.Keys == Required(s.timeSmoothed)
    ensures forall c :: c in s.chunkMap && c in r.chunkMap ==> r.chunkMap[c] == s.chunkMap[c]
    ensures forall c :: c in r.chunkMap && c !in s.chunkMap ==> r.chunkMap[c] == LoadChunk(s, c)
    ensures r.(chunkMap := s.chunkMap) == s
  {
    s.(chunkMap := map c | c in Required(s.timeSmoothed) :: if c in s.chunkMap then s.chunkMap[c] else LoadChunk(s, c))
  }

  /**
   * The body of `appendAtom` for one item: push it onto chunk
   * `⌊length/512⌋`, record the chunk in the cache and among the resident
   * chunks, write it to the store and drop it from the cache when it holds
   * 512 items, re-sync, set the timespan to the item's clock, and count the
   * item.
   */
  function AppendStep(s: Snapshot, item: Item): Snapshot
  {
    var i := FloorDiv(s.length, ChunkSize);
    var chunk := LoadChunk(s, i) + [item];
    var saved := s.(cache := s.cache[i := chunk], chunkMap := s.chunkMap[i := chunk]);
    var done := if |chunk| == ChunkSize then saved.(disk := saved.disk[i := chunk], cache := saved.cache - {i}) else saved;
    Synced(done).(timespan := item.state.clock, length := s.length + 1)
  }

  /** `clearAtom` as written: the resident chunks, the store and the counters are reset, the cache is not. */
  function ClearedAsWritten(s: Snapshot): Snapshot
  {
    s.(chunkMap := map[], disk := map[], time := 0.0, length := 0, timespan := 0)
  }

  /** `clearAtom` as evidently intended: the cache is emptied too. */
  function Cleared(s: Snapshot): Snapshot
  {
    ClearedAsWritten(s).(cache := map[])
  }

  /**
   * The bookkeeping `appendAtom` relies on: chunks before the current one
   * are stored full, the current one is in the cache holding `length % 512`
   * items (and absent when that is 0), nothing else is cached or stored, and
   * every resident chunk is what loading it would give.
   */
  ghost predicate Tidy(s: Snapshot)
  {
    s.length >= 0
    && (forall c :: c in s.cache ==> c == s.length / ChunkSize && |s.cache[c]| == s.length % ChunkSize)
    && (s.length / ChunkSize in s.cache <==> s.length % ChunkSize != 0)
    && (forall c :: c in s.disk <==> 0 <= c < s.length / ChunkSize)
    && (forall c :: c in s.disk ==> |s.disk[c]| == ChunkSize)
    && (forall c :: c in s.chunkMap ==> s.chunkMap[c] == LoadChunk(s, c))
  }

  /** The `n`-th appended tick is item `n % 512` of chunk `n / 512`. */
  ghost predicate Holds(s: Snapshot, items: seq<Item>)
  {
    s.length == |items|
    && forall n :: 0 <= n < |items| ==>
      n % ChunkSize < |LoadChunk(s, n / ChunkSize)| && LoadChunk(s, n / ChunkSize)[n % ChunkSize] == items[n]
  }

  /**
   * Appending keeps the bookkeeping tidy, extends the current chunk by
   * exactly the new item, and leaves every other chunk as it loads.
   */
  lemma AppendStepTidy(s: Snapshot, item: Item)
    requires Tidy(s)
    ensures var a, i := AppendStep(s, item), s.length / ChunkSize;
      Tidy(a) && a.length == s.length + 1 && a.timespan == item.state.clock
      && LoadChunk(a, i) == LoadChunk(s, i) + [item]
      && |LoadChunk(s, i)| == s.length % ChunkSize
      && (forall c :: c != i ==> LoadChunk(a, c) == LoadChunk(s, c))
  {
    var i := s.length / ChunkSize;
    assert FloorDiv(s.length, ChunkSize) == i;
    var a := AppendStep(s, item);
    var chunk := LoadChunk(s, i) + [item];
    if s.length % ChunkSize == 0 {
      assert i !in s.cache && i !in s.disk;
    }
    assert |chunk| == s.length % ChunkSize + 1;
    forall c | c != i ensures LoadChunk(a, c) == LoadChunk(s, c) {
    }
    assert LoadChunk(a, i) == chunk;
    if |chunk| == ChunkSize {
      assert a.length / ChunkSize == i + 1 && a.length % ChunkSize == 0;
    } else {
      assert a.length / ChunkSize == i && a.length % ChunkSize == |chunk|;
    }
  }

  /** Appending an item at a time to a tidy store places the `n`-th item at `n`. */
  lemma AppendStepHolds(s: Snapshot, items: seq<Item>, item: Item)
    requires Tidy(s) && Holds(s, items)
    ensures Holds(AppendStep(s, item), items + [item])
  {
    AppendStepTidy(s, item);
    var a := AppendStep(s, item);
    var i := s.length / ChunkSize;
    forall n | 0 <= n < |items| + 1
      ensures n % ChunkSize < |LoadChunk(a, n / ChunkSize)|
      ensures LoadChunk(a, n / ChunkSize)[n % ChunkSize] == (items + [item])[n]
    {
      if n == |items| {
        assert n / ChunkSize == i && n % ChunkSize == |LoadChunk(s, i)|;
      } else if n / ChunkSize == i {
        assert n % ChunkSize < |LoadChunk(s, i)|;
      }
    }
  }

  /** The corrected clear leaves an empty, tidy store. */
  lemma ClearedIsTidy(s: Snapshot)
    ensures Tidy(Cleared(s)) && Holds(Cleared(s), [])
  {
  }

  /** Appending a batch one item at a time. */
  function AppendAll(s: Snapshot, items: seq<Item>): Snapshot
  {
    if items == [] then s else AppendStep(AppendAll(s, items[..|items| - 1]), items[|items| - 1])
  }

  /**
   * After the corrected clear, appending any batch keeps the store tidy and
   * leaves the `n`-th item at position `n`, wherever the store stood before.
   */
  lemma {:induction false} AppendAfterClear(s: Snapshot, items: seq<Item>)
    ensures Tidy(AppendAll(Cleared(s), items)) && Holds(AppendAll(Cleared(s), items), items)
  {
    if items == [] {
      ClearedIsTidy(s);
    } else {
      var front, last := items[..|items| - 1], items[|items| - 1];
      AppendAfterClear(s, front);
      assert front + [last] == items;
      AppendStepKeeps(AppendAll(Cleared(s), front), front, last, AppendAll(Cleared(s), items));
    }
  }

  /** One more append keeps a tidy store tidy and its items in place. */
  lemma AppendStepKeeps(p: Snapshot, front: seq<Item>, last: Item, r: Snapshot)
    requires Tidy(p) && Holds(p, front) && r == AppendStep(p, last)
    ensures Tidy(r) && Holds(r, front + [last])
  {
    AppendStepTidy(p, last);
    AppendStepHolds(p, front, last);
  }

  /**
   * As written, a clear that leaves a partly filled chunk 0 in the cache
   * makes the next run's first tick land behind the previous run's ticks, so
   * the tick found at position 0 is a stale one.
   */
  lemma ClearAsWrittenKeepsStaleTicks(s: Snapshot, item: Item)
    requires 0 in s.cache && |s.cache[0]| > 0
    ensures var a := AppendStep(ClearedAsWritten(s), item);
      LoadChunk(a, 0) == s.cache[0] + [item]
    ensures !Tidy(ClearedAsWritten(s))
    ensures LoadChunk(AppendStep(ClearedAsWritten(s), item), 0)[0] == s.cache[0][0]
  {
  }

  /** The shown tick: the blend of the ticks at `⌊t⌋` and `⌈t⌉`. */
  datatype Current = Missing | Thrown | Shown(item: Blended)

  /**
   * `lerpItems(a, b, t)`: clock and poses blended agent by agent, type
   * `"tick"`, and `b`'s snapshot unless it has none. Pairing poses of
   * unequal lists reaches a missing pose and throws.
   */
  function LerpItems(a: Item, b: Item, t: real): (r: Option<Blended>)
    ensures r.Some? <==> |a.state.agents| == |b.state.agents|
    ensures r.Some? ==>
      (r.value.state.kind == "tick"
       && r.value.adg == (if b.adg.Some? then b.adg else a.adg)
       && |r.value.state.agents| == |a.state.agents|)
    ensures r.Some? ==>
      r.value.state.clock == Interp.Lerp(a.state.clock as real, b.state.clock as real, t)
      && forall k :: 0 <= k < |a.state.agents| ==>
           r.value.state.agents[k] == LerpPose(a.state.agents[k], b.state.agents[k], t)
  {
    if |a.state.agents| != |b.state.agents| then None
    else
      var agents := seq(|a.state.agents|, k requires 0 <= k < |a.state.agents| =>
        LerpPose(a.state.agents[k], b.state.agents[k], t));
      Some(Blended(Frame(a.state.clock as real + (b.state.clock as real - a.state.clock as real) * t, agents, "tick"),
        if b.adg.Some? then b.adg else a.adg))
  }

  /** At fraction 0 the blend reproduces `a`'s clock and every pose of `a`. */
  lemma LerpItemsAtStart(a: Item, b: Item)
    requires |a.state.agents| == |b.state.agents|
    ensures LerpItems(a, b, 0.0).Some?
    ensures LerpItems(a, b, 0.0).value.state.clock == a.state.clock as real
    ensures LerpItems(a, b, 0.0).value.state.agents == a.state.agents
  {
    forall k | 0 <= k < |a.state.agents|
      ensures LerpPose(a.state.agents[k], b.state.agents[k], 0.0) == a.state.agents[k]
    {
      var _, _, _ := LerpPoseEndpoints(a.state.agents[k], b.state.agents[k]);
    }
  }

  /** The resident item at tick `i`, if its chunk is resident and long enough. */
  function Fetch(chunkMap: map<int, seq<Item>>, i: int): Option<Item>
  {
    var c, k := FloorDiv(i, ChunkSize), IntRem(i, ChunkSize);
    if c in chunkMap && 0 <= k < |chunkMap[c]| then Some(chunkMap[c][k]) else None
  }

  /** `currentItemAtom`. */
  function CurrentItem(s: Snapshot): Current
  {
    var t := s.timeSmoothed;
    var i0, i1 := Floor(t), Ceil(t);
    var item0, item1 := Fetch(s.chunkMap, i0), Fetch(s.chunkMap, i1);
    if item0.None? || item1.None? then Missing
    else
      var r := LerpItems(item0.value, item1.value, t - i0 as real);
      if r.None? then Thrown else Shown(r.value)
  }

  /**
   * Nothing is shown unless both neighbouring ticks are resident; the blend
   * fraction `t - ⌊t⌋` lies in [0, 1).
   */
  lemma CurrentItemNeedsBothTicks(s: Snapshot)
    ensures var t := s.timeSmoothed;
      (CurrentItem(s) != Missing <==> Fetch(s.chunkMap, Floor(t)).Some? && Fetch(s.chunkMap, Ceil(t)).Some?)
      && 0.0 <= t - Floor(t) as real < 1.0
  {
  }

  /**
   * At a whole time `n` whose chunk is resident in a tidy store, the shown
   * tick is the `n`-th appended item, with its own clock and poses.
   */
  lemma CurrentItemAtTick(s: Snapshot, items: seq<Item>, n: int)
    requires Tidy(s) && Holds(s, items)
    requires 0 <= n < |items| && s.timeSmoothed == n as real
    requires n / ChunkSize in s.chunkMap
    ensures CurrentItem(s) == Shown(Blended(Frame(items[n].state.clock as real, items[n].state.agents, "tick"), items[n].adg))
  {
    assert Floor(n as real) == n && Ceil(n as real) == n;
    assert Fetch(s.chunkMap, n) == Some(items[n]);
    LerpItemsAtStart(items[n], items[n]);
  }

  /**
   * Half-way between two resident ticks `n` and `n + 1` of a tidy store
   * with as many agents each, the shown tick places every agent at the
   * midpoint of its two positions.
   */
  lemma CurrentItemAtHalfTick(s: Snapshot, items: seq<Item>, n: int)
    requires Tidy(s) && Holds(s, items)
    requires 0 <= n && n + 1 < |items| && s.timeSmoothed == n as real + 0.5
    requires n / ChunkSize in s.chunkMap && (n + 1) / ChunkSize in s.chunkMap
    requires |items[n].state.agents| == |items[n + 1].state.agents|
    ensures CurrentItem(s).Shown?
    ensures var shown := CurrentItem(s).item.state.agents;
      |shown| == |items[n].state.agents|
      && forall k :: 0 <= k < |shown| ==>
           var p, q := items[n].state.agents[k], items[n + 1].state.agents[k];
           shown[k].x == (p.x + q.x) / 2.0
           && shown[k].y == (p.y + q.y) / 2.0
           && shown[k].z == (p.z + q.z) / 2.0
  {
    assert Floor(n as real + 0.5) == n && Ceil(n as real + 0.5) == n + 1;
    assert Fetch(s.chunkMap, n) == Some(items[n]);
    assert Fetch(s.chunkMap, n + 1) == Some(items[n + 1]);
    var r := LerpItems(items[n], items[n + 1], 0.5);
    assert CurrentItem(s) == Shown(r.value);
    forall k | 0 <= k < |r.value.state.agents|
      ensures var p, q := items[n].state.agents[k], items[n + 1].state.agents[k];
        r.value.state.agents[k].x == (p.x + q.x) / 2.0
        && r.value.state.agents[k].y == (p.y + q.y) / 2.0
        && r.value.state.agents[k].z == (p.z + q.z) / 2.0
    {
      var p, q := items[n].state.agents[k], items[n + 1].state.agents[k];
      assert r.value.state.agents[k] == LerpPose(p, q, 0.5);
    }
  }

  /**
   * The first loop of `syncChunksAtom`: every listed chunk that is not yet
   * resident is loaded; it reports whether any was.
   */
  method LoadMissing(s: Snapshot, current: map<int, seq<Item>>, list: seq<int>)
    returns (updated: map<int, seq<Item>>, added: bool)
    ensures forall k :: k in updated <==> k in current || k in list
    ensures forall k :: k in current ==> updated[k] == current[k]
    ensures forall k :: k in updated && k !in current ==> updated[k] == LoadChunk(s, k)
    ensures added <==> exists j :: 0 <= j < |list| && list[j] !in current
  {
    updated, added := current, false;
    for n := 0 to |list|
      invariant forall k :: k in updated <==> k in current || k in list[..n]
      invariant forall k :: k in current ==> updated[k] == current[k]
      invariant forall k :: k in updated && k !in current ==> updated[k] == LoadChunk(s, k)
      invariant added <==> exists j :: 0 <= j < n && list[j] !in current
    {
      if list[n] !in updated {
        updated := updated[list[n] := LoadChunk(s, list[n])];
        added := true;
      }
      assert list[..n + 1] == list[..n] + [list[n]];
    }
    assert list[..|list|] == list;
  }

  /**
   * The second loop of `syncChunksAtom`: every chunk that is not required
   * is dropped; it reports whether any was.
   */
  method DropUnrequired(updated: map<int, seq<Item>>, required: set<int>)
    returns (kept: map<int, seq<Item>>, removed: bool)
    ensures forall k :: k in kept <==> k in updated && k in required
    ensures forall k :: k in kept ==> kept[k] == updated[k]
    ensures removed <==> exists k :: k in updated && k !in required
  {
    kept, removed := updated, false;
    var stale := updated.Keys;
    while stale != {}
      invariant forall k :: k in stale ==> k in updated
      invariant forall k :: k in kept <==> k in updated && (k in stale || k in required)
      invariant forall k :: k in kept ==> kept[k] == updated[k]
      invariant removed <==> exists k :: k in updated && k !in required && k !in stale
      decreases stale
    {
      assert exists c :: c in stale by {
        if forall c :: c !in stale {
          assert false;
        }
      }
      var c :| c in stale;
      if c !in required {
        kept := kept - {c};
        removed := true;
      }
      stale := stale - {c};
    }
  }

  /**
   * What the two loops of `syncChunksAtom` leave: the resident chunks of
   * `Synced`, and a change reported exactly when the resident chunks were not
   * already the required ones, in which case they were already synced.
   */
  lemma SyncOutcome(s: Snapshot, list: seq<int>, required: set<int>,
                    updated: map<int, seq<Item>>, added: bool, kept: map<int, seq<Item>>, removed: bool)
    requires list == RequiredList(s.timeSmoothed) && required == Required(s.timeSmoothed)
    requires forall k :: k in updated <==> k in s.chunkMap || k in list
    requires forall k :: k in s.chunkMap ==> updated[k] == s.chunkMap[k]
    requires forall k :: k in updated && k !in s.chunkMap ==> updated[k] == LoadChunk(s, k)
    requires added <==> exists j :: 0 <= j < |list| && list[j] !in s.chunkMap
    requires forall k :: k in kept <==> k in updated && k in required
    requires forall k :: k in kept ==> kept[k] == updated[k]
    requires removed <==> exists k :: k in updated && k !in required
    ensures kept == Synced(s).chunkMap
    ensures added || removed <==> s.chunkMap.Keys != required
    ensures !(added || removed) ==> s.chunkMap == Synced(s).chunkMap
  {
    RequiredMembers(s.timeSmoothed);
    SyncKeys(s.chunkMap.Keys, list, required, updated.Keys, added, kept.Keys, removed);
    SyncValues(s, kept);
  }

  /** A map over the required chunks holding resident chunks unchanged and loaded ones otherwise is `Synced`'s. */
  lemma SyncValues(s: Snapshot, kept: map<int, seq<Item>>)
    requires kept.Keys == Required(s.timeSmoothed)
    requires forall k :: k in kept ==> kept[k] == (if k in s.chunkMap then s.chunkMap[k] else LoadChunk(s, k))
    ensures kept == Synced(s).chunkMap
  {
    var target := Synced(s).chunkMap;
    assert kept.Keys == target.Keys;
    assert kept == target;
  }

  /** The required list and the required set hold the same chunks. */
  lemma RequiredMembers(t: real)
    ensures forall j :: 0 <= j < |RequiredList(t)| ==> RequiredList(t)[j] in Required(t)
    ensures forall k :: k in Required(t) ==> k in RequiredList(t)
  {
  }

  /** The key sets behind `SyncOutcome`. */
  lemma SyncKeys(current: set<int>, list: seq<int>, required: set<int>,
                 updated: set<int>, added: bool, kept: set<int>, removed: bool)
    requires forall j :: 0 <= j < |list| ==> list[j] in required
    requires forall k :: k in required ==> k in list
    requires forall k :: k in updated <==> k in current || k in list
    requires added <==> exists j :: 0 <= j < |list| && list[j] !in current
    requires forall k :: k in kept <==> k in updated && k in required
    requires removed <==> exists k :: k in updated && k !in required
    ensures kept == required
    ensures added || removed <==> current != required
  {
    forall k ensures k in kept <==> k in required {
      if k in required {
        assert k in list;
      }
    }
    assert kept == required;
    if added {
      var j :| 0 <= j < |list| && list[j] !in current;
      assert list[j] in required;
    } else if removed {
      var k :| k in updated && k !in required;
      assert k in current;
    } else {
      forall k ensures k in current <==> k in required {
        if k in required {
          assert k in list;
          var j :| 0 <= j < |list| && list[j] == k;
        }
        if k in current {
          assert k in updated;
        }
      }
      assert current == required;
    }
  }

  /** The state of `src/client/store.ts`. */
  class Store {
    var chunkMap: map<int, seq<Item>>
    var cache: map<int, seq<Item>>
    var disk: map<int, seq<Item>>
    var time: real
    var timeSmoothed: real
    var length: int
    var timespan: int

    function Snap(): Snapshot
      reads this
    {
      Snapshot(chunkMap, cache, disk, time, timeSmoothed, length, timespan)
    }

    constructor ()
      ensures Snap() == Snapshot(map[], map[], map[], 0.0, 0.0, 0, 0)
      ensures Tidy(Snap())
    {
      chunkMap, cache, disk := map[], map[], map[];
      time, timeSmoothed, length, timespan := 0.0, 0.0, 0, 0;
    }

    /** `saveChunk(i, data)`. */
    method SaveChunk(i: int, data: seq<Item>)
      modifies this
      ensures Snap() == old(Snap()).(cache := old(cache)[i := data])
    {
      cache := cache[i := data];
    }

    /** `finaliseChunk(i)`: the loaded chunk is written to the store and dropped from the cache. */
    method FinaliseChunk(i: int)
      modifies this
      ensures Snap() == old(Snap()).(disk := old(disk)[i := LoadChunk(old(Snap()), i)], cache := old(cache) - {i})
    {
      var data := LoadChunk(Snap(), i);
      disk := disk[i := data];
      cache := cache - {i};
    }

    /**
     * `syncChunksAtom`: loads every required chunk that is not resident,
     * drops every resident chunk that is not required, and writes the
     * resident chunks only when one of those happened.
     */
    method SyncChunks() returns (changed: bool)
      modifies this
      ensures Snap() == Synced(old(Snap()))
      ensures changed <==> old(chunkMap).Keys != Required(timeSmoothed)
    {
      var list, required := RequiredList(timeSmoothed), Required(timeSmoothed);
      var updated, added := LoadMissing(Snap(), chunkMap, list);
      var kept, removed := DropUnrequired(updated, required);
      changed := added || removed;
      SyncOutcome(Snap(), list, required, updated, added, kept, removed);
      if changed {
        chunkMap := kept;
      }
    }

    /** `appendAtom(item)`, with the job it queues run to completion. */
    method Append(item: Item)
      modifies this
      ensures Snap() == AppendStep(old(Snap()), item)
    {
      var i := FloorDiv(length, ChunkSize);
      var chunk := LoadChunk(Snap(), i) + [item];
      SaveChunk(i, chunk);
      chunkMap := chunkMap[i := chunk];
      if |chunk| == ChunkSize {
        FinaliseChunk(i);
      }
      var _ := SyncChunks();
      timespan := item.state.clock;
      length := length + 1;
    }

    /** `clearAtom` as written. */
    method ClearAsWritten()
      modifies this
      ensures Snap() == ClearedAsWritten(old(Snap()))
    {
      chunkMap := map[];
      time := 0.0;
      length := 0;
      timespan := 0;
      disk := map[];
    }

    /** `clearAtom` with the cache emptied as well: afterwards the store is tidy again. */
    method Clear()
      modifies this
      ensures Snap() == Cleared(old(Snap()))
      ensures Tidy(Snap())
    {
      ClearAsWritten();
      cache := map[];
    }
  }
}
