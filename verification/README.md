# Tick cache and playback model of the MAPF visualiser

This project models the logic at the heart of the multi-agent path-finding
visualiser (`smart-mapf/visualiser`). A running simulation streams steps
(ticks). The visualiser stores them, keeps a window of them resident around
the playback time, and draws each agent between the two ticks that surround
that time. The model covers the following parts:

- **The two chunked tick caches** (`TimelineCache` and `ChunkStore`).
  - `src/client/state.ts` slots ticks by clock into 256-tick chunks and keeps
    a window of three chunks resident. The shown tick is found at the rounded
    smoothed time.
  - `src/client/store.ts` pushes ticks in arrival order onto 512-tick chunks
    and keeps a required set of four chunks resident. The shown tick is
    blended from the ticks at the floor and the ceiling of the smoothed time.
  - Each cache is a class whose methods update its fields. Each is specified
    by functions on the whole state and by lemmas about those functions.
- **The gap-filling run of `src/client/run.ts`** (`Run`).
  - Each update is appended after one synthesised step per missing clock.
  - The module also covers the derived length and timespan, and the parsing
    of a solution file into agent paths.
- **Playback** (`Autoplay`, `AgentView`, `PathAgent`).
  - The autoplay interval of `src/App.tsx` (with its stop rule) and of
    `src/Playback.tsx`: each one is a class whose tick updates the time.
  - The choice of the two steps an agent is drawn between, and the
    interpolated position and heading, in `src/components/Agent.tsx` and
    `src/App.tsx`.
  - The path-following agent of `src/Agent.tsx`.
- **The small pure helpers.**
  - `lerp`, the two `lerpRadians` variants and `basename` (`Interp`,
    `LegacyInterp`).
  - The map-file parser (`MapFile`).
  - The selection toggle (`Selection`).
  - The expected-progress clamp (`Progress`).
  - The robot status badge (`Status`).

Shared parts sit in their own modules:

- `Js`: JavaScript's number operations (`Math.floor`, `Math.ceil`,
  `Math.round`, the truncating `%`, lodash `clamp`).
- `Text`: the string built-ins (`trim`, `split`, `split(/\r?\n/)`, `join`, `+s`).
- `Ticks`: the tick records (`Step`, `Item`) and the pose blend.

Numbers are modelled as mathematical reals and integers. π is a decimal
constant.

## Model

| member | source | states |
|---|---|---|
| TimelineCache.AppendOnePlaces | src/client/state.ts:198-208 | an appended tick lands in chunk `⌊clock/256⌋` at slot `clock % 256`, in the `cache` record, or in the store when that write was the chunk's 256th; every other chunk of the record and of the store is unchanged, and every chunk left in the record has taken fewer than 256 writes |
| TimelineCache.AppendAllKeepsOthers | src/client/state.ts:198-209 | over a whole batch, a chunk no item of the batch belongs to stays as it was in the record and in the store, and the record keeps only open chunks |
| TimelineCache.Timeline.Append | src/client/state.ts:195-213 | the record and the store become the in-order append of the batch; `length` and `timespan` both grow by exactly the number of items, whatever their clocks; nothing else changes |
| TimelineCache.Filter | src/client/state.ts:51 | `filter(i => i >= 0)` keeps exactly the non-negative indices |
| TimelineCache.WindowShape | src/client/state.ts:47-54 | the window of time `t` holds exactly the non-negative indices among `c-1, c, c+1` with `c = ⌊t/256⌋`, so at most three, all ≥ 0, and it contains `c` when `t ≥ 0` |
| TimelineCache.RebuildPriority | src/client/state.ts:62-79 | after a rebuild, each resident chunk is a previous non-empty copy from storage if there is one; otherwise the record's chunk (source "cache"); otherwise the stored chunk, or an empty one |
| TimelineCache.RebuildIdempotent | src/client/state.ts:62-79 | rebuilding twice with nothing else changed gives the same resident chunks as rebuilding once |
| TimelineCache.Timeline.SetCache | src/client/state.ts:62-79 | `cacheAtom` becomes the rebuilt window around `time` and nothing else changes |
| TimelineCache.AppendedTickIsShown | src/client/state.ts:82-85 | an appended tick is shown once its chunk's window is rebuilt and the smoothed time rounds to its clock: slot `r % 256` of resident chunk `⌊r/256⌋`, taken from the record while its chunk is open, or from the store when that write filled it, unless an earlier non-empty stored copy is kept |
| TimelineCache.ClearedWindow | src/client/state.ts:216-229 | with nothing recorded, stored or resident, the window around time 0 is chunks 0 and 1, both resident and empty, and no tick is found at any smoothed time |
| TimelineCache.WindowAtZero | src/client/state.ts:47-54 | the window at time 0 is exactly `[0, 1]` |
| TimelineCache.Timeline.Clear | src/client/state.ts:216-229 | the record, the store and the selection end empty; `time`, `length` and `timespan` are 0; the window is reloaded as chunks 0 and 1, empty; no tick is shown; the resulting state does not depend on the state before, so clearing twice equals clearing once |
| TimelineCache.Timeline.constructor | src/client/state.ts:37-60 | everything starts empty and at zero |
| TimelineCache.CurrentInfo | src/client/state.ts:112-133 | there is agent information exactly when a current tick lists the agent; it carries the agent's id, its position at the cell centre `(x + 0.5, 0, -y - 0.5)`, its heading `(0, rz, 0)`, and a status tag and constraints exactly when the tick lists them for the agent |
| TimelineCache.AsWrittenForgetsLastValue | src/client/state.ts:134-140 | as written, when the agent disappears, the first render shows its last value marked unknown, but the next render shows the placeholder instead, and that state is then stable |
| TimelineCache.RenderRetainsLastValue | src/client/state.ts:87-93 | with `usePreviousDefined(v1)`, every render after the agent was last seen as `x` and none of which lists it shows `x` marked unknown with `isPrevious` set |
| ChunkStore.LoadChunk | src/client/store.ts:98-100 | the in-memory chunk if there is one, else the stored chunk, else empty |
| ChunkStore.RequiredShape | src/client/store.ts:117-127 | the required set holds exactly `c0`, `c1`, `c1+1` and `max(c0-1, 0)` with `c0 = ⌊⌊t⌋/512⌋` and `c1 = ⌊⌈t⌉/512⌋`: at most four chunks, all ≥ 0 for `t ≥ 0`, and `c1` is `c0` or `c0+1` |
| ChunkStore.Synced | src/client/store.ts:129-148 | the resident chunks after syncing are exactly the required set; chunks already resident are kept unchanged; the others are loaded; no other part of the state changes |
| ChunkStore.LoadMissing | src/client/store.ts:132-137 | the first loop adds exactly the listed chunks that are not resident, each loaded, keeps the resident ones unchanged, and reports a change exactly when some listed chunk was missing |
| ChunkStore.DropUnrequired | src/client/store.ts:139-144 | the second loop keeps exactly the required chunks, unchanged, and reports a change exactly when some chunk was not required |
| ChunkStore.SyncOutcome | src/client/store.ts:129-148 | the two loops together leave `Synced`'s resident chunks, and report a change exactly when the resident chunks were not already the required set |
| ChunkStore.SyncKeys | src/client/store.ts:129-144 | the key set left by the two loops is the required set, and something was added or removed exactly when the resident keys differed from it |
| ChunkStore.SyncValues | src/client/store.ts:129-137 | a map on the required chunks that keeps the resident chunks and loads the others is `Synced`'s map |
| ChunkStore.RequiredMembers | src/client/store.ts:122-127 | the four computed indices and the `Set` built from them hold the same chunks |
| ChunkStore.Store.SyncChunks | src/client/store.ts:114-150 | `syncChunksAtom` leaves the state `Synced` describes, and the atom is written exactly when the resident keys were not the required set |
| ChunkStore.AppendStepTidy | src/client/store.ts:155-174 | on a well-kept store, an append extends chunk `⌊length/512⌋` by exactly the new item, which that chunk holds `length % 512` items before; every other chunk loads as before; full chunks are handed to the store and leave the cache |
| ChunkStore.AppendStepHolds | src/client/store.ts:155-174 | after appending, the `n`-th appended item is item `n % 512` of chunk `⌊n/512⌋`, for the new item and every earlier one |
| ChunkStore.AppendStepKeeps | src/client/store.ts:155-174 | one more append keeps the store well kept, with every appended item in its place |
| ChunkStore.Store.Append | src/client/store.ts:155-174 | `appendAtom(item)` with its queued job run to completion: the item is pushed onto chunk `⌊length/512⌋`, the chunk is finalised when it reaches 512, the resident chunks are re-synced, `timespan` becomes the item's clock, and `length` grows by 1 |
| ChunkStore.Store.SaveChunk | src/client/store.ts:109-111 | `saveChunk` sets the cache entry and changes nothing else |
| ChunkStore.Store.FinaliseChunk | src/client/store.ts:102-106 | `finaliseChunk` writes the loaded chunk to the store and removes it from the cache, changing nothing else |
| ChunkStore.Store.constructor | src/client/store.ts:17-23 | everything starts empty and at zero, a well-kept store |
| ChunkStore.Store.ClearAsWritten | src/client/store.ts:177-186 | `clearAtom` as written: the resident chunks become `{}`, the store is cleared, and `time`, `length` and `timespan` become 0, but the in-memory cache is kept |
| ChunkStore.ClearAsWrittenKeepsStaleTicks | src/client/store.ts:177-186 | as written, when a partly filled chunk 0 is still cached, the store is no longer well kept after a clear, and the first tick of the next run is appended behind the previous run's ticks, so position 0 shows a stale tick |
| ChunkStore.ClearedIsTidy | src/client/store.ts:177-186 | the corrected clear leaves an empty, well-kept store |
| ChunkStore.AppendAfterClear | src/client/store.ts:155-186 | after the corrected clear, any batch of appends keeps the store well kept and places the `n`-th item at position `n`, whatever the store held before |
| ChunkStore.Store.Clear | src/client/store.ts:177-186 | the corrected `clearAtom` also empties the cache, and the store is well kept afterwards |
| ChunkStore.LerpItems | src/client/store.ts:25-42 | the blend exists exactly when both ticks list the same number of agents; it is of type "tick", takes `b`'s snapshot when `b` has one and `a`'s otherwise, and has one pose per agent; its clock is `lerp` of the two clocks and each pose is `a`'s pose blended toward `b`'s pose of the same index |
| ChunkStore.LerpItemsAtStart | src/client/store.ts:25-42 | at fraction 0 the blend reproduces `a`'s clock and every pose of `a` |
| ChunkStore.CurrentItemNeedsBothTicks | src/client/store.ts:45-64 | nothing is shown unless the ticks at both `⌊t⌋` and `⌈t⌉` are resident, and the blend fraction `t - ⌊t⌋` lies in [0, 1) |
| ChunkStore.CurrentItemAtTick | src/client/store.ts:45-64 | at a whole time `n` whose chunk is resident in a well-kept store, the shown tick is the `n`-th appended one, with its own clock, poses and snapshot |
| ChunkStore.CurrentItemAtHalfTick | src/client/store.ts:45-64 | half-way between resident ticks `n` and `n + 1` of a well-kept store with as many agents each, a tick is shown and every agent's x, y and z are the means of its two positions |
| Run.Range | src/client/run.ts:59 | lodash `range(start, end)` counts up from `start` when `start < end` and down otherwise, with `|end - start|` elements |
| Run.SynthesisedStep | src/client/run.ts:59-72 | a synthesised step has the given clock, no type tag, and one pose per agent of the tail: that agent's pose blended toward the update's agent of the same index by the progress of the clock between the two |
| Run.Append | src/client/run.ts:53-79 | appending to an empty run gives exactly `[update]`; otherwise the result is the unchanged previous steps, one step per clock of `range(tail.clock + 1, update.clock)`, and then the update, and each filled step is the synthesised step for its clock; it throws a TypeError exactly when there are clocks to fill and the update has fewer agents than the tail, and divides by zero exactly when the update repeats the tail's clock with enough agents |
| Run.AppendFillsGap | src/client/run.ts:57-75 | for a later update, `update.clock - tail.clock - 1` steps are added, with clocks `tail.clock + 1 …` in order, each with the tail's number of agents and a progress strictly between 0 and 1, and every synthesised x, y and z between the tail's and the update's |
| Run.FractionStrictlyBetween | src/client/run.ts:60 | the progress `(i - tail.clock) / (update.clock - tail.clock)` of a gap clock lies strictly between 0 and 1 |
| Run.AppendBackwards | src/client/run.ts:59 | for an earlier update, `range` counts down, and the clocks `tail.clock + 1` down to `update.clock + 1` are synthesised |
| Run.AppendContiguous | src/client/run.ts:53-79 | one append to a run with consecutive clocks, of an update with a later clock, keeps the clocks consecutive and ends with the update |
| Run.IngestContiguous | src/client/run.ts:53-79 | a batch of updates with increasing clocks, appended one by one, leaves consecutive clocks from the first stored clock to the last update's |
| Run.IngestFromEmpty | src/client/run.ts:53-104 | from an empty run, increasing updates leave one step per clock from the first update to the last, and `lengthAtom` and `timespanAtom` are the count and the last clock |
| Run.Clear | src/client/run.ts:86-104 | after `clearAtom`, `lengthAtom` and `timespanAtom` are both 0 |
| Run.NonEmpty | src/client/run.ts:39 | `filter(identity)` keeps exactly the non-empty pieces |
| Run.ParseLines | src/client/run.ts:36-43 | the lines parse exactly when every line does, one path per line |
| Run.AgentCountMatchesPaths | src/client/run.ts:27-44 | the agent count is the number of line feeds in the trimmed text plus one, so empty text counts one agent and has no paths; a non-empty file that parses has one path per agent, and it fails exactly when some line has no `:` |
| Interp.LerpEndpoints | src/utils/index.ts:13 | `lerp(a, b, 0) = a` and `lerp(a, b, 1) = b`; the `lerp` of `src/utils.ts` (line 7) is the same expression |
| Interp.LerpBetween | src/utils/index.ts:13 | for a fraction in [0, 1], `lerp` lies between its endpoints, in either order |
| Interp.ShortestDelta | src/utils/index.ts:19-22 | the normalised `delta` lies in [-π, π) |
| Interp.ShortestDeltaCongruent | src/utils/index.ts:19-22 | `delta` differs from `b - a` by whole turns |
| Interp.ShortestDeltaExact | src/utils/index.ts:19-22 | when `b - a` is in [-π, π), `delta` is exactly `b - a` |
| Interp.LerpRadiansEndpoints | src/utils/index.ts:15-25 | `lerpRadians(a, b, 0) = a`; `lerpRadians(a, b, 1)` is `b` up to whole turns, and exactly `b` when `b - a` is in [-π, π) |
| Interp.LerpRadiansShortest | src/utils/index.ts:15-25 | for a fraction in [0, 1], the angle never moves more than half a turn away from `a` |
| Interp.LerpRadiansAcrossHalfTurn | src/utils/index.ts:15-25 | halfway from 170° to -170° is 180°, the short way round |
| Interp.BasenameIsLastSegment | src/utils/index.ts:7-11 | `basename(path)` is the suffix after the last `/`, with no `/` in it |
| Interp.BasenameWithoutExtension | src/utils/index.ts:7-11 | `basename(path, true)` is the part of the name before its first `.`, with no `.` and no `/` in it |
| LegacyInterp.Normalise | src/utils.ts:10 | `(((d % 2π) + 2π) % 2π)` lies in [0, 2π) |
| LegacyInterp.NormaliseCongruent | src/utils.ts:10 | the normalised difference equals the difference up to whole turns |
| LegacyInterp.NormaliseExact | src/utils.ts:10 | a difference already in [0, 2π) is unchanged |
| LegacyInterp.AsWrittenEndpoints | src/utils.ts:9-10 | the older `lerpRadians` starts at `a`, but at `t = 1` it gives the normalised difference, not `b` |
| LegacyInterp.AsWrittenMissesTarget | src/utils.ts:9-10 | as written, interpolating from 1 radian to 1 radian ends at 0 |
| LegacyInterp.LerpRadiansEndpoints | src/utils.ts:9-10 | the corrected interpolation starts at `a`, ends at `b` up to whole turns, and ends exactly at `b` when `b - a` is in [0, 2π) |
| Ticks.LerpPoseEndpoints | src/client/run.ts:63-71 | blending two poses starts exactly at the first, and ends at the second's position with each angle up to whole turns |
| MapFile.ParseRow | src/utils/parseMap.ts:9-11 | one cell per character, true exactly at `@` or `T` |
| MapFile.ParseMap | src/utils/parseMap.ts:3-12 | one row per line after the first four of the trimmed text, `max(0, lines - 4)` in all, each with one cell per character, true exactly at obstacles |
| MapFile.TrimKeepsCrBeforeLf | src/utils/parseMap.ts:6 | trimming keeps every carriage return followed by a line feed |
| MapFile.MapRowsHaveNoLineBreaks | src/utils/parseMap.ts:6 | no row holds a line feed, and when carriage returns only end lines, no row holds a carriage return |
| MapFile.LastTokenIsLastWord | src/utils/parseMap.ts:20 | `last(c.split(" "))` is the suffix after the line's last space, with no space in it |
| MapFile.ParseMapMeta | src/utils/parseMap.ts:14-26 | the type, height and width are the last tokens of lines 1, 2 and 3, with height and width read as numbers; fewer than three lines throw |
| MapFile.SpaceFreeSuffix | src/utils/parseMap.ts:20 | a space-free suffix leaves no space at those positions of the line |
| MapFile.HeaderValue | src/utils/parseMap.ts:19-24 | a header line `name value` with a decimal value yields that value |
| Text.SplitLinesDropsCr | src/utils/parseMap.ts:6 | `split(/\r?\n/)` leaves no carriage return when every carriage return precedes a line feed |
| Text.SplitLinesHaveNoLf | src/utils/parseMap.ts:6 | no line produced by `split(/\r?\n/)` holds a line feed |
| Text.SplitCount | src/client/run.ts:29 | splitting on a character gives one more piece than it has occurrences |
| Text.SplitJoin | src/client/run.ts:29 | splitting and joining again with the same separator gives back the text |
| Text.IntToStringRoundTrip | src/Status.tsx:82-88 | an id written in decimal reads back as the same number |
| Selection.Toggle | src/client/selection.ts:8-16 | toggling removes a present id, adds an absent one, and leaves every other id as it was, in a new set |
| Selection.ToggleTwice | src/client/selection.ts:8-16 | toggling the same id twice gives back the original selection |
| Selection.ToggleCommutes | src/client/selection.ts:8-16 | toggles of two ids commute |
| AgentView.NearIndicesBounds | src/components/Agent.tsx:15-17 | both picked steps are recorded; inside the range they are `⌊time⌋` and the next step; at or past the last step both are the last; before the first both are the first; the copy of `nearAtom` in `src/App.tsx` (lines 241-254) is the same |
| AgentView.NearPoses | src/components/Agent.tsx:10-23 | `nearAtom` yields nothing exactly when no step is recorded |
| AgentView.ViewOutcomes | src/components/Agent.tsx:40-44 | both views hide the agent exactly when nothing is recorded, and throw exactly when a picked step has no entry for the agent |
| AgentView.FractionBounds | src/components/Agent.tsx:46-58 | the blend fraction `time - ⌊time⌋` lies in [0, 1) |
| AgentView.WaitingStaysPut | src/components/Agent.tsx:44-53 | an agent whose two steps share x and y stays on its cell centre, y flipped |
| AgentView.PositionBetween | src/components/Agent.tsx:46-53 | the drawn x lies between the two cell centres |
| AgentView.ViewAtWholeTime | src/components/Agent.tsx:46-58 | at a whole time both views draw the agent at `(x + 0.5, 0, -(y + 0.5))` of its current step, facing its recorded heading; this holds for the `Agent` of `src/App.tsx` (lines 277-289) too, with its own angular interpolation |
| PathAgent.PathIndicesBounds | src/Agent.tsx:31-33 | both path cells lie on the path with `i ≤ j ≤ i + 1`; inside the path they are `⌊x⌋` and `⌈x⌉`, outside both are the nearer end |
| PathAgent.PathPosition | src/Agent.tsx:27-40 | there is no position exactly when the path is empty |
| PathAgent.PathPositionOutside | src/Agent.tsx:30-40 | outside the path the agent stands exactly on the centre of the nearer end cell |
| PathAgent.PathPositionAtCell | src/Agent.tsx:30-40 | at a whole time `n` on the path the position is `(path[n].x + 0.5, 0, path[n].y + 0.5)` |
| PathAgent.PathPositionInside | src/Agent.tsx:30-40 | inside the path the blend fraction lies in [0, 1), and x lies between the two cells' centres |
| Autoplay.NextTimeBounds | src/App.tsx:156-161 | a tick never passes `length`, advances by at least 1 until it is capped, and keeps a time at or past `length` on `length`; `src/Playback.tsx` (lines 55-60) computes the same step |
| Autoplay.PlayProgress | src/Playback.tsx:51-64 | after `n` ticks the time is at least `min(time + n, length)`, and after at least one tick it is at most `length` |
| Autoplay.PlayReachesEnd | src/Playback.tsx:51-64 | from time `t`, any `length - t` or more ticks end exactly at `length` |
| Autoplay.AppPlayer.Effect | src/App.tsx:146-168 | the interval runs exactly while playing, and its clock reading is reset when it starts |
| Autoplay.AppPlayer.Tick | src/App.tsx:150-163 | when not buffering and `time == length`, playback stops and nothing else changes; otherwise the time becomes the next time and `ta` the new clock reading |
| Autoplay.PlaybackPlayer.Effect | src/Playback.tsx:49-67 | no interval runs while paused; starting one resets its clock reading; nothing else changes |
| Autoplay.PlaybackPlayer.Tick | src/Playback.tsx:51-64 | the control and `timeAtom` both become the same next time, one tick of `Play`, and `ta` becomes the new clock reading |
| Progress.ExpectedProgressBounds | src/components/getExpectedProgress.tsx:3-5 | the result is in [0, 1] (NaN only when time and length are both 0); with the defaults it is 0; for a positive length it is `time/(60·length)` whenever that lies in [0, 1] |
| Progress.ExpectedProgressMonotone | src/components/getExpectedProgress.tsx:5 | for a fixed positive length, later times never give less progress |
| Status.StatusOf | src/Status.tsx:60 | there is no panel exactly when there is no agent information |
| Status.ClassifyCaptions | src/Status.tsx:61-90 | "Initialising" exactly for no tag, "Not simulated" exactly for `unknown`, "Finished" exactly for `finished`, "Active" exactly for no constraints under another tag; `idle` gives "Waiting for …", and constraints under another tag give "Constrained by …" |
| Status.ClassifyColours | src/Status.tsx:61-90 | success exactly with "Active"; error exactly for `idle`; idle exactly for no tag, `finished` or `unknown`; warning exactly for constraints under another tag |
| Status.UniqAfter | src/Status.tsx:82-88 | the listed ids are those not already seen, each once |
| Status.Uniq | src/Status.tsx:82-88 | the listed ids are exactly the constraint ids, each once |
| Status.UniqSnoc | src/Status.tsx:82-88 | a later id is listed at the end exactly when it has not occurred before, so ids keep the order of their first occurrence |
| Status.UniqDistinct | src/Status.tsx:82-88 | ids that are already distinct are listed unchanged |
| Status.DegreesScale | src/Status.tsx:115-117 | a heading in [-π, π) shows in [-180, 180), a whole turn adds 360, larger angles show larger, and the degrees convert back to the radians |

## Left out

- JavaScript numbers are modelled as exact reals and integers. IEEE rounding, `Infinity` and `NaN` are not, except where a result hinges on them: the zero length of `getExpectedProgress` and a missing `y` coordinate in a path. π is a decimal constant.
- Text.ToNumber: `+s` is modelled only on white space, the empty string and optionally signed decimal integers, which is what map headers and path files hold. Every other string reads as NaN.
- The IndexedDB calls (`idb-keyval` `get`, `set`, `clear`) are foreign. The store is modelled as a map from chunk index to chunk.
- Concurrency is not modelled. Each async or mutex-guarded body runs atomically and in order. This leaves out:
  - the `async-mutex` priorities;
  - the `throttle` and `running` flag of `src/client/state.ts`;
  - that `syncChunksAtom` is not under the mutex;
  - that `finaliseChunk` in `state.ts` is not awaited.
- ChunkStore.Store.Append: runs the job that `appendAtom` queues to completion at once. The `length` increment that the source performs before the job runs is therefore not separated from it.
- TimelineCache.Timeline: holds values, not shared arrays. In the source, a resident chunk taken from the record is the record's own array, so writes to it show through without a rebuild. Here an appended tick becomes visible through `cacheAtom` only at the next `SetCache`, which the source triggers when the time or length changes.
- TimelineCache.Render: the corrected hook returns the current value directly, without the one-render delay of `useState`/`useEffect`.
- The `initial` placeholder of `useAgentInfo` is a parameter. Its position comes from the solution paths through React memoisation.
- Constraining agents are held by their ids. The source maps the constraint records to `c.id` before listing them.
- Smoothing driven by `requestAnimationFrame` is float easing with no discrete contract:
  - `useTimeSmoothService` in both caches;
  - `useAgentPosition` and its teleport rule (src/client/state.ts:149-176);
  - the spring of `src/Agent.tsx`.
  The smoothed time is a field that callers set.
- `useAgentPosition` and `usePreviousDefined` of src/client/store.ts:66-93: not modelled. No file among the sources imports them. `src/Status.tsx` takes its agent information from `src/client/state.ts`.
- The clock `now()` of the autoplay intervals is a parameter of each tick, and `setInterval` and its clearing are the `running` flag. The `?? 0` after lodash `min` of a two-element list never applies and is left out. lodash `max` skipping `NaN` is not modelled.
- `src/App.tsx` imports a `./run` module that is not part of this model. Its `resultAtom` is taken to be the list of steps of `src/client/run.ts`.
- AgentView.AppView: uses the corrected `lerpRadians` of `src/utils.ts` (see Findings). The as-written one is `LegacyInterp.LerpRadiansAsWritten`.
- `id()` of `src/utils/index.ts` and `src/utils.ts` serialises a browser `File` and is a foreign call.
- Rendering, three.js, shaders, leva panels, the network transport (`useRun`), file fetches and the atoms of `src/client/play.ts` have no logic to state.
- Run.Append: an update with the same clock as the tail divides by zero in the source, which then stores poses of infinite or NaN value. The model reports this case as `NonFinite` rather than building those poses.

## Findings

| source | as written | input that shows it | evidently intended | confidence | as-written member | corrected member |
|---|---|---|---|---|---|---|
| src/utils.ts:9-10 | `a + (((b - a) % 2π + 2π) % 2π - a) * t` subtracts `a` a second time | `lerpRadians(1, 1, 1)` gives 0, not 1 | `a + (((b - a) % 2π + 2π) % 2π) * t`, which ends at `b` up to whole turns | high, not executed | LegacyInterp.AsWrittenMissesTarget | LegacyInterp.LerpRadiansEndpoints |
| src/client/state.ts:134-140 | `usePreviousDefined(v1 \|\| initial)` stores the placeholder once the agent has no entry | agent last seen as `x`, then two renders without an entry: the second shows the placeholder, not `x` | `usePreviousDefined(v1)`, so that the last defined value is kept and shown marked unknown | medium, not executed | TimelineCache.AsWrittenForgetsLastValue | TimelineCache.RenderRetainsLastValue |
| src/client/store.ts:177-186 | `clearAtom` resets the resident chunks, the store and the counters but not the in-memory `cache` map | a clear while chunk 0 is partly filled, then one append: the new tick is pushed behind the old ones and position 0 shows a stale tick | the cache is emptied too, so the next run starts from empty chunks | high, not executed | ChunkStore.ClearAsWrittenKeepsStaleTicks | ChunkStore.AppendAfterClear |
