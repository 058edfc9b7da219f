# Generator lifecycle core of AngularReactiveP5, in Dafny

AngularReactiveP5 draws generative art on a p5 or three.js canvas driven by an
rxjs clock. Its core is the lifecycle of *generators*: objects with a lifetime
and one or more draw callbacks ("layers").

- **Factories.** They build generators on a lattice of grid points.
- **Registry.** A registry keeps the generators that are still alive.
- **Each clock emission.** It drops the expired generators, draws the rest
  in order and, on fixed cadences, appends new ones.

This project models that core and proves what it promises:

| module | models |
|---|---|
| `Models`, `Seqs`, `Canvas` | Shared values: grid points, durations that may be `Infinity`, layers, generators. `Array.prototype.filter`. The canvas as a trace of depth translations, marks and callback invocations. |
| `Lifetime` | `LifetimeManager`: remaining life `desired - (now - birth)`, a one-shot kill on expiry, the order in which a teardown reaches its subscriptions, the getters. |
| `Utils` | `buildId`, `secondsToFrames` (`Math.round` as `floor(x + 1/2)`), random point picks, `dotGridAlgo` and `buildCircleItem` of the lifetime-manager snapshot. |
| `Grid` | `createCoordinatesGrid`: nested loops filling a column-major lattice. The two copies are identical and are modelled once. |
| `GenerativeUtils` | The p5 snapshot's `dotGridAlgo` and `buildCircleItem`, whose generators carry a death time. |
| `PfiveContainer` | The p5 container: render pass (filter, clear, draw, publish), spawner every 14 emissions, lattice rebuild on resize, teardown. |
| `ItemBuilders` | `buildFastStander`, `buildFlicker`, `buildSlowMover`, `buildItemGenObject` of `ItemAlgo` and `RendererBuilder`, which differ only in the flicker shape and the destination marker. |
| `DotGrid` | `dotGridAlgo` and `gridDelimiter` / `dotGridDelimiter`: extreme-point selection by unseeded `reduce`, the perimeter and dot renderers. |
| `Compositor` | `renderGenerators`: layer-major compositing with depth translations. |
| `Container` | The three.js container: `drawLinesBetweenItems`, the `addGenerators` spawn cadence, the batch insert with death hooks, the lattice, teardown. |
| `GeneratedObjects` | The three.js scene list: two objects every 8 beats, 250 along z from the camera, and every 500 ticks a cull that keeps the objects whose z is above the camera's. The camera only moves towards -z, so the cull never removes a pushed object. |

The model makes these choices:

- The clock is an integer.
- `Math.random()` draws are parameters in `[0, 1)`.
- Draw callbacks are tokens, and rendering produces a trace of canvas operations, so the drawing order can be stated.
- JavaScript failures are `Err` / `None` results. Examples are `reduce` on an empty array, `.x` of `undefined`, and division by zero giving `NaN`.
- Some constructs are modelled as the code behaves, not as the surrounding comments describe them:
  - `dotGridAlgo` ignores its `unit` argument.
  - The `yFirstPoint` selection of the grid delimiter always returns the first point. See Findings.
  - A teardown never reaches `kill$` through the lifetime manager's relay. See Findings.

## Model

| member | source | states |
|---|---|---|
| Lifetime.RemainingAt | src/app/components/generative/container/LifetimeManager.ts:25-27 | the remaining life is infinite exactly when the desired life is |
| Lifetime.TickCostsOneFrame | src/app/components/generative/container/LifetimeManager.ts:26 | one more clock tick lowers a finite remaining life by exactly one frame and leaves an infinite one infinite |
| Lifetime.InfiniteNeverExpires | src/app/components/generative/container/LifetimeManager.ts:40-43 | with an infinite desired life the remaining life is never `<= 0`, so expiry never kills |
| Lifetime.ExpiresFromBirthPlusLife | src/app/components/generative/container/LifetimeManager.ts:36-44 | a finite life is `<= 0` exactly from clock value `birth + desired` on |
| Lifetime.Percentage | src/app/components/generative/container/LifetimeManager.ts:56-58 | `remaining / desired * 100` is a number exactly when the desired life is finite and non-zero and the remaining life finite |
| Lifetime.FullPercentageAtBirth | src/app/components/generative/container/LifetimeManager.ts:56-58 | at the birth clock value the percentage is 100 |
| Lifetime.ZeroPercentageAtExpiry | src/app/components/generative/container/LifetimeManager.ts:56-58 | at `birth + desired` the percentage is 0 |
| Lifetime.LifetimeManager.constructor | src/app/components/generative/container/LifetimeManager.ts:10-50 | the clock's current value is seen at once: the remaining life is computed, and a life already over is killed by expiry immediately |
| Lifetime.LifetimeManager.Tick | src/app/components/generative/container/LifetimeManager.ts:21-44 | while tracking, the remaining life follows the clock and the first value `<= 0` emits the one expiry kill and stops tracking; once stopped, nothing changes; the invariant keeps the manager's own kill the only one it emits |
| Lifetime.RelayFiresIff | src/app/components/generative/container/LifetimeManager.ts:19-44 | one `destroy$` emission reaches `kill$.next()` exactly when the relay is open and is notified before its own `takeUntil` notifier closes it |
| Lifetime.DestroyRelayNeverFires | src/app/components/generative/container/LifetimeManager.ts:19-34 | as subscribed, each `takeUntil` notifier precedes its source, so a teardown never reaches `kill$` |
| Lifetime.IntendedRelayFires | src/app/components/generative/container/LifetimeManager.ts:30-34 | with the relay closed by `kill$` alone, a teardown reaches `kill$` exactly when the relay is still open |
| Lifetime.LifetimeManager.Destroy | src/app/components/generative/container/LifetimeManager.ts:19-44 | teardown closes every subscription, so tracking stops and the remaining life is frozen, and `kill$` emits nothing |
| Lifetime.LifetimeManager.DestroyAsIntended | src/app/components/generative/container/LifetimeManager.ts:30-34 | with the intended relay, teardown emits one `Destroyed` kill exactly when the manager was still tracking, then tracking stops |
| Lifetime.LifetimeManager.ForceKill | src/app/components/generative/container/LifetimeManager.ts:19-24 | an outside `kill$.next()` stops tracking and freezes the remaining life |
| Lifetime.LifetimeManager.GetRemainingLifetime | src/app/components/generative/container/LifetimeManager.ts:52-54 | returns the last recorded remaining life, which is positive while tracking |
| Lifetime.LifetimeManager.GetRemainingLifetimePercentage | src/app/components/generative/container/LifetimeManager.ts:56-58 | returns the percentage of the recorded remaining life, which is no number for an infinite life |
| Utils.Round | src/app/components/generative/container/utils.ts:58-60 | `Math.round`: the integer within one half below and strictly less than one half above |
| Utils.RoundOfInteger | src/app/components/generative/container/utils.ts:58-60 | rounding an integer returns it |
| Utils.SecondsToFrames | src/app/components/generative/container/utils.ts:58-60 | the frame count is `fps * seconds` rounded half up |
| Utils.CoreFrameCounts | src/app/components/generative/container/utils.ts:58-60 | the frame counts the core uses: 30, 8, 300, 60, 120 at 60 fps; 144 and 14 at 144 fps |
| Utils.BuildId | src/app/components/generative/container/utils.ts:11-13 | an id lies in `[t, t + 1000000)` |
| Utils.PickIndex | src/app/components/generative/pfive-container/GenerativeUtils.ts:109 | `floor(r * length)` is a valid index of a non-empty list |
| Utils.PickPoint | src/app/components/generative/container/utils.ts:102 | the pick is a point of the list, and `undefined` exactly when the list is empty |
| Utils.DotGridAlgo | src/app/components/generative/container/utils.ts:15-56 | the dot grid has an infinite life born at the current clock value and an id from `buildId` |
| Utils.DotGridAlgoNeverExpires | src/app/components/generative/container/utils.ts:47-52 | the dot grid's remaining life never reaches 0 |
| Utils.BuildCircleItem | src/app/components/generative/container/utils.ts:93-145 | the builder fails, reading `.x` of `undefined`, exactly on an empty point list |
| Utils.CircleItemShape | src/app/components/generative/container/utils.ts:102-143 | the circle lives `secondsToFrames(1, fps)` from the current clock value, and its current, starting and final coordinates are all one chosen grid point |
| Utils.Opacity | src/app/components/generative/container/utils.ts:116 | the alpha is a number exactly when the life duration is non-zero |
| Utils.OpacityFadesOut | src/app/components/generative/container/utils.ts:113-117 | alpha 255 with the whole life left, 0 with none, and within `[0, 255]` in between |
| Seqs.Filter | src/app/components/generative/pfive-container/pfive-container.component.ts:58 | the filtered list keeps exactly the elements that pass, each as many times as it occurs, and is no longer than the list |
| Seqs.FilterKeepsOrder | src/app/components/generative/mainCanvas/main-canvas/canvas-content/generated-objects/generated-objects.component.ts:84-86 | filtering keeps the relative order: the result is a subsequence |
| Seqs.FilterTwice | src/app/components/generative/mainCanvas/main-canvas/canvas-content/generated-objects/generated-objects.component.ts:84-86 | filtering by a test, then by a stronger one, is filtering by the stronger one |
| Grid.Column | src/app/components/generative/container/utils.ts:77-87 | the inner loop pushes one point per row |
| Grid.CreateCoordinatesGrid | src/app/components/generative/container/utils.ts:62-91 | the nested loops build the lattice specification, `columns * rows` points |
| Grid.FirstColumnsSize | src/app/components/generative/container/utils.ts:76-88 | after `n` outer iterations the list holds `n * rows` points |
| Grid.GridSize | src/app/components/generative/pfive-container/GenerativeUtils.ts:82-94 | the lattice has exactly `columns * rows` points, none when either count is not positive |
| Grid.FirstColumnsAt | src/app/components/generative/container/utils.ts:76-88 | after `n` outer iterations index `i * rows + j` holds column `i`, row `j` |
| Grid.ColumnMajor | src/app/components/generative/pfive-container/GenerativeUtils.ts:82-94 | index `i * rows + j` holds the point with `xId = i` and `yId = j` |
| Grid.GridAt | src/app/components/generative/container/utils.ts:76-86 | every point is the one pushed for some column and row, at its column-major index |
| Grid.IdsDistinctAndInRange | src/app/components/generative/container/utils.ts:76-86 | every `(xId, yId)` lies in `[0, columns) x [0, rows)` and no two points share one |
| Grid.CentredPosition | src/app/components/generative/container/utils.ts:68-79 | column `i`, row `j` sits at `origin + (2i + 1 - columns) * 4 * unit` across and `origin + (2j + 1 - rows) * 4 * unit` down |
| Grid.NeighbourSpacing | src/app/components/generative/pfive-container/GenerativeUtils.ts:74-85 | neighbouring columns and rows are `unit * 8` apart |
| Grid.SymmetricAboutOrigin | src/app/components/generative/container/utils.ts:78-79 | column `i` and column `columns - 1 - i` average to the origin, and rows likewise |
| GenerativeUtils.DotGridAlgo | src/app/components/generative/pfive-container/GenerativeUtils.ts:5-34 | the dot grid's death time is `Infinity` |
| GenerativeUtils.DeadStaysDead | src/app/components/generative/pfive-container/pfive-container.component.ts:58 | a generator that fails the survival test at one clock value fails it at every later one |
| GenerativeUtils.BuildCircleItem | src/app/components/generative/pfive-container/GenerativeUtils.ts:99-140 | the builder fails exactly on an empty point list |
| GenerativeUtils.CircleItemShape | src/app/components/generative/pfive-container/GenerativeUtils.ts:106-138 | the circle dies at `startingTime + lifeDuration` and stands on a point of the list, with current, starting and final coordinates equal |
| GenerativeUtils.CircleFadesOut | src/app/components/generative/pfive-container/GenerativeUtils.ts:113-117 | the stroke alpha is 255 at birth, 0 at the death time and within `[0, 255]` in between |
| PfiveContainer.ConstantsAreFrameCounts | src/app/components/generative/pfive-container/pfive-container.component.ts:119-125 | the spawn period is `secondsToFrames(0.1)` = 14 and the circle life `secondsToFrames(1)` = 144 at 144 fps |
| PfiveContainer.SurvivorsAreTheLiving | src/app/components/generative/pfive-container/pfive-container.component.ts:58 | the survivors are exactly the generators with `currentTime - deathTime < 0`, in their order |
| PfiveContainer.DroppedStaysDropped | src/app/components/generative/pfive-container/pfive-container.component.ts:58-69 | filtering the published survivors again at the same or a later clock value is filtering once, so a dropped generator never comes back |
| PfiveContainer.Draws | src/app/components/generative/pfive-container/pfive-container.component.ts:63-65 | one draw per survivor, the `i`-th draw for the `i`-th survivor |
| PfiveContainer.CoordinatesGridHas64Points | src/app/components/generative/pfive-container/pfive-container.component.ts:130-132 | the lattice is 8 by 8: 64 points |
| PfiveContainer.SpacedSurvivorsAreASuffix | src/app/components/generative/pfive-container/pfive-container.component.ts:58 | circles spawned at a fixed period die oldest first, so the filter drops a prefix of them |
| PfiveContainer.AtMostElevenCircles | src/app/components/generative/pfive-container/pfive-container.component.ts:117-127 | with one spawn every 14 frames and a life of 144, at most 11 circles live besides the dot grid |
| PfiveContainer.Spawned | src/app/components/generative/pfive-container/pfive-container.component.ts:117-127 | the spawner appends one circle exactly on every 14th emission, dying 144 frames after the current clock value |
| PfiveContainer.PfiveContainer.constructor | src/app/components/generative/pfive-container/pfive-container.component.ts:95-114 | the lattice is built and the dot grid is the only generator |
| PfiveContainer.PfiveContainer.Tick | src/app/components/generative/pfive-container/pfive-container.component.ts:54-127 | a clock emission records its value, draws the background then each survivor once in order, and publishes the survivors plus the circle due, if any; nothing happens after teardown; the registry invariant is kept |
| PfiveContainer.PfiveContainer.RenderPass | src/app/components/generative/pfive-container/pfive-container.component.ts:54-71 | the render subscription sets the current time, filters, clears and draws, and publishes the survivors |
| PfiveContainer.PfiveContainer.Spawner | src/app/components/generative/pfive-container/pfive-container.component.ts:117-127 | the spawn subscription counts the emission and appends the circle due, restoring the registry invariant |
| PfiveContainer.PfiveContainer.RenderFrame | src/app/components/generative/pfive-container/pfive-container.component.ts:60-65 | the frame is the background clear followed by one draw per survivor, in list order |
| PfiveContainer.PfiveContainer.Resize | src/app/components/generative/pfive-container/pfive-container.component.ts:95-104 | a resize rebuilds the 64-point lattice around the new centre and changes nothing else; ignored after teardown |
| PfiveContainer.PfiveContainer.Destroy | src/app/components/generative/pfive-container/pfive-container.component.ts:134-138 | teardown changes no state but closes the subscriptions |
| PfiveContainer.RenderKeepsOrder | src/app/components/generative/pfive-container/pfive-container.component.ts:58-69 | the render pass keeps the dot grid first, keeps the circles evenly spaced and keeps the newest circle last |
| PfiveContainer.RenderKeepsRegistry | src/app/components/generative/pfive-container/pfive-container.component.ts:54-71 | after the render pass every published generator is alive at the current clock value |
| PfiveContainer.SpawnKeepsRegistry | src/app/components/generative/pfive-container/pfive-container.component.ts:117-127 | appending the circle due keeps the registry invariant for the next emission |
| ItemBuilders.DestinationMarker | src/app/components/generative/RenderAlgos/ItemAlgo.ts:196-203 | the destination layer is a marker: size 16 over a weak fill in `ItemAlgo`, size 8 without it in `RendererBuilder` |
| ItemBuilders.ChoosePainter | src/app/components/generative/RenderAlgos/ItemAlgo.ts:58-60 | circle iff `r1 < .5`, box iff `r1 >= .5` and `r2 < .5`, triangle iff additionally `r3 < .5`, X otherwise; never the small X |
| ItemBuilders.BuildRenderLayers | src/app/components/generative/RenderAlgos/ItemAlgo.ts:206-215 | the three conditional pushes build the selected layers |
| ItemBuilders.LayerSelection | src/app/components/generative/RenderAlgos/RenderAlgorithms.ts:236-245 | each layer is present iff its flag is set, one layer per flag set, in the order destination, item, statistics |
| ItemBuilders.DefaultConfigThreeLayers | src/app/components/generative/RenderAlgos/ItemAlgo.ts:159-165 | the default configuration gives exactly the three layers destination, item, statistics |
| ItemBuilders.ItemGenObject | src/app/components/generative/RenderAlgos/ItemAlgo.ts:144-222 | the generator carries the lifetime it was given, the movement from start to final over the animation duration, an id from `buildId`, and exactly the layers the configuration selects: the variant's destination marker, the item, the statistics |
| ItemBuilders.FlickerShape | src/app/components/generative/RenderAlgos/ItemAlgo.ts:67-102 | the flicker has one layer, its item; it stands on a drawn point with start equal to final, and its animation lasts its life of `secondsToFrames(0.5, fps)` |
| ItemBuilders.FastStanderIsStationary | src/app/components/generative/RenderAlgos/ItemAlgo.ts:27-65 | the fast stander's final point is its starting point, its animation lasts its life of `secondsToFrames(duration, fps)`, and it draws all three layers |
| ItemBuilders.SlowMoverEndpoints | src/app/components/generative/RenderAlgos/RenderAlgorithms.ts:254-292 | both endpoints are drawn from the point list, the animation lasts the whole life, and all three layers are drawn |
| ItemBuilders.CopiesDifferOnlyInMarker | src/app/components/generative/RenderAlgos/RenderAlgorithms.ts:226-233 | the two copies build the same slow mover except for the destination marker |
| DotGrid.DotGridAlgo | src/app/components/generative/RenderAlgos/DotGridAlgo.ts:28-83 | kind `dotgrid`, no movement, an infinite life born now, and exactly one layer drawing the points at depth `distanceBetweenLayers` |
| DotGrid.DotGridIgnoresUnit | src/app/components/generative/RenderAlgos/RenderAlgorithms.ts:35 | the generator is the same whatever `unit` is passed |
| DotGrid.DotGridNeverExpires | src/app/components/generative/RenderAlgos/DotGridAlgo.ts:74-78 | the dot grid's remaining life never reaches 0 |
| DotGrid.RenderGridDots | src/app/components/generative/RenderAlgos/DotGridAlgo.ts:44-63 | the renderer draws one dot per grid point, in list order, one step down in depth, with net translation zero |
| DotGrid.XLastFromFirstMax | src/app/components/generative/RenderAlgos/DotGridAlgo.ts:95 | the strict `>` reduce, from the first maximum found so far, ends on the first point of largest `xId` |
| DotGrid.XLastIsFirstMax | src/app/components/generative/RenderAlgos/RenderAlgorithms.ts:95 | `xlastPoint` is the first point with the largest `xId` |
| DotGrid.YFirstAsWrittenFrom | src/app/components/generative/RenderAlgos/DotGridAlgo.ts:97 | the step as written never replaces its accumulator |
| DotGrid.YFirstAsWrittenIsFirst | src/app/components/generative/RenderAlgos/RenderAlgorithms.ts:97 | as written, `yFirstPoint` is always the first point |
| DotGrid.YFirstFromColumnMax | src/app/components/generative/RenderAlgos/DotGridAlgo.ts:96-97 | the intended step, from the first column maximum so far, ends on the first point of the first column with the largest `yId` |
| DotGrid.YFirstIsColumnMax | src/app/components/generative/RenderAlgos/DotGridAlgo.ts:96-97 | the intended `yFirstPoint` is the point of the first point's column with the largest `yId` |
| DotGrid.GridExtremes | src/app/components/generative/RenderAlgos/DotGridAlgo.ts:92-99 | the extreme points exist exactly for a non-empty list, where an empty one makes the unseeded `reduce` throw; `xfirstPoint` and `yFirstPoint` are the first point, `yLastPoint` the last, and `xlastPoint` the first point with the largest `xId` |
| DotGrid.GridDelimiter | src/app/components/generative/RenderAlgos/RenderAlgorithms.ts:85-135 | the delimiter fails exactly on an empty list; otherwise it is a permanent `dotgrid` generator with an id from `buildId` and one perimeter layer, for any list: the rectangle from the first point, as wide as the first point of largest `xId` lies right of it and as tall as the last point lies below it, drawn at `distanceBetweenLayers * 8` |
| DotGrid.RenderPerimeter | src/app/components/generative/RenderAlgos/DotGridAlgo.ts:103-121 | the rectangle is drawn twice, at depth 0 and one step up, with net translation zero |
| DotGrid.XLastOnGrid | src/app/components/generative/RenderAlgos/DotGridAlgo.ts:94-95 | on a lattice, `xlastPoint` lies in the last column |
| DotGrid.EndsOfGrid | src/app/components/generative/RenderAlgos/DotGridAlgo.ts:93-99 | on a lattice the first point is column 0, row 0 and the last is the last column's last row |
| DotGrid.YFirstOnGrid | src/app/components/generative/RenderAlgos/DotGridAlgo.ts:96-97 | on a lattice `yFirstPoint` as written is column 0, row 0 and the intended one column 0, last row; they differ whenever there are two rows or more |
| DotGrid.PerimeterOnGrid | src/app/components/generative/RenderAlgos/DotGridAlgo.ts:93-104 | on a lattice, the rectangle starts at the first point and spans `columns - 1` by `rows - 1` grid spacings |
| Compositor.MaxLayersFrom | src/app/components/generative/container/container.component.ts:325 | the `Math.max` reduce bounds every layer count, is at least its seed, and equals the seed or some generator's layer count |
| Compositor.HighestLayerIndex | src/app/components/generative/container/container.component.ts:325 | the highest layer count bounds all and is reached, and is 0 for an empty list |
| Compositor.RenderGenerators | src/app/components/generative/container/container.component.ts:320-342 | the compositing loop leaves the depth where it found it and fires layer `i` callbacks at depth `(i + 1) * distanceBetweenLayers`, layer by layer |
| Compositor.FireLayer | src/app/components/generative/container/container.component.ts:335-336 | the inner `forEach` fires layer `i` of each generator that has one, in array order |
| Compositor.RenderTrace | src/app/components/generative/container/container.component.ts:328-341 | lifting by `distanceBetweenLayers` around the passes moves nothing and places every layer one step higher |
| Compositor.Bracketed | src/app/components/generative/container/container.component.ts:332-338 | a translation and its undo around a trace leave no net translation and shift every mark by the lift |
| Compositor.CallsStayAtDepth | src/app/components/generative/container/container.component.ts:336 | callbacks do not translate, so they are all placed at the depth they start at |
| Compositor.LayerCallsShape | src/app/components/generative/container/container.component.ts:335-336 | the callbacks of one pass are layer `i` of generators that have one, in ascending array order, and each such generator's callback is there |
| Compositor.PassShape | src/app/components/generative/container/container.component.ts:331-339 | a pass moves nothing and draws layer `i` at `i * distanceBetweenLayers` above where it starts |
| Compositor.PassesPlaceLayers | src/app/components/generative/container/container.component.ts:331-339 | the passes for layers below `n` end where they started and draw each layer at its depth |
| Compositor.LayeredCallsPlaced | src/app/components/generative/container/container.component.ts:328-339 | every callback fired is a layer its generator has, at depth `(layer + 1) * distanceBetweenLayers` |
| Compositor.OneLayerSorted | src/app/components/generative/container/container.component.ts:335-336 | within a pass, the callbacks fire in array order and all belong to that pass's layer |
| Compositor.LayerMajorOrder | src/app/components/generative/container/container.component.ts:331-339 | every generator's layer `i` fires, in array order, before any generator's layer `i + 1` |
| Compositor.LayeredCallsComplete | src/app/components/generative/container/container.component.ts:331-336 | layer `i` of generator `k` fires exactly when `i` is below the pass count and the generator has that layer |
| Compositor.LayeredCallsLength | src/app/components/generative/container/container.component.ts:331-336 | the callbacks fired are as many as the passes' callbacks together |
| Compositor.CallCountOfLast | src/app/components/generative/container/container.component.ts:335-336 | the last generator adds one callback to each pass it has a layer for |
| Compositor.CallCountIsCapped | src/app/components/generative/container/container.component.ts:331-336 | the passes below `n` fire each generator's layer count cut off at `n` |
| Compositor.CapAboveAll | src/app/components/generative/container/container.component.ts:325 | a cut-off at or above every layer count cuts nothing off |
| Compositor.EveryLayerFiresOnce | src/app/components/generative/container/container.component.ts:325-336 | as many callbacks fire as all generators have layers, since a generator lacking a layer is skipped; an empty list fires none |
| Container.ConstantsAreFrameCounts | src/app/components/generative/container/container.component.ts:415-443 | 30 emissions per mover, 8 per flicker, 300 per window at 60 fps, and four units between layers |
| Container.DrawLinesBetweenItems | src/app/components/generative/container/container.component.ts:364-412 | the nested `forEach` loops draw the lines of the pair enumeration |
| Container.LinesFromSize | src/app/components/generative/container/container.component.ts:372-373 | the inner loop over `upto` items draws `upto - 1` lines when it meets the item itself, else `upto` |
| Container.LinesFromShape | src/app/components/generative/container/container.component.ts:372-373 | the inner loop draws a line from its item to every other item below `upto`, and no other line, in index order |
| Container.LinesBeforeSize | src/app/components/generative/container/container.component.ts:367-373 | the first `upto` outer iterations draw `upto * (n - 1)` lines |
| Container.LinesBeforeShape | src/app/components/generative/container/container.component.ts:367-373 | the first `upto` outer iterations draw exactly the lines from an item below `upto` to a different item |
| Container.LinesBeforeOrder | src/app/components/generative/container/container.component.ts:367-373 | lines come ordered by start item, then by end item |
| Container.EveryOrderedPairOnce | src/app/components/generative/container/container.component.ts:367-373 | `n * (n - 1)` lines, one for every ordered pair of distinct items and each only once |
| Container.WindowPosition | src/app/components/generative/container/container.component.ts:440-445 | each emission has a position from 1 to 300 in its window |
| Container.MoverPositions | src/app/components/generative/container/container.component.ts:415-426 | movers fill at window positions 30, 60 and 90 exactly, none of which fills the flicker buffer |
| Container.FlickersUpTo | src/app/components/generative/container/container.component.ts:428-436 | up to window position `p`, `p / 8` flickers spawn |
| Container.MoversUpTo | src/app/components/generative/container/container.component.ts:415-426 | up to window position `p`, `min(p / 30, 3)` movers spawn |
| Container.SpawnsPerWindow | src/app/components/generative/container/container.component.ts:415-452 | a window spawns 3 movers and 37 flickers, none at its 300th emission |
| Container.WindowsRepeat | src/app/components/generative/container/container.component.ts:440-452 | every window spawns what the first does, at the same positions |
| Container.NextWindow | src/app/components/generative/container/container.component.ts:443-445 | 300 emissions later the window position is the same |
| Container.HooksFor | src/app/components/generative/container/container.component.ts:463 | one death hook per item of the batch, each requesting that item's removal |
| Container.BuildCoordinatesGrid | src/app/components/generative/container/container.component.ts:499-501 | 64 points with ids in `[0, 8)` |
| Container.Container.constructor | src/app/components/generative/container/container.component.ts:33-53 | no generators, clock 0, empty lattice |
| Container.Container.AddBatch | src/app/components/generative/container/container.component.ts:458-464 | the batch is appended at the end, in order, and each item gets a hook requesting its own removal; ignored after teardown |
| Container.Container.Emit | src/app/components/generative/container/container.component.ts:440-464 | the clock value is recorded and the item due at this emission, if any, is added as a batch of one |
| Container.Container.RebuildGrid | src/app/components/generative/container/container.component.ts:499-501 | the lattice is rebuilt around the new origin and nothing else changes |
| Container.Container.Destroy | src/app/components/generative/container/container.component.ts:503-507 | teardown changes no state but closes the subscriptions |
| Container.Spawned | src/app/components/generative/container/container.component.ts:440-452 | one item exactly when a spawn is due and the container is not torn down, an item born at the emission's clock value |
| GeneratedObjects.CameraZ | src/app/components/generative/mainCanvas/main-canvas/camera.service.ts:16-28 | the camera starts at z = 0 and every tick moves it by -1/50, so its z is never positive |
| GeneratedObjects.CameraRecedes | src/app/components/generative/mainCanvas/main-canvas/camera.service.ts:20-28 | the camera's z never increases from one tick to a later one |
| GeneratedObjects.CullKeepsWhatIsAbove | src/app/components/generative/mainCanvas/main-canvas/canvas-content/generated-objects/generated-objects.component.ts:84-86 | the cull keeps exactly the objects whose z is above the camera's, in their order |
| GeneratedObjects.CullIdempotent | src/app/components/generative/mainCanvas/main-canvas/canvas-content/generated-objects/generated-objects.component.ts:84-86 | culling twice at the same camera depth is culling once |
| GeneratedObjects.CullAfterCameraMoves | src/app/components/generative/mainCanvas/main-canvas/canvas-content/generated-objects/generated-objects.component.ts:84-86 | once the camera has moved towards -z, a later cull removes nothing an earlier cull kept |
| GeneratedObjects.NothingPushedIsCulled | src/app/components/generative/mainCanvas/main-canvas/canvas-content/generated-objects/generated-objects.component.ts:35-86 | objects all above some camera depth survive every cull at that depth or below it |
| GeneratedObjects.FreshPairSurvivesCull | src/app/components/generative/mainCanvas/main-canvas/canvas-content/generated-objects/generated-objects.component.ts:35-64 | a pair appended for the camera's depth survives a cull there |
| GeneratedObjects.PairSurvivesLaterCulls | src/app/components/generative/mainCanvas/main-canvas/canvas-content/generated-objects/generated-objects.component.ts:31-86 | a pair pushed at some tick survives the cull of every later tick, so the cull never shortens what the beats pushed |
| GeneratedObjects.GeneratedObjectsComponent.constructor | src/app/components/generative/mainCanvas/main-canvas/canvas-content/generated-objects/generated-objects.component.ts:16 | the scene list starts empty with an empty beat buffer |
| GeneratedObjects.GeneratedObjectsComponent.OnBeat | src/app/components/generative/mainCanvas/main-canvas/canvas-content/generated-objects/generated-objects.component.ts:26-73 | the eighth buffered beat appends the flat circle at height 1, then the dot grid at height 10, both 250 along z from the camera, leaving earlier objects unchanged; every rotation stays zero |
| GeneratedObjects.GeneratedObjectsComponent.OnTick | src/app/components/generative/mainCanvas/main-canvas/canvas-content/generated-objects/generated-objects.component.ts:76-90 | on a tick divisible by 500 the list becomes its cull, otherwise it is unchanged |
| GeneratedObjects.EightBeatsOnePair | src/app/components/generative/mainCanvas/main-canvas/canvas-content/generated-objects/generated-objects.component.ts:28 | any eight beats append exactly one pair and leave the buffer where it was |
| GeneratedObjects.BeatsFrom | src/app/components/generative/mainCanvas/main-canvas/canvas-content/generated-objects/generated-objects.component.ts:26-64 | after `n` beats the buffer advanced by `n` modulo 8 and one pair was appended per wrap-around |

## Left out

- Drawing itself is left out: p5 and three.js calls, painters, strokes, text, `drawShapeBetweenItems`, `moveCamera`, `defaultCamera`, `additionalRenderSteps` and the alpha flicker of `Utils.flicker`. Draw callbacks are tokens; a renderer's output is a trace of translations, marks and callback invocations.
- rxjs scheduling is not modelled. Each clock emission is one method call, in the order the subscriptions were made: the clock subscription, then the render pass, then the spawner.
- `Math.random()` draws are parameters. So is the result of `Utils.increaseUnitRandomly`, whose code is not part of this model.
- Floating-point numbers are exact reals. `Math.round` is `floor(x + 1/2)`.
- `MovementManager` is not part of this model. A generator records only the start, final point and duration its movement manager is built from; no interpolation is modelled.
- `addOnDeath` is not part of this model. A death registration is a `RequestRemoval` hook in a list beside the generators, and the hooks never fire: removing a generator is left out.
- `addGenerators`, `renderGenerators` (`container.component.ts:280`), `drawLinesBetweenItems` (`:276`) and the lattice rebuild (`:216`) are reached only from commented-out code in `container.component.ts`. They are modelled as if they were subscribed or called. The spawn windows are counted from the clock subscription's first emission, and items are born at the clock value that subscription has just recorded.
- The `otherCircles` argument of the item builders is unused by them, so the model does not take it.
- The scene-list methods take the camera's z as a parameter.
- `GeneratedObjects.CameraZ`, `GeneratedObjects.CameraRecedes` and `GeneratedObjects.PairSurvivesLaterCulls` rest on three readings:
  - The component reads `cameraService.options.position`, but `CameraService` defines only `options$`. The model reads it as `options$.value`.
  - `Models.ObjectTypes` is not defined in `Models.ts`, so the object types are taken from the names `FLAT_CIRCLE` and `DOTGRID`.
  - The tick stream replays its current value when the camera service subscribes, so the camera moves once at construction. `CameraZ` counts deliveries, not counter values, and that offset is not modelled. Neither is the order of the camera's and the component's tick subscriptions.
- `ConstantsService`'s beat stream is not part of this model: `constants.service.ts` defines only the tick counter, and `OnBeat` stands for one beat emission.
- The three-argument `LifetimeManager` constructor the render algorithms call is not part of this model. Its lifetimes are a chosen reading: born at the current clock value.
- MIDI, OSC and WebSocket I/O, Angular modules and components without logic, and the other snapshots of the scene (cube, object dot grid) are not part of this model.

## Findings

| source | as written | input that shows it | evidently intended | confidence | as-written member | corrected member |
|---|---|---|---|---|---|---|
| src/app/components/generative/RenderAlgos/DotGridAlgo.ts:97 (and RenderAlgorithms.ts:97) | `yFirstPoint` reduces with `curr.yId > curr.yId`, which is never true, so it is always `points[0]` | the 2 by 2 lattice of `createCoordinatesGrid(2, 2, …)`: the result is column 0, row 0 instead of column 0, row 1 | compare with the accumulator, `curr.yId > acc.yId`: the point of the first column with the largest `yId` | not executed | DotGrid.YFirstOnGrid | DotGrid.YFirstIsColumnMax |
| src/app/components/generative/container/LifetimeManager.ts:30-34 | the relay from `destroy$` into `kill$` is piped through `takeUntil(merge(destroy$, kill$))`, whose notifier subscribes to `destroy$` before the relay does, so every teardown closes the relay before it runs | a manager built at clock 0 with 144 frames of life, then one `destroy$` emission: `kill$` emits nothing | the teardown relays into `kill$` once, as `DestroyAsIntended` does | not executed | Lifetime.DestroyRelayNeverFires | Lifetime.IntendedRelayFires |

The grid delimiter (`DotGrid.GridExtremes`) uses `yFirstPoint` as written. The perimeter does not read it, so the rectangle is the same either way.

`LifetimeManager.Destroy` models the relay as subscribed; `LifetimeManager.DestroyAsIntended` is the corrected teardown. Nothing else in the model calls either.
