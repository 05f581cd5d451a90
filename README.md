# Pallet packing engine

A model of the packing engine behind a 3D pallet visualiser. Boxes (width × depth × height, in
centimetres) are put on an 80 × 120 cm pallet whose board is 5 cm thick. Everything sits under
an absolute top of 180 cm. The engine keeps three pieces of state:

- an ordered list of **layers**, each with a base elevation, a height and a list of free plan
  rectangles;
- the ordered list of **placed boxes**;
- a FIFO **placement queue**.

Two iterations of the algorithm exist, and both are modelled over the same layer ledger:

- **Minimal engine** (`poc/palettePOC.clean.js`). Layers are scanned oldest first and free
  rectangles in list order. The item goes at the min corner of the first rectangle big enough
  for it. That rectangle is replaced, at the same index, by its bottom and right residuals.
- **Support-aware engine** (`poc/palettePOC.js`). Inside every rectangle big enough, candidate
  min corners are scanned on a grid, x-major. The first one accepted by the support evaluator
  is taken. The evaluator accepts when the highest support under the footprint is exactly the
  layer base, at least the threshold fraction of the footprint is supported, and the centre
  lies over a support rectangle. The rectangle is replaced by up to four strips. Every box is
  then snapped down onto the highest support beneath it.

In both engines, when nothing fits a new layer opens at the stack top if the height allows.

The batch driver is shared. It validates the raw request list, sorts the valid items (items
with a side equal to the pallet width first, then by plan area descending, stably), and tries
each item as given, then turned a quarter. Each unplaced item becomes a no-room failure. On top
of the driver sit the interactive operations: add one item, add a list, remove a box (which
replays the others from an empty pallet), clear, load the queue and place its head. The minimal
engine also has a dry-run simulation on a copy of the layers.

Units and arithmetic:

- Coordinates, elevations and rectangle extents are integers in quarter-centimetres. The
  source's metres become exact integers, a centre `min + w/2` and a grid step `w/4` are exact,
  and every `1e-9` tolerance becomes an exact comparison.
- Item extents are whole centimetres, as the request lists carry them.
- The support fraction is a `real`.

Files:

| file | module | models |
|---|---|---|
| `pallet.dfy` | `Pallet` | constants, units, plan rectangles, boxes |
| `ledger.dfy` | `Ledger` | layers, new layer, stack top, two-way split, new-layer fallback, free-space soundness |
| `guillotine.dfy` | `Guillotine` | first-fit placement of the minimal engine |
| `support.dfy` | `Support` | `findSupportYUnder`, `centerInsideSupport` |
| `grid.dfy` | `Grid` | grid-anchored, support-checked placement, four-way split |
| `batch.dfy` | `Batch` | validation, normalisation, sort order, replay list of a removal |
| `driver.dfy` | `Driver` | the rotation fallback and the batch loop, for either engine |
| `minimal.dfy` | `Minimal` | operations and simulation of the minimal engine (`class Palette`) |
| `stacking.dfy` | `Stacking` | operations of the support-aware engine (`class Palette`), snapping, grounding |

Each placement search is written twice:

- an imperative method over a `LayerStack` object whose `layers` field it updates in place,
  with nested loops as in the source;
- a function on values that specifies it.

The method's `ensures` ties its result and new state to the function. The lemmas are about the
function.

## Model

| member | source | states |
|---|---|---|
| Ledger.CreateNewLayer | poc/palettePOC.clean.js:39-41 | a new layer has the given base and height and exactly one free rectangle; that rectangle is the whole 80 × 120 pallet centred on the origin |
| Ledger.CurrentTop | poc/palettePOC.clean.js:67 | the stack top is at least the pallet top, is at least every layer's top, and is the pallet top or some layer's top |
| Ledger.GuillotineSplit | poc/palettePOC.clean.js:54-57 | the bottom and right residuals of a corner placement; characterised by GuillotineSplitTiles and GuillotineSplitCovers (they tile the rectangle with the footprint) and SplitPalletSound |
| Ledger.GuillotineSplitTiles | poc/palettePOC.clean.js:54-60 | the corner footprint, the bottom strip and the right strip tile the consumed rectangle: they cover it exactly, do not overlap, are at most two and lie inside it |
| Ledger.GuillotineSplitCovers | poc/palettePOC.clean.js:54-60 | a cell of the consumed rectangle lies in the corner footprint or in a residual strip, and only then |
| Ledger.OpenLayer | poc/palettePOC.clean.js:66-82 | the new-layer fallback; characterised by OpenLayerSpec (when it fails and what it appends) and OpenLayerSound |
| Ledger.OpenLayerSpec | poc/palettePOC.clean.js:65-82 | the new-layer fallback fails exactly when the stack top plus the item height exceeds 180 cm, and then leaves the layers unchanged; otherwise it appends exactly one layer, based at the stack top with the item's height and the split pallet as free space, and reports that layer's index and the corner position |
| Ledger.OpenNewLayer | poc/palettePOC.clean.js:66-82 | the in-place fallback returns the position and leaves the layers that OpenLayer gives |
| Ledger.ReplaceSound | poc/palettePOC.clean.js:57-60 | replacing rectangle ri in place by disjoint pieces inside it keeps a layer's free rectangles on the pallet and mutually disjoint |
| Ledger.SplitPalletSound | poc/palettePOC.clean.js:69-80 | the free rectangles of a new layer are on the pallet and disjoint, for an item within the pallet's extents |
| Ledger.StartSound | poc/palettePOC.clean.js:42 | the start-up ledger, one empty layer on the pallet top, is sound |
| Ledger.OpenLayerSound | poc/palettePOC.clean.js:66-82 | the fallback keeps every layer's free space sound, for an item within the pallet's extents or too tall to open a layer |
| Ledger.LayerStack.constructor | poc/palettePOC.clean.js:32-33 | the layer list holds the given layers |
| Guillotine.FirstFitIn | poc/palettePOC.clean.js:49-50 | a found index is at or after the start and names a rectangle that holds the footprint |
| Guillotine.FirstFit | poc/palettePOC.clean.js:46-50 | a found (layer, rectangle) pair exists and its rectangle holds the footprint |
| Guillotine.FirstFitInSpec | poc/palettePOC.clean.js:49-50 | nothing is found exactly when no rectangle from the start on fits; every rectangle skipped is too small |
| Guillotine.FirstFitFromSpec | poc/palettePOC.clean.js:46-50 | nothing is found exactly when no rectangle of any layer from li on fits; every rectangle skipped is too small |
| Guillotine.FirstFitSpec | poc/palettePOC.clean.js:46-64 | the scan finds nothing exactly when no rectangle fits, and it finds (li, ri) exactly when that rectangle is the first fit in layer-then-list order |
| Guillotine.Place | poc/palettePOC.clean.js:45-83 | the minimal engine's attempt; characterised by FirstFitSpec (which rectangle is used), PlaceFirstFit (position and new layer at a fit), PlaceNoFit (the fallback otherwise), PlaceFails and PlaceSound |
| Guillotine.PlaceFirstFit | poc/palettePOC.clean.js:50-62 | at the first fit the item is centred at the rectangle's min corner plus half its extents, on the layer base, with that layer index; only that layer changes; the rectangle is replaced at its index by its residuals and the height becomes max(height, h) |
| Guillotine.PlaceNoFit | poc/palettePOC.clean.js:65-82 | with no fitting rectangle the attempt is exactly the new-layer fallback |
| Guillotine.PlaceFails | poc/palettePOC.clean.js:46-68 | an attempt fails exactly when no rectangle fits and the item is too tall for a new layer; a failed attempt leaves the layers unchanged |
| Guillotine.PlaceSound | poc/palettePOC.clean.js:46-82 | a placement keeps every layer's free rectangles on the pallet and mutually disjoint, for non-negative extents within the pallet's or an item too tall to open a layer |
| Guillotine.SpliceResiduals | poc/palettePOC.clean.js:57-60 | the three splices leave the list with rectangle ri replaced by the bottom residual followed by the right residual |
| Guillotine.FindPlacementInLayers | poc/palettePOC.clean.js:45-82 | the nested loops return the position, and leave the layers, that Place specifies |
| Support.HighestTop | poc/palettePOC.js:146-165 | the highest support is never below the pallet top; what it is, is stated by HighestTopSpec |
| Support.HighestTopSpec | poc/palettePOC.js:146-165 | no box overlapping the footprint rises above the highest support, which is the pallet top or the top of an overlapping box |
| Support.SupportArea | poc/palettePOC.js:173-194 | the summed overlap area is non-negative; SupportAreaIsArea states that it is the area of the support rectangles |
| Support.SupportYIsHighest | poc/palettePOC.js:135-170 | supportY is at least the pallet top, at least the top of every box that overlaps the footprint with positive extent on both axes, and equal to the pallet top or to such a top |
| Support.SupportUnder | poc/palettePOC.js:135-198 | the support evaluator; characterised by SupportYIsHighest, BarePallet, SupportFractionBounds, SupportFractionIsArea and SupportRectsInFootprint |
| Support.BarePallet | poc/palettePOC.js:167-170 | with no overlapping box, support is at the pallet top, the fraction is 1, and the only support rectangle is the footprint |
| Support.SupportAreaIsArea | poc/palettePOC.js:188-192 | the accumulated overlap area is the summed area of the collected support rectangles |
| Support.SupportRectsOf | poc/palettePOC.js:173-194 | the support rectangles at one elevation, in box order; characterised by SupportRectsOfSpec and SupportAreaIsArea |
| Support.SupportRectsOfSpec | poc/palettePOC.js:175-194 | every collected rectangle lies in the footprint, has positive extent, and is the footprint's intersection with a box whose top is exactly the support elevation |
| Support.SupportFractionBounds | poc/palettePOC.js:196 | the support fraction lies in [0, 1] |
| Support.SupportFractionIsArea | poc/palettePOC.js:172-197 | off the bare pallet, the fraction is min(1, area of the support rectangles / max(1e-12 m², footprint area)) |
| Support.SupportRectsInFootprint | poc/palettePOC.js:167-197 | every support rectangle lies inside the footprint; off the bare pallet each is the intersection with a box at the support elevation |
| Support.CenterInsideSupport | poc/palettePOC.js:200-206 | true exactly when the point lies in some support rectangle, bounds included; false for an empty list |
| Support.BoxOverlap | poc/palettePOC.js:150-160 | the clamped overlap extents of the footprint and a box, and the box's min corner |
| Support.ScanHighestTop | poc/palettePOC.js:146-165 | the first loop computes HighestTop |
| Support.CollectSupport | poc/palettePOC.js:173-194 | the second loop computes the overlap area and the support rectangles, in box order |
| Support.FindSupportYUnder | poc/palettePOC.js:135-198 | the evaluator returns SupportUnder: the bare-pallet case, or the highest top, the clamped fraction and the support rectangles |
| Grid.StepFor | poc/palettePOC.js:63-64 | the grid step max(w/4, 2 cm) is at least 2 cm and at least a quarter of the extent |
| Grid.AnchorX | poc/palettePOC.js:66 | every x anchor is at or after the rectangle's min x |
| Grid.AnchorZ | poc/palettePOC.js:67 | every z anchor is at or after the rectangle's min z |
| Grid.AnchorXMono | poc/palettePOC.js:66 | x anchors advance by at least 2 cm per step (the x loop terminates) |
| Grid.AnchorZMono | poc/palettePOC.js:67 | z anchors advance by at least 2 cm per step (the z loop terminates) |
| Grid.ScanZ | poc/palettePOC.js:67-74 | a found z index is in range and accepted |
| Grid.ScanX | poc/palettePOC.js:66-74 | a found anchor is in range on both axes and accepted |
| Grid.ScanRects | poc/palettePOC.js:54-74 | a found (rectangle, anchor) holds the footprint, is in range and accepted |
| Grid.ScanLayers | poc/palettePOC.js:52-74 | a found (layer, rectangle, anchor) is a candidate |
| Grid.ScanZSpec | poc/palettePOC.js:67-74 | with nothing found no in-range z anchor is accepted; every z anchor skipped is rejected |
| Grid.ScanXSpec | poc/palettePOC.js:66-74 | with nothing found no in-range anchor is accepted; every anchor skipped in x-major order is rejected |
| Grid.ScanRectsSpec | poc/palettePOC.js:54-74 | with nothing found no rectangle from ri on has a candidate; otherwise none precedes the one found |
| Grid.ScanLayersSpec | poc/palettePOC.js:52-74 | with nothing found no layer from li on has a candidate; otherwise none precedes the one found |
| Grid.ScanSpec | poc/palettePOC.js:52-101 | the scan finds nothing exactly when no anchor is accepted anywhere, and it finds (li, ri, i, j) exactly when that is the first accepted anchor in layer, rectangle, x, z order |
| Grid.FirstCandidateFound | poc/palettePOC.js:52-97 | the first accepted anchor is the one the scan returns |
| Grid.AnchorInside | poc/palettePOC.js:66-67 | an in-range anchor keeps the footprint inside its rectangle |
| Grid.FourWaySplit | poc/palettePOC.js:82-92 | the up to four strips around a placed footprint; characterised by FourWaySplitParts, FourWaySplitDisjoint, FourWaySplitCovers and FourWaySplitTiles |
| Grid.FourWaySplitParts | poc/palettePOC.js:82-92 | the split is the left, right, top and bottom strips in that order, each kept only when non-empty |
| Grid.FourWaySplitDisjoint | poc/palettePOC.js:82-92 | the strips are pairwise disjoint, do not overlap the footprint, lie in the rectangle, and are non-empty when it is |
| Grid.FourWaySplitPairwise | poc/palettePOC.js:82-92 | no two of the four strips overlap |
| Grid.FourWaySplitPieces | poc/palettePOC.js:82-92 | no strip overlaps the footprint, every strip lies in the rectangle, and every strip has positive extent when the rectangle has positive depth |
| Grid.FourWaySplitCovers | poc/palettePOC.js:82-92 | footprint and strips together cover exactly the cells of the rectangle |
| Grid.FourWaySplitTiles | poc/palettePOC.js:82-95 | footprint and strips tile the rectangle, lie in it, and are at most four |
| Grid.PlaceAt | poc/palettePOC.js:76-97 | placement at one anchor; characterised by PlaceAccepted and PlaceAtLayers |
| Grid.PlaceBy | poc/palettePOC.js:48-120 | the attempt for any acceptance test; characterised by ScanSpec with PlaceByFound (at the first accepted anchor), PlaceAccepted and PlaceNoCandidate (the fallback otherwise) |
| Grid.Place | poc/palettePOC.js:48-120 | the support-aware engine's attempt, PlaceBy with the support test; characterised by CandidateAccepted, PlaceAccepted, PlaceNoCandidate, PlaceFails and PlaceSound |
| Grid.PlaceAccepted | poc/palettePOC.js:52-97 | for any acceptance test (the engine's is the support test), at the first accepted anchor the item is centred over the anchor's footprint on the layer base; only that layer changes, with the rectangle replaced at its index by the strips and height max(height, h) |
| Grid.PlaceByFound | poc/palettePOC.js:52-97 | when the scan finds an anchor, the attempt is placement at that anchor |
| Grid.CandidateAccepted | poc/palettePOC.js:62-80 | an accepted anchor keeps the footprint inside its rectangle, its support exactly at the layer base, at least the threshold fraction supported and its centre over a support rectangle |
| Grid.PlaceAtLayers | poc/palettePOC.js:94-96 | placing at an anchor keeps the number of layers and changes no layer but the chosen one |
| Grid.PlaceNoCandidate | poc/palettePOC.js:103-119 | with no accepted anchor the attempt is exactly the new-layer fallback |
| Grid.PlaceFails | poc/palettePOC.js:52-105 | an attempt fails exactly when no anchor is accepted and the item is too tall for a new layer; a failed attempt leaves the layers unchanged |
| Grid.PlaceSound | poc/palettePOC.js:48-119 | a placement keeps every layer's free rectangles on the pallet and mutually disjoint, for non-negative extents within the pallet's or an item too tall to open a layer |
| Grid.AnchorAccepted | poc/palettePOC.js:68-74 | the three tests of one anchor compute Accepts |
| Grid.ScanColumn | poc/palettePOC.js:67-98 | the pz loop finds an anchor exactly when ScanZ does, and the same one |
| Grid.ScanAnchors | poc/palettePOC.js:63-99 | the px loop around the pz loop finds an anchor exactly when ScanX does, and the same one |
| Grid.ScanLayerRects | poc/palettePOC.js:54-100 | the ri loop finds a rectangle and anchor exactly when ScanRects does, and the same ones |
| Grid.SpliceStrips | poc/palettePOC.js:77-95 | the strips replace rectangle ri in place |
| Grid.FindPlacementInLayers | poc/palettePOC.js:48-120 | the nested loops return the position, and leave the layers, that Place specifies |
| Batch.Validate | poc/palettePOC.clean.js:131-152 | an entry is invalid exactly when an extent is unparseable (checked first), too large exactly when all parse and one exceeds the pallet's, and otherwise accepted with its own index, extents and plan area w·d |
| Batch.ValidItems | poc/palettePOC.clean.js:131-152 | the accepted entries as items; characterised by ValidItemsSpec, ValidationCount and ValidationPartition |
| Batch.InputFailures | poc/palettePOC.clean.js:131-152 | the rejected entries as failures; characterised by InputFailuresSpec, ValidationCount and ValidationPartition |
| Batch.ValidItemsSpec | poc/palettePOC.clean.js:131-152 | every item is an accepted entry carrying its own index; items keep list order; every accepted entry yields an item |
| Batch.InputFailuresSpec | poc/palettePOC.clean.js:131-152 | every failure is a rejected entry with its own reason; failures keep list order; every rejected entry yields one |
| Batch.ValidationCount | poc/palettePOC.clean.js:131-152 | items plus input failures number exactly the entries |
| Batch.ValidationPartition | poc/palettePOC.clean.js:131-152 | validation partitions the list into items and failures, each in list order and each telling the truth about its entry |
| Batch.ValidateList | poc/palettePOC.clean.js:131-152 | the validation loop computes ValidItems and InputFailures |
| Batch.NormalizeListToItems | poc/palettePOC.clean.js:301-313 | normalisation yields exactly the valid items, in list order |
| Batch.Precedes | poc/palettePOC.clean.js:164-171 | the comparator: a full-width item before one that is not, otherwise larger plan area first; SortOrder states what it gives the sorted list |
| Batch.Insert | poc/palettePOC.clean.js:164-171 | one insertion step of the stable sort; characterised by InsertMembers, InsertSorted and InsertStable |
| Batch.SortItems | poc/palettePOC.clean.js:164-171 | the stable sort; characterised by SortItemsMembers, SortItemsSorted, SortItemsStable and SortItemsSpec |
| Batch.InsertMembers | poc/palettePOC.clean.js:164-171 | an insertion adds exactly one element to the multiset |
| Batch.SortedCons | poc/palettePOC.clean.js:164-171 | an item that nothing in a sorted list precedes can go first |
| Batch.StableCons | poc/palettePOC.clean.js:164-171 | an item earlier than every same-rank item of a stable list can go first |
| Batch.InsertSorted | poc/palettePOC.clean.js:164-171 | insertion keeps a list sorted |
| Batch.InsertStable | poc/palettePOC.clean.js:164-171 | inserting an item later than all others keeps a list stable |
| Batch.SortItemsMembers | poc/palettePOC.clean.js:164-171 | the sort is a permutation |
| Batch.SortItemsSorted | poc/palettePOC.clean.js:164-171 | the sort's output is ordered by the comparator |
| Batch.SortItemsStable | poc/palettePOC.clean.js:164-171 | items of equal rank keep their list order |
| Batch.SortItemsBelow | poc/palettePOC.clean.js:164-171 | an upper bound on the request-list indices of the input bounds those of the sorted output |
| Batch.SortItemsSpec | poc/palettePOC.clean.js:164-171 | the sort is a stable, ordered permutation |
| Batch.SortOrder | poc/palettePOC.clean.js:164-171 | full-width items come first, and plan area never increases within each class; with area alone, as the simulation sorts at line 248, plan area never increases |
| Batch.Remaining | poc/palettePOC.clean.js:261-266 | the replay list has one entry fewer, holding every other box's placed extents in order |
| Batch.RemainingRequests | poc/palettePOC.clean.js:261-266 | the loop computes Remaining |
| Driver.TryBoth | poc/palettePOC.clean.js:175-181 | the attempt as given, then turned; characterised for each engine by Minimal.TryBothSpec and Stacking.TryBothSpec |
| Driver.Step | poc/palettePOC.clean.js:173-197 | one iteration of the batch loop; characterised by StepBy |
| Driver.Run | poc/palettePOC.clean.js:173-197 | the batch loop; characterised by RunSnoc, RunKeeps, RunFailures, RunBoxes and RunSound |
| Driver.RunSnoc | poc/palettePOC.clean.js:173-197 | one more item of the order is one more step |
| Driver.StepBy | poc/palettePOC.clean.js:173-197 | a step with a failed attempt records one no-room failure and keeps the boxes; a step with a successful attempt appends the engine's box for the item in the orientation used and keeps the failures |
| Driver.RunKeeps | poc/palettePOC.clean.js:173-197 | a batch keeps the boxes and failures it began with, as a prefix, and adds exactly one box or one failure per item |
| Driver.RunFailures | poc/palettePOC.clean.js:182-185 | every failure a batch adds is a no-room failure naming an item of the order |
| Driver.RunBoxes | poc/palettePOC.clean.js:186-194 | every box a batch adds has its item's plan extents, possibly swapped, and its height |
| Driver.AddAllAccounting | poc/palettePOC.clean.js:122-197 | every entry ends as exactly one new box, placement failure or input failure; earlier boxes stay in order; every placement failure names a valid entry |
| Driver.AddAll | poc/palettePOC.clean.js:122-197 | addObjects on its state; characterised by AddAllAccounting, AddAllTwice and AddAllSound |
| Driver.AddAllTwice | poc/palettePOC.js:419-435 | adding one list twice in a row, as the list button of the support-aware engine does: the first pass's boxes stay, in order, and every entry is counted once per pass |
| Driver.RunSound | poc/palettePOC.clean.js:173-197 | a batch of placeable items on an engine that keeps the free space sound keeps it sound |
| Driver.AddAllSound | poc/palettePOC.clean.js:122-197 | addObjects on such an engine with non-negative plan extents keeps every layer's free rectangles on the pallet and disjoint |
| Driver.AddAllSoundFromStart | poc/palettePOC.clean.js:122-197 | from start-up (one empty layer, line 42), addObjects on such an engine with non-negative plan extents keeps every layer's free space sound |
| Minimal.MinimalPlace | poc/palettePOC.clean.js:85 | findPlacement on the live layers, as a Placer; characterised by Guillotine's lemmas and MinimalKeepsSound |
| Minimal.OnLayerBase | poc/palettePOC.clean.js:193-194 | a minimal-engine box has its bottom on the layer base, its top h higher, the placed footprint and the placed extents |
| Minimal.TryBothSpec | poc/palettePOC.clean.js:173-185 | the item is turned only when the given orientation fails and the turned one succeeds; it fails exactly when neither orientation fits and it is too tall for a new layer, and then the layers are unchanged |
| Minimal.TryBothSound | poc/palettePOC.clean.js:175-181 | both orientations of a placeable item keep the free space sound |
| Minimal.MinimalKeepsSound | poc/palettePOC.clean.js:175-181 | the minimal engine keeps the free space sound |
| Minimal.MinimalBoxes | poc/palettePOC.clean.js:186-196 | every box a batch adds has its item's extents, plan extents possibly swapped |
| Minimal.Simulate | poc/palettePOC.clean.js:249-256 | the dry-run loop on a copy of the layers; characterised by SimulateSteps, SimulateRun and SimulateAgrees |
| Minimal.SimulateSteps | poc/palettePOC.clean.js:249-256 | the simulation reports one step per item, in order, each naming its item's request-list index |
| Minimal.SimulateRun | poc/palettePOC.clean.js:249-256 | for any attempt that does not consult the boxes, the simulation on a layers-only copy ends on the batch's layers, and its unplaced steps are exactly the batch's failures |
| Minimal.SimulateAgrees | poc/palettePOC.clean.js:249-256 | on the same order, the simulation ends on the layers the batch ends on, reports one step per item in order, and its unplaced steps are exactly the batch's failures |
| Minimal.TryPlace | poc/palettePOC.clean.js:175-181 | the two in-place attempts give TryBoth's position, rotation and layers |
| Minimal.CloneLayers | poc/palettePOC.clean.js:234-236 | the copy is a new object with the same layers |
| Minimal.Palette.constructor | poc/palettePOC.clean.js:32-44 | start-up: no boxes, an empty queue, one empty layer on the pallet top |
| Minimal.Palette.AddObject | poc/palettePOC.clean.js:109-119 | one item, not turned: on success its box, resting on the layer base, is appended; the layers become Place's |
| Minimal.Palette.AddObjects | poc/palettePOC.clean.js:122-197 | boxes, layers and reported failures are AddAll's; the queue is untouched |
| Minimal.Palette.PlaceItem | poc/palettePOC.clean.js:173-197 | one loop iteration is one Step |
| Minimal.Palette.SimulatePlacement | poc/palettePOC.clean.js:238-257 | the steps are those of the valid entries sorted by area alone, on a copy; nothing of the palette changes |
| Minimal.Palette.RemoveObject | poc/palettePOC.clean.js:259-269 | out of range nothing changes; otherwise boxes and layers are those of replaying the other boxes from one fresh layer |
| Minimal.Palette.ClearAll | poc/palettePOC.clean.js:271 | no boxes and one fresh layer remain; the queue stays |
| Minimal.Palette.LoadQueue | poc/palettePOC.clean.js:315-325 | the queue becomes the valid entries, in list order |
| Minimal.Palette.PlaceNextFromQueue | poc/palettePOC.clean.js:327-357 | an empty queue changes nothing; otherwise exactly the head leaves the queue, placed or not, and is placed as one batch step would place it |
| Stacking.SupportPlace | poc/palettePOC.js:122 | findPlacement on the live layers with a given threshold, as a Placer; characterised by Grid's lemmas and SupportKeepsSound |
| Stacking.TryBothSpec | poc/palettePOC.js:356-368 | the item is turned only when the given orientation fails and the turned one succeeds; it fails exactly when no anchor accepts it either way and it is too tall for a new layer, and then the layers are unchanged |
| Stacking.TryBothSound | poc/palettePOC.js:358-364 | both orientations of a placeable item keep the free space sound |
| Stacking.SupportKeepsSound | poc/palettePOC.js:358-364 | the support-aware engine keeps the free space sound, whatever the threshold |
| Stacking.Snapped | poc/palettePOC.js:376-379 | a committed box's bottom is the support under its final footprint among the boxes already placed, its top h higher, with the placed extents |
| Stacking.RestsEach | poc/palettePOC.js:376-381 | all boxes resting, box by box: each rests on the support beneath it among the boxes before it |
| Stacking.RestsAt | poc/palettePOC.js:376-381 | when all boxes rest, box k rests on the highest top beneath its footprint among the boxes before it |
| Stacking.RestsSnoc | poc/palettePOC.js:376-381 | appending a snapped box keeps every box resting |
| Stacking.StepRests | poc/palettePOC.js:356-381 | a batch step with snapped boxes keeps every box resting, whatever the placement attempt |
| Stacking.RunRests | poc/palettePOC.js:356-382 | a batch with snapped boxes keeps every box resting |
| Stacking.GroundedEach | poc/palettePOC.js:376-378 | from resting box by box: no box floats and none sinks into an earlier overlapping one |
| Stacking.Grounded | poc/palettePOC.js:376-378 | with every box resting: each box sits on the pallet top or exactly on the top of an earlier box that overlaps it; no box starts below the top of an earlier overlapping box |
| Stacking.TryPlace | poc/palettePOC.js:358-364 | the two in-place attempts give TryBoth's position, rotation and layers |
| Stacking.ThresholdOf | poc/palettePOC.js:280-285 | a zero or unreadable reading sets 75 percent; a reading from 1 to 100 sets a fraction in [0.01, 1]; a reading above 100 sets a fraction above 1; any non-zero reading r sets r/100 |
| Stacking.SliderAdmitsBarePallet | poc/palettePOC.js:280-285 | every slider setting from 0 to 100 is met by a footprint over bare pallet, whose support is the pallet top |
| Stacking.OverfullThresholdOpensLayer | poc/palettePOC.js:70-73 | with a reading above 100 no anchor is accepted, so every attempt is the new-layer fallback |
| Stacking.Palette.constructor | poc/palettePOC.js:32-45 | start-up: no boxes, an empty queue, one empty layer on the pallet top, threshold 0.75; every box rests |
| Stacking.Palette.SetThreshold | poc/palettePOC.js:283-287 | the threshold becomes ThresholdOf(reading); boxes and queue stay |
| Stacking.Palette.AddObject | poc/palettePOC.js:220-232 | one item, not turned: on success its box, snapped onto its support, is appended; the layers become Place's; every box still rests |
| Stacking.Palette.AddObjectButton | poc/palettePOC.js:293-302 | an extent above the pallet's is refused and nothing changes; otherwise AddObject's result |
| Stacking.Palette.PlaceItem | poc/palettePOC.js:356-381 | one loop iteration is one Step with snapped boxes; every box still rests |
| Stacking.Palette.AddObjects | poc/palettePOC.js:305-382 | boxes, layers and reported failures are AddAll's with snapped boxes; every box still rests |
| Stacking.Palette.AddObjectsButton | poc/palettePOC.js:419-435 | both click handlers of the list button together (the other is at line 272): the list is added twice in a row, and both reports are those passes' |
| Stacking.Palette.RemoveObject | poc/palettePOC.js:257-267 | out of range nothing changes; otherwise boxes and layers are those of replaying the other boxes from one fresh layer; every box still rests |
| Stacking.Palette.ClearAll | poc/palettePOC.js:269 | no boxes and one fresh layer remain; the queue stays |
| Stacking.Palette.ClearButton | poc/palettePOC.js:509-526 | both click handlers of the clear button together: no boxes, one fresh layer, an empty queue |
| Stacking.Palette.LoadQueue | poc/palettePOC.js:459-470 | the queue becomes the valid entries, in list order |
| Stacking.Palette.PlaceNextFromQueue | poc/palettePOC.js:472-504 | an empty queue changes nothing; otherwise exactly the head leaves the queue, placed or not, and is placed as one batch step would place it; every box still rests |

## Left out

- Rendering, meshes, colours, the camera, alerts, the object list and the queue counter are left out. They do not affect the packing state. Failures are returned as data rather than shown.
- DOM wiring is left out except where it changes the packing state. In `poc/palettePOC.js` three buttons carry two click handlers each, and every handler runs on a click. The clear button is `Stacking.Palette.ClearButton`. The list button (line 272 and lines 419-435) calls `addObjects` twice on the same list, which is `Stacking.Palette.AddObjectsButton`.
- The test-file button of `poc/palettePOC.js` is left out with the network fetch it needs. It too has two handlers (line 274 and lines 529-544), and each calls `addObjects` on the fetched list, so a click has the effect of `Stacking.Palette.AddObjectsButton` on that list. The second handler alone refuses a list that is not an array.
- Loading `test.json` and `test_varied.json`, and `loadSolverPlacements`, are left out: they are network I/O, and the last decodes a foreign solver format.
- Parsing is left out. `JSON.parse` and `parseInt` are not modelled: a raw extent is `Option<int>`, with `None` for a value that is not a number. A list that is not an array is not modelled either.
- Floating point is left out. Extents are whole centimetres and positions are exact quarter-centimetres, so the cm/m conversion and the `Math.round(x*100)` round trip in removal are identities, and tolerances become exact comparisons.
- The threshold slider's DOM reading is left out. `Stacking.ThresholdOf` is the reading-to-threshold rule, and `Stacking.Palette.SetThreshold` applies it.
- The first `addObjects` of `poc/palettePOC.js` (lines 234-255) is left out. It is dead code, overridden by the declaration at line 305.
- The diagnostics handler inside `addObjects` is left out. In `poc/palettePOC.clean.js` (lines 207-230) it runs the batch order on a clone of the layers, which is `Minimal.Simulate` on that order, plus a console dump. In `poc/palettePOC.js` (lines 393-415) it calls a `cloneLayers` that file does not define.
- Minimal.Palette.SimulatePlacement: models only the entries that pass validation, so the promise of one step per input entry is not stated. The source also pushes every invalid or too-large entry into the simulated list without extents (poc/palettePOC.clean.js:244-245), sorts it with a comparator that then returns NaN, and tries to place it with NaN extents. That misbehaves in a definite way:
  - no free rectangle fits, because `r.w + 1e-9 >= NaN` is false (line 50);
  - the headroom test `currentTop + NaN > paletteMaxTop + 1e-9` is false (line 68), so a layer of NaN height with no free rectangles is pushed onto the copy (lines 69-81), and the entry is reported `placed: true`;
  - from then on the stack top is NaN, so the headroom test never fails again, and every later entry that fits no existing rectangle is also reported placed, on a new layer at a NaN base.
  Only where such an entry lands among the valid ones depends on how the sort treats a NaN comparison. The model has integer extents, so it has no such entry.
- Stacking.Palette.AddObjectButton: takes integer extents, so the NaN path is not modelled. An empty or non-numeric field parses to NaN, and `NaN > PALETTE_WIDTH` is false (poc/palettePOC.js:296), so `addObject` runs with it. With a NaN width or depth no anchor is scanned, and if the height allows, a new layer opens with no free rectangles and the box is put at a NaN position. With only a NaN height the item is always placed, on an anchor or on a new layer, and that layer's height, and so the stack top, becomes NaN.
- The support-aware engine has no simulation, because `poc/palettePOC.js` has no `simulatePlacement`.
- Free-space soundness is stated for each placement and for whole batches. It is not made an object invariant of either `Palette`. Validation accepts negative extents, and `addObject` accepts any extents, and with those a split can leave the pallet. `Driver.AddAllSound` therefore requires non-negative plan extents.
- No global non-interpenetration or maximum-height bound is claimed. Neither engine checks headroom when placing into an existing layer, so a tall item in a low layer can rise into the layers above. In the support-aware engine, `Stacking.Grounded` is the geometric guarantee instead: boxes neither float nor sink into earlier boxes beneath them.
- Aliasing between the live layers and a copy is not modelled: layers are values. `Minimal.CloneLayers` makes a new `LayerStack` object, and the simulation works only on that copy.
- Ties of the sort are broken as a stable sort breaks them, which is what the language the source is written in guarantees.
