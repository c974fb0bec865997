# Verified models of the display-list recorder, the migration scheduler and the porting order

Three parts of the repository are modelled in Dafny and proved against what they are for.

## The display list

`DisplayListBuilder` (engine/src/flutter/display_list/dl_builder.cc) compiles canvas calls into a
flat list of records, and `DisplayList` (display_list.cc) replays that list, whole or culled.

* `DisplayListBuilderSpec` gives every call as a function on the builder's state;
  `DisplayListBuilding.DisplayListBuilder` is the object, whose methods update its fields in place
  and are proved to do exactly what those functions do. Its `Valid()` says that its state is
  `Run(calls)` for the calls made since the last `Build`, so every theorem about runs is one about
  the object. The object's cached depth cost and opacity compatibility are proved to agree with the
  paint they cache.
* What the leaf functions mean, on the things they speak of: transforms on points, one by one and
  through the scopes of a whole run (`DisplayListTransforms`), attributes on the fields of the paint
  (`DisplayListAttributes`), the flag for a clip on the clips in force (`DisplayListClipScopes`), and
  cull boxes, bounds and r-tree entries as exactly the points that a call lets through, or the least
  box that holds them (`DisplayListTightness`).
* Theorems about the records of every run: nesting (`DisplayListNesting`), depth
  (`DisplayListDepth`), what layers say about their content (`DisplayListSummary`), r-tree
  bookkeeping (`DisplayListRTree`), deferred saves against an eager
  builder (`DisplayListDeferral`), and exactly how far recording is a fixpoint
  (`DisplayListFixpoint`).
* Theorems about pixels. `DisplayListCanvas` is a reference for what canvas calls mean, without a
  builder: exact clips as sets of points, layers that keep what was drawn into them, and filters
  that spread it on restore. A `Mark` says that a drawing may change a point. The builder is then
  related to that reference: the r-tree holds every point (`DisplayListVisibility`,
  `DisplayListLayers`), the records paint what the calls paint (`DisplayListFaithful`), and layers
  marked for opacity distribution hold one part per point (`DisplayListOpacity`,
  `DisplayListGroupOpacity`). `DisplayListMarking` has the other direction: which layers and lists
  must be marked, from an account of the rectangles that were added to them.
* Group opacity in pixels, over the blend equations of `DisplayListOpacityPixels`.
  `DisplayListPartPixels` renders one part through all the effects of its paint: colour source,
  colour filter, inversion, image filter and blend mode, where an effect is any function that
  commutes with opacity if it is said to. `DisplayListGroupPixels` then has what the mark is for: a
  marked layer drawn with an opacity looks like its parts drawn with it, if and only if no part that
  can be seen has an image filter that does not commute with opacity, and the layers and child lists
  among them share theirs.
* Culled dispatch: the r-tree is built and searched (`DisplayListTree`), the hits are turned into a
  balanced sub-list that draws every hit exactly as the full list does (`DisplayListCulling` and
  `DisplayListSelection`, against the replay of `DisplayListReplay`), and has no other marks on the
  canvas than the full list (`DisplayListCulledCanvas`). Joined with the pixel theorems: inside the
  query the culled list paints exactly what the calls paint (`DisplayListCulledDispatch`).
* `DisplayListPaint` and `DisplayListPaintEffects` compare the builder's blend tables with the
  equations of sections 9.1 and 10.1 of W3C Compositing and Blending Level 1, in both directions, and
  `DisplayListCompare` is the comparison of two lists.

Image filters enter as a record of bounds functions, with the contract
`DisplayListCanvas.SoundFilter`: where such a function answers, its answer holds every point the
filter can reach. The theorems about runs ask it only of the filters that the calls of the run set
(`DisplayListUsedFilters.FiltersAreSound`). `DisplayListFilters` decides it for the repository's own
kinds: colour filters, blurs and compositions of what keeps it do, dilations and erosions do not.

Matrices are the axis-aligned ones (scale and translate, over exact reals), rectangles cover their
interior, and nothing is drawn under a singular matrix. Layers hold points up to the builder's own
largest cull rectangle, ten to the ninth in every direction.

What the proofs found:

* `TransformReset` under a singular matrix makes the layer's own matrix singular
  (dl_builder.cc:916-921) although the matrix is the identity again. What would be seen is then not
  recorded, until a restore brings an invertible layer matrix back or a new layer starts with its
  own. For every run, `DisplayListResets.SeenDrawingIsKeptExactly`, `SeenListIsKeptExactly` and
  `SeenFloodIsKeptExactly` say when what can be seen is recorded: if and only if its entry is live
  and has an invertible layer matrix. `DisplayListLayers.RTreeHoldsKeptPixels` is the r-tree theorem
  for everything drawn there, in every run; `RTreeHoldsEveryPixel` has it for everything drawn, in
  runs that never reset a singular matrix (`DisplayListCanvas.ResetsInvertible`).
  `ResetLosesADrawing` is a concrete loss, and `ContentEscapesBounds` a concrete layer whose recorded
  bounds are empty although it shows something.
* `AccumulateUnbounded` marks its layer as unbounded before it finds out that there is nothing to
  flood (dl_builder.cc:1821-1828). The drawing is dropped and the mark stays, so replaying the list
  into a fresh builder can lose `content_is_unbounded`, and nothing else.
  `DisplayListFixpoint.RecordingIsAFixpoint` says for every run which records lose it, by keeping a
  debt for every open layer, and that the two builders end alike exactly when no debt is left;
  `LosingListIsNoFixpoint` is a concrete list.
* `DlPaint::getAlpha` rounds to eight bits, so a layer with an alpha below 1/510 is dropped although
  it could show, and one with mode kSrc counts as preserving transparency although it does not.
  `DisplayListPaint.NoEffectExactly` and `PreservesTransparencyExactly` have the exact conditions,
  `RoundedAlphaDropsAVisibleLayer` and `RoundedAlphaChangesTransparency` concrete layers. The first
  also shows that a white that modulates has an effect when its colours are inverted, and that an
  opaque colour source under kDstIn has one when the alpha of the paint fades it: the builder judges
  colour sources without that alpha (dl_builder.cc:1965-1967), which the renderer applies
  (impeller/display_list/paint.cc:84).
* A dilation asks for input bounds that are smaller than its output (dl_dilate_image_filter.cc:31-37),
  and an erosion maps the bounds of each drawing to smaller ones (dl_erode_image_filter.cc:24-29).
  Neither keeps the contract of filters, unless it does nothing:
  `DisplayListFilters.DilationNeedsMore` and `ErosionReachesFurther`.
  `DisplayListFilterRuns.DilationLosesADrawing` is a run whose visible drawing is not recorded, and
  `ErosionLosesAnEdge` one with a point between two drawings that the layer shows but the r-tree
  does not hold.
* The builder marks a layer for opacity distribution without asking whether the image filters of its
  parts commute with opacity (dl_builder.h:727-733), which the repository knows not all colour
  filters do (dl_matrix_color_filter.cc:35-58). `DisplayListFilterRuns.MarkedLayerDoesNotShare` is a
  run with such a layer and its two different pixels. `DisplayListGroupPixels.GroupOpacityExactly`
  and `ListOpacityExactly` say for every run exactly when a mark is right, and
  `CommutingRunsShareOpacity` that it is in runs that set only filters which commute.

## The migration scheduler

`MigrationQueue` has the queue and its tasks as objects, proved against `MigrationQueueSpec`.
`MigrationScheduler` is the protocol of the main loop, the workers, the result handler, the two
bounded channels and cancellation as interleaved steps, with an invariant of every reachable state.
`MigrationDispatch` shows that work is conserved: left alone, a pass of the main loop hands out the
first ready tasks until the pool is full or nothing is ready, and each finds an idle worker.
`MigrationLiveness` shows that no state is deadlocked and that every fair run ends. The caller
provides distinct task ids, at least one worker (config.go:77 enforces that) and, for termination,
acyclic dependencies and executions that return.

## The porting order

`PortingOrder`, `PortingArrival` and `PortingPlan` have `determinePortingOrder` on mutable file
objects, on top of a lemma about cycles in finite graphs (`FiniteGraph`). The result is determined:
after its dependencies, the simplest ready file first, of equally simple ones the one that was ready
first, and the files that a cycle holds back at the end in the order of the list.

## Model

| member | source | states |
|---|---|---|
| `DisplayListBuilding.DisplayListBuilder.constructor` | engine/src/flutter/display_list/dl_builder.cc:129-144 | a new builder is in the state of no calls, with every cached value right |
| `DisplayListBuilding.DisplayListBuilder.Push` | engine/src/flutter/display_list/dl_builder.cc:41-64 | one record more, the depth of its type times the cost in force, and the index in step with the storage |
| `DisplayListBuilding.DisplayListBuilder.CheckForDeferredSave` | engine/src/flutter/display_list/dl_builder.cc:388-396 | a deferred entry gets its save record now, with its offset and the depth at this point |
| `DisplayListBuilding.DisplayListBuilder.SetAttribute` | engine/src/flutter/display_list/dl_builder.cc:159-350 | only a changed attribute is recorded, and the cached depth cost and opacity compatibility stay those of the paint |
| `DisplayListBuilding.DisplayListBuilder.Transform` | engine/src/flutter/display_list/dl_builder.cc:806-925 | translations, scales and resets move the device matrix and the layer's own matrix, and force a deferred save |
| `DisplayListBuilding.DisplayListBuilder.ClipRect` | engine/src/flutter/display_list/dl_builder.cc:934-964 | dropped in a nop entry, skipped when it covers the cull box, a nop when it empties one, recorded otherwise |
| `DisplayListBuilding.DisplayListBuilder.AccumulateUnbounded` | engine/src/flutter/display_list/dl_builder.cc:1820-1838 | the clip becomes an r-tree entry and local bounds of the chosen layer, the unbounded mark is set first |
| `DisplayListBuilding.DisplayListBuilder.AccumulateBounds` | engine/src/flutter/display_list/dl_builder.cc:1849-1872 | both images inside the culls are added, or neither |
| `DisplayListBuilding.DisplayListBuilder.Draw` | engine/src/flutter/display_list/dl_builder.cc:1113-1120 | a drawing without effect or outside the clip adds no record; otherwise record, bounds, opacity and blend results together |
| `DisplayListBuilding.DisplayListBuilder.AccumulateRects` | engine/src/flutter/display_list/dl_builder.cc:1648-1657 | every rectangle of a child list is tried and one inside the clip is enough |
| `DisplayListBuilding.DisplayListBuilder.DrawDisplayList` | engine/src/flutter/display_list/dl_builder.cc:1631-1700 | a visible child list is recorded with its depth and what it means for the layer |
| `DisplayListBuilding.DisplayListBuilder.Save` | engine/src/flutter/display_list/dl_builder.cc:398-405 | a deferred copy of the current entry, nop state included, and no record |
| `DisplayListBuilding.DisplayListBuilder.SaveLayer` | engine/src/flutter/display_list/dl_builder.cc:407-541 | a layer without effect becomes a nop save; otherwise the outer layer is updated and flooded, and entry, layer and record are pushed |
| `DisplayListBuilding.DisplayListBuilder.RestoreLayer` | engine/src/flutter/display_list/dl_builder.cc:593-639 | the record of a closing layer is settled and the layer is merged into its parent |
| `DisplayListBuilding.DisplayListBuilder.TransferLayerBounds` | engine/src/flutter/display_list/dl_builder.cc:669-766 | local bounds go to the parent, r-tree entries go through the filter, and a filter without bounds floods the parent |
| `DisplayListBuilding.DisplayListBuilder.Restore` | engine/src/flutter/display_list/dl_builder.cc:563-591 | a surplus restore does nothing, a deferred entry is only popped, and any other save record is patched in place |
| `DisplayListBuilding.DisplayListBuilder.RestoreToCount` | engine/src/flutter/display_list/dl_builder.cc:799-804 | the loop restores down to the count and never below the root |
| `DisplayListBuilding.DisplayListBuilder.Build` | engine/src/flutter/display_list/dl_builder.cc:66-118 | the result is the list of all calls with every entry closed, and the builder starts afresh |
| `DisplayListNesting.BuiltListIsWellNested` | engine/src/flutter/display_list/dl_builder.cc:563-591 | for every call sequence the stream is well nested and each save record's restore index is its own restore |
| `DisplayListNesting.StepKeepsForm` | engine/src/flutter/display_list/dl_builder.cc:388-405 | every call keeps the open saves of the stream equal to the recorded entries of the stack, and one layer per save-layer entry |
| `DisplayListNesting.RestoreIsReady` | engine/src/flutter/display_list/dl_builder.cc:568-573 | the record a restore patches is always a save record of the right kind |
| `DisplayListTransforms.TransformMovesPoints` | engine/src/flutter/display_list/dl_builder.cc:806-925 | a translation adds its offsets to a point before the old matrix, a scale multiplies its coordinates, a reset leaves it where it is, on the device and in the layer; after a reset the layer takes a device point to where it took the point shown there |
| `DisplayListTransforms.TransformIsRecordedExactly` | engine/src/flutter/display_list/dl_builder.cc:806-821 | a transform is recorded if and only if it is a reset or moves some point; otherwise nothing changes |
| `DisplayListTransforms.RunPlacesPoints` | engine/src/flutter/display_list/dl_builder.cc:806-925 | in every run the builder and the canvas put each point where the transforms in force take it, one after the other, through the scopes of saves and restores |
| `DisplayListAttributes.AttributeIsRecordedExactly` | engine/src/flutter/display_list/dl_builder.h:268-344 | the field of the paint becomes the given value and all others stay; one record is added if and only if the field differed before |
| `DisplayListAttributes.LastSetterWins` | engine/src/flutter/display_list/dl_builder.cc:159-350 | in every run the paint of the builder and of the canvas holds for each attribute the value set last, whatever was saved, restored or drawn since |
| `DisplayListClipScopes.ClipIsValidExactly` | engine/src/flutter/display_list/dl_builder.cc:934-964 | in every run the current entry has a valid clip if and only if a clip was recorded since the innermost open layer began and not restored since |
| `DisplayListFaithful.ClipIsSkippedExactly` | engine/src/flutter/display_list/dl_builder.cc:941-945 | skipped are exactly the intersections, once a clip is in force, that let through every point of the cull box |
| `DisplayListTightness.ClipEndsEntryExactly` | engine/src/flutter/display_list/dl_builder.cc:946-954 | an entry is ended by exactly the clips that let no point of one of its two cull boxes through |
| `DisplayListTightness.StartIsDeadExactly` | engine/src/flutter/display_list/dl_builder.cc:129-144 | a list records nothing from the start if and only if nothing lies inside its cull rectangle |
| `DisplayListTightness.IntersectionIsExact` | engine/src/flutter/display_list/utils/dl_matrix_clip_tracker.cc:201-213 | the cull box after an intersection holds exactly the points of the old one that it lets through |
| `DisplayListTightness.DifferenceIsLeast` | engine/src/flutter/display_list/utils/dl_matrix_clip_tracker.cc:214-231 | the cull box after a difference is the least rectangle that holds the points that are left |
| `DisplayListTightness.MaskedBoundsAreExact` | engine/src/flutter/display_list/dl_builder.cc:1785-1816 | without an image filter the bounds of a drawing hold exactly the points that its mask filter spreads it to |
| `DisplayListTightness.BoxEntriesAreExact` | engine/src/flutter/display_list/dl_builder.cc:1849-1872 | bounds are added if and only if they show inside both culls, and the entry holds exactly the points that show on the device |
| `DisplayListTightness.DrawEntriesAreExact` | engine/src/flutter/display_list/dl_builder.cc:1113-1182 | a recorded drawing gets one entry under its own index, with exactly the image of its bounds inside the cull box, or all of the box if it floods; another one leaves the r-tree as it was |
| `DisplayListTightness.AdjustedEntriesAreExact` | engine/src/flutter/display_list/dl_builder.cc:777-793 | an entry moved by a filter holds exactly what the filter answers for it inside the clip |
| `DisplayListTightness.LayerEntriesAreExact` | engine/src/flutter/display_list/dl_builder.cc:473-516 | a new layer culls with exactly the points that its filter asks for inside the bounds of its caller, in a space of its own and without a clip |
| `DisplayListTightness.OwnPaintDecides` | engine/src/flutter/display_list/dl_builder.cc:1125-1131 | a drawing that brings its own paint is recorded, bounded and judged by that paint, whatever the current one is |
| `DisplayListTightness.CurrentPaintIsRead` | engine/src/flutter/display_list/dl_builder.cc:1172-1185 | one that brings none is treated as if it brought the current paint |
| `DisplayListTightness.LayersAreDroppedExactly` | engine/src/flutter/display_list/dl_builder.cc:411-427 | a layer is dropped if and only if it has a paint whose mode is kDst, or whose alpha is below 1/510 while transparent pixels of the layer change nothing |
| `DisplayListTightness.LayersAreRecordedExactly` | engine/src/flutter/display_list/dl_builder.cc:509-528 | a layer that is not dropped gets one record with the bounds, the paint use and the backdrop that its caller gave, which promises nothing yet |
| `DisplayListTightness.LayerFloodsExactly` | engine/src/flutter/display_list/dl_builder.cc:438-469 | a layer floods the clip of its parent if and only if it has a backdrop, or its paint changes pixels where nothing was drawn into it |
| `DisplayListDepth.BuiltDepthIsTheSum` | engine/src/flutter/display_list/dl_builder.cc:575-601 | the total depth, and the depth of every save's content, are the sums of what the records inside charge |
| `DisplayListDepth.InsideDepth` | engine/src/flutter/display_list/dl_builder.cc:575-576 | the depth since the record of the open entry is the sum strictly inside it |
| `DisplayListSummary.BuiltListIsSummarized` | engine/src/flutter/display_list/dl_builder.cc:617-622 | every layer's record, and the root of the list, hold the largest blend mode and the use of backdrop filters of exactly what was drawn straight into them; the root also whether transparent pixels may change |
| `DisplayListSummary.UpdatesNote` | engine/src/flutter/display_list/dl_builder.h:566-570 | updating a layer's flags is adding one drawing to its summary |
| `DisplayListRTree.AdjustInPlace` | engine/src/flutter/display_list/dl_builder.cc:768-797 | the in-place pass computes the adjusted list and reports a filter that could not bound some entry |
| `DisplayListRTree.AdjustIsFilterMap` | engine/src/flutter/display_list/dl_builder.cc:768-797 | the adjusted list is a stable filter-map of the suffix, with the prefix untouched |
| `DisplayListRTree.RunIsBookkept` | engine/src/flutter/display_list/dl_builder.cc:473-477 | in every run rectangles and indices are paired, indices are in order and name records that render, and layers start in order |
| `DisplayListDeferral.DeferredSavesShowAlike` | engine/src/flutter/display_list/dl_builder.cc:388-405 | every drawing is shown with the paint, transforms, clips and layers it has with a builder that records every save at once |
| `DisplayListDeferral.StepRefines` | engine/src/flutter/display_list/dl_builder.cc:563-591 | one call keeps the two builders in step, whichever of nested saves are triggered |
| `DisplayListScene.SceneIsReplay` | engine/src/flutter/display_list/display_list.cc:210-254 | the scene of a stream is its replay with plain saves out of sight |
| `DisplayListFixpoint.RecordingIsAFixpoint` | engine/src/flutter/display_list/dl_builder.h:268-344 | dispatching a built list into a fresh builder gives the same depth, r-tree entries and records, but for the unbounded marks of the layers that closed with a debt; the two builders end alike if and only if no layer did and the root has none |
| `DisplayListFixpoint.DropsFloodExactly` | engine/src/flutter/display_list/dl_builder.cc:1820-1828 | a dropped drawing or child list changes at most its layer's mark, and does so if and only if it floods where there is nothing to flood, with no clip in force, in a layer without the mark |
| `DisplayListFixpoint.FloodIsRecordedExactly` | engine/src/flutter/display_list/dl_builder.cc:1820-1838 | a flood is recorded if and only if there is something to flood |
| `DisplayListFixpoint.LosingListIsNoFixpoint` | engine/src/flutter/display_list/dl_builder.cc:1820-1828 | a concrete list whose layer loses the flag |
| `DisplayListFilters.ColoursAreSound` | engine/src/flutter/display_list/effects/image_filters/dl_color_filter_image_filter.cc:26-46 | filters that change colours only keep the contract of filters, whether they flood or not |
| `DisplayListFilters.BlursAreSound` | engine/src/flutter/display_list/effects/image_filters/dl_blur_image_filter.cc:29-42 | so do blurs of any radius, under every matrix, with device bounds rounded outwards |
| `DisplayListFilters.CompositionsAreSound` | engine/src/flutter/display_list/effects/image_filters/dl_compose_image_filter.cc:34-94 | so does the composition of two filters that do |
| `DisplayListFilters.TableIsSoundExactly` | engine/src/flutter/display_list/effects/dl_image_filter.cc:10-51 | of the filters that are not composed exactly the colour filters, the blurs and those that do nothing keep the contract |
| `DisplayListTightness.SpreadIsExact` | engine/src/flutter/display_list/effects/image_filters/dl_blur_image_filter.cc:23-27 | the local bounds of a blur or a dilation are exactly what it spreads a rectangle to |
| `DisplayListTightness.DeviceSpreadIsTight` | engine/src/flutter/display_list/effects/dl_image_filter.cc:10-51 | on the device they answer under every matrix that is not singular, and go further than that by less than a pixel |
| `DisplayListFilters.DilationNeedsMore` | engine/src/flutter/display_list/effects/image_filters/dl_dilate_image_filter.cc:31-37 | the input bounds of a dilation hold the input it needs if and only if it does nothing |
| `DisplayListFilters.ErosionReachesFurther` | engine/src/flutter/display_list/effects/image_filters/dl_erode_image_filter.cc:24-29 | the output bounds of an erosion hold all that its input may change if and only if it does nothing |
| `DisplayListFilterRuns.DilationLosesADrawing` | engine/src/flutter/display_list/dl_builder.cc:486-506 | a concrete run: a box that can be seen in a layer with a dilation, under a live entry, is not recorded |
| `DisplayListFilterRuns.ErosionLosesAnEdge` | engine/src/flutter/display_list/dl_builder.cc:768-797 | a concrete run: all that an erosion looks at around a point is covered, something can be seen there, and the r-tree does not hold it |
| `DisplayListUsedFilters.UsedFiltersDecide` | engine/src/flutter/display_list/dl_builder.cc:486-506 | what a run does to the canvas depends on no filter but those its calls set |
| `DisplayListVisibility.ClipKeepsPoint` | engine/src/flutter/display_list/utils/dl_matrix_clip_tracker.cc:190-233 | a cull box keeps every point that a clip lets through |
| `DisplayListVisibility.BoundsHold` | engine/src/flutter/display_list/utils/dl_matrix_clip_tracker.cc:33-43 | what a drawing can show lies in both of its mapped and clipped bounds |
| `DisplayListVisibility.FloodHolds` | engine/src/flutter/display_list/dl_builder.cc:1820-1828 | a flood that can show is inside the device cull and is never dropped |
| `DisplayListVisibility.ReachedIsAdjusted` | engine/src/flutter/display_list/dl_builder.cc:1759-1817 | bounds adjusted for mask and image filter hold every local point the drawing reaches |
| `DisplayListVisibility.TransformedTracks` | engine/src/flutter/display_list/dl_builder.cc:900-925 | device matrix equals the layer's base matrix times its own matrix, across resets of invertible matrices |
| `DisplayListVisibility.ClippedTracks` | engine/src/flutter/display_list/dl_builder.cc:946-954 | a recorded clip keeps the culls around what shows, and an entry becomes a nop only where nothing shows |
| `DisplayListLayers.LayerCullHolds` | engine/src/flutter/display_list/dl_builder.cc:486-506 | the cull a filtered layer starts with holds every point that can reach the surface through the filter |
| `DisplayListLayers.AdjustedHolds` | engine/src/flutter/display_list/dl_builder.cc:777-793 | an entry that held a point still holds what the filter makes of it |
| `DisplayListLayers.StepSees` | engine/src/flutter/display_list/dl_builder.cc:669-766 | every call keeps the r-tree around everything each open layer can show, of the drawings that entries with an invertible layer matrix record; of all drawings, as long as no singular matrix is reset |
| `DisplayListLayers.RTreeHoldsKeptPixels` | engine/src/flutter/display_list/dl_builder.cc:669-797 | in every run, each point inside the cull rectangle that a drawing can change lies in an r-tree rectangle under that drawing's index, for drawings made under live entries with an invertible layer matrix |
| `DisplayListLayers.RTreeHoldsEveryPixel` | engine/src/flutter/display_list/dl_builder.cc:669-797 | in runs that reset no singular matrix, the same for all drawings |
| `DisplayListFaithful.RedundantClipShowsAll` | engine/src/flutter/display_list/dl_builder.cc:942-945 | a skipped clip lets everything through that can be seen |
| `DisplayListFaithful.StepPaints` | engine/src/flutter/display_list/dl_builder.cc:934-964 | after every call the records so far mark what the calls mark, as far as it can be seen |
| `DisplayListFaithful.RecordsPaintWhatCallsPaint` | engine/src/flutter/display_list/dl_builder.cc:398-405 | inside the cull rectangle the built records mark exactly the points the calls mark, by the same drawings with the same paints |
| `DisplayListResets.SeenDrawingIsKeptExactly` | engine/src/flutter/display_list/dl_builder.cc:1820-1872 | in every run a drawing that would be seen is recorded, and held by the r-tree where it is seen, if and only if its entry is live and its layer matrix invertible; otherwise nothing is added |
| `DisplayListResets.SeenListIsKeptExactly` | engine/src/flutter/display_list/dl_builder.cc:1631-1700 | the same for a child list |
| `DisplayListResets.FaintListsAreDropped` | engine/src/flutter/display_list/dl_builder.cc:1631-1645 | a child list is dropped for its opacity exactly from 1/4096 down, or if it is empty |
| `DisplayListResets.SeenFloodIsKeptExactly` | engine/src/flutter/display_list/dl_builder.cc:407-541 | the same for what a layer floods below it, which has an r-tree entry or not |
| `DisplayListResets.InvertibleResetsKeepAll` | engine/src/flutter/display_list/dl_builder.cc:900-925 | without a reset of a singular matrix every entry under which something is seen records |
| `DisplayListResets.NewLayerKeeps` | engine/src/flutter/display_list/dl_builder.cc:473-516 | a new layer records again, whatever the matrix below it |
| `DisplayListResets.ResetKeepsDrawingsExactly` | engine/src/flutter/display_list/dl_builder.cc:900-925 | a drawing that would be seen directly after a reset is recorded if and only if the matrix was invertible |
| `DisplayListResets.SingularLayerDropsDrawings` | engine/src/flutter/display_list/dl_builder.cc:1820-1872 | under a singular layer matrix no drawing is recorded |
| `DisplayListResets.SingularLayerDropsLists` | engine/src/flutter/display_list/dl_builder.cc:1631-1700 | nor a child list |
| `DisplayListResets.SingularLayerDropsFloods` | engine/src/flutter/display_list/dl_builder.cc:407-541 | nor has what a layer floods an r-tree entry |
| `DisplayListResets.SingularLayerLosesBounds` | engine/src/flutter/display_list/dl_builder.cc:669-766 | and what a layer holds is missing from the bounds of the one below it |
| `DisplayListResets.SingularLayerStays` | engine/src/flutter/display_list/dl_builder.cc:916-922 | and no later transform repairs that matrix |
| `DisplayListResets.ResetLosesADrawing` | engine/src/flutter/display_list/dl_builder.cc:916-922 | scale by zero, reset and draw: a visible drawing that is not recorded |
| `DisplayListResets.ContentEscapesBounds` | engine/src/flutter/display_list/dl_builder.cc:603-618 | after such a reset a closed layer inside another one: what it shows is outside of the empty bounds in the outer layer's record |
| `DisplayListOpacity.AddIsDisjoint` | engine/src/flutter/display_list/utils/dl_accumulation_rect.cc:33-53 | a rectangle added without a detected overlap has no point in common with the bounds before it |
| `DisplayListMarking.OverlapsExactly` | engine/src/flutter/display_list/utils/dl_accumulation_rect.cc:33-53 | an overlap is noted if and only if there was one before or the rectangle shares a point with the bounds of those before it |
| `DisplayListMarking.LayersAreMarkedExactly` | engine/src/flutter/display_list/dl_builder.cc:603-632 | in every run a closing layer is marked `can_distribute_opacity` if and only if all its content can take an opacity and no rectangle added shares a point with those before; it is marked unbounded exactly if something flooded it without a clip, clipped exactly if content sticks out of its caller's bounds, and its bounds hold the content inside those |
| `DisplayListMarking.RootsAreMarkedExactly` | engine/src/flutter/display_list/dl_builder.cc:66-118 | the same for the group opacity and the unbounded mark of every list |
| `DisplayListMarking.BoxListsAreMarkedExactly` | engine/src/flutter/display_list/dl_builder.cc:66-118 | group opacity can be applied to a list of plain boxes if and only if none shares a point with the bounds of those before it |
| `DisplayListGroupOpacity.OpacityCanBeDistributed` | engine/src/flutter/display_list/dl_builder.h:561-564 | in a layer marked `can_distribute_opacity` each point that can be seen belongs to one compatible part |
| `DisplayListGroupOpacity.LayerBoundsHoldContent` | engine/src/flutter/display_list/dl_builder.cc:603-618 | the bounds written into a layer's record hold every point of it that can be seen |
| `DisplayListOpacityPixels.DistributedOpacityIsGroupOpacity` | engine/src/flutter/display_list/dl_builder.h:727-741 | with one part per point, drawing the parts with the opacity gives the pixels of the layer drawn with it |
| `DisplayListOpacityPixels.OverlapsDistributeExactly` | engine/src/flutter/display_list/dl_builder.h:561-564 | two pixels over each other can be drawn one by one with an opacity if and only if the opacity is none or full, the upper one is transparent, or the lower one shows nothing but the destination |
| `DisplayListPartPixels.TakesOpacityExactly` | engine/src/flutter/display_list/dl_builder.h:723-758 | a part that is not fully transparent takes every opacity, whatever its effects do, if and only if it has no effect at all, or is painted once, source-over, and all its effects commute with opacity |
| `DisplayListPartPixels.CompatibleTakesOpacityExactly` | engine/src/flutter/display_list/dl_builder.h:727-733 | of the parts that the builder calls compatible exactly those take every opacity whose image filter commutes, and that scale if they are layers or child lists |
| `DisplayListPartPixels.BuilderTestExactly` | engine/src/flutter/display_list/dl_builder.h:727-758 | and no others do, but for those with a colour filter that commutes |
| `DisplayListGroupPixels.GroupOpacityExactly` | engine/src/flutter/display_list/dl_builder.cc:617-625 | in every run that closes a layer marked `can_distribute_opacity`, its parts share every opacity at all points that can be seen if and only if none of them has an image filter that does not commute, and the layers and child lists among them scale |
| `DisplayListGroupPixels.GroupOpacityIsDistributed` | engine/src/flutter/display_list/skia/dl_sk_dispatcher.cc:56-71 | then, at every point that can be seen, the layer composed by its own paint with an inherited opacity is its parts drawn in order, each with that opacity times the layer's alpha |
| `DisplayListGroupPixels.ListOpacityExactly` | engine/src/flutter/display_list/dl_builder.cc:66-118 | the same exact condition for a whole list whose root can apply group opacity |
| `DisplayListGroupPixels.BuiltChildIsWhole` | engine/src/flutter/display_list/skia/dl_sk_dispatcher.cc:288-317 | a built list with that flag, drawn into another one with an opacity for its parts, looks as if it were composed first |
| `DisplayListGroupPixels.CommutingRunsShareOpacity` | engine/src/flutter/display_list/dl_builder.h:561-564 | in runs that set only image filters that commute, every marked layer and every marked list shares its opacity |
| `DisplayListFilterRuns.MarkedLayerDoesNotShare` | engine/src/flutter/display_list/dl_builder.h:727-733 | a concrete run whose layer is marked although its parts do not share an opacity: an image filter makes colour from alpha |
| `DisplayListGroupPixels.DistributedPaintsArePlain` | engine/src/flutter/display_list/dl_builder.h:727-751 | the drawings of such a layer that can be seen blend source-over, without colour filter and inversion |
| `DisplayListTree.AddGeneration` | engine/src/flutter/display_list/geometry/dl_rtree.cc:86-138 | one generation of nodes is spread over the fewest parents that can hold it, each covering consecutive children, at most eleven |
| `DisplayListTree.DlRTree.constructor` | engine/src/flutter/display_list/geometry/dl_rtree.cc:12-140 | the rectangles with an area become leaves in order under one root that covers them |
| `DisplayListTree.DlRTree.Search` | engine/src/flutter/display_list/geometry/dl_rtree.cc:142-161 | a search finds exactly the leaves that meet the query, in order |
| `DisplayListTree.DlRTree.SearchUnder` | engine/src/flutter/display_list/geometry/dl_rtree.cc:185-201 | the same below one branch |
| `DisplayListTree.LeavesInBounds` | engine/src/flutter/display_list/geometry/dl_rtree.cc:119-131 | the bounds of a node contain every leaf under it |
| `DisplayListTree.MatchesAscend` | engine/src/flutter/display_list/geometry/dl_rtree.cc:185-201 | the results of a search ascend |
| `DisplayListSelection.RTreeResultsToIndexVector` | engine/src/flutter/display_list/display_list.cc:88-180 | the chosen indices ascend, keep every hit and no other drawing, are balanced, replay every hit in exactly its full-replay state, and paint all that the hits paint and nothing that the whole list does not |
| `DisplayListSelection.Unwind` | engine/src/flutter/display_list/display_list.cc:106-120 | the early exit keeps the restores of the saves that were kept |
| `DisplayListCulling.SavesPointForward` | engine/src/flutter/display_list/display_list.cc:144-174 | in a well-nested stream every save names a later record as its restore |
| `DisplayListCulledDispatch.SearchFindsHits` | engine/src/flutter/display_list/geometry/dl_rtree.cc:49-62 | the results of a search stand for exactly the rectangles that meet the query, in order |
| `DisplayListCulledDispatch.SharedPointIsHit` | engine/src/flutter/display_list/geometry/dl_rtree.cc:142-161 | every entry that shares a point with the query is a hit |
| `DisplayListCulledDispatch.GetCulledIndices` | engine/src/flutter/display_list/display_list.cc:370-383 | the selected records are those for the ids of the rectangles that meet the query |
| `DisplayListCulledDispatch.SelectionPaintsTheQuery` | engine/src/flutter/display_list/display_list.cc:194-208 | inside the query the selected records change exactly the points that the calls change, by the same drawings with the same paints |
| `DisplayListCulledDispatch.CullBuiltList` | engine/src/flutter/display_list/display_list.cc:194-208 | every drawing that can change a pixel of the query is dispatched, in its full-replay state, and the query is painted as the calls paint it |
| `DisplayListCulledCanvas.ExamineFollows` | engine/src/flutter/display_list/display_list.cc:122-178 | every pass of the selection loop keeps the canvas of the chosen records in step with that of all records examined |
| `DisplayListCulledCanvas.UnwoundPaintsHits` | engine/src/flutter/display_list/display_list.cc:106-120 | after the early exit the chosen records have all marks of the hits, and no marks that the whole list has not |
| `DisplayListCompare.CompareOps` | engine/src/flutter/display_list/display_list.cc:401-464 | the lagging bulk comparison answers true exactly when all records agree one by one |
| `DisplayListPaint.NoEffectIsSound` | engine/src/flutter/display_list/dl_builder.cc:2002-2081 | a paint without effect leaves every destination as it is, by the blend equations |
| `DisplayListPaint.NoEffectExactly` | engine/src/flutter/display_list/dl_builder.cc:1960-2000 | and exactly when no alpha was rounded away, no white that modulates was inverted, and no opaque colour source that keeps its destination was faded |
| `DisplayListPaint.PreservesTransparencyIsSound` | engine/src/flutter/display_list/dl_builder.cc:2002-2081 | a paint that preserves transparency leaves transparent pixels transparent, unless its alpha was rounded away under a mode that puts the source there |
| `DisplayListPaint.PreservesTransparencyExactly` | engine/src/flutter/display_list/dl_builder.cc:2002-2081 | and exactly then |
| `DisplayListPaint.RoundedAlphaChangesTransparency` | engine/src/flutter/display_list/dl_builder.cc:1974-1982 | a concrete layer that changes transparent pixels although it is said to preserve them |
| `DisplayListPaint.RoundedAlphaDropsAVisibleLayer` | engine/src/flutter/display_list/dl_builder.cc:1974-1982 | a concrete layer that is dropped although it shows |
| `DisplayListPaint.NopsOnTransparencyExactly` | engine/src/flutter/display_list/dl_builder.cc:1911-1957 | the mode switch answers true exactly for the modes that a transparent source leaves without effect |
| `DisplayListPaintEffects.PaintResultExactly` | engine/src/flutter/display_list/dl_builder.cc:2002-2081 | outside those cases the table is exact both ways: a paint is said to affect transparent pixels if and only if some pixel it may produce does, and to have no effect if and only if none has one |
| `DisplayListPaintEffects.PaintNopsExactly` | engine/src/flutter/display_list/dl_builder.cc:1886-1957 | a layer is said to leave transparency alone if and only if nothing its filters may make of transparent pixels changes a destination |
| `DisplayListPaintEffects.EightBitsAreNearest` | engine/src/flutter/display_list/dl_paint.h:75 | the eight-bit alpha is the nearest one, and zero exactly below half a step |
| `DisplayListPaintEffects.LargerIsDeclaredLater` | engine/src/flutter/impeller/geometry/color.h:58-97 | the larger of two blend modes is the one declared later |
| `DisplayListPaintEffects.CoefficientModesComeFirst` | engine/src/flutter/impeller/geometry/color.h:58-97 | the modes below kScreen are exactly those given by coefficients of source and destination alone |
| `MigrationQueue.Queue.NextAvailable` | dev/migration_orchestrator/internal/task/queue.go:267-291 | the first ready tasks in order, as many as asked for |
| `MigrationQueue.Queue.CanRun` | dev/migration_orchestrator/internal/task/queue.go:293-310 | pending, and every dependency in the queue is completed or skipped |
| `MigrationQueue.Queue.MarkInProgress` | dev/migration_orchestrator/internal/task/queue.go:312-319 | one status changes, the others stay |
| `MigrationQueue.Queue.MarkCompleted` | dev/migration_orchestrator/internal/task/queue.go:321-328 | one status changes, the others stay |
| `MigrationQueue.Queue.MarkFailed` | dev/migration_orchestrator/internal/task/queue.go:330-337 | one status changes, the others stay |
| `MigrationQueue.Queue.MarkSkipped` | dev/migration_orchestrator/internal/task/queue.go:338-345 | one status changes, the others stay |
| `MigrationQueue.Queue.HasPendingWork` | dev/migration_orchestrator/internal/task/queue.go:369-384 | some task in the order is pending or in progress |
| `MigrationQueue.Queue.AllComplete` | dev/migration_orchestrator/internal/task/queue.go:386-397 | every task is in a terminal status |
| `MigrationQueueSpec.NextAvailableIsSound` | dev/migration_orchestrator/internal/task/queue.go:267-302 | at most as many tasks as asked for, each ready, none twice, and no ready one left out while there is room |
| `MigrationScheduler.InvStep` | dev/migration_orchestrator/internal/task/scheduler.go:93-199 | every step of any process keeps the whole invariant |
| `MigrationScheduler.InvHolds` | dev/migration_orchestrator/internal/task/scheduler.go:42-199 | every reachable state has it |
| `MigrationScheduler.DispatchedStaysSettled` | dev/migration_orchestrator/internal/task/queue.go:293-302 | from its dispatch on, the dependencies of a task stay completed or skipped |
| `MigrationScheduler.DispatchedOnce` | dev/migration_orchestrator/internal/task/scheduler.go:128-173 | no task is dispatched twice |
| `MigrationScheduler.FlowConservation` | dev/migration_orchestrator/internal/task/scheduler.go:52-90 | the in-progress count is what is queued, executing, awaiting handling or dropped, never exceeds the maximum, and the send finds buffer space |
| `MigrationDispatch.NextAreFirst` | dev/migration_orchestrator/internal/task/queue.go:267-302 | the queue answers with the first tasks in its order that are pending and whose dependencies are all completed or skipped, and passes none over |
| `MigrationDispatch.WorkIsConserved` | dev/migration_orchestrator/internal/task/scheduler.go:93-173 | from every reachable state at the top of an uncancelled loop, the main loop alone gets through a pass that marks and sends the first ready tasks, until as many are in progress as are allowed or no task is ready |
| `MigrationDispatch.EveryTaskHasAWorker` | dev/migration_orchestrator/internal/task/scheduler.go:63-67 | in every reachable state of a run that is not cancelled, each task that was sent has an idle worker that can take it at once |
| `MigrationDispatch.StartsAfterDependencies` | dev/migration_orchestrator/internal/task/queue.go:293-302 | what a task depends on is completed or skipped when it is dispatched, and at any time after |
| `MigrationDispatch.NothingStartsAfterCancel` | dev/migration_orchestrator/internal/task/scheduler.go:211-222 | once a run is cancelled no execution starts |
| `MigrationDispatch.FirstFailureStays` | dev/migration_orchestrator/internal/task/scheduler.go:72-90 | a run stays cancelled, and the failure it reports stays |
| `MigrationDispatch.FailureCancels` | dev/migration_orchestrator/internal/task/scheduler.go:72-90 | the first failure handled is the one reported, and cancels the run at once |
| `MigrationLiveness.ReturnedOutcome` | dev/migration_orchestrator/internal/task/scheduler.go:93-199 | a nil return means that nothing failed and every task is completed; a task error names a failed task; a context error means that the run was cancelled and nothing failed |
| `MigrationLiveness.NoDeadlock` | dev/migration_orchestrator/internal/task/scheduler.go:93-240 | in every reachable state before the return some process can step |
| `MigrationLiveness.SomeTaskIsReady` | dev/migration_orchestrator/internal/task/scheduler.go:128-173 | with acyclic dependencies an idle run with pending work has a ready task |
| `MigrationLiveness.EveryFairRunEnds` | dev/migration_orchestrator/internal/task/scheduler.go:42-240 | there is no infinite fair run |
| `FiniteGraph.PointingBackReachesCycle` | scripts/plan_generator.ts:494-530 | in a finite set where every node has a predecessor in it, every node reaches a cycle |
| `PortingArrival.EmitReady` | scripts/plan_generator.ts:506-530 | what is emitted comes after its needs, simplest ready file first and of equally simple ones the one that was ready first, until nothing is ready |
| `PortingOrder.EmittedReachesNoCycle` | scripts/plan_generator.ts:506-530 | an emitted file reaches no dependency cycle |
| `PortingOrder.StuckReachesCycle` | scripts/plan_generator.ts:532-540 | a file that is never ready reaches one |
| `PortingOrder.HeadIsSimplest` | scripts/plan_generator.ts:496-504 | no ready file is simpler than the head of the queue, where Low is simpler than Medium, that than High, and that than Unknown |
| `PortingOrder.SortIsStable` | scripts/plan_generator.ts:496-504 | sorting leaves the files of each complexity in their order |
| `PortingArrival.HeadCameFirst` | scripts/plan_generator.ts:506-530 | no file as simple as the head of the queue was ready before it |
| `PortingPlan.DeterminePortingOrder` | scripts/plan_generator.ts:455-543 | the order lists each name once; a file of the first part comes after all its dependencies in the module, no ready file is simpler and none as simple was ready earlier; the tail is exactly the files that reach a cycle, in the order of the list |
| `PortingPlan.BaseNameIsBetween` | scripts/plan_generator.ts:461 | the name of a Dart file is what stands between its last slash and its extension |
| `PortingPlan.OrderIsPermutation` | scripts/plan_generator.ts:532-543 | with distinct base names the result is a permutation of the files |
| `PortingPlan.AcyclicIsComplete` | scripts/plan_generator.ts:506-530 | with no cycle every file comes after its needs |

## Left out

- Rotation, skew and perspective, floating point, NaN and the rounding of anti-aliased clips: matrices are scale and translate over exact reals, and clips are rectangles without anti-aliasing.
- Clips by oval, round rectangle, superellipse and path: they repeat the branches of the rectangle clip.
- The drawing calls one by one: a drawing is its bounds (or a flood), its attribute flags, its depth, its own paint if it brings one along, and whether its parts may overlap or be hairlines. Bounds are those after stroking; stroke caps, joins and miters are left out.
- The DlCanvas entry points that take a paint: they are the modelled attribute calls followed by the modelled drawing.
- Bounds collected without an r-tree (`global_space_accumulator`), QuickReject, op counts, byte counts, unique ids and thread-safety flags.
- Raw storage: records are a sequence, except in CompareOps, which needs byte ranges.
- Object identity of layers: a plain save shares the layer object of the entry below, which the model keeps as one layer per save-layer entry.
- The consolidation of a child list's r-tree rectangles: the rectangles are given with the child list.
- Alpha8: saturation of alphas outside zero to one; colours are valid ones.
- BaseName: does not strip slashes at the end of a path, which paths of files do not have.
- PaintResultExactly: does not cover rounded alphas, inverted modulation and colour sources that are faded to nothing or from opaque, where the table is wrong, as NoEffectExactly and PreservesTransparencyExactly show.
- RecordsPaintWhatCallsPaint: does not cover layers with bounds from the caller, because the builder replaces them in the record by the content bounds; the r-tree and the opacity theorems do cover them. Runs that reset a singular matrix are out because the records then lack drawings, as ResetLosesADrawing shows.
- RecordingIsAFixpoint: excludes bounds from the caller for the same reason.
- StepPaints: does not cover resets of a singular matrix and bounds from the caller, like RecordsPaintWhatCallsPaint.
- LayerBoundsHoldContent: does not cover runs that reset a singular matrix; it is false there, as ContentEscapesBounds shows, because the bounds of a layer then lack what nested layers hold.
- OpacityCanBeDistributed: does not cover those runs, because bounds that lack content cannot show that it overlaps.
- GroupOpacityExactly: does not cover those runs.
- GroupOpacityIsDistributed: does not cover those runs either, and layers with parts that do not scale, where it is false; and it speaks of points inside the layer's bounds, and of layers that start out transparent, since dispatchers ask for unclipped content and no backdrop besides.
- ListOpacityExactly: does not cover those runs.
- BuiltChildIsWhole: does not cover those runs; of a child list that no builder made the flag is taken as given.
- CommutingRunsShareOpacity: does not cover those runs; the layers and child lists inside a layer are taken to share their own opacity, which the same lemma says of each of them.
- SelectionPaintsTheQuery: covers what RecordsPaintWhatCallsPaint covers.
- Image filters with a matrix, a local matrix or a runtime effect: they are covered by every theorem whose run keeps the contract, but are not among the kinds that DisplayListFilters decides it for.
- DistributedPaintsArePlain: does not cover those runs.
- RTreeHoldsKeptPixels: says nothing of drawings made where none is recorded.
- RTreeHoldsEveryPixel: does not cover runs that reset a singular matrix, where SeenDrawingIsKeptExactly says which drawings are lost.
- Dispatch without culling when the query contains the bounds of the list: a plain loop over all records.
- The queue's construction, ApplyProgress, retries, JSON, logging, time stamps and the executors: an execution is a nondeterministic success or failure.
- Everything in plan_generator.ts but determinePortingOrder.
