/**
 The builder object. Its methods update the storage, the save stack, the layers, the
 r-tree entries and the cached values in place; each is proved to do what the function
 of the same name in `DisplayListBuilderSpec` does to the whole state, so everything
 proved about runs of those functions holds of the object.
 */
module DisplayListBuilding {
  import opened Options
  import opened DisplayListTypes
  import opened DisplayListPaint
  import Spec = DisplayListBuilderSpec
  import Nesting = DisplayListNesting
  import RTree = DisplayListRTree
  import Attributes = DisplayListAttributes
  import Transforms = DisplayListTransforms

  type SaveInfo = Spec.SaveInfo
  type LayerInfo = Spec.LayerInfo

  /** A restore closes the record of the top entry, if it has one, and pops the entry. */
  lemma RestoreIsPop(fx: Spec.FilterBounds, s: Spec.BuilderState)
    requires s.below != [] && (!s.top.mark.deferred ==> Spec.NamesItsSave(s))
    ensures var closed := if s.top.mark.deferred then s else Spec.CloseEntry(fx, s);
      Spec.Restore(fx, s) == closed.(below := s.below[..|s.below| - 1], top := s.below[|s.below| - 1])
    ensures !s.top.mark.deferred ==> Spec.CloseEntry(fx, s).below == s.below && Spec.CloseEntry(fx, s).top == s.top
  {
    hide Spec.NamesItsSave, Spec.TransferLayerBounds, Spec.SettledLayer, Spec.ContentBounds, Spec.PatchSave;
  }

  class DisplayListBuilder {
    const fx: Spec.FilterBounds
    const originalCullRect: Rect

    var storage: seq<Record>
    var depth: nat
    var renderOpDepthCost: nat
    var opIndex: nat
    var saveStack: seq<SaveInfo>
    var layers: seq<LayerInfo>
    var rtreeData: Spec.RTreeData
    var current: Paint
    var currentOpacityCompatibility: bool

    /** The calls made since the last `Build`. */
    ghost var calls: seq<Spec.Call>

    /** The cached values agree with what they cache. */
    ghost predicate CachesHold()
      reads this
    {
      && saveStack != [] && layers != []
      && opIndex == |storage|
      && renderOpDepthCost == Spec.DepthCost(current)
      && currentOpacityCompatibility == Spec.IsOpacityCompatible(current)
    }

    ghost function State(): Spec.BuilderState
      reads this
      requires saveStack != [] && layers != []
    {
      Spec.BuilderState(storage, depth, saveStack[..|saveStack| - 1], saveStack[|saveStack| - 1],
                        layers[..|layers| - 1], layers[|layers| - 1], rtreeData, current)
    }

    ghost predicate Valid()
      reads this
    {
      CachesHold() && State() == Spec.Run(fx, originalCullRect, calls)
    }

    constructor (cullRect: Rect, fx: Spec.FilterBounds)
      ensures Valid() && calls == []
      ensures originalCullRect == cullRect && this.fx == fx
    {
      this.fx := fx;
      this.originalCullRect := cullRect;
      calls := [];
      storage, depth, opIndex, renderOpDepthCost := [], 0, 0, 1;
      var init := Spec.Init(cullRect);
      saveStack, layers, rtreeData := [init.top], [init.layer], init.rtree;
      current, currentOpacityCompatibility := DEFAULT_PAINT, true;
    }

    /** The new call list, once a method has done what its function does. */
    ghost method Log(call: Spec.Call)
      requires CachesHold()
      requires State() == Spec.Step(fx, Spec.Run(fx, originalCullRect, calls), call)
      modifies this`calls
      ensures Valid() && calls == old(calls) + [call]
    {
      hide Spec.Step;
      calls := calls + [call];
      assert calls[..|calls| - 1] == old(calls);
    }

    // --------------------------------------------------------- small steps

    method Push(op: Record)
      requires CachesHold()
      modifies this`storage, this`depth, this`opIndex
      ensures CachesHold() && State() == Spec.Push(old(State()), op)
    {
      storage := storage + [op];
      depth := depth + Spec.DepthInc(op) * renderOpDepthCost;
      opIndex := opIndex + 1;
    }

    method SetTop(info: SaveInfo)
      requires saveStack != [] && layers != []
      modifies this`saveStack
      ensures |saveStack| == |old(saveStack)|
      ensures State() == old(State()).(top := info)
    {
      saveStack := saveStack[|saveStack| - 1 := info];
    }

    method SetLayer(layer: LayerInfo)
      requires saveStack != [] && layers != []
      modifies this`layers
      ensures |layers| == |old(layers)|
      ensures State() == old(State()).(layer := layer)
    {
      layers := layers[|layers| - 1 := layer];
    }

    method CheckForDeferredSave()
      requires CachesHold()
      modifies this`storage, this`depth, this`opIndex, this`saveStack
      ensures CachesHold() && State() == Spec.CheckForDeferredSave(old(State()))
    {
      var top := saveStack[|saveStack| - 1];
      if top.mark.deferred {
        var saveOffset := |storage|;
        Push(SaveRecord(0, 0));
        SetTop(top.(mark := Spec.SaveMark(top.mark.isSaveLayer, false, depth, saveOffset)));
      }
    }

    /** `setAntiAlias` to `setMaskFilter`: a record only for a change, and the cached
        depth cost and opacity compatibility follow the attribute. */
    method SetAttribute(attribute: Attribute)
      requires Valid()
      modifies this
      ensures Valid() && calls == old(calls) + [Spec.SetAttributeCall(attribute)]
      ensures Attributes.SetsOnly(old(current), current, attribute)
      ensures storage
           == old(storage) + (if Attributes.HasValue(old(current), attribute) then [] else [AttributeOp(attribute)])
    {
      hide Spec.Run, Attribute.ApplyTo;
      ghost var before := State();
      Attributes.AttributeIsRecordedExactly(before, attribute);
      hide Attributes.SetsOnly, Attributes.HasValue;
      if attribute.ApplyTo(current) != current {
        OnSet(attribute);
      }
      assert State() == Spec.SetAttribute(before, attribute);
      Log(Spec.SetAttributeCall(attribute));
    }

    method OnSet(attribute: Attribute)
      requires CachesHold()
      modifies this`storage, this`depth, this`opIndex, this`current, this`renderOpDepthCost,
        this`currentOpacityCompatibility
      ensures CachesHold()
      ensures State() == Spec.Push(old(State()), AttributeOp(attribute)).(paint := attribute.ApplyTo(old(current)))
    {
      Push(AttributeOp(attribute));
      current := attribute.ApplyTo(current);
      match attribute {
        case SetMaskFilter(filter) => renderOpDepthCost := if filter.Some? then 2 else 1;
        case SetInvertColors(_) => UpdateCurrentOpacityCompatibility();
        case SetBlendMode(_) => UpdateCurrentOpacityCompatibility();
        case SetColorSource(_) => UpdateCurrentOpacityCompatibility();
        case SetImageFilter(_) => UpdateCurrentOpacityCompatibility();
        case SetColorFilter(_) => UpdateCurrentOpacityCompatibility();
        case _ => {}
      }
    }

    method UpdateCurrentOpacityCompatibility()
      modifies this`currentOpacityCompatibility
      ensures currentOpacityCompatibility == Spec.IsOpacityCompatible(current)
    {
      currentOpacityCompatibility := Spec.IsOpacityCompatible(current);
    }

    // ----------------------------------------------------------- transforms

    method Transform(t: TransformOp)
      requires Valid()
      modifies this
      ensures Valid() && calls == old(calls) + [Spec.TransformCall(t)]
      ensures saveStack != [] && old(saveStack) != []
      ensures var before, after := old(saveStack)[|old(saveStack)| - 1], saveStack[|saveStack| - 1];
        Transforms.MovesBy(before.global.matrix, after.global.matrix, t)
    {
      hide Spec.Run, Spec.Transformed, Spec.ChangesMatrix;
      ghost var before := State();
      Transforms.TransformMovesPoints(before, t);
      hide Transforms.MovesBy;
      if Spec.ChangesMatrix(t) {
        CheckForDeferredSave();
        Push(TransformRecord(t));
        SetTop(Spec.Transformed(saveStack[|saveStack| - 1], t));
      }
      assert State() == Spec.Transform(before, t);
      Log(Spec.TransformCall(t));
    }

    // ---------------------------------------------------------------- clips

    method ClipRect(rect: Rect, op: ClipOp)
      requires Valid()
      modifies this
      ensures Valid() && calls == old(calls) + [Spec.ClipCall(rect, op)]
    {
      hide Spec.Run, Spec.Clipped, Spec.ClipIsRedundant;
      ghost var before := State();
      var info := saveStack[|saveStack| - 1];
      if !info.isNop && !Spec.ClipIsRedundant(info, rect, op) {
        var clipped := Spec.Clipped(info, rect, op);
        if clipped.global.cull.IsEmpty() || clipped.layer.cull.IsEmpty() {
          SetTop(clipped.(isNop := true));
        } else {
          SetTop(clipped.(hasValidClip := true));
          CheckForDeferredSave();
          Push(ClipRecord(rect, op));
        }
      }
      assert State() == Spec.Clip(before, rect, op);
      Log(Spec.ClipCall(rect, op));
    }

    // --------------------------------------------------------- accumulation

    /** Marks and fills a layer, the current one or the one below it. */
    method AccumulateUnbounded(info: SaveInfo, k: nat) returns (ok: bool)
      requires k < |layers|
      modifies this`layers, this`rtreeData
      ensures var acc := Spec.AccumulateUnbounded(old(layers)[k], old(rtreeData), info, opIndex);
        ok == acc.ok && rtreeData == acc.rtree && layers == old(layers)[k := acc.layer]
    {
      if !info.hasValidClip {
        layers := layers[k := layers[k].MarkUnbounded(true)];
      }
      var globalClip := info.global.cull;
      var layerClip := info.layer.MapAndClip(info.global.LocalCullCoverage());
      if globalClip.IsEmpty() || layerClip.None? {
        return false;
      }
      rtreeData := rtreeData.Add(globalClip, opIndex);
      layers := layers[k := layers[k].AddLocal(layerClip.value)];
      return true;
    }

    method AccumulateBounds(bounds: Rect) returns (ok: bool)
      requires saveStack != [] && layers != []
      modifies this`layers, this`rtreeData
      ensures var acc := Spec.AccumulateBounds(old(State()).layer, old(rtreeData), old(State()).top, opIndex, bounds);
        |layers| == |old(layers)| && ok == acc.ok && State() == old(State()).(layer := acc.layer, rtree := acc.rtree)
    {
      if bounds.IsEmpty() {
        return false;
      }
      var info := saveStack[|saveStack| - 1];
      var globalBounds := info.global.MapAndClip(bounds);
      var layerBounds := info.layer.MapAndClip(bounds);
      if globalBounds.None? || layerBounds.None? {
        return false;
      }
      rtreeData := rtreeData.Add(globalBounds.value, opIndex);
      SetLayer(layers[|layers| - 1].AddLocal(layerBounds.value));
      return true;
    }

    method AccumulateFlood() returns (ok: bool)
      requires saveStack != [] && layers != []
      modifies this`layers, this`rtreeData
      ensures var acc := Spec.AccumulateUnbounded(old(State()).layer, old(rtreeData), old(State()).top, opIndex);
        |layers| == |old(layers)| && ok == acc.ok && State() == old(State()).(layer := acc.layer, rtree := acc.rtree)
    {
      ok := AccumulateUnbounded(saveStack[|saveStack| - 1], |layers| - 1);
    }

    method AccumulateOpBounds(bounds: Rect, paint: Paint, flags: AttributeFlags) returns (ok: bool)
      requires saveStack != [] && layers != [] && opIndex == |storage|
      modifies this`layers, this`rtreeData
      ensures var acc := Spec.AccumulateOpBounds(fx, old(State()), paint, flags, bounds);
        |layers| == |old(layers)| && ok == acc.ok && State() == old(State()).(layer := acc.layer, rtree := acc.rtree)
    {
      hide Spec.AccumulateBounds, Spec.AccumulateUnbounded;
      var adjusted := Spec.AdjustBoundsForPaint(fx, paint, flags, bounds);
      if adjusted.Some? {
        ok := AccumulateBounds(adjusted.value);
      } else {
        ok := AccumulateFlood();
      }
    }

    // -------------------------------------------------------------- drawing

    method Draw(d: Draw)
      requires Valid()
      modifies this
      ensures Valid() && calls == old(calls) + [Spec.DrawCall(d)]
    {
      hide Spec.Run, Spec.AccumulateUnbounded, Spec.AccumulateOpBounds, Spec.IsOpacityCompatible;
      ghost var before := State();
      var paint := PaintOf(current, d);
      var result := Spec.ResultOf(saveStack[|saveStack| - 1], paint, d.flags);
      if result != NoEffect {
        var ok;
        match d.geometry {
          case Flood => ok := AccumulateFlood();
          case Box(bounds) => ok := AccumulateOpBounds(bounds, paint, d.flags);
        }
        if ok {
          Push(DrawRecord(d));
          var layer := layers[|layers| - 1];
          var paintIsCompatible := if d.own.Some? then Spec.IsOpacityCompatible(paint) else currentOpacityCompatibility;
          layer := layer.UpdateOpacityCompatibility(
            Spec.DrawsOnce(paint, d) && (!d.flags.appliesBlend || paintIsCompatible));
          SetLayer(layer.UpdateResult(result, Spec.BlendModeOf(paint, d.flags.appliesBlend)));
        }
      }
      assert State() == Spec.DrawOp(fx, before, d);
      Log(Spec.DrawCall(d));
    }

    method AccumulateRects(rects: seq<Rect>) returns (ok: bool)
      requires saveStack != [] && layers != []
      modifies this`layers, this`rtreeData
      ensures var acc := Spec.AccumulateRects(old(State()).layer, old(rtreeData), old(State()).top, opIndex, rects);
        |layers| == |old(layers)| && ok == acc.ok && State() == old(State()).(layer := acc.layer, rtree := acc.rtree)
    {
      hide Spec.AccumulateBounds;
      ok := false;
      ghost var before := State();
      for k := 0 to |rects|
        invariant |layers| == |old(layers)|
        invariant var acc := Spec.AccumulateRects(before.layer, before.rtree, before.top, opIndex, rects[..k]);
          ok == acc.ok && State() == before.(layer := acc.layer, rtree := acc.rtree)
      {
        assert rects[..k + 1][..k] == rects[..k];
        var accumulated := AccumulateBounds(rects[k]);
        ok := ok || accumulated;
      }
      assert rects[..|rects|] == rects;
    }

    method DrawDisplayList(list: ChildList, opacity: real)
      requires Valid()
      modifies this
      ensures Valid() && calls == old(calls) + [Spec.DrawListCall(list, opacity)]
    {
      hide Spec.Run, Spec.AccumulateUnbounded, Spec.AccumulateRects, Spec.ListIsVisible, Spec.LayerAfterList;
      ghost var before := State();
      if Spec.ListIsVisible(list, opacity) && !saveStack[|saveStack| - 1].isNop {
        var accumulated;
        if list.root.isUnbounded {
          accumulated := AccumulateFlood();
        } else {
          accumulated := AccumulateRects(list.rects);
        }
        if accumulated {
          PushList(list, opacity);
        }
      }
      assert State() == Spec.DrawDisplayList(before, list, opacity);
      Log(Spec.DrawListCall(list, opacity));
    }

    /** Records a child list, and what it means for the layer it is drawn into. */
    method PushList(list: ChildList, opacity: real)
      requires CachesHold()
      modifies this`storage, this`depth, this`opIndex, this`layers
      ensures CachesHold()
      ensures var t := Spec.Push(old(State()), DrawListRecord(list, Min(opacity, 1.0)));
        State() == t.(depth := t.depth + list.totalDepth, layer := Spec.LayerAfterList(old(State()).layer, list))
    {
      Push(DrawListRecord(list, Min(opacity, 1.0)));
      depth := depth + list.totalDepth;
      var layer := layers[|layers| - 1].UpdateOpacityCompatibility(list.root.canApplyGroupOpacity);
      layer := layer.UpdateResult(if list.root.modifiesTransparentBlack then AffectsAll else PreservesTransparency,
                                  list.root.maxBlendMode);
      SetLayer(layer.MarkBackdrop(list.root.hasBackdropFilter));
    }

    // ----------------------------------------------------------------- save

    method PushEntry(info: SaveInfo)
      requires saveStack != [] && layers != []
      modifies this`saveStack
      ensures |saveStack| == |old(saveStack)| + 1
      ensures State() == old(State()).(below := old(State()).below + [old(State()).top], top := info)
    {
      assert saveStack == saveStack[..|saveStack| - 1] + [saveStack[|saveStack| - 1]];
      saveStack := saveStack + [info];
    }

    method SaveEntry()
      requires CachesHold()
      modifies this`saveStack
      ensures CachesHold() && State() == Spec.Save(old(State()))
    {
      PushEntry(saveStack[|saveStack| - 1].(mark := Spec.SaveMark(false, true, 0, 0)));
    }

    method Save()
      requires Valid()
      modifies this
      ensures Valid() && calls == old(calls) + [Spec.SaveCall]
    {
      SaveEntry();
      Log(Spec.SaveCall);
    }

    method SaveLayer(bounds: Option<Rect>, withPaint: bool, backdrop: Option<ImageFilter>)
      requires Valid()
      modifies this
      ensures Valid() && calls == old(calls) + [Spec.SaveLayerCall(bounds, withPaint, backdrop)]
    {
      hide Spec.Run, Spec.AccumulateLayer, Spec.EnterLayer, PaintResult;
      ghost var before := State();
      var result := Spec.ResultOf(saveStack[|saveStack| - 1], current, Spec.SaveLayerFlags(withPaint));
      if result == NoEffect {
        SaveEntry();
        SetTop(saveStack[|saveStack| - 1].(isNop := true));
      } else {
        OpenLayer(withPaint, backdrop);
        EnterLayer(bounds, withPaint, backdrop);
      }
      assert State() == Spec.SaveLayer(fx, before, bounds, withPaint, backdrop);
      Log(Spec.SaveLayerCall(bounds, withPaint, backdrop));
    }

    /** Pushes the entry, the layer and the record. */
    method EnterLayer(bounds: Option<Rect>, withPaint: bool, backdrop: Option<ImageFilter>)
      requires CachesHold()
      modifies this`storage, this`depth, this`opIndex, this`saveStack, this`layers
      ensures CachesHold() && State() == Spec.EnterLayer(fx, old(State()), bounds, withPaint, backdrop)
    {
      hide Spec.IsOpacityCompatible, Spec.LayerEntry;
      ghost var before := State();
      var filter := Spec.LayerFilter(current, withPaint);
      var info := LayerEntryOf(filter, bounds, depth, |storage|);
      PushEntry(info);
      PushLayer(Spec.NewLayer(filter, |rtreeData.rects|));
      Push(Spec.NewSaveLayerRecord(withPaint, bounds, backdrop));
      if withPaint {
        SetLayer(layers[|layers| - 1].UpdateOpacityCompatibility(currentOpacityCompatibility && filter.None?));
      }
    }

    method PushLayer(layer: LayerInfo)
      requires saveStack != [] && layers != []
      modifies this`layers
      ensures |layers| == |old(layers)| + 1
      ensures State() == old(State()).(outer := old(State()).outer + [old(State()).layer], layer := layer)
    {
      assert layers == layers[..|layers| - 1] + [layers[|layers| - 1]];
      layers := layers + [layer];
    }

    /** What a new layer means for the layer it will be drawn into. */
    method OpenLayer(withPaint: bool, backdrop: Option<ImageFilter>)
      requires CachesHold()
      modifies this`layers, this`rtreeData
      ensures CachesHold()
      ensures var acc := Spec.AccumulateLayer(old(State()), withPaint, backdrop);
        State() == old(State()).(layer := acc.layer, rtree := acc.rtree)
    {
      hide Spec.AccumulateUnbounded, PaintResult, Spec.IsOpacityCompatible;
      var layer := layers[|layers| - 1].MarkBackdrop(backdrop.Some?);
      layer := layer.UpdateOpacityCompatibility(!withPaint || currentOpacityCompatibility);
      SetLayer(layer.UpdateResult(PaintResult(current, Spec.SaveLayerFlags(withPaint)),
                                  Spec.BlendModeOf(current, withPaint)));
      if Spec.LayerFloods(current, withPaint, backdrop) {
        var unclipped := AccumulateFlood();
      }
    }

    method LayerEntryOf(filter: Option<ImageFilter>, bounds: Option<Rect>, saveDepth: nat,
                        saveOffset: nat) returns (info: SaveInfo)
      requires saveStack != [] && layers != [] && saveDepth == depth && saveOffset == |storage|
      ensures info == Spec.LayerEntry(fx, State(), filter, bounds)
    {
      var global := Spec.LayerCull(fx, saveStack[|saveStack| - 1].global, filter);
      if bounds.Some? {
        global := global.ClipRect(bounds.value, Intersect);
      }
      info := Spec.SaveInfo(Spec.SaveMark(true, false, saveDepth, saveOffset), false, false, global,
                            Spec.Tracker(MAX_CULL_RECT, IDENTITY));
    }

    // -------------------------------------------------------------- restore

    /** `Restore` without the logging: back-patches the save record, hands the bounds
        of a layer to its parent, and pops the entry. */
    method RestoreEntry()
      requires CachesHold() && Nesting.WellFormed(State()) && RTree.Bookkept(State())
      modifies this`storage, this`depth, this`opIndex, this`saveStack, this`layers, this`rtreeData
      ensures CachesHold() && State() == Spec.Restore(fx, old(State()))
    {
      if |saveStack| <= 1 {
        return;
      }
      hide Nesting.WellFormed, RTree.Bookkept, Spec.CloseEntry, Spec.NamesItsSave;
      ghost var before := State();
      if !saveStack[|saveStack| - 1].mark.deferred {
        Nesting.RestoreIsReady(before);
        CloseEntry(before);
      }
      PopEntry();
      assert State() == Spec.Restore(fx, before) by { RestoreIsPop(fx, before); }
    }

    /** The entry below the top one becomes the top. */
    method PopEntry()
      requires CachesHold() && |saveStack| >= 2
      modifies this`saveStack
      ensures CachesHold()
      ensures var s := old(State());
        State() == s.(below := s.below[..|s.below| - 1], top := s.below[|s.below| - 1])
    {
      saveStack := saveStack[..|saveStack| - 1];
    }

    /** Settles the record of the top entry, and records the restore. */
    method CloseEntry(ghost before: Spec.BuilderState)
      requires CachesHold() && before == State() && RTree.Bookkept(before) && before.below != []
      requires Spec.NamesItsSave(before) && (before.top.mark.isSaveLayer ==> before.outer != [])
      modifies this`storage, this`depth, this`opIndex, this`layers, this`rtreeData
      ensures CachesHold() && State() == Spec.CloseEntry(fx, before)
    {
      hide RTree.Bookkept, Spec.SettledLayer, Spec.TransferLayerBounds, Spec.ContentBounds;
      var info := saveStack[|saveStack| - 1];
      var op := Spec.PatchSave(storage[info.mark.saveOffset], opIndex, depth - info.mark.saveDepth);
      storage := storage[info.mark.saveOffset := op];
      if info.mark.isSaveLayer {
        RestoreLayer(before);
      }
      Push(RestoreRecord);
    }

    /** Settles the record of the closing layer, and merges the layer into its parent. */
    method RestoreLayer(ghost before: Spec.BuilderState)
      requires CachesHold() && |saveStack| >= 2 && |layers| >= 2
      requires RTree.Bookkept(before) && rtreeData == before.rtree && State().layer == before.layer
      requires State().top.mark.saveOffset < |storage| && storage[State().top.mark.saveOffset].SaveLayerRecord?
      modifies this`storage, this`depth, this`layers, this`rtreeData
      ensures CachesHold()
      ensures var s := old(State());
        var record := s.records[s.top.mark.saveOffset];
        var acc := Spec.TransferLayerBounds(fx, s.layer, s.rtree, s.below[|s.below| - 1], s.outer[|s.outer| - 1],
                                            |s.records|, Spec.ContentBounds(s.layer, record));
        State() == s.(records := s.records[s.top.mark.saveOffset := Spec.SettledLayer(record, s.layer)],
                      depth := s.depth + Spec.DepthCost(s.paint),
                      outer := s.outer[..|s.outer| - 1], layer := acc.layer, rtree := acc.rtree)
    {
      hide Spec.TransferLayerBounds, RTree.TreeOk;
      depth := depth + renderOpDepthCost;
      var layer := layers[|layers| - 1];
      var offset := saveStack[|saveStack| - 1].mark.saveOffset;
      var content := Spec.ContentBounds(layer, storage[offset]);
      storage := storage[offset := Spec.SettledLayer(storage[offset], layer)];
      RTree.Paired(before.rtree, before.records);
      TransferLayerBounds(content);
      layers := layers[..|layers| - 1];
    }

    method TransferLayerBounds(content: Rect)
      requires saveStack != [] && |saveStack| >= 2 && |layers| >= 2
      requires Spec.CanAdjust(rtreeData, layers[|layers| - 1].rtreeStart)
      modifies this`layers, this`rtreeData
      ensures |layers| == |old(layers)|
      ensures var n := |layers|;
        var acc := Spec.TransferLayerBounds(fx, old(layers)[n - 1], old(rtreeData), saveStack[|saveStack| - 2],
                                            old(layers)[n - 2], opIndex, content);
        rtreeData == acc.rtree && layers == old(layers)[n - 2 := acc.layer]
    {
      hide Spec.AccumulateUnbounded, Spec.AccumulateBoundsLocal, Spec.AnyRectFloods, Spec.AdjustRTreeRects;
      var n := |layers|;
      var layer, parent := layers[n - 1], saveStack[|saveStack| - 2];
      if layer.filter.None? {
        layers := layers[n - 2 := Spec.AccumulateBoundsLocal(layers[n - 2], parent, content)];
        return;
      }
      var filter := layer.filter.value;
      var parentIsFlooded;
      var boundsForParent := content;
      rtreeData, parentIsFlooded :=
        RTree.AdjustInPlace(fx, rtreeData, filter, parent.global.matrix, parent.global.cull, layer.rtreeStart);
      if !parentIsFlooded && !boundsForParent.IsEmpty() {
        var mapped := (fx.mapLocal)(filter, boundsForParent);
        if mapped.Some? {
          boundsForParent := mapped.value;
        } else {
          parentIsFlooded := true;
        }
      }
      if parentIsFlooded {
        var unclipped := AccumulateUnbounded(parent, n - 2);
      } else {
        layers := layers[n - 2 := Spec.AccumulateBoundsLocal(layers[n - 2], parent, boundsForParent)];
      }
    }

    method Restore()
      requires Valid()
      modifies this
      ensures Valid() && calls == old(calls) + [Spec.RestoreCall]
    {
      hide Spec.Run, Spec.Restore;
      Nesting.RunIsWellFormed(fx, originalCullRect, calls);
      RTree.RunIsBookkept(fx, originalCullRect, calls);
      RestoreEntry();
      Log(Spec.RestoreCall);
    }

    /** Restores down to `count` entries, as a loop over the save stack. */
    method RestoreEntries(count: int)
      requires CachesHold() && Nesting.WellFormed(State()) && RTree.Bookkept(State())
      modifies this`storage, this`depth, this`opIndex, this`saveStack, this`layers, this`rtreeData
      ensures CachesHold() && State() == Spec.RestoreToCount(fx, old(State()), count)
    {
      hide Spec.Restore, Nesting.WellFormed, RTree.Bookkept;
      ghost var before := State();
      while |saveStack| > count && |saveStack| > 1
        invariant CachesHold() && Nesting.WellFormed(State()) && RTree.Bookkept(State())
        invariant Spec.RestoreToCount(fx, before, count) == Spec.RestoreToCount(fx, State(), count)
        decreases |saveStack|
      {
        ghost var s := State();
        Nesting.RestoreKeepsForm(fx, s);
        Nesting.RestoreShrinks(fx, s);
        RTree.RestoreKeepsBooks(fx, s);
        RestoreEntry();
      }
    }

    method RestoreToCount(count: int)
      requires Valid()
      modifies this
      ensures Valid() && calls == old(calls) + [Spec.RestoreToCountCall(count)]
    {
      hide Spec.Run, Spec.RestoreToCount;
      Nesting.RunIsWellFormed(fx, originalCullRect, calls);
      RTree.RunIsBookkept(fx, originalCullRect, calls);
      RestoreEntries(count);
      Log(Spec.RestoreToCountCall(count));
    }

    // ---------------------------------------------------------------- build

    /** Closes what is open, packs the list, and starts afresh. */
    method Build() returns (list: Spec.DisplayList)
      requires Valid()
      modifies this
      ensures Valid() && calls == []
      ensures list == Spec.Packed(Spec.Finished(fx, originalCullRect, old(calls)))
    {
      hide Spec.Run, Spec.RestoreToCount;
      Nesting.RunIsWellFormed(fx, originalCullRect, calls);
      RTree.RunIsBookkept(fx, originalCullRect, calls);
      RestoreEntries(1);
      var layer := layers[|layers| - 1];
      list := Spec.DisplayList(storage, depth, rtreeData,
                RootProperties(layer.flags.isUnbounded, layer.flags.containsBackdrop, layer.maxBlendMode,
                               layer.IsGroupOpacityCompatible(), layer.flags.affectsTransparent));
      Reset();
    }

    method Reset()
      modifies this
      ensures Valid() && calls == []
    {
      calls := [];
      storage, depth, opIndex, renderOpDepthCost := [], 0, 0, 1;
      var init := Spec.Init(originalCullRect);
      saveStack, layers, rtreeData := [init.top], [init.layer], init.rtree;
      current, currentOpacityCompatibility := DEFAULT_PAINT, true;
      assert saveStack[..|saveStack| - 1] == [] && layers[..|layers| - 1] == [];
      assert State() == init;
    }
  }
}
