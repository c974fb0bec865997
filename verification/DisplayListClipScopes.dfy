/**
 Which clips are in force. The builder keeps one flag for every entry; in every run the flag
 says whether a clip was recorded since the innermost open layer began.
 */
module DisplayListClipScopes {
  import opened Options
  import opened DisplayListTypes
  import opened DisplayListPaint
  import opened DisplayListBuilderSpec
  import opened DisplayListNesting
  import opened DisplayListTransforms

  /** The clips in force in every open scope. */
  datatype ClipScopes = ClipScopes(below: seq<seq<Rect>>, top: seq<Rect>)

  function Closed(cs: ClipScopes): ClipScopes {
    if cs.below == [] then cs else ClipScopes(cs.below[..|cs.below| - 1], cs.below[|cs.below| - 1])
  }

  function ClosedTo(cs: ClipScopes, count: int): ClipScopes
    decreases |cs.below|
  {
    if cs.below == [] || |cs.below| + 1 <= count then cs else ClosedTo(Closed(cs), count)
  }

  /** What a call that adds `added` records does to the clips in force. */
  function ClipsAfter(cs: ClipScopes, call: Call, added: bool): ClipScopes {
    match call
    case ClipCall(r, _) => if added then cs.(top := cs.top + [r]) else cs
    case SaveCall => cs.(below := cs.below + [cs.top])
    case SaveLayerCall(_, _, _) => ClipScopes(cs.below + [cs.top], if added then [] else cs.top)
    case RestoreCall => Closed(cs)
    case RestoreToCountCall(count) => ClosedTo(cs, count)
    case _ => cs
  }

  function ClipsOf(fx: FilterBounds, cull: Rect, calls: seq<Call>): ClipScopes {
    if calls == [] then ClipScopes([], [])
    else
      var init := calls[..|calls| - 1];
      ClipsAfter(ClipsOf(fx, cull, init), calls[|calls| - 1],
                 |Run(fx, cull, calls).records| > |Run(fx, cull, init).records|)
  }

  predicate Flags(s: BuilderState, cs: ClipScopes) {
    && |s.below| == |cs.below| && (s.top.hasValidClip <==> cs.top != [])
    && (forall k :: 0 <= k < |cs.below| ==> (s.below[k].hasValidClip <==> cs.below[k] != []))
  }

  lemma RestoreFlags(fx: FilterBounds, s: BuilderState, cs: ClipScopes)
    requires Flags(s, cs)
    ensures Flags(Restore(fx, s), Closed(cs))
  {
    RestoredMatrices(fx, s);
    hide Restore;
  }

  lemma {:induction false} RestoresFlag(fx: FilterBounds, s: BuilderState, cs: ClipScopes, count: int)
    requires Flags(s, cs)
    ensures Flags(RestoreToCount(fx, s, count), ClosedTo(cs, count))
    decreases |s.below|
  {
    assert |s.below| == |cs.below|;
    if s.below != [] && |s.below| + 1 > count {
      hide Restore, Flags, Closed;
      RestoreFlags(fx, s, cs);
      RestoreShrinks(fx, s);
      RestoresFlag(fx, Restore(fx, s), Closed(cs), count);
    }
  }

  lemma ClipFlags(s: BuilderState, r: Rect, op: ClipOp)
    ensures var u := Clip(s, r, op);
      u.below == s.below && (u.top.hasValidClip <==> s.top.hasValidClip || |u.records| > |s.records|)
  {
    hide ClipIsRedundant, CullIsEmpty, Tracker.ClipRect;
  }

  lemma NewLayerFlags(fx: FilterBounds, s: BuilderState, bounds: Option<Rect>, withPaint: bool,
                    backdrop: Option<ImageFilter>)
    ensures var u := SaveLayer(fx, s, bounds, withPaint, backdrop);
      u.below == s.below + [s.top]
        && u.top.hasValidClip == (|u.records| == |s.records| && s.top.hasValidClip)
        && |u.records| >= |s.records|
  {
    hide AccumulateLayer, PaintResult, IsOpacityCompatible, Tracker.ClipRect, LayerCull;
  }

  lemma OthersKeepFlags(fx: FilterBounds, s: BuilderState, call: Call)
    requires call.SetAttributeCall? || call.TransformCall? || call.DrawCall? || call.DrawListCall?
    ensures var u := Step(fx, s, call);
      u.below == s.below && u.top.hasValidClip == s.top.hasValidClip
  {
    hide AccumulateGeometry, AccumulateRects, AccumulateUnbounded, PaintResult, IsOpacityCompatible, ChangesMatrix,
      Attribute.ApplyTo, Matrix.IsInvertible, Matrix.Invert, Matrix.Times, MatrixOf;
  }

  lemma StepFlags(fx: FilterBounds, s: BuilderState, call: Call, cs: ClipScopes)
    requires Flags(s, cs)
    ensures Flags(Step(fx, s, call), ClipsAfter(cs, call, |Step(fx, s, call).records| > |s.records|))
  {
    hide Transform, SaveLayer, Restore, RestoreToCount, DrawOp, DrawDisplayList, Clip, SetAttribute;
    match call
    case ClipCall(r, op) => ClipFlags(s, r, op);
    case SaveLayerCall(bounds, withPaint, backdrop) => NewLayerFlags(fx, s, bounds, withPaint, backdrop);
    case SaveCall =>
    case RestoreCall => RestoreFlags(fx, s, cs);
    case RestoreToCountCall(count) => RestoresFlag(fx, s, cs, count);
    case _ => OthersKeepFlags(fx, s, call);
  }

  lemma {:induction false} RunFlags(fx: FilterBounds, cull: Rect, calls: seq<Call>)
    ensures Flags(Run(fx, cull, calls), ClipsOf(fx, cull, calls))
  {
    if calls != [] {
      var init, last := calls[..|calls| - 1], calls[|calls| - 1];
      RunFlags(fx, cull, init);
      StepFlags(fx, Run(fx, cull, init), last, ClipsOf(fx, cull, init));
    }
    hide Step, ClipsAfter;
  }

  /** In every run the current entry has a valid clip if and only if a clip was recorded that
      is in force there: since the innermost open layer began, and not restored since. */
  lemma ClipIsValidExactly(fx: FilterBounds, cull: Rect, calls: seq<Call>)
    ensures Run(fx, cull, calls).top.hasValidClip <==> ClipsOf(fx, cull, calls).top != []
  {
    RunFlags(fx, cull, calls);
    hide Run, ClipsOf;
  }
}
