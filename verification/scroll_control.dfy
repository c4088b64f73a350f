/**
 * Programmatic scrolling: `scrollTo`, the item target of `scrollToItem` and the rule that
 * re-issues the scroll when the target moved while scrolling.
 */
module ScrollControl {
  import opened Wrappers
  import opened Geometry
  import opened Measurements
  import opened Sizes
  import opened Offsets
  import opened Ranges
  import opened Easing
  import opened ScrollOptions
  import opened LegacyUtils
  import opened Config
  import opened EngineState
  import opened Publish
  import opened Updates

  /** The offset a scroll effect ends at. */
  function Target(x: Effect): real
    requires x.WriteScroll? || x.AnimateScroll?
  {
    if x.WriteScroll? then x.offset else x.to
  }

  /**
   * `scrollTo(value)`: nothing while unmounted; otherwise remeasure, clamp the requested
   * offset, and either write it at once or, when `smooth` is `true`, animate from the cached
   * offset over the configured duration.
   */
  function ScrollTo(e: Engine, value: ScrollToArg): (r: Result<Step, SizeError>)
    requires Wf(e)
    ensures !e.mounted ==> r == Ok(Step(e, []))
    ensures r.Err? ==> e.mounted && e.dev
    ensures e.mounted ==> (r.Ok? <==> Remeasured(e).Ok?)
    ensures r.Ok? && e.mounted ==>
      var requested := GetScrollToOptions(value).offset;
      var m := r.value.engine.measurements;
      && r.value.engine == Remeasured(e).value
      && |r.value.effects| == 1
      && (r.value.effects[0].AnimateScroll? <==> GetScrollToOptions(value).smooth == Some(true))
      && (r.value.effects[0].WriteScroll? || r.value.effects[0].AnimateScroll?)
      && Target(r.value.effects[0]) <= requested
      && (e.rev == Core ==> Target(r.value.effects[0]) <= ScrollLimit(m, ViewportSize(e)))
      && (e.rev == Legacy ==> Target(r.value.effects[0]) <= LegacyScrollLimit(m, ViewportSize(e)))
      && (e.rev == Core && requested <= ScrollLimit(m, ViewportSize(e)) ==> Target(r.value.effects[0]) == requested)
      && Target(r.value.effects[0]) == Clamp(e.rev, m, ViewportSize(e), requested)
    ensures r.Ok? && e.mounted && r.value.effects[0].AnimateScroll? ==>
      var config := GetScrollingOptions(e.opts.scrolling);
      var x := r.value.effects[0];
      && x.from == e.scrollOffset
      && x.easing == config.easing
      && x.duration == GetDuration(config.duration, Abs(x.to - x.from))
      && (config.duration == DefaultDuration ==> 100.0 <= x.duration <= 500.0)
  {
    if !e.mounted then Ok(Step(e, []))
    else
      var e1 :- Remeasured(e);
      var config := GetScrollToOptions(value);
      var offset := Clamp(e.rev, e1.measurements, ViewportSize(e1), config.offset);
      if config.smooth == Some(true) then
        var scrolling := GetScrollingOptions(e.opts.scrolling);
        var duration := GetDuration(scrolling.duration, Abs(offset - e.scrollOffset));
        Ok(Step(e1, [AnimateScroll(e.scrollOffset, offset, duration, scrolling.easing)]))
      else Ok(Step(e1, [WriteScroll(offset)]))
  }

  /** The offset of one animation frame: the eased progress applied to the distance. */
  function FrameOffset(eased: real, from: real, to: real): real {
    eased * (to - from) + from
  }

  /** `Math.min(1, (now() - start) / duration)`: the animation time `elapsed` ms after the start. */
  function FrameTime(elapsed: real, duration: real): (t: real)
    requires duration > 0.0
    ensures t <= 1.0
    ensures 0.0 <= elapsed ==> 0.0 <= t
    ensures t == 1.0 <==> elapsed >= duration
  {
    var q := elapsed / duration;
    assert q * duration == elapsed;
    assert q >= 1.0 <==> elapsed >= duration;
    Min(1.0, q)
  }

  /** The offset the frame `elapsed` ms into the animation `x` writes, for the curve values `ease`. */
  function Frame(x: Effect, ease: real -> real, elapsed: real): (r: real)
    requires x.AnimateScroll? && x.duration > 0.0
    ensures var p := ease(FrameTime(elapsed, x.duration));
      0.0 <= p <= 1.0 ==> Min(x.from, x.to) <= r <= Max(x.from, x.to)
  {
    var p := ease(FrameTime(elapsed, x.duration));
    assert 0.0 <= p <= 1.0 ==> Min(x.from, x.to) <= FrameOffset(p, x.from, x.to) <= Max(x.from, x.to) by {
      if 0.0 <= p <= 1.0 {
        FrameBetween(p, x.from, x.to);
      }
    }
    FrameOffset(p, x.from, x.to)
  }

  /** An eased progress in [0, 1] places the frame between the two ends. */
  lemma FrameBetween(p: real, from: real, to: real)
    requires 0.0 <= p <= 1.0
    ensures Min(from, to) <= FrameOffset(p, from, to) <= Max(from, to)
  {
    var step := p * (to - from);
    StepWithin(p, from, to);
    assert FrameOffset(p, from, to) == step + from;
  }

  /** A fraction of the signed distance lies between zero and the whole distance. */
  lemma StepWithin(p: real, from: real, to: real)
    requires 0.0 <= p <= 1.0
    ensures from <= to ==> 0.0 <= p * (to - from) <= to - from
    ensures to < from ==> to - from <= p * (to - from) <= 0.0
  {
    if from <= to {
      ScaleWithin(p, from, to);
    } else {
      ScaleWithin(p, to, from);
      assert p * (to - from) == -(p * (from - to));
    }
  }

  /** A fraction of the distance from `lo` up to `hi` is no larger than the distance. */
  lemma ScaleWithin(p: real, lo: real, hi: real)
    requires 0.0 <= p <= 1.0 && lo <= hi
    ensures 0.0 <= p * (hi - lo) <= hi - lo
  {
    MulNonNegative(p, hi - lo);
    MulNonNegative(1.0 - p, hi - lo);
    assert p * (hi - lo) + (1.0 - p) * (hi - lo) == hi - lo;
  }

  lemma MulNonNegative(a: real, b: real)
    requires 0.0 <= a && 0.0 <= b
    ensures 0.0 <= a * b
  {
  }

  /** The frame loop requests another frame exactly while the animation time is below 1. */
  predicate FrameContinues(x: Effect, elapsed: real)
    requires x.AnimateScroll? && x.duration > 0.0
  {
    FrameTime(elapsed, x.duration) < 1.0
  }

  /**
   * For a curve that maps 0 to 0 and 1 to 1, an animation starts at the cached offset, and
   * the frame loop stops exactly once the duration has elapsed, on a frame that writes the target.
   */
  lemma AnimationEndsOnTarget(x: Effect, ease: real -> real, elapsed: real)
    requires x.AnimateScroll? && x.duration > 0.0
    requires ease(0.0) == 0.0 && ease(1.0) == 1.0
    ensures Frame(x, ease, 0.0) == x.from
    ensures !FrameContinues(x, elapsed) <==> elapsed >= x.duration
    ensures !FrameContinues(x, elapsed) ==> Frame(x, ease, elapsed) == x.to
  {
    assert FrameTime(0.0, x.duration) == 0.0;
  }

  /** The first revision's ease-out-cubic curve meets the end conditions. */
  lemma EaseOutCubicEndsOnTarget(x: Effect, elapsed: real)
    requires x.AnimateScroll? && x.duration > 0.0
    ensures !FrameContinues(x, elapsed) ==> Frame(x, EasingImpl, elapsed) == x.to
  {
    AnimationEndsOnTarget(x, EasingImpl, elapsed);
  }

  /**
   * On a remeasured cache that is chained, non-empty and of positive sizes, `scrollTo` aims at
   * the smaller of the request and content size minus viewport, in either revision and
   * whether or not it animates.
   */
  lemma ScrollToTargetIsMin(e: Engine, value: ScrollToArg, e1: Engine)
    requires Wf(e) && e.mounted && ChainOk(e) && Remeasured(e) == Ok(e1)
    requires Positive(e1.measurements) && |e1.measurements| > 0
    ensures ScrollTo(e, value).Ok?
    ensures Target(ScrollTo(e, value).value.effects[0])
      == Min(GetScrollToOptions(value).offset, Total(e1.measurements) - ViewportSize(e))
  {
    assert Chained(e1.measurements);
    ClampIsMin(e.rev, e1.measurements, ViewportSize(e), GetScrollToOptions(value).offset);
  }

  /** The offset an alignment asks for, before clamping; `Auto` (or no alignment) keeps a visible item put. */
  function Aligned(x: Measurement, viewport: real, current: real, align: Option<Align>): (r: real)
    ensures align == Some(Start) ==> r == x.start
    ensures align == Some(End) ==> r == x.end - viewport
    ensures align == Some(Center) ==> r + viewport / 2.0 == x.start + x.size / 2.0
    ensures !(align.Some? && align.value != Auto) ==>
      (x.end <= current ==> r == x.start)
      && (current < x.end && x.start >= current + viewport ==> r == x.end - viewport)
      && (current < x.end && x.start < current + viewport ==> r == current)
  {
    match align
    case Some(Start) => x.start
    case Some(Center) => x.start + x.size / 2.0 - viewport / 2.0
    case Some(End) => x.end - viewport
    case _ =>
      if x.end <= current then x.start
      else if x.start >= current + viewport then x.end - viewport
      else current
  }

  /** `Math.max(0, Math.min(index, maxIndex))`. */
  function ClampIndex(index: int, length: nat): (r: nat)
    requires length > 0
    ensures r < length
    ensures 0 <= index < length ==> r == index
    ensures index < 0 ==> r == 0
    ensures index >= length ==> r == length - 1
  {
    if index < 0 then 0 else if index >= length then length - 1 else index
  }

  /**
   * `getOffset(index)` inside `scrollToItem`: `-1` while unmounted or when the remeasured
   * cache is empty; otherwise the aligned offset of the clamped index, clamped to the scroll
   * limit and then to at least 0. Returns the remeasured engine with the offset.
   */
  function ItemOffset(e: Engine, index: int, align: Option<Align>): (r: Result<(Engine, real), SizeError>)
    requires Wf(e)
    ensures !e.mounted ==> r.Ok? && r.value.0 == e && r.value.1 == -1.0
    ensures r.Err? ==> e.mounted && e.dev
    ensures e.mounted ==> (r.Ok? <==> Remeasured(e).Ok?)
    ensures r.Ok? && e.mounted ==> r.value.0 == Remeasured(e).value
    ensures r.Ok? ==> (r.value.1 == -1.0 <==> !e.mounted || |r.value.0.measurements| == 0)
    ensures r.Ok? ==> r.value.1 == -1.0 || r.value.1 >= 0.0
    ensures r.Ok? && e.mounted && e.rev == Core && |r.value.0.measurements| > 0 ==>
      r.value.1 <= Max(0.0, ScrollLimit(r.value.0.measurements, ViewportSize(e)))
    ensures r.Ok? && e.mounted && |r.value.0.measurements| > 0 ==>
      var m := r.value.0.measurements;
      Chained(m) && Positive(m) ==>
        r.value.1 == Max(0.0, Min(Aligned(m[ClampIndex(index, |m|)], ViewportSize(e), e.scrollOffset, align), Total(m) - ViewportSize(e)))
  {
    if !e.mounted then Ok((e, -1.0))
    else
      var e1 :- Remeasured(e);
      var m := e1.measurements;
      if |m| == 0 then Ok((e1, -1.0))
      else
        var vp := ViewportSize(e1);
        var a := Aligned(m[ClampIndex(index, |m|)], vp, e.scrollOffset, align);
        assert Chained(m) && Positive(m) ==> Clamp(e.rev, m, vp, a) == Min(a, Total(m) - vp) by {
          if Chained(m) && Positive(m) {
            ClampIsMin(e.rev, m, vp, a);
          }
        }
        Ok((e1, Max(0.0, Clamp(e.rev, m, vp, a))))
  }

  /** Whether the completion callback re-issues `scrollToItem`: the target exists and moved. */
  predicate ReissueNeeded(offset: real, next: real) {
    next >= 0.0 && next != offset
  }

  /**
   * `scrollToItem(value)`: nothing while unmounted; otherwise resolve the item's target and,
   * when there is one, `scrollTo` it with the requested smoothness.
   */
  function ScrollToItem(e: Engine, value: ScrollToItemArg): (r: Result<Step, SizeError>)
    requires Wf(e)
    ensures !e.mounted ==> r == Ok(Step(e, []))
    ensures r.Err? ==> e.mounted && e.dev
    ensures r.Ok? ==> Wf(r.value.engine) && |r.value.effects| <= 1
    ensures r.Ok? && e.mounted ==>
      var o := GetScrollToItemOptions(value);
      ItemOffset(e, o.index, o.align).Ok?
      && (|r.value.effects| == 1 <==> ItemOffset(e, o.index, o.align).value.1 >= 0.0)
    ensures r.Ok? && e.mounted ==>
      var o := GetScrollToItemOptions(value);
      var p := ItemOffset(e, o.index, o.align).value;
      p.1 >= 0.0 ==>
        && r.value == ScrollTo(p.0, OffsetObject(ScrollToOptions(p.1, o.smooth))).value
        && r.value.engine == p.0
        && (r.value.effects[0].AnimateScroll? <==> o.smooth == Some(true))
        && Target(r.value.effects[0]) == Clamp(e.rev, p.0.measurements, ViewportSize(e), p.1)
  {
    if !e.mounted then Ok(Step(e, []))
    else
      var o := GetScrollToItemOptions(value);
      var p :- ItemOffset(e, o.index, o.align);
      if p.1 >= 0.0 then
        assert Remeasured(p.0) == Ok(p.0);
        ScrollTo(p.0, OffsetObject(ScrollToOptions(p.1, o.smooth)))
      else Ok(Step(p.0, []))
  }

  /**
   * The completion callback's check: recompute the target with the current engine; report
   * whether the scroll must be issued again.
   */
  function SettleCheck(e: Engine, o: ScrollToItemOptions, offset: real): (r: Result<(Engine, bool), SizeError>)
    requires Wf(e)
    ensures r.Ok? <==> ItemOffset(e, o.index, o.align).Ok?
    ensures r.Ok? ==> r.value.1 == ReissueNeeded(offset, ItemOffset(e, o.index, o.align).value.1)
    ensures r.Ok? && !e.mounted ==> !r.value.1
  {
    var p :- ItemOffset(e, o.index, o.align);
    Ok((p.0, ReissueNeeded(offset, p.1)))
  }

  /** Clamping to `[0, total - viewport]` keeps a window that overlapped an item overlapping it. */
  lemma ClampKeepsOverlap(start: real, end: real, total: real, viewport: real, a: real)
    requires 0.0 <= start < end <= total && viewport > 0.0
    requires start < a + viewport && end > a
    ensures var t := Max(0.0, Min(a, total - viewport)); start < t + viewport && end > t
  {
  }

  /** Every alignment asks for a window that overlaps the item. */
  lemma AlignedOverlaps(x: Measurement, viewport: real, current: real, align: Option<Align>)
    requires Consistent(x) && x.size > 0.0 && viewport > 0.0
    ensures var a := Aligned(x, viewport, current, align); x.start < a + viewport && x.end > a
  {
  }

  /** The clamped target of a non-empty, positive, chained cache, in either revision. */
  lemma ClampIsMin(rev: Revision, m: seq<Measurement>, viewport: real, a: real)
    requires Chained(m) && Positive(m) && |m| > 0
    ensures Clamp(rev, m, viewport, a) == Min(a, Total(m) - viewport)
    ensures Total(m) > 0.0
  {
    assert NonNegative(m);
    ChainedWithinTotal(m, |m| - 1);
    assert Consistent(m[|m| - 1]);
    ClampsAgree(m, viewport, a);
  }

  /**
   * After `scrollToItem`'s target is computed on a chained cache of positive sizes and a
   * viewport of some size, the window at that target shows the item, for every alignment.
   */
  lemma ScrolledItemIsVisible(e: Engine, index: int, align: Option<Align>)
    requires Wf(e) && e.mounted && ChainOk(e) && ViewportSize(e) > 0.0
    requires ItemOffset(e, index, align).Ok?
    requires Positive(ItemOffset(e, index, align).value.0.measurements)
    requires |ItemOffset(e, index, align).value.0.measurements| > 0
    ensures var m := ItemOffset(e, index, align).value.0.measurements;
      Intersects(m, ClampIndex(index, |m|), ItemOffset(e, index, align).value.1, ViewportSize(e))
  {
    var m := ItemOffset(e, index, align).value.0.measurements;
    var i := ClampIndex(index, |m|);
    var vp := ViewportSize(e);
    var a := Aligned(m[i], vp, e.scrollOffset, align);
    assert Chained(m);
    assert NonNegative(m);
    assert Consistent(m[i]);
    ChainedWithinTotal(m, i);
    ClampIsMin(e.rev, m, vp, a);
    AlignedOverlaps(m[i], vp, e.scrollOffset, align);
    ClampKeepsOverlap(m[i].start, m[i].end, Total(m), vp, a);
  }

  /** Aligning again from the clamped target of an item lands on the same target. */
  lemma TargetIsFixedPoint(x: Measurement, total: real, viewport: real, current: real, align: Option<Align>)
    requires Consistent(x) && x.size > 0.0 && 0.0 <= x.start && x.end <= total && viewport > 0.0
    ensures var t := Max(0.0, Min(Aligned(x, viewport, current, align), total - viewport));
      Max(0.0, Min(Aligned(x, viewport, t, align), total - viewport)) == t
  {
    var a := Aligned(x, viewport, current, align);
    var t := Max(0.0, Min(a, total - viewport));
    AlignedOverlaps(x, viewport, current, align);
    ClampKeepsOverlap(x.start, x.end, total, viewport, a);
    var a' := Aligned(x, viewport, t, align);
    assert a' == a || a' == t;
  }

  /** On a clean, chained cache of positive sizes, the target needs no remeasure and is the clamped alignment. */
  lemma ItemOffsetOnCleanCache(e: Engine, index: int, align: Option<Align>)
    requires Wf(e) && e.mounted && e.remeasureIndex == -1 && Chained(e.measurements)
    requires Positive(e.measurements) && |e.measurements| > 0
    ensures var m := e.measurements;
      ItemOffset(e, index, align)
      == Ok((e, Max(0.0, Min(Aligned(m[ClampIndex(index, |m|)], ViewportSize(e), e.scrollOffset, align), Total(m) - ViewportSize(e)))))
  {
    assert Remeasured(e) == Ok(e);
  }

  /**
   * Convergence: on a clean cache that does not change, once the scroll has landed on the
   * target the completion check computes the same target again and does not re-issue.
   */
  lemma LandedScrollNeedsNoReissue(e: Engine, index: int, align: Option<Align>)
    requires Wf(e) && e.mounted && e.remeasureIndex == -1 && Chained(e.measurements)
    requires Positive(e.measurements) && |e.measurements| > 0 && ViewportSize(e) > 0.0
    ensures ItemOffset(e, index, align).Ok?
    ensures var t := ItemOffset(e, index, align).value.1;
      var landed := e.(scrollOffset := t);
      ItemOffset(landed, index, align) == Ok((landed, t))
      && !ReissueNeeded(t, t)
  {
    var m := e.measurements;
    var i := ClampIndex(index, |m|);
    ItemOffsetOnCleanCache(e, index, align);
    var t := ItemOffset(e, index, align).value.1;
    var landed := e.(scrollOffset := t);
    ItemOffsetOnCleanCache(landed, index, align);
    assert NonNegative(m) && Consistent(m[i]);
    ChainedWithinTotal(m, i);
    TargetIsFixedPoint(m[i], Total(m), ViewportSize(e), e.scrollOffset, align);
  }

  /**
   * When the content is at least a viewport long, the offset `scrollToItem` writes is exactly
   * the computed target; shorter content gets a negative offset written, since `scrollTo`
   * clamps again without a lower bound.
   */
  lemma ScrollToItemWritesTarget(e: Engine, index: int, align: Option<Align>)
    requires Wf(e) && e.mounted && e.remeasureIndex == -1 && Chained(e.measurements)
    requires Positive(e.measurements) && |e.measurements| > 0
    ensures ScrollToItem(e, IndexObject(ScrollToItemOptions(index, Option.None, align))).Ok?
    ensures var s := ScrollToItem(e, IndexObject(ScrollToItemOptions(index, Option.None, align))).value;
      var t := ItemOffset(e, index, align).value.1;
      s.effects[0].WriteScroll?
      && (Total(e.measurements) >= ViewportSize(e) ==> s.effects[0].offset == t)
      && (Total(e.measurements) < ViewportSize(e) ==> s.effects[0].offset == Total(e.measurements) - ViewportSize(e) < 0.0)
  {
    assert Remeasured(e) == Ok(e);
    var t := ItemOffset(e, index, align).value.1;
    var m := e.measurements;
    var vp := ViewportSize(e);
    var i := ClampIndex(index, |m|);
    ClampIsMin(e.rev, m, vp, Aligned(m[i], vp, e.scrollOffset, align));
    ClampIsMin(e.rev, m, vp, t);
  }
}
