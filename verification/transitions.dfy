/**
 * The engine's reactions to the outside world: mounting and unmounting, a re-render with new
 * options, a viewport resize, a scroll event and its settle callback, an item resize and an
 * item's ref detaching.
 */
module Transitions {
  import opened Wrappers
  import opened Geometry
  import opened Measurements
  import opened Sizes
  import opened RenderState
  import opened Events
  import opened Equality
  import opened Config
  import opened EngineState
  import opened Remeasuring
  import opened Updates

  /**
   * The effect on `[count, size]`: a changed size policy empties the cache and marks it for a
   * full remeasure; otherwise a shorter `count` truncates the cache, and in the first revision
   * a longer one marks the new slots. The anchor is clamped into `[0, max(0, count - 1)]`.
   */
  function CountSizeEffect(e: Engine, o: Options, sizeChanged: bool): (r: Engine)
    requires Wf(e)
    ensures Pending(r) && r.opts == o
    ensures sizeChanged ==> r.measurements == [] && r.remeasureIndex == 0
    ensures !sizeChanged ==> r.measurements == e.measurements[..Min(|e.measurements| as real, o.count as real).Floor]
    ensures !sizeChanged && (e.rev == Core || |e.measurements| >= o.count) ==> r.remeasureIndex == e.remeasureIndex
    ensures !sizeChanged && e.rev == Legacy && |e.measurements| < o.count ==> r.remeasureIndex == |e.measurements|
    ensures r.anchor <= e.anchor && r.anchor == (if e.anchor <= o.count - 1 then e.anchor else if o.count > 0 then o.count - 1 else 0)
    ensures r == e.(opts := o, measurements := r.measurements, remeasureIndex := r.remeasureIndex, anchor := r.anchor)
  {
    var m := e.measurements;
    var (m', w') :=
      if sizeChanged then ([], 0)
      else if |m| > o.count then (m[..o.count], e.remeasureIndex)
      else if e.rev == Legacy && |m| < o.count then (m, |m|)
      else (m, e.remeasureIndex);
    var maxIndex := if o.count > 0 then o.count - 1 else 0;
    var anchor := if e.anchor <= maxIndex then e.anchor else maxIndex;
    assert !sizeChanged ==> m' == m[..Min(|m| as real, o.count as real).Floor];
    e.(opts := o, measurements := m', remeasureIndex := w', anchor := anchor)
  }

  /**
   * Mounting: the layout effect marks the engine mounted, then the passive effects run for the
   * first time; the size policy counts as changed because there is no previous one.
   */
  function Mount(e: Engine): (r: Result<Step, SizeError>)
    requires Wf(e)
    ensures r.Ok? ==> Wf(r.value.engine) && r.value.engine.mounted
    ensures r.Ok? ==> Chained(r.value.engine.measurements)
    ensures r.Ok? ==> |r.value.engine.measurements| == e.opts.count
  {
    var e1 := CountSizeEffect(e.(mounted := true), e.opts, true);
    assert e1.mounted && e1.measurements == [] && e1.remeasureIndex == 0;
    assert ChainOk(e1);
    Update(e1, e1.scrollOffset, ReachEnd)
  }

  /**
   * Unmounting. The first revision clears its mounted flag in an effect of its own. The
   * current revision clears it, and forgets its rendered items, only in the cleanup of the
   * effect that attached to the viewport element; `attached` says whether the element
   * existed, and without it the engine is left as it was, still mounted.
   */
  function Unmount(e: Engine, attached: bool): (r: Engine)
    ensures e.rev == Legacy || attached ==> !r.mounted
    ensures e.rev == Core && attached ==> r.items == map[]
    ensures e.rev == Core && !attached ==> r == e
    ensures r == e.(mounted := r.mounted, items := r.items)
  {
    match e.rev
    case Legacy => e.(mounted := false)
    case Core => if attached then e.(mounted := false, items := map[]) else e
  }

  /** The `[count, size]` effect followed by the update it triggers. */
  function Recount(e: Engine, o: Options, sizeChanged: bool): (r: Result<Step, SizeError>)
    requires Wf(e) && e.mounted
    ensures r.Err? ==> e.dev
    ensures r.Ok? ==> Wf(r.value.engine) && r.value.engine.opts == o
    ensures r.Ok? && (e.rev == Core || sizeChanged || |e.measurements| >= o.count) && ChainOk(e) ==> ChainOk(r.value.engine)
    ensures r.Ok? && e.rev == Legacy && !sizeChanged && |e.measurements| < o.count ==>
      |r.value.engine.measurements| == o.count
      && forall j :: 0 <= j < |e.measurements| ==> r.value.engine.measurements[j] == e.measurements[j]
  {
    var e1 := CountSizeEffect(e, o, sizeChanged);
    assert (e.rev == Core || sizeChanged || |e.measurements| >= o.count) && ChainOk(e) ==> ChainOk(e1) by {
      if (e.rev == Core || sizeChanged || |e.measurements| >= o.count) && ChainOk(e) {
        CountSizeEffectKeepsChain(e, o, sizeChanged);
      }
    }
    Update(e1, e1.scrollOffset, ReachEnd)
  }

  /**
   * A render with options `o`: the `[count, size]` effect runs when either changed, and an
   * update with the end-of-list flag runs when the count, the size policy or the axis changed.
   * Only a mounted hook re-renders.
   */
  function Rerender(e: Engine, o: Options): (r: Result<Step, SizeError>)
    requires Wf(e) && e.mounted
    ensures r.Err? ==> e.dev
    ensures r.Ok? ==> Wf(r.value.engine) && r.value.engine.opts == o
    ensures r.Ok? && e.rev == Core && ChainOk(e) ==> ChainOk(r.value.engine)
    ensures SamePolicy(o.size, e.opts.size) && o.count == e.opts.count && o.horizontal == e.opts.horizontal ==>
      r == Ok(Step(e.(opts := o), []))
    ensures r.Ok? && e.rev == Legacy && SamePolicy(o.size, e.opts.size) && o.count != e.opts.count && |e.measurements| < o.count ==>
      |r.value.engine.measurements| == o.count
      && forall j :: 0 <= j < |e.measurements| ==> r.value.engine.measurements[j] == e.measurements[j]
  {
    var sizeChanged := !SamePolicy(o.size, e.opts.size);
    if sizeChanged || o.count != e.opts.count then Recount(e, o, sizeChanged)
    else if o.horizontal != e.opts.horizontal then
      var e1 := e.(opts := o);
      assert Wf(e1) && (ChainOk(e) ==> ChainOk(e1));
      Update(e1, e.scrollOffset, ReachEnd)
    else Ok(Step(e.(opts := o), []))
  }

  /** Except for first-revision growth, the `[count, size]` effect keeps the chain invariant. */
  lemma CountSizeEffectKeepsChain(e: Engine, o: Options, sizeChanged: bool)
    requires Wf(e) && ChainOk(e)
    requires e.rev == Core || sizeChanged || |e.measurements| >= o.count
    ensures ChainOk(CountSizeEffect(e, o, sizeChanged))
  {
    var r := CountSizeEffect(e, o, sizeChanged);
    var n := if e.remeasureIndex >= 0 then e.remeasureIndex else |e.measurements|;
    var n' := if r.remeasureIndex >= 0 then r.remeasureIndex else |r.measurements|;
    forall j | 0 <= j < n' && j < |r.measurements|
      ensures Linked(r.measurements, j)
    {
      assert Linked(e.measurements, j);
    }
  }

  /**
   * A viewport resize observed while mounted: a rectangle equal to the current one changes
   * nothing; any other is stored and triggers an update with the resize and end-of-list flags.
   */
  function ViewportResized(e: Engine, rect: Rect): (r: Result<Step, SizeError>)
    requires Wf(e)
    ensures !e.mounted || IsEqualRect(rect, e.viewport) ==> r == Ok(Step(e, []))
    ensures r.Ok? ==> Wf(r.value.engine) && r.value.engine.viewport == (if e.mounted then rect else e.viewport)
    ensures r.Ok? && e.mounted && !IsEqualRect(rect, e.viewport) ==>
      Emits(r.value.effects, OnResize) && r.value.engine.remeasureIndex == -1
  {
    if !e.mounted || IsEqualRect(rect, e.viewport) then Ok(Step(e, []))
    else
      var r := Update(e.(viewport := rect), e.scrollOffset, Or(Resize, ReachEnd));
      assert HasEvent(Or(Resize, ReachEnd), Resize) by {
        HasEventOfUnion(Resize, ReachEnd);
      }
      r
  }

  /**
   * A scroll event at `offset`. An offset equal to the cached one is ignored (a scroll along
   * the other axis). Otherwise the engine is marked scrolling, updated with the scroll and
   * end-of-list flags (the scroll delta is taken against the old offset), the offset cached
   * and the settle callback scheduled. The current revision cancels a scheduled settle even
   * when the offset is unchanged; the first revision only when it changed.
   */
  function Scrolled(e: Engine, offset: real): (r: Result<Step, SizeError>)
    requires Wf(e)
    ensures !e.mounted ==> r == Ok(Step(e, []))
    ensures e.mounted && offset == e.scrollOffset ==>
      r == Ok(Step(if e.rev == Core then e.(settlePending := false) else e, []))
    ensures r.Ok? ==> Wf(r.value.engine)
    ensures r.Ok? && e.mounted && offset != e.scrollOffset ==>
      && r.value.engine.scrollOffset == offset && r.value.engine.scrolling && r.value.engine.settlePending
    ensures r.Ok? && Emits(r.value.effects, OnScroll) ==> e.mounted && offset != e.scrollOffset
  {
    if !e.mounted then Ok(Step(e, []))
    else if offset == e.scrollOffset then
      Ok(Step(if e.rev == Core then e.(settlePending := false) else e, []))
    else
      var s :- Update(e.(scrolling := true, settlePending := false), offset, Or(Scroll, ReachEnd));
      assert HasEvent(Or(Scroll, ReachEnd), Scroll) by {
        HasEventOfUnion(Scroll, ReachEnd);
      }
      Ok(Step(s.engine.(scrollOffset := offset, settlePending := true), s.effects))
  }

  /**
   * The settle callback two frames after the last scroll: scrolling ends; the current
   * revision then updates only when a remeasure is pending, the first revision always.
   */
  function ScrollSettled(e: Engine): (r: Result<Step, SizeError>)
    requires Wf(e)
    ensures !e.settlePending ==> r == Ok(Step(e, []))
    ensures r.Ok? ==> Wf(r.value.engine)
    ensures r.Ok? && e.settlePending ==> !r.value.engine.scrolling && !r.value.engine.settlePending
    ensures e.settlePending && e.rev == Core && e.remeasureIndex < 0 ==>
      r == Ok(Step(e.(scrolling := false, settlePending := false), []))
  {
    if !e.settlePending then Ok(Step(e, []))
    else
      var e1 := e.(scrolling := false, settlePending := false);
      if e.rev == Core && e.remeasureIndex < 0 then Ok(Step(e1, []))
      else Update(e1, e1.scrollOffset, Events.None)
  }

  /**
   * The invalidation half of an item resize: the slot is rewritten with the new size and the
   * watermark is lowered to the slot's index, or set to it when the cache was clean.
   */
  function Invalidate(e: Engine, index: nat, nextSize: real): (r: Engine)
    requires Wf(e) && index < |e.measurements|
    ensures Wf(r)
    ensures r.measurements == SetMeasurementAt(e.measurements, index, nextSize)
    ensures e.remeasureIndex < 0 ==> r.remeasureIndex == index
    ensures e.remeasureIndex >= 0 ==> r.remeasureIndex == Min(index as real, e.remeasureIndex as real).Floor
    ensures 0 <= r.remeasureIndex <= index
    ensures ChainOk(e) ==> ChainOk(r)
    ensures r == e.(measurements := r.measurements, remeasureIndex := r.remeasureIndex)
  {
    var w := if e.remeasureIndex < 0 then index else if index < e.remeasureIndex then index else e.remeasureIndex;
    var r := e.(measurements := SetMeasurementAt(e.measurements, index, nextSize), remeasureIndex := w);
    assert ChainOk(e) ==> ChainOk(r) by {
      if ChainOk(e) {
        forall j | 0 <= j < w && j < |r.measurements|
          ensures Linked(r.measurements, j)
        {
          assert Linked(e.measurements, j);
        }
      }
    }
    r
  }

  /**
   * An item at `index` observed with border-box size `nextSize`. An index past the cache or
   * an unchanged size does nothing. Otherwise (after the development build's `getSize` check,
   * which may throw) the slot is invalidated; then, when the item starts above the cached
   * scroll offset, the offset is shifted by the size change so the content in view does not
   * jump, and otherwise, unless a scroll is in progress, the engine updates.
   */
  function ItemResized(e: Engine, index: nat, nextSize: real): (r: Result<Step, SizeError>)
    requires Wf(e)
    ensures index >= |e.measurements| || nextSize == e.measurements[index].size ==> r == Ok(Step(e, []))
    ensures r.Ok? ==> Wf(r.value.engine)
    ensures r.Ok? && index < |e.measurements| && nextSize != e.measurements[index].size && e.measurements[index].start < e.scrollOffset ==>
      r.value == Step(Invalidate(e, index, nextSize), [WriteScroll(e.scrollOffset + nextSize - e.measurements[index].size)])
    ensures r.Ok? && index < |e.measurements| && nextSize != e.measurements[index].size ==>
      (e.measurements[index].start >= e.scrollOffset && e.scrolling ==> r.value == Step(Invalidate(e, index, nextSize), []))
    ensures index < |e.measurements| && nextSize != e.measurements[index].size ==>
      (e.measurements[index].start >= e.scrollOffset && !e.scrolling
       && (e.dev ==> GetSize(index, e.opts.size, e.measurements, e.viewport, true).Ok?) ==>
       r == Update(Invalidate(e, index, nextSize), e.scrollOffset, ReachEnd))
    ensures r.Err? ==> e.dev
  {
    if index >= |e.measurements| || nextSize == e.measurements[index].size then Ok(Step(e, []))
    else
      var x := e.measurements[index];
      var _ :- if e.dev then GetSize(index, e.opts.size, e.measurements, e.viewport, true) else Ok(nextSize);
      var e1 := Invalidate(e, index, nextSize);
      if x.start < e.scrollOffset then Ok(Step(e1, [WriteScroll(e.scrollOffset + nextSize - x.size)]))
      else if !e.scrolling then Update(e1, e.scrollOffset, ReachEnd)
      else Ok(Step(e1, []))
  }

  /** An item's ref detaching drops it from the item cache (the first revision never fills that cache). */
  function ItemDetached(e: Engine, index: nat): (r: Engine)
    ensures index !in r.items
    ensures forall j :: j in e.items && j != index ==> j in r.items && r.items[j] == e.items[j]
    ensures r == e.(items := r.items)
  {
    e.(items := e.items - {index})
  }

  /**
   * Jump prevention: when a slot above the scroll offset is resized, the offset written is
   * shifted by exactly as much as every later slot moves once the cache is remeasured, so
   * the content in view stays put.
   */
  lemma CompensationMatchesShift(e: Engine, index: nat, nextSize: real, j: nat)
    requires Wf(e) && e.remeasureIndex == -1 && Chained(e.measurements) && |e.measurements| == e.opts.count
    requires forall k :: 0 <= k < |e.measurements| ==> e.measurements[k].size != 0.0
    requires nextSize != 0.0 && index < j < |e.measurements|
    requires nextSize != e.measurements[index].size && e.measurements[index].start < e.scrollOffset
    requires ItemResized(e, index, nextSize).Ok?
    ensures var s := ItemResized(e, index, nextSize).value;
      var r := Remeasure(s.engine.measurements, s.engine.remeasureIndex, s.engine.opts.count, e.opts.size, e.viewport, e.dev);
      r.Ok? ==> s.effects == [WriteScroll(e.scrollOffset + (r.value[j].start - e.measurements[j].start))]
  {
    var s := ItemResized(e, index, nextSize).value;
    var m' := SetMeasurementAt(e.measurements, index, nextSize);
    assert s.engine.measurements == m' && s.engine.remeasureIndex == index;
    var r := Remeasure(m', index, e.opts.count, e.opts.size, e.viewport, e.dev);
    if r.Ok? {
      assert r == RemeasureFrom(m', index, |e.measurements|, e.opts.size, e.viewport, e.dev);
      ResizeShiftsLaterSlots(e.measurements, index, nextSize, e.opts.size, e.viewport, e.dev, j);
    }
  }

  /**
   * In the current revision a longer `count` on a clean cache measures nothing: the cache
   * keeps its length, so the new slots are never resolved until something else lowers the
   * watermark.
   */
  lemma CoreGrowthLeavesNewSlotsUnmeasured(e: Engine, count: nat)
    requires Wf(e) && e.mounted && !e.dev && e.rev == Core && e.remeasureIndex == -1 && count > e.opts.count
    ensures Rerender(e, e.opts.(count := count)).Ok?
    ensures Rerender(e, e.opts.(count := count)).value.engine.measurements == e.measurements
    ensures |Rerender(e, e.opts.(count := count)).value.engine.measurements| < count
  {
    assert SamePolicy(e.opts.size, e.opts.size);
  }

  /** In the first revision a longer `count` marks the new slots, and the update measures them. */
  lemma LegacyGrowthMeasuresNewSlots(e: Engine, count: nat)
    requires Wf(e) && e.mounted && !e.dev && e.rev == Legacy && count > e.opts.count
    ensures Rerender(e, e.opts.(count := count)).Ok?
    ensures |Rerender(e, e.opts.(count := count)).value.engine.measurements| == count
    ensures forall j :: 0 <= j < |e.measurements| ==>
      Rerender(e, e.opts.(count := count)).value.engine.measurements[j] == e.measurements[j]
  {
    assert SamePolicy(e.opts.size, e.opts.size);
  }

  lemma LegacyGrowthCanBreakChain(e: Engine)
    requires e.rev == Legacy && !e.dev && e.mounted && e.opts.count == 2 && e.anchor == 0
    requires e.remeasureIndex == 0
    requires e.measurements == [Measurement(0.0, 20.0, 20.0), Measurement(10.0, 10.0, 20.0)]
    ensures Wf(e) && ChainOk(e)
    ensures !ChainOk(CountSizeEffect(e, e.opts.(count := 3), false))
    ensures Rerender(e, e.opts.(count := 3)).Ok? && !Chained(Rerender(e, e.opts.(count := 3)).value.engine.measurements)
  {
    var o := e.opts.(count := 3);
    assert Wf(e);
    var e1 := CountSizeEffect(e, o, false);
    assert e1.measurements == e.measurements;
    assert !Linked(e1.measurements, 1);
    LegacyGrowthKeepsBrokenLink(e, 3);
  }

  /**
   * In the first revision, growth re-measures only the new slots, so a broken link among the
   * old ones survives the update.
   */
  lemma LegacyGrowthKeepsBrokenLink(e: Engine, count: nat)
    requires Wf(e) && e.mounted && !e.dev && e.rev == Legacy && count > e.opts.count
    requires |e.measurements| >= 2 && !Linked(e.measurements, 1)
    ensures Rerender(e, e.opts.(count := count)).Ok?
    ensures !Chained(Rerender(e, e.opts.(count := count)).value.engine.measurements)
  {
    var o := e.opts.(count := count);
    assert SamePolicy(o.size, e.opts.size);
    var m := Rerender(e, o).value.engine.measurements;
    assert m[0] == e.measurements[0] && m[1] == e.measurements[1];
    assert !Linked(m, 1);
  }
}
