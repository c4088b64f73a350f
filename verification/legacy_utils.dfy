/**
 * The helpers of the first revision's single utility module: measures that carry their own
 * index, the unguarded size lookup, the offset cap without the viewport, the range resolver
 * wrapped in an emptiness guard, and the item and state comparison of its richer item type.
 */
module LegacyUtils {
  import opened Wrappers
  import opened Geometry
  import opened Measurements
  import opened Sizes
  import opened Ranges
  import opened Offsets
  import opened Easing
  import opened ScrollOptions

  /** `easingImpl`, an ease-out cubic curve. */
  function EasingImpl(time: real): (r: real)
    ensures time == 0.0 ==> r == 0.0
    ensures time == 1.0 ==> r == 1.0
  {
    (time - 1.0) * (time - 1.0) * (time - 1.0) + 1.0
  }

  /** On the animation's time interval the curve stays within [0, 1]. */
  lemma EasingImplInUnitInterval(time: real)
    requires 0.0 <= time <= 1.0
    ensures 0.0 <= EasingImpl(time) <= 1.0
  {
    var u := 1.0 - time;
    assert 0.0 <= u * u <= 1.0 by {
      assert u * u <= u * 1.0;
    }
    assert 0.0 <= u * u * u <= u * u * 1.0;
    assert (time - 1.0) * (time - 1.0) * (time - 1.0) == -(u * u * u);
  }

  /** `durationImpl`: the same clamp as `easingDuration`, written with the operands swapped. */
  function DurationImpl(distance: real): (r: real)
    ensures 100.0 <= r <= 500.0
    ensures distance * 0.075 <= 100.0 ==> r == 100.0
    ensures distance * 0.075 >= 500.0 ==> r == 500.0
    ensures 100.0 <= distance * 0.075 <= 500.0 ==> r == distance * 0.075
  {
    Min(Max(distance * 0.075, 100.0), 500.0)
  }

  lemma DurationImplIsEasingDuration(distance: real)
    ensures DurationImpl(distance) == EasingDuration(distance)
  {
  }

  /** A measure of the first revision: it records its own index. */
  datatype Measure = Measure(index: int, start: real, size: real, end: real)

  /** The measurement a measure stands for, without its index. */
  function ToMeasurement(x: Measure): Measurement {
    Measurement(x.start, x.size, x.end)
  }

  function ToMeasurements(ms: seq<Measure>): (r: seq<Measurement>)
    ensures |r| == |ms|
    ensures forall j :: 0 <= j < |ms| ==> r[j] == ToMeasurement(ms[j])
  {
    seq(|ms|, j requires 0 <= j < |ms| => ToMeasurement(ms[j]))
  }

  /** `setMeasure`: like `setMeasurementAt`, and the slot also stores its index. */
  function SetMeasure(ms: seq<Measure>, index: nat, size: real): (r: seq<Measure>)
    requires index <= |ms|
    ensures |r| == if index == |ms| then |ms| + 1 else |ms|
    ensures r[index].index == index && r[index].size == size
    ensures r[index].start == (if index > 0 then ms[index - 1].end else 0.0)
    ensures r[index].end == r[index].start + size
    ensures forall j :: 0 <= j < |ms| && j != index ==> r[j] == ms[j]
  {
    var start := if index > 0 then ms[index - 1].end else 0.0;
    var slot := Measure(index, start, size, start + size);
    if index == |ms| then ms + [slot] else ms[index := slot]
  }

  /** Forgetting the indices, `setMeasure` is `setMeasurementAt`. */
  lemma SetMeasureIsSetMeasurementAt(ms: seq<Measure>, index: nat, size: real)
    requires index <= |ms|
    ensures ToMeasurements(SetMeasure(ms, index, size)) == SetMeasurementAt(ToMeasurements(ms), index, size)
  {
    var a := ToMeasurements(SetMeasure(ms, index, size));
    var b := SetMeasurementAt(ToMeasurements(ms), index, size);
    assert forall j :: 0 <= j < |a| ==> a[j] == b[j];
  }

  /** `getSize` of the first revision: any existing measure wins, even one of size 0; no check. */
  function MonolithGetSize(index: nat, policy: SizePolicy, ms: seq<Measure>, viewport: Rect): (r: real)
    ensures index < |ms| ==> r == ms[index].size
    ensures index >= |ms| ==> r == PolicySize(policy, index, viewport)
  {
    if index < |ms| then ms[index].size else PolicySize(policy, index, viewport)
  }

  /** The two size lookups agree except on a cached size of 0 (or a development-build zero). */
  lemma GetSizesAgreeOnTruthyCache(index: nat, policy: SizePolicy, ms: seq<Measure>, viewport: Rect)
    requires index < |ms| ==> ms[index].size != 0.0
    requires index >= |ms| ==> PolicySize(policy, index, viewport) != 0.0
    ensures GetSize(index, policy, ToMeasurements(ms), viewport, true) == Ok(MonolithGetSize(index, policy, ms, viewport))
  {
  }

  lemma ZeroCachedSizeKept(policy: SizePolicy, viewport: Rect)
    ensures MonolithGetSize(0, policy, [Measure(0, 0.0, 0.0, 0.0)], viewport) == 0.0
  {
  }

  /** `getScrollOffset` of the first revision: caps at the content size, ignoring the viewport. */
  function MonolithScrollOffset(offset: real, ms: seq<Measure>): (r: real)
    ensures r <= offset
    ensures |ms| > 0 ==> r <= ms[|ms| - 1].end
    ensures |ms| == 0 ==> r == Min(offset, 0.0)
    ensures r == offset || r == Total(ToMeasurements(ms))
  {
    Min(offset, if |ms| > 0 then ms[|ms| - 1].end else 0.0)
  }

  /** Not subtracting the viewport allows larger offsets than `clampOffset` does. */
  lemma MonolithScrollOffsetIsLooser(offset: real, ms: seq<Measure>, viewport: real)
    requires viewport >= 0.0
    ensures ClampOffset(ToMeasurements(ms), viewport, offset) <= MonolithScrollOffset(offset, ms)
  {
  }

  /** `binarySearch` of the first revision, over measures. */
  function MonolithBinarySearch(ms: seq<Measure>, offset: real, lo: int, hi: int): (r: int)
    requires 0 <= lo && hi < |ms|
    ensures lo <= hi ==> lo <= r <= hi
    ensures lo > hi ==> r == lo
    decreases hi - lo
  {
    if lo < hi then
      var middle := (lo + hi) / 2;
      if ms[middle].end <= offset then MonolithBinarySearch(ms, offset, middle + 1, hi)
      else if ms[middle].start > offset then MonolithBinarySearch(ms, offset, lo, middle - 1)
      else middle
    else lo
  }

  /** The two binary searches behave identically. */
  lemma {:induction false} BinarySearchesAgree(ms: seq<Measure>, offset: real, lo: int, hi: int)
    requires 0 <= lo && hi < |ms|
    ensures MonolithBinarySearch(ms, offset, lo, hi) == BinarySearch(ToMeasurements(ms), offset, lo, hi)
    decreases hi - lo
  {
    if lo < hi {
      var middle := (lo + hi) / 2;
      var m := ToMeasurements(ms);
      assert m[middle] == ToMeasurement(ms[middle]);
      if ms[middle].end <= offset {
        BinarySearchesAgree(ms, offset, middle + 1, hi);
      } else if ms[middle].start > offset {
        BinarySearchesAgree(ms, offset, lo, middle - 1);
      }
    }
  }

  /**
   * `getVirtualRange`: nothing for a viewport of size 0 or an empty cache, else the range
   * `getRange` resolves.
   */
  function GetVirtualRange(viewport: real, offset: real, ms: seq<Measure>, anchor: nat): (r: Option<Range>)
    requires viewport > 0.0 && |ms| > 0 ==> anchor < |ms|
    ensures r.None? <==> viewport <= 0.0 || |ms| == 0
    ensures r.Some? ==> r.value.start <= r.value.end < |ms|
  {
    if viewport > 0.0 && |ms| > 0 then
      var start := if ms[anchor].start > offset then MonolithBinarySearch(ms, offset, 0, anchor)
        else if ms[anchor].start < offset then MonolithBinarySearch(ms, offset, anchor, |ms| - 1)
        else anchor;
      Some(Range(start, MonolithScanEnd(ms, offset + viewport, start)))
    else None
  }

  /** The forward scan for the last visible index, over measures. */
  function MonolithScanEnd(ms: seq<Measure>, offsetEnd: real, end: nat): (r: nat)
    requires end < |ms|
    ensures end <= r < |ms|
    ensures r < |ms| - 1 ==> ms[r].start < offsetEnd && ms[r].end >= offsetEnd
    ensures forall j :: end <= j < r ==> !(ms[j].start < offsetEnd && ms[j].end >= offsetEnd)
    decreases |ms| - end
  {
    if end < |ms| - 1 then
      if ms[end].start < offsetEnd && ms[end].end >= offsetEnd then end else MonolithScanEnd(ms, offsetEnd, end + 1)
    else end
  }

  lemma {:induction false} ScansAgree(ms: seq<Measure>, offsetEnd: real, end: nat)
    requires end < |ms|
    ensures MonolithScanEnd(ms, offsetEnd, end) == ScanEnd(ToMeasurements(ms), offsetEnd, end)
    decreases |ms| - end
  {
    var m := ToMeasurements(ms);
    assert m[end] == ToMeasurement(ms[end]);
    if end < |ms| - 1 {
      ScansAgree(ms, offsetEnd, end + 1);
    }
  }

  /** When it resolves a range, `getVirtualRange` gives exactly the range `getRange` gives. */
  lemma GetVirtualRangeIsGetRange(viewport: real, offset: real, ms: seq<Measure>, anchor: nat)
    requires viewport > 0.0 && |ms| > 0 && anchor < |ms|
    ensures GetVirtualRange(viewport, offset, ms, anchor) == Some(GetRange(ToMeasurements(ms), viewport, offset, anchor))
  {
    var m := ToMeasurements(ms);
    assert m[anchor] == ToMeasurement(ms[anchor]);
    BinarySearchesAgree(ms, offset, 0, anchor);
    BinarySearchesAgree(ms, offset, anchor, |ms| - 1);
    var start := StartIndex(m, offset, anchor);
    ScansAgree(ms, offset + viewport, start);
  }

  /** The item of the first revision's state, with its visibility, scrolling flag and viewport. */
  datatype LegacyItem = LegacyItem(index: int, start: real, size: real, end: real, visible: bool, scrolling: bool, viewport: Rect)

  /** The first revision's state: the list frame, the visible range and the items. */
  datatype LegacyState = LegacyState(frame: (real, real), visible: (int, int), items: seq<LegacyItem>)

  /** `isEqualItem` of the first revision: every field compares equal, the viewport by width and height. */
  predicate LegacyIsEqualItem(next: LegacyItem, prev: LegacyItem)
    ensures LegacyIsEqualItem(next, prev) <==> next == prev
  {
    && prev.index == next.index && prev.start == next.start && prev.size == next.size
    && prev.end == next.end && prev.visible == next.visible && prev.scrolling == next.scrolling
    && prev.viewport.width == next.viewport.width && prev.viewport.height == next.viewport.height
  }

  /** The comparison loop of `isEqualState`, which walks the items from the last one down. */
  function ItemsEqualBelow(prev: seq<LegacyItem>, next: seq<LegacyItem>, k: nat): (r: bool)
    requires |prev| == |next| && k <= |next|
    ensures r <==> forall i :: 0 <= i < k ==> LegacyIsEqualItem(prev[i], next[i])
  {
    if k == 0 then true
    else LegacyIsEqualItem(prev[k - 1], next[k - 1]) && ItemsEqualBelow(prev, next, k - 1)
  }

  /** `isEqualState` of the first revision: equal frame, equal visible range, equal items. */
  predicate LegacyIsEqualState(next: LegacyState, prev: LegacyState)
    ensures LegacyIsEqualState(next, prev) <==> next == prev
  {
    if prev.frame.0 != next.frame.0 || prev.frame.1 != next.frame.1 then false
    else if prev.visible.0 != next.visible.0 || prev.visible.1 != next.visible.1 then false
    else if |next.items| != |prev.items| then false
    else
      var r := ItemsEqualBelow(prev.items, next.items, |next.items|);
      assert r ==> prev.items == next.items;
      r
  }

  /**
   * `getScrolling` of the first revision: defaults apply only to missing members, so a
   * duration of 0 ms is kept.
   */
  function LegacyGetScrolling(scrolling: Option<Scrolling>): (r: ScrollingConfig)
    ensures scrolling.None? ==> r == ScrollingConfig(EaseOutCubic, DurationFn(DurationImpl))
    ensures scrolling.Some? && scrolling.value.easing.Some? ==> r.easing == scrolling.value.easing.value
    ensures scrolling.Some? && scrolling.value.duration.Some? ==> r.duration == scrolling.value.duration.value
    ensures scrolling.Some? && scrolling.value.easing.None? ==> r.easing == EaseOutCubic
    ensures scrolling.Some? && scrolling.value.duration.None? ==> r.duration == DurationFn(DurationImpl)
  {
    match scrolling
    case Some(s) => ScrollingConfig(s.easing.GetOr(EaseOutCubic), s.duration.GetOr(DurationFn(DurationImpl)))
    case None => ScrollingConfig(EaseOutCubic, DurationFn(DurationImpl))
  }

  /** The two normalisers part ways on a duration of 0 ms. */
  lemma ZeroDurationKeptByLegacy(easing: Option<Curve>)
    ensures LegacyGetScrolling(Some(Scrolling(easing, Some(DurationMs(0.0))))).duration == DurationMs(0.0)
    ensures GetScrollingOptions(Some(Scrolling(easing, Some(DurationMs(0.0))))).duration != DurationMs(0.0)
  {
  }
}
