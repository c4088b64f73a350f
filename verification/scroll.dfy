/** Normalisation of the scrolling options and of the `scrollTo` / `scrollToItem` arguments. */
module ScrollOptions {
  import opened Wrappers
  import opened Easing

  /** The `align` option of `scrollToItem`. */
  datatype Align = Start | Center | End | Auto

  /** `options.scrolling` as given: both members may be missing. */
  datatype Scrolling = Scrolling(easing: Option<Curve>, duration: Option<Duration>)

  /** `Required<Scrolling>`: both members filled in. */
  datatype ScrollingConfig = ScrollingConfig(easing: Curve, duration: Duration)

  /** A duration option is falsy when it is missing or the number 0. */
  predicate FalsyDuration(d: Option<Duration>) {
    d.None? || d.value == DurationMs(0.0)
  }

  /**
   * `getScrollingOptions`: a missing easing becomes `easeInOutSine`; a falsy duration,
   * including a duration of 0 milliseconds, becomes `easingDuration`.
   */
  function GetScrollingOptions(scrolling: Option<Scrolling>): (r: ScrollingConfig)
    ensures scrolling.None? ==> r == ScrollingConfig(EaseInOutSine, DefaultDuration)
    ensures scrolling.Some? && scrolling.value.easing.Some? ==> r.easing == scrolling.value.easing.value
    ensures scrolling.Some? && scrolling.value.easing.None? ==> r.easing == EaseInOutSine
    ensures scrolling.Some? && !FalsyDuration(scrolling.value.duration) ==> r.duration == scrolling.value.duration.value
    ensures (scrolling.None? || FalsyDuration(scrolling.value.duration)) ==> r.duration == DefaultDuration
  {
    var s := scrolling.GetOr(Scrolling(None, None));
    var easing := if s.easing.Some? then s.easing.value else EaseInOutSine;
    var duration := if s.duration.Some? && s.duration.value != DurationMs(0.0) then s.duration.value else DefaultDuration;
    ScrollingConfig(easing, duration)
  }

  /** `ScrollToOptions`: a target offset and an optional smooth flag. */
  datatype ScrollToOptions = ScrollToOptions(offset: real, smooth: Option<bool>)

  /** The argument of `scrollTo`: a bare number or an options object. */
  datatype ScrollToArg = OffsetNumber(n: real) | OffsetObject(options: ScrollToOptions)

  /** `getScrollToOptions`: a number becomes `{offset}` with `smooth` absent; an object passes through. */
  function GetScrollToOptions(value: ScrollToArg): (r: ScrollToOptions)
    ensures value.OffsetNumber? ==> r.offset == value.n && r.smooth.None?
    ensures value.OffsetObject? ==> r == value.options
  {
    match value
    case OffsetNumber(n) => ScrollToOptions(n, None)
    case OffsetObject(o) => o
  }

  /** `ScrollToItemOptions`: a target index with optional smooth flag and alignment. */
  datatype ScrollToItemOptions = ScrollToItemOptions(index: int, smooth: Option<bool>, align: Option<Align>)

  /** The argument of `scrollToItem`: a bare index or an options object. */
  datatype ScrollToItemArg = IndexNumber(n: int) | IndexObject(options: ScrollToItemOptions)

  /** `getScrollToItemOptions`: a number becomes `{index}`; an object passes through. */
  function GetScrollToItemOptions(value: ScrollToItemArg): (r: ScrollToItemOptions)
    ensures value.IndexNumber? ==> r.index == value.n && r.smooth.None? && r.align.None?
    ensures value.IndexObject? ==> r == value.options
  {
    match value
    case IndexNumber(n) => ScrollToItemOptions(n, None, None)
    case IndexObject(o) => o
  }

  /** Normalising a filled-in configuration gives it back unless its duration is 0 ms. */
  lemma GetScrollingOptionsIdempotent(c: ScrollingConfig)
    requires c.duration != DurationMs(0.0)
    ensures GetScrollingOptions(Some(Scrolling(Some(c.easing), Some(c.duration)))) == c
  {
  }

  /** A duration of 0 ms is falsy and is replaced by the distance-based default. */
  lemma ZeroDurationReplaced(easing: Option<Curve>)
    ensures GetScrollingOptions(Some(Scrolling(easing, Some(DurationMs(0.0))))).duration == DefaultDuration
  {
  }

  /** Normalising an already normalised argument changes nothing. */
  lemma ScrollToOptionsIdempotent(value: ScrollToArg)
    ensures GetScrollToOptions(OffsetObject(GetScrollToOptions(value))) == GetScrollToOptions(value)
  {
  }

  lemma ScrollToItemOptionsIdempotent(value: ScrollToItemArg)
    ensures GetScrollToItemOptions(IndexObject(GetScrollToItemOptions(value))) == GetScrollToItemOptions(value)
  {
  }
}
