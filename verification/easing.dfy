/** Scroll-animation timing: the distance-based duration clamp and the duration option. */
module Easing {
  import opened Geometry

  /**
   * An easing curve option. The built-in curves are named; a caller-supplied curve is an
   * arbitrary function of the animation time in [0, 1].
   */
  datatype Curve = EaseInOutSine | EaseOutCubic | CustomCurve(f: real -> real)

  /** `number | Duration`: a duration in milliseconds, or a function of the scroll distance. */
  datatype Duration = DurationMs(ms: real) | DurationFn(f: real -> real)

  /** `easingDuration`: 7.5% of the distance in milliseconds, kept within [100, 500]. */
  function EasingDuration(distance: real): (r: real)
    ensures 100.0 <= r <= 500.0
    ensures 100.0 <= distance * 0.075 <= 500.0 ==> r == distance * 0.075
    ensures distance * 0.075 < 100.0 ==> r == 100.0
    ensures distance * 0.075 > 500.0 ==> r == 500.0
  {
    Min(500.0, Max(100.0, distance * 0.075))
  }

  /** The default duration option: `easingDuration` itself. */
  const DefaultDuration: Duration := DurationFn(EasingDuration)

  /** `getDuration`: a constant is used as is; a function receives the absolute distance. */
  function GetDuration(duration: Duration, distance: real): (r: real)
    ensures duration.DurationMs? ==> r == duration.ms
    ensures duration.DurationFn? ==> r == duration.f(Abs(distance))
  {
    match duration
    case DurationMs(ms) => ms
    case DurationFn(f) => f(Abs(distance))
  }

  lemma EasingDurationMonotone(a: real, b: real)
    requires a <= b
    ensures EasingDuration(a) <= EasingDuration(b)
  {
  }

  /** A constant duration does not depend on the distance. */
  lemma ConstantDurationIgnoresDistance(ms: real, d1: real, d2: real)
    ensures GetDuration(DurationMs(ms), d1) == GetDuration(DurationMs(ms), d2) == ms
  {
  }

  /** A duration function sees only the magnitude of the distance, never its sign. */
  lemma DurationIgnoresDirection(duration: Duration, distance: real)
    ensures GetDuration(duration, -distance) == GetDuration(duration, distance)
  {
  }

  /** With the default option, scrolling up or down by `d` takes `easingDuration(|d|)`. */
  lemma DefaultDurationOfDistance(distance: real)
    ensures GetDuration(DefaultDuration, distance) == EasingDuration(Abs(distance))
    ensures 100.0 <= GetDuration(DefaultDuration, distance) <= 500.0
  {
  }
}
