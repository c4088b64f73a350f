/** Clamping a scroll offset against the content size. */
module Offsets {
  import opened Geometry
  import opened Measurements

  /** The largest offset `clampOffset` allows: content size minus viewport, or 0 for an empty cache. */
  function ScrollLimit(m: seq<Measurement>, viewport: real): real {
    if |m| > 0 then Total(m) - viewport else 0.0
  }

  /** `clampOffset`: caps `offset` at the scroll limit; there is no lower bound. */
  function ClampOffset(m: seq<Measurement>, viewport: real, offset: real): (r: real)
    ensures r <= offset && r <= ScrollLimit(m, viewport)
    ensures r == offset || r == ScrollLimit(m, viewport)
  {
    Min(offset, if |m| > 0 then m[|m| - 1].end - viewport else 0.0)
  }

  lemma ClampOffsetEmpty(viewport: real, offset: real)
    ensures ClampOffset([], viewport, offset) == Min(offset, 0.0)
  {
  }

  lemma ClampOffsetIdempotent(m: seq<Measurement>, viewport: real, offset: real)
    ensures ClampOffset(m, viewport, ClampOffset(m, viewport, offset)) == ClampOffset(m, viewport, offset)
  {
  }

  /**
   * Content shorter than the viewport yields a negative offset at every scroll position: the
   * content size minus the viewport, which still lies above `-viewport`.
   */
  lemma ClampOffsetCanBeNegative(m: seq<Measurement>, viewport: real, offset: real)
    requires |m| > 0 && 0.0 < Total(m) < viewport && 0.0 <= offset
    ensures ClampOffset(m, viewport, offset) == Total(m) - viewport
    ensures -viewport < ClampOffset(m, viewport, offset) < 0.0
  {
  }

  /** The older revision's limit: the truthiness test is on the content size, so a size of 0 counts as empty. */
  function LegacyScrollLimit(m: seq<Measurement>, viewport: real): real {
    if Total(m) != 0.0 then Total(m) - viewport else 0.0
  }

  /** `getScrollOffset` of the older revision. */
  function GetScrollOffset(m: seq<Measurement>, viewport: real, offset: real): (r: real)
    ensures r <= offset && r <= LegacyScrollLimit(m, viewport)
    ensures r == offset || r == LegacyScrollLimit(m, viewport)
    ensures Total(m) == 0.0 ==> r == Min(offset, 0.0)
  {
    var scrollSize := if |m| > 0 then m[|m| - 1].end else 0.0;
    Min(offset, if scrollSize != 0.0 then scrollSize - viewport else 0.0)
  }

  /** The two clamps agree unless the last slot ends at exactly 0. */
  lemma ClampsAgree(m: seq<Measurement>, viewport: real, offset: real)
    requires Total(m) != 0.0
    ensures GetScrollOffset(m, viewport, offset) == ClampOffset(m, viewport, offset)
  {
  }

  /** A non-empty cache whose last slot ends at 0 is clamped differently by the two revisions. */
  lemma ClampsDisagreeOnZeroContent(m: seq<Measurement>, viewport: real, offset: real)
    requires |m| > 0 && Total(m) == 0.0
    requires viewport > 0.0 && offset > -viewport
    ensures GetScrollOffset(m, viewport, offset) != ClampOffset(m, viewport, offset)
  {
  }

  lemma GetScrollOffsetIdempotent(m: seq<Measurement>, viewport: real, offset: real)
    ensures GetScrollOffset(m, viewport, GetScrollOffset(m, viewport, offset)) == GetScrollOffset(m, viewport, offset)
  {
  }
}
