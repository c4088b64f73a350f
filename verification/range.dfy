/**
 * The range resolver: an anchor-seeded binary search for the first visible index and a
 * forward scan for the last one.
 */
module Ranges {
  import opened Measurements

  /** An inclusive index interval `[start, end]`. */
  datatype Range = Range(start: int, end: int) {
    predicate Contains(j: int) {
      start <= j <= end
    }
  }

  /** Slot `i` contains the offset `x`. */
  predicate Covers(m: seq<Measurement>, i: nat, x: real)
    requires i < |m|
  {
    m[i].start <= x < m[i].end
  }

  /** The scan's stop test: slot `j` starts before the far edge and reaches it. */
  predicate ReachesFarEdge(m: seq<Measurement>, j: nat, offsetEnd: real)
    requires j < |m|
  {
    m[j].start < offsetEnd && m[j].end >= offsetEnd
  }

  /** The stop test with the far edge given as `offset + viewport`. */
  predicate StopsScan(m: seq<Measurement>, j: nat, offset: real, viewport: real)
    requires j < |m|
  {
    ReachesFarEdge(m, j, offset + viewport)
  }

  /** Slot `j` overlaps the half-open window `[offset, offset + viewport)`. */
  predicate Intersects(m: seq<Measurement>, j: nat, offset: real, viewport: real)
    requires j < |m|
  {
    m[j].start < offset + viewport && m[j].end > offset
  }

  /**
   * `binarySearch` over `[lo, hi]`: returns a slot containing `offset` when it probes one,
   * else the lower bound it converged to. The midpoint is `(lo + hi) / 2` truncated.
   */
  function BinarySearch(m: seq<Measurement>, offset: real, lo: int, hi: int): (r: int)
    requires 0 <= lo && hi < |m|
    ensures lo <= hi ==> lo <= r <= hi
    ensures lo > hi ==> r == lo
    decreases hi - lo
  {
    if lo < hi then
      var middle := (lo + hi) / 2;
      if m[middle].end <= offset then BinarySearch(m, offset, middle + 1, hi)
      else if m[middle].start > offset then BinarySearch(m, offset, lo, middle - 1)
      else middle
    else lo
  }

  /**
   * The forward scan of `getRange`: the first index at or after `end` whose slot reaches the
   * far edge, or the last index when none before it does.
   */
  function ScanEnd(m: seq<Measurement>, offsetEnd: real, end: nat): (r: nat)
    requires end < |m|
    ensures end <= r < |m|
    ensures r < |m| - 1 ==> ReachesFarEdge(m, r, offsetEnd)
    ensures forall j :: end <= j < r ==> !ReachesFarEdge(m, j, offsetEnd)
    decreases |m| - end
  {
    if end < |m| - 1 then
      if ReachesFarEdge(m, end, offsetEnd) then end else ScanEnd(m, offsetEnd, end + 1)
    else end
  }

  /** The first visible index: the anchor itself, or a search on the side of the anchor holding `offset`. */
  function StartIndex(m: seq<Measurement>, offset: real, anchor: nat): (r: nat)
    requires anchor < |m|
    ensures m[anchor].start > offset ==> r <= anchor
    ensures m[anchor].start < offset ==> anchor <= r < |m|
    ensures m[anchor].start == offset ==> r == anchor
  {
    if m[anchor].start > offset then BinarySearch(m, offset, 0, anchor)
    else if m[anchor].start < offset then BinarySearch(m, offset, anchor, |m| - 1)
    else anchor
  }

  /** `getRange`: the visible interval for a viewport of size `viewport` scrolled to `offset`. */
  function GetRange(m: seq<Measurement>, viewport: real, offset: real, anchor: nat): (r: Range)
    requires anchor < |m|
    ensures 0 <= r.start <= r.end < |m|
    ensures m[anchor].start == offset ==> r.start == anchor
    ensures r.end < |m| - 1 ==> m[r.end].start < offset + viewport <= m[r.end].end
    ensures forall j :: r.start <= j < r.end ==> !StopsScan(m, j, offset, viewport)
  {
    var start := StartIndex(m, offset, anchor);
    Range(start, ScanEnd(m, offset + viewport, start))
  }

  /** On an ordered cache at most one slot contains a given offset. */
  lemma CoverUnique(m: seq<Measurement>, i: nat, j: nat, x: real)
    requires Ordered(m)
    requires i < |m| && j < |m| && Covers(m, i, x) && Covers(m, j, x)
    ensures i == j
  {
    OrderedPair(m, i, j);
    OrderedPair(m, j, i);
  }

  /** The two facts `Ordered` gives about any pair of slots. */
  lemma OrderedPair(m: seq<Measurement>, i: nat, j: nat)
    requires Ordered(m)
    requires i < |m| && j < |m|
    ensures i <= j ==> m[i].end <= m[j].end && m[i].start <= m[j].start
    ensures i < j ==> m[i].end <= m[j].start
  {
    if i < j {
      assert m[i].end <= m[j].start;
      assert m[j].start <= m[j].end;
      assert m[i].start <= m[i].end;
    }
  }

  /** Every offset in `[0, Total(m))` of a chained cache lies in some slot. */
  lemma {:induction false} CoverExists(m: seq<Measurement>, x: real) returns (t: nat)
    requires Chained(m)
    requires 0.0 <= x < Total(m)
    ensures t < |m| && Covers(m, t, x)
  {
    var n := |m| - 1;
    assert Consistent(m[n]);
    assert Linked(m, n);
    if n == 0 {
      t := 0;
    } else if x < m[n - 1].end {
      var p := m[..n];
      assert Chained(p) by {
        forall j | 0 <= j < |p| ensures Linked(p, j) {
          assert Linked(m, j);
        }
      }
      t := CoverExists(p, x);
    } else {
      t := n;
    }
  }

  /** When the slot containing `offset` lies in `[lo, hi]`, the search returns exactly it. */
  lemma {:induction false} BinarySearchFindsCover(m: seq<Measurement>, offset: real, lo: int, hi: int, t: nat)
    requires Ordered(m)
    requires 0 <= lo <= t <= hi < |m| && Covers(m, t, offset)
    ensures BinarySearch(m, offset, lo, hi) == t
    decreases hi - lo
  {
    if lo < hi {
      var middle := (lo + hi) / 2;
      OrderedPair(m, t, middle);
      OrderedPair(m, middle, t);
      if m[middle].end <= offset {
        BinarySearchFindsCover(m, offset, middle + 1, hi, t);
      } else if m[middle].start > offset {
        BinarySearchFindsCover(m, offset, lo, middle - 1, t);
      } else {
        CoverUnique(m, middle, t, offset);
      }
    }
  }

  /**
   * On a chained cache of positive sizes, seeding the search with any anchor finds the slot
   * containing `offset`, the same index an unseeded search over all slots finds.
   */
  lemma SeededSearchMatchesUnseeded(m: seq<Measurement>, viewport: real, offset: real, anchor: nat)
    requires Chained(m) && Positive(m)
    requires anchor < |m|
    requires 0.0 <= offset < Total(m)
    ensures Covers(m, GetRange(m, viewport, offset, anchor).start, offset)
    ensures GetRange(m, viewport, offset, anchor).start == BinarySearch(m, offset, 0, |m| - 1)
  {
    ChainedIsOrdered(m);
    var t := CoverExists(m, offset);
    BinarySearchFindsCover(m, offset, 0, |m| - 1, t);
    OrderedPair(m, t, anchor);
    OrderedPair(m, anchor, t);
    if m[anchor].start > offset {
      BinarySearchFindsCover(m, offset, 0, anchor, t);
    } else if m[anchor].start < offset {
      BinarySearchFindsCover(m, offset, anchor, |m| - 1, t);
    } else {
      assert Consistent(m[anchor]);
      CoverUnique(m, anchor, t, offset);
    }
  }

  /** Below the content every slot lies after `offset`, so the search keeps its lower bound. */
  lemma {:induction false} BinarySearchBeforeAll(m: seq<Measurement>, offset: real, lo: nat, hi: int)
    requires Ordered(m)
    requires lo < |m| && hi < |m| && offset < m[lo].start
    ensures BinarySearch(m, offset, lo, hi) == lo
    decreases hi - lo
  {
    if lo < hi {
      var middle := (lo + hi) / 2;
      OrderedPair(m, lo, middle);
      BinarySearchBeforeAll(m, offset, lo, middle - 1);
    }
  }

  /** An offset before the content (the clamp of a list shorter than its viewport) starts the range at 0. */
  lemma StartBeforeContent(m: seq<Measurement>, offset: real, anchor: nat)
    requires Chained(m) && Positive(m)
    requires anchor < |m| && offset < 0.0
    ensures StartIndex(m, offset, anchor) == 0
  {
    ChainedIsOrdered(m);
    StartsAtZeroOrLater(m, anchor);
    assert Linked(m, 0);
    BinarySearchBeforeAll(m, offset, 0, anchor);
  }

  /** The anchor is only a hint: any two anchors give the same range. */
  lemma AnchorIsOnlyAHint(m: seq<Measurement>, viewport: real, offset: real, a: nat, b: nat)
    requires Chained(m) && Positive(m)
    requires a < |m| && b < |m|
    requires offset < Total(m)
    ensures GetRange(m, viewport, offset, a) == GetRange(m, viewport, offset, b)
  {
    if offset < 0.0 {
      StartBeforeContent(m, offset, a);
      StartBeforeContent(m, offset, b);
    } else {
      SeededSearchMatchesUnseeded(m, viewport, offset, a);
      SeededSearchMatchesUnseeded(m, viewport, offset, b);
    }
  }

  /**
   * The first index of the range is the first slot overlapping the viewport: it overlaps, and
   * every slot before it ends at or before `offset`.
   */
  lemma StartIsFirstOverlap(m: seq<Measurement>, viewport: real, offset: real, anchor: nat)
    requires Chained(m) && Positive(m)
    requires anchor < |m|
    requires viewport > 0.0
    requires -viewport < offset < Total(m)
    ensures var s := GetRange(m, viewport, offset, anchor).start;
      Intersects(m, s, offset, viewport) && forall j :: 0 <= j < s ==> m[j].end <= offset
  {
    var s := GetRange(m, viewport, offset, anchor).start;
    ChainedIsOrdered(m);
    if offset < 0.0 {
      StartBeforeContent(m, offset, anchor);
      assert Linked(m, 0) && Consistent(m[0]);
    } else {
      SeededSearchMatchesUnseeded(m, viewport, offset, anchor);
      forall j | 0 <= j < s
        ensures m[j].end <= offset
      {
        OrderedPair(m, j, s);
      }
    }
  }

  /** Every slot from the first visible one up to the scan's result starts before the far edge. */
  lemma {:induction false} ScannedSlotsStartBeforeEdge(m: seq<Measurement>, offsetEnd: real, s: nat, j: nat)
    requires Chained(m)
    requires s <= j < |m|
    requires m[s].start < offsetEnd
    requires forall k :: s <= k < j ==> !ReachesFarEdge(m, k, offsetEnd)
    ensures m[j].start < offsetEnd
    decreases j - s
  {
    if j > s {
      ScannedSlotsStartBeforeEdge(m, offsetEnd, s, j - 1);
      assert !ReachesFarEdge(m, j - 1, offsetEnd);
      assert Linked(m, j);
    }
  }

  /**
   * On a chained cache of positive sizes, for a positive viewport whose window reaches into the
   * content (including the negative offset a short list is clamped to), `getRange` returns
   * exactly the indices whose slots overlap the viewport.
   */
  lemma GetRangeIsVisibleSet(m: seq<Measurement>, viewport: real, offset: real, anchor: nat)
    requires Chained(m) && Positive(m)
    requires anchor < |m|
    requires viewport > 0.0
    requires -viewport < offset < Total(m)
    ensures forall j :: 0 <= j < |m| ==>
      (Intersects(m, j, offset, viewport) <==> GetRange(m, viewport, offset, anchor).start <= j <= GetRange(m, viewport, offset, anchor).end)
  {
    var r := GetRange(m, viewport, offset, anchor);
    StartIsFirstOverlap(m, viewport, offset, anchor);
    ChainedIsOrdered(m);
    forall j | 0 <= j < |m|
      ensures Intersects(m, j, offset, viewport) <==> r.start <= j <= r.end
    {
      OrderedPair(m, j, r.start);
      OrderedPair(m, r.start, j);
      OrderedPair(m, r.end, j);
      if r.start <= j <= r.end {
        var edge := offset + viewport;
        assert forall k :: r.start <= k < j ==> !ReachesFarEdge(m, k, edge) by {
          forall k | r.start <= k < j ensures !ReachesFarEdge(m, k, edge) {
            assert !StopsScan(m, k, offset, viewport);
          }
        }
        ScannedSlotsStartBeforeEdge(m, edge, r.start, j);
      }
    }
  }
}
