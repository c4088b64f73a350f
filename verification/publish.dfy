/**
 * The pieces of an update pass that decide what is published: the overscan window, the
 * rendered items with reuse, the published content size, the structural-equality guard on
 * publishing, and the end-of-list test. Each revision-dependent rule takes the revision.
 */
module Publish {
  import opened Wrappers
  import opened Geometry
  import opened Measurements
  import opened Offsets
  import opened Ranges
  import opened RenderState
  import opened Equality
  import opened Config

  /** The offset clamp of each revision. */
  function Clamp(rev: Revision, m: seq<Measurement>, viewport: real, offset: real): (r: real)
    ensures r <= offset
    ensures rev == Core ==> r == ClampOffset(m, viewport, offset)
    ensures rev == Legacy ==> r == GetScrollOffset(m, viewport, offset)
  {
    match rev
    case Core => ClampOffset(m, viewport, offset)
    case Legacy => GetScrollOffset(m, viewport, offset)
  }

  /** The rendered window: the visible range widened by `overscan` on both sides, within the cache. */
  function Window(visible: Range, overscan: nat, maxIndex: nat): (r: Range)
    requires 0 <= visible.start <= visible.end <= maxIndex
    ensures 0 <= r.start <= visible.start && visible.end <= r.end <= maxIndex
    ensures forall j :: r.Contains(j) <==>
      0 <= j <= maxIndex && visible.start - overscan <= j <= visible.end + overscan
  {
    Range(if visible.start - overscan > 0 then visible.start - overscan else 0,
          if visible.end + overscan < maxIndex then visible.end + overscan else maxIndex)
  }

  /** The item an update pass creates for slot `j`; `pass` is its identity. */
  function FreshItem(m: seq<Measurement>, j: nat, pass: nat): Item
    requires j < |m|
  {
    Item(j, m[j].start, m[j].size, m[j].end, pass)
  }

  /** The item rendered for slot `j`: the cached one when reuse is on and it is structurally equal, else a fresh one. */
  function PickItem(m: seq<Measurement>, j: nat, cache: map<nat, Item>, pass: nat, reuse: bool): Item
    requires j < |m|
  {
    var made := FreshItem(m, j, pass);
    if reuse && j in cache && IsEqualItem(made, cache[j]) then cache[j] else made
  }

  /** `items` shows the slots `lo..hi` of `m`, in order, each with its index and measurement. */
  predicate ShowsSlots(items: seq<Item>, m: seq<Measurement>, lo: nat, hi: int)
    requires hi < |m|
  {
    && |items| == (if lo <= hi then hi - lo + 1 else 0)
    && forall k :: 0 <= k < |items| ==>
         items[k].index == lo + k && items[k].start == m[lo + k].start
         && items[k].size == m[lo + k].size && items[k].end == m[lo + k].end
  }

  /**
   * The item loop of an update: one item per slot of the window in ascending order. With
   * reuse on (the current revision), a cached item equal to the fresh one is kept with its
   * identity; every other item is new.
   */
  function Materialize(m: seq<Measurement>, w: Range, cache: map<nat, Item>, pass: nat, reuse: bool): (items: seq<Item>)
    requires 0 <= w.start <= w.end < |m|
    ensures ShowsSlots(items, m, w.start, w.end)
    ensures forall k :: 0 <= k < |items| ==>
      items[k].ref == pass || (reuse && w.start + k in cache && items[k] == cache[w.start + k])
    ensures forall k :: 0 <= k < |items| && reuse && w.start + k in cache ==>
      (items[k] == cache[w.start + k] <==> IsEqualItem(FreshItem(m, w.start + k, pass), cache[w.start + k]))
  {
    var items := seq(w.end - w.start + 1, k requires 0 <= k <= w.end - w.start => PickItem(m, w.start + k, cache, pass, reuse));
    assert forall k :: 0 <= k < |items| ==> items[k] == PickItem(m, w.start + k, cache, pass, reuse);
    items
  }

  /** The cache after the loop: every rendered item is stored under its index, the rest kept. */
  function StoreItems(cache: map<nat, Item>, items: seq<Item>, lo: nat): (r: map<nat, Item>)
    ensures forall j :: lo <= j < lo + |items| ==> j in r && r[j] == items[j - lo]
    ensures forall j :: j in cache && !(lo <= j < lo + |items|) ==> j in r && r[j] == cache[j]
    ensures forall j :: j in r ==> j in cache || lo <= j < lo + |items|
    decreases |items|
  {
    if |items| == 0 then cache
    else
      var tail := items[1..];
      var rest := StoreItems(cache[lo := items[0]], tail, lo + 1);
      assert forall k :: 0 <= k < |tail| ==> tail[k] == items[k + 1];
      rest
  }

  /**
   * The published content size of the current revision: the measured size, except that while
   * the viewport's far edge, rounded up, lies below both the previous and the measured size,
   * the previous size is kept so the scrollbar does not jump. With `scrollbar: false` the
   * measured size is always published.
   */
  function CorePublishedSize(scrollbar: Option<bool>, prevSize: real, scrollOffset: real, viewport: real, size: real): (r: real)
    ensures r == size || r == prevSize
    ensures scrollbar == Some(false) ==> r == size
    ensures Ceil(scrollOffset + viewport) as real >= size ==> r == size
  {
    if scrollbar == Some(false) then size
    else
      var scrollSize := Ceil(scrollOffset + viewport) as real;
      if scrollSize < prevSize && scrollSize < size then prevSize else size
  }

  /**
   * The published content size of the first revision: the far edge is rounded half up through
   * a 32-bit conversion, and with `scrollbar: false` the previous size is always kept.
   */
  function LegacyPublishedSize(scrollbar: Option<bool>, prevSize: real, scrollOffset: real, viewport: real, size: real): (r: real)
    ensures r == size || r == prevSize
    ensures scrollbar == Some(false) ==> r == prevSize
    ensures ToInt32(scrollOffset + viewport + 0.5) as real >= size ==> scrollbar != Some(false) ==> r == size
  {
    if scrollbar == Some(false) then prevSize
    else
      var scrollSize := ToInt32(scrollOffset + viewport + 0.5) as real;
      if scrollSize < prevSize && scrollSize < size then prevSize else size
  }

  function PublishedSize(rev: Revision, scrollbar: Option<bool>, prevSize: real, scrollOffset: real, viewport: real, size: real): (r: real)
    ensures r == size || r == prevSize
  {
    match rev
    case Core => CorePublishedSize(scrollbar, prevSize, scrollOffset, viewport, size)
    case Legacy => LegacyPublishedSize(scrollbar, prevSize, scrollOffset, viewport, size)
  }

  /** The scrollbar lag: when the sizes differ, the previous one survives exactly while the far edge is below both. */
  lemma ScrollbarLagIff(scrollbar: Option<bool>, prevSize: real, scrollOffset: real, viewport: real, size: real)
    requires scrollbar != Some(false) && prevSize != size
    ensures var edge := Ceil(scrollOffset + viewport) as real;
      CorePublishedSize(scrollbar, prevSize, scrollOffset, viewport, size) == prevSize <==> edge < prevSize && edge < size
  {
  }

  /** The published size never lies below both the measured size and the far edge. */
  lemma PublishedSizeCoversEdge(scrollbar: Option<bool>, prevSize: real, scrollOffset: real, viewport: real, size: real)
    ensures var edge := Ceil(scrollOffset + viewport) as real;
      CorePublishedSize(scrollbar, prevSize, scrollOffset, viewport, size) >= Min(size, edge)
  {
  }

  /** The two revisions round the far edge differently: up, and half up. */
  lemma FarEdgeRoundingDiffers()
    ensures Ceil(100.2) == 101 && ToInt32(100.2 + 0.5) == 100
    ensures CorePublishedSize(None, 200.0, 0.2, 100.0, 100.5) == 100.5
    ensures LegacyPublishedSize(None, 200.0, 0.2, 100.0, 100.5) == 200.0
  {
    assert (-100.2).Floor == -101;
    assert Ceil(100.2) == 101;
    assert Trunc(100.7) == 100;
    assert ToInt32(100.2 + 0.5) == 100;
  }

  /** The dispatch guard: a structurally equal state keeps the previous state object. */
  function PublishState(next: State, prev: State): (r: State)
    ensures IsEqualState(next, prev) ==> r == prev
    ensures !IsEqualState(next, prev) ==> r == next
    ensures Unref(r) == Unref(next)
  {
    IsEqualStateIffSameView(next, prev);
    if IsEqualState(next, prev) then prev else next
  }

  /** The end-of-list test of each revision. */
  predicate ReachesEnd(rev: Revision, offset: real, viewport: real, size: real, end: int, maxIndex: int)
    ensures rev == Core && offset + viewport >= size ==> ReachesEnd(rev, offset, viewport, size, end, maxIndex)
    ensures rev == Core && ReachesEnd(rev, offset, viewport, size, end, maxIndex) ==> offset + viewport > size - 1.0
    ensures rev == Legacy ==> (ReachesEnd(rev, offset, viewport, size, end, maxIndex) <==> end >= maxIndex)
  {
    CeilBounds(offset + viewport);
    match rev
    case Core => Ceil(offset + viewport) as real >= size
    case Legacy => end >= maxIndex
  }

  /** The current revision's test: the far edge, rounded up, reaches the content size. */
  lemma CoreReachesEndIff(offset: real, viewport: real, size: real, end: int, maxIndex: int)
    ensures ReachesEnd(Core, offset, viewport, size, end, maxIndex) <==> offset + viewport > (Ceil(size) - 1) as real
  {
    CeilLeast(size, Ceil(offset + viewport));
    CeilLeast(offset + viewport, Ceil(size) - 1);
  }
}
