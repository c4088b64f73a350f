/** `remeasure`: re-chaining the cache from the watermark up to `count`. */
module Remeasuring {
  import opened Wrappers
  import opened Geometry
  import opened Measurements
  import opened Sizes

  /** A write at `index` does not change what `getSize` resolves for any later index. */
  lemma WriteKeepsLaterSizes(m: seq<Measurement>, index: nat, size: real, policy: SizePolicy, viewport: Rect, dev: bool)
    requires index <= |m|
    ensures forall j: nat :: index < j ==>
      GetSize(j, policy, SetMeasurementAt(m, index, size), viewport, dev) == GetSize(j, policy, m, viewport, dev)
  {
    var m' := SetMeasurementAt(m, index, size);
    forall j: nat | index < j
      ensures GetSize(j, policy, m', viewport, dev) == GetSize(j, policy, m, viewport, dev)
    {
      GetSizeReadsOneSlot(j, policy, m', m, viewport, dev);
    }
  }

  lemma ExtendsChainWhenChained(m: seq<Measurement>, index: nat, size: real)
    requires index <= |m|
    ensures AllConsistent(m) && LinkedBelow(m, index) ==>
      AllConsistent(SetMeasurementAt(m, index, size)) && LinkedBelow(SetMeasurementAt(m, index, size), index + 1)
  {
    if AllConsistent(m) && LinkedBelow(m, index) {
      SetMeasurementAtExtendsChain(m, index, size);
    }
  }

  /**
   * The loop of `remeasure` from `index`: every slot in `[index, count)` is rewritten with the
   * size `getSize` resolves, in ascending order; a development-build size error aborts it.
   */
  function RemeasureFrom(m: seq<Measurement>, index: nat, count: nat, policy: SizePolicy, viewport: Rect, dev: bool): (r: Result<seq<Measurement>, SizeError>)
    requires index <= |m| <= count
    ensures r.Ok? ==> |r.value| == count
    ensures r.Ok? ==> forall j :: 0 <= j < index ==> r.value[j] == m[j]
    ensures r.Ok? ==> forall j: nat :: index <= j < count ==> GetSize(j, policy, m, viewport, dev) == Ok(r.value[j].size)
    ensures r.Err? ==> exists j: nat :: index <= j < count && GetSize(j, policy, m, viewport, dev).Err?
    ensures r.Ok? && AllConsistent(m) && LinkedBelow(m, index) ==> Chained(r.value)
    decreases count - index
  {
    if index >= count then Ok(m)
    else
      var size :- GetSize(index, policy, m, viewport, dev);
      var m' := SetMeasurementAt(m, index, size);
      WriteKeepsLaterSizes(m, index, size, policy, viewport, dev);
      ExtendsChainWhenChained(m, index, size);
      RemeasureFrom(m', index + 1, count, policy, viewport, dev)
  }

  /** The cache is dense up to a watermark below `count`, and never longer than `count`. */
  predicate Remeasurable(m: seq<Measurement>, w: int, count: nat) {
    |m| <= count && (0 <= w < count ==> w <= |m|)
  }

  /**
   * `remeasure`: with a watermark `w` in `[0, count)` the slots from `w` on are re-chained and
   * the cache grows to `count`; otherwise the cache is left as it is.
   * The caller resets the watermark to -1.
   */
  function Remeasure(m: seq<Measurement>, w: int, count: nat, policy: SizePolicy, viewport: Rect, dev: bool): (r: Result<seq<Measurement>, SizeError>)
    requires Remeasurable(m, w, count)
    ensures !(0 <= w < count) ==> r == Ok(m)
    ensures r.Ok? && 0 <= w < count ==> |r.value| == count
    ensures r.Ok? && 0 <= w < count ==> forall j :: 0 <= j < w ==> r.value[j] == m[j]
    ensures r.Ok? && 0 <= w < count ==> forall j: nat :: w <= j < count ==> GetSize(j, policy, m, viewport, dev) == Ok(r.value[j].size)
    ensures r.Err? <==> 0 <= w < count && exists j: nat :: w <= j < count && GetSize(j, policy, m, viewport, dev).Err?
    ensures r.Ok? && AllConsistent(m) && LinkedBelow(m, if w >= 0 then w else |m|) ==> Chained(r.value)
  {
    if 0 <= w < count then RemeasureFrom(m, w, count, policy, viewport, dev) else Ok(m)
  }

  /** After a successful remeasure the cache is the prefix sums of its sizes. */
  lemma RemeasureIsPrefixSums(m: seq<Measurement>, w: int, count: nat, policy: SizePolicy, viewport: Rect, dev: bool)
    requires Remeasurable(m, w, count)
    requires AllConsistent(m) && LinkedBelow(m, if w >= 0 then w else |m|)
    requires Remeasure(m, w, count, policy, viewport, dev).Ok?
    ensures var r := Remeasure(m, w, count, policy, viewport, dev).value;
      r == FromSizes(SizesOf(r))
  {
    ChainedIsPrefixSums(Remeasure(m, w, count, policy, viewport, dev).value);
  }

  /**
   * Jump prevention: after the slot at `index` of a chained cache whose sizes are all cached
   * and nonzero is resized from `size` to `nextSize` and the cache remeasured, every later
   * slot keeps its size and moves by exactly `nextSize - size`.
   */
  lemma {:induction false} ResizeShiftsLaterSlots(m: seq<Measurement>, index: nat, nextSize: real, policy: SizePolicy, viewport: Rect, dev: bool, j: nat)
    requires Chained(m) && index < j < |m|
    requires forall k :: 0 <= k < |m| ==> m[k].size != 0.0
    requires nextSize != 0.0
    requires RemeasureFrom(SetMeasurementAt(m, index, nextSize), index, |m|, policy, viewport, dev).Ok?
    ensures var r := RemeasureFrom(SetMeasurementAt(m, index, nextSize), index, |m|, policy, viewport, dev).value;
      r[j].size == m[j].size && r[j].start == m[j].start + (nextSize - m[index].size)
    decreases j
  {
    var m' := SetMeasurementAt(m, index, nextSize);
    var r := RemeasureFrom(m', index, |m|, policy, viewport, dev).value;
    SetMeasurementAtExtendsChain(m, index, nextSize);
    assert Chained(r);
    assert HasCachedSize(m', j) && HasCachedSize(m', j - 1);
    assert GetSize(j, policy, m', viewport, dev) == Ok(r[j].size);
    assert GetSize(j - 1, policy, m', viewport, dev) == Ok(r[j - 1].size);
    assert Linked(r, j) && Consistent(r[j - 1]) && Linked(m, j) && Consistent(m[j - 1]);
    if j - 1 == index {
      assert Linked(r, index) && Linked(m, index);
      if index > 0 {
        assert r[index - 1] == m'[index - 1];
      }
    } else {
      ResizeShiftsLaterSlots(m, index, nextSize, policy, viewport, dev, j - 1);
    }
  }
}
