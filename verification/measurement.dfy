/**
 * The measurement cache: one `{start, size, end}` record per item index, chained like
 * prefix sums (`start[i] == end[i-1]`, `end == start + size`).
 */
module Measurements {

  /** The cached extent of one item along the scroll axis. */
  datatype Measurement = Measurement(start: real, size: real, end: real)

  /** `measurements[index - 1]?.end || 0`: the end of the previous slot, or 0 when there is none. */
  function PrevEnd(m: seq<Measurement>, index: nat): real {
    if 0 < index <= |m| then m[index - 1].end else 0.0
  }

  /**
   * Writes slot `index` so that it starts where the previous slot ends and spans `size`.
   * The cache is dense, so the slot written is an existing one or the next free one.
   */
  function SetMeasurementAt(m: seq<Measurement>, index: nat, size: real): (r: seq<Measurement>)
    requires index <= |m|
    ensures |r| == if index == |m| then |m| + 1 else |m|
    ensures r[index].size == size
    ensures r[index].start == (if index > 0 then m[index - 1].end else 0.0)
    ensures r[index].end == r[index].start + size
    ensures forall j :: 0 <= j < |m| && j != index ==> r[j] == m[j]
  {
    var start := PrevEnd(m, index);
    var slot := Measurement(start, size, start + size);
    if index == |m| then m + [slot] else m[index := slot]
  }

  /** `end == start + size` for one slot. */
  predicate Consistent(x: Measurement) {
    x.end == x.start + x.size
  }

  predicate AllConsistent(m: seq<Measurement>) {
    forall j :: 0 <= j < |m| ==> Consistent(m[j])
  }

  /** Slot `j` starts where slot `j - 1` ends (slot 0 starts at 0). */
  predicate Linked(m: seq<Measurement>, j: nat)
    requires j < |m|
  {
    m[j].start == if j == 0 then 0.0 else m[j - 1].end
  }

  /** Every slot below `n` is linked to its predecessor. */
  predicate LinkedBelow(m: seq<Measurement>, n: int) {
    forall j :: 0 <= j < n && j < |m| ==> Linked(m, j)
  }

  /** The full chain invariant of the cache. */
  predicate Chained(m: seq<Measurement>) {
    AllConsistent(m) && LinkedBelow(m, |m|)
  }

  predicate NonNegative(m: seq<Measurement>) {
    forall j :: 0 <= j < |m| ==> m[j].size >= 0.0
  }

  predicate Positive(m: seq<Measurement>) {
    forall j :: 0 <= j < |m| ==> m[j].size > 0.0
  }

  /** Slots occupy disjoint, ascending intervals. */
  predicate Ordered(m: seq<Measurement>) {
    && (forall j :: 0 <= j < |m| ==> m[j].start <= m[j].end)
    && (forall i, j :: 0 <= i < j < |m| ==> m[i].end <= m[j].start)
  }

  /** The content size: the end of the last slot, 0 for an empty cache. */
  function Total(m: seq<Measurement>): real {
    if |m| == 0 then 0.0 else m[|m| - 1].end
  }

  function SizesOf(m: seq<Measurement>): (s: seq<real>)
    ensures |s| == |m|
    ensures forall j :: 0 <= j < |m| ==> s[j] == m[j].size
  {
    seq(|m|, j requires 0 <= j < |m| => m[j].size)
  }

  /**
   * The reference construction: the cache obtained by writing the given sizes one after
   * another from index 0, i.e. the prefix sums of `s`.
   */
  function FromSizes(s: seq<real>): (r: seq<Measurement>)
    ensures |r| == |s|
    ensures Chained(r)
    ensures forall j :: 0 <= j < |s| ==> r[j].size == s[j]
  {
    if |s| == 0 then []
    else
      var p := FromSizes(s[..|s| - 1]);
      SetMeasurementAtExtendsChain(p, |s| - 1, s[|s| - 1]);
      SetMeasurementAt(p, |s| - 1, s[|s| - 1])
  }

  /** A write keeps every consistent slot consistent and extends a linked prefix by the slot written. */
  lemma SetMeasurementAtExtendsChain(m: seq<Measurement>, index: nat, size: real)
    requires index <= |m|
    requires AllConsistent(m) && LinkedBelow(m, index)
    ensures AllConsistent(SetMeasurementAt(m, index, size))
    ensures LinkedBelow(SetMeasurementAt(m, index, size), index + 1)
  {
    var r := SetMeasurementAt(m, index, size);
    forall j | 0 <= j < index + 1 && j < |r|
      ensures Linked(r, j)
    {
      if j < index {
        assert Linked(m, j);
      }
    }
  }

  /** A chained cache is exactly the prefix sums of its own sizes. */
  lemma {:induction false} ChainedIsPrefixSums(m: seq<Measurement>)
    ensures Chained(m) <==> m == FromSizes(SizesOf(m))
  {
    if Chained(m) && |m| > 0 {
      var n := |m| - 1;
      var p := m[..n];
      assert Chained(p) by {
        forall j | 0 <= j < |p| ensures Linked(p, j) {
          assert Linked(m, j);
        }
      }
      ChainedIsPrefixSums(p);
      assert SizesOf(m)[..n] == SizesOf(p);
      assert Linked(m, n);
      assert m == p + [m[n]];
    }
  }

  /** On a chained cache with non-negative sizes, later slots never start before earlier ones end. */
  lemma {:induction false} ChainedAscending(m: seq<Measurement>, i: nat, j: nat)
    requires Chained(m) && NonNegative(m)
    requires i < j < |m|
    ensures m[i].end <= m[j].start
    decreases j - i
  {
    assert Linked(m, j);
    assert Consistent(m[j - 1]);
    if i < j - 1 {
      ChainedAscending(m, i, j - 1);
    }
  }

  lemma ChainedIsOrdered(m: seq<Measurement>)
    requires Chained(m) && NonNegative(m)
    ensures Ordered(m)
  {
    forall i, j | 0 <= i < j < |m|
      ensures m[i].end <= m[j].start
    {
      ChainedAscending(m, i, j);
    }
    forall j | 0 <= j < |m|
      ensures m[j].start <= m[j].end
    {
      assert Consistent(m[j]);
    }
  }

  /** Every slot of a chained, non-negative cache lies within [0, Total(m)]. */
  lemma ChainedWithinTotal(m: seq<Measurement>, j: nat)
    requires Chained(m) && NonNegative(m)
    requires j < |m|
    ensures 0.0 <= m[j].start <= m[j].end <= Total(m)
  {
    StartsAtZeroOrLater(m, j);
    EndsByTotal(m, j);
  }

  lemma {:induction false} StartsAtZeroOrLater(m: seq<Measurement>, j: nat)
    requires Chained(m) && NonNegative(m)
    requires j < |m|
    ensures 0.0 <= m[j].start
  {
    assert Linked(m, j);
    if j > 0 {
      var p := m[j - 1];
      assert Consistent(p) && p.size >= 0.0;
      StartsAtZeroOrLater(m, j - 1);
    }
  }

  lemma {:induction false} EndsByTotal(m: seq<Measurement>, j: nat)
    requires Chained(m) && NonNegative(m)
    requires j < |m|
    ensures m[j].start <= m[j].end <= Total(m)
    decreases |m| - j
  {
    var x := m[j];
    assert Consistent(x) && x.size >= 0.0;
    if j + 1 < |m| {
      var y := m[j + 1];
      assert Linked(m, j + 1) && Consistent(y) && y.size >= 0.0;
      EndsByTotal(m, j + 1);
    }
  }
}
