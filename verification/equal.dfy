/** Structural equality used to suppress redundant publishes and viewport updates. */
module Equality {
  import opened Geometry
  import opened RenderState

  /** `isEqualItem`: end, size, start and index agree; the ref callback is ignored. */
  predicate IsEqualItem(next: Item, prev: Item)
    ensures IsEqualItem(next, prev) <==> next.(ref := prev.ref) == prev
  {
    next.end == prev.end && next.size == prev.size && next.start == prev.start && next.index == prev.index
  }

  /** The comparison loop of `isEqualState`, from position `k` on. */
  function ItemsEqualFrom(next: seq<Item>, prev: seq<Item>, k: nat): (r: bool)
    requires |next| == |prev|
    ensures r <==> forall i :: k <= i < |next| ==> IsEqualItem(next[i], prev[i])
    decreases |next| - k
  {
    if k >= |next| then true
    else IsEqualItem(next[k], prev[k]) && ItemsEqualFrom(next, prev, k + 1)
  }

  /** `isEqualState`: same size, same number of items, and pairwise equal items. */
  predicate IsEqualState(next: State, prev: State)
    ensures IsEqualState(next, prev) <==>
      && next.size == prev.size
      && |next.items| == |prev.items|
      && forall i :: 0 <= i < |next.items| ==> IsEqualItem(next.items[i], prev.items[i])
  {
    if next.size != prev.size then false
    else if |next.items| != |prev.items| then false
    else ItemsEqualFrom(next.items, prev.items, 0)
  }

  /** `isEqualRect`: width and height agree. */
  predicate IsEqualRect(next: Rect, prev: Rect)
    ensures IsEqualRect(next, prev) <==> next == prev
  {
    next.width == prev.width && next.height == prev.height
  }

  /** The state with every ref callback erased: what a reader sees apart from identity. */
  function Unref(s: State): (r: State)
    ensures r.size == s.size && |r.items| == |s.items|
    ensures forall i :: 0 <= i < |s.items| ==> r.items[i] == s.items[i].(ref := 0)
  {
    State(s.size, seq(|s.items|, i requires 0 <= i < |s.items| => s.items[i].(ref := 0)))
  }

  /** Two states are structurally equal exactly when they agree once identities are erased. */
  lemma IsEqualStateIffSameView(next: State, prev: State)
    ensures IsEqualState(next, prev) <==> Unref(next) == Unref(prev)
  {
    if Unref(next) == Unref(prev) {
      forall i | 0 <= i < |next.items|
        ensures IsEqualItem(next.items[i], prev.items[i])
      {
        assert Unref(next).items[i] == Unref(prev).items[i];
      }
    }
    if IsEqualState(next, prev) {
      assert Unref(next).items == Unref(prev).items;
    }
  }

  lemma IsEqualItemReflexiveSymmetric(a: Item, b: Item)
    ensures IsEqualItem(a, a)
    ensures IsEqualItem(a, b) <==> IsEqualItem(b, a)
  {
  }

  lemma IsEqualStateReflexive(s: State)
    ensures IsEqualState(s, s)
  {
  }

  lemma IsEqualRectReflexiveSymmetric(a: Rect, b: Rect)
    ensures IsEqualRect(a, a)
    ensures IsEqualRect(a, b) <==> IsEqualRect(b, a)
  {
  }
}
