/**
 * The event bit flags passed to `update` and the mask test `hasEvent`. Masks are
 * non-negative integers; JavaScript's `&` and `|` act on their binary digits.
 */
module Events {

  type Mask = nat

  const None: Mask := 0
  const Resize: Mask := 1
  const Scroll: Mask := 2
  const ReachEnd: Mask := 4

  /** Bitwise `a & b` on non-negative integers. */
  function And(a: Mask, b: Mask): Mask
    decreases a
  {
    if a == 0 || b == 0 then 0
    else 2 * And(a / 2, b / 2) + (if a % 2 == 1 && b % 2 == 1 then 1 else 0)
  }

  /** Bitwise `a | b` on non-negative integers. */
  function Or(a: Mask, b: Mask): Mask
    decreases a + b
  {
    if a == 0 then b
    else if b == 0 then a
    else 2 * Or(a / 2, b / 2) + (if a % 2 == 1 || b % 2 == 1 then 1 else 0)
  }

  /** Binary digit `k` of `x`. */
  predicate Bit(x: Mask, k: nat)
    decreases k
  {
    if k == 0 then x % 2 == 1 else Bit(x / 2, k - 1)
  }

  /** `hasEvent`: `(events & type) === type`. A contained flag is never larger than the mask. */
  predicate HasEvent(events: Mask, t: Mask)
    ensures HasEvent(events, t) ==> t <= events
  {
    AndAtMost(events, t);
    And(events, t) == t
  }

  /** `a & b` never exceeds `a`. */
  lemma {:induction false} AndAtMost(a: Mask, b: Mask)
    ensures And(a, b) <= a
    decreases a
  {
    if a != 0 && b != 0 {
      AndAtMost(a / 2, b / 2);
    }
  }

  /** A power of two: exactly one binary digit set. */
  predicate SingleBit(x: Mask)
    decreases x
  {
    x == 1 || (x > 1 && x % 2 == 0 && SingleBit(x / 2))
  }

  lemma FlagsAreDistinctSingleBits()
    ensures None == 0
    ensures SingleBit(Resize) && SingleBit(Scroll) && SingleBit(ReachEnd)
    ensures And(Resize, Scroll) == 0 && And(Resize, ReachEnd) == 0 && And(Scroll, ReachEnd) == 0
  {
  }

  lemma {:induction false} AndDigits(a: Mask, b: Mask)
    ensures And(a, b) % 2 == (if a % 2 == 1 && b % 2 == 1 then 1 else 0)
    ensures And(a, b) / 2 == And(a / 2, b / 2)
  {
  }

  /** Every binary digit set in `t` is also set in `events`. */
  ghost predicate Contains(events: Mask, t: Mask) {
    forall k: nat :: Bit(t, k) ==> Bit(events, k)
  }

  /** `hasEvent(e, t)` holds exactly when every bit of `t` is set in `e`. */
  lemma HasEventIffEveryBit(events: Mask, t: Mask)
    ensures HasEvent(events, t) <==> Contains(events, t)
  {
    if HasEvent(events, t) {
      HasEventGivesEveryBit(events, t);
    }
    if Contains(events, t) {
      EveryBitGivesHasEvent(events, t);
    }
  }

  lemma {:induction false} HasEventGivesEveryBit(events: Mask, t: Mask)
    requires HasEvent(events, t)
    ensures forall k: nat :: Bit(t, k) ==> Bit(events, k)
    decreases t
  {
    AndDigits(events, t);
    if t == 0 {
      forall k: nat ensures !Bit(0, k) {
        ZeroHasNoBits(k);
      }
    } else {
      assert And(events / 2, t / 2) == t / 2;
      HasEventGivesEveryBit(events / 2, t / 2);
      forall k: nat | Bit(t, k)
        ensures Bit(events, k)
      {
        if k > 0 {
          assert Bit(t / 2, k - 1);
        }
      }
    }
  }

  lemma {:induction false} EveryBitGivesHasEvent(events: Mask, t: Mask)
    requires forall k: nat :: Bit(t, k) ==> Bit(events, k)
    ensures HasEvent(events, t)
    decreases t
  {
    AndDigits(events, t);
    if t != 0 {
      assert Bit(t, 0) ==> Bit(events, 0);
      forall k: nat | Bit(t / 2, k)
        ensures Bit(events / 2, k)
      {
        assert Bit(t, k + 1);
      }
      EveryBitGivesHasEvent(events / 2, t / 2);
      var r := And(events, t);
      assert r == 2 * (r / 2) + r % 2;
    }
  }

  lemma {:induction false} ZeroHasNoBits(k: nat)
    ensures !Bit(0, k)
    decreases k
  {
    if k > 0 {
      ZeroHasNoBits(k - 1);
    }
  }

  lemma HasEventNone(events: Mask)
    ensures HasEvent(events, None)
  {
  }

  /** A combined mask contains each of its parts. */
  lemma {:induction false} HasEventOfUnion(a: Mask, b: Mask)
    ensures HasEvent(Or(a, b), a)
    decreases a + b
  {
    if a != 0 && b != 0 {
      HasEventOfUnion(a / 2, b / 2);
      AndDigits(Or(a, b), a);
    } else if a != 0 {
      AndSelf(a);
    }
  }

  lemma {:induction false} AndSelf(a: Mask)
    ensures And(a, a) == a
    decreases a
  {
    if a != 0 {
      AndSelf(a / 2);
    }
  }

  lemma ResizeDoesNotContainScroll()
    ensures !HasEvent(Resize, Scroll)
    ensures HasEvent(Or(Resize, ReachEnd), ReachEnd) && !HasEvent(Or(Resize, ReachEnd), Scroll)
  {
    assert Or(Resize, ReachEnd) == 5;
    assert And(5, 2) == 0;
  }
}
