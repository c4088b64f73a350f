/** The size policy: a cached measurement, else a constant or a per-index estimate. */
module Sizes {
  import opened Wrappers
  import opened Geometry
  import opened Measurements

  /**
   * `options.size`: a constant, or a function of index and viewport. A function value is
   * compared by identity in the engine, so it carries an identity tag `id`.
   */
  datatype SizePolicy = Fixed(value: real) | Estimated(id: nat, estimate: (nat, Rect) -> real)

  /** The two RangeError messages of the development-mode zero check. */
  datatype SizeError = SizeMustBePositive | SizeResultMustBePositive

  /** `size !== prevSize`, negated: numbers compare by value, functions by identity. */
  predicate SamePolicy(a: SizePolicy, b: SizePolicy) {
    match (a, b)
    case (Fixed(x), Fixed(y)) => x == y
    case (Estimated(i, _), Estimated(j, _)) => i == j
    case _ => false
  }

  /** What the policy alone yields for `index`. */
  function PolicySize(policy: SizePolicy, index: nat, viewport: Rect): real {
    match policy
    case Fixed(v) => v
    case Estimated(_, f) => f(index, viewport)
  }

  /** True when `measurements[index]?.size` is truthy, i.e. a cached nonzero size exists. */
  predicate HasCachedSize(m: seq<Measurement>, index: nat) {
    index < |m| && m[index].size != 0.0
  }

  /**
   * `getSize`: the cached size when it is truthy, otherwise the policy's size; in a
   * development build a resolved size of exactly 0 throws a RangeError whose message
   * depends on whether the policy is a function.
   */
  function GetSize(index: nat, policy: SizePolicy, m: seq<Measurement>, viewport: Rect, dev: bool): (r: Result<real, SizeError>)
    ensures HasCachedSize(m, index) ==> r == Ok(m[index].size)
    ensures !HasCachedSize(m, index) && r.Ok? ==> r.value == PolicySize(policy, index, viewport)
    ensures r.Err? <==> dev && !HasCachedSize(m, index) && PolicySize(policy, index, viewport) == 0.0
    ensures r.Err? ==> r.error == (if policy.Estimated? then SizeResultMustBePositive else SizeMustBePositive)
    ensures dev && r.Ok? ==> r.value != 0.0
  {
    var size := if HasCachedSize(m, index) then m[index].size else PolicySize(policy, index, viewport);
    if dev && size == 0.0 then
      Err(if policy.Estimated? then SizeResultMustBePositive else SizeMustBePositive)
    else
      Ok(size)
  }

  /** A truthy cached size is returned whatever the policy is: the policy is not consulted. */
  lemma CachedSizeIgnoresPolicy(index: nat, p: SizePolicy, q: SizePolicy, m: seq<Measurement>, viewport: Rect, dev: bool)
    requires HasCachedSize(m, index)
    ensures GetSize(index, p, m, viewport, dev) == GetSize(index, q, m, viewport, dev)
  {
  }

  /** A cached size of 0 is falsy, so the policy decides. */
  lemma ZeroCachedSizeFallsThrough(index: nat, policy: SizePolicy, m: seq<Measurement>, viewport: Rect)
    requires index < |m| && m[index].size == 0.0
    ensures GetSize(index, policy, m, viewport, false) == Ok(PolicySize(policy, index, viewport))
  {
  }

  /** Only exactly 0 is rejected: any negative size the policy yields passes the development check. */
  lemma NegativeSizeAccepted(index: nat, policy: SizePolicy, m: seq<Measurement>, viewport: Rect)
    requires !HasCachedSize(m, index) && PolicySize(policy, index, viewport) < 0.0
    ensures GetSize(index, policy, m, viewport, true) == Ok(PolicySize(policy, index, viewport))
  {
  }

  /** A production build never throws. */
  lemma ProductionNeverThrows(index: nat, policy: SizePolicy, m: seq<Measurement>, viewport: Rect)
    ensures GetSize(index, policy, m, viewport, false).Ok?
  {
  }

  /** The result depends on the cache only through slot `index`. */
  lemma GetSizeReadsOneSlot(index: nat, policy: SizePolicy, m: seq<Measurement>, m': seq<Measurement>, viewport: Rect, dev: bool)
    requires index < |m| <==> index < |m'|
    requires index < |m| ==> m[index] == m'[index]
    ensures GetSize(index, policy, m, viewport, dev) == GetSize(index, policy, m', viewport, dev)
  {
  }
}
