/** The hook's options, their development-build validation, and the two engine revisions. */
module Config {
  import opened Wrappers
  import opened Geometry
  import opened Sizes
  import opened ScrollOptions

  /**
   * The two revisions of the engine: the current package and the first revision, which
   * differ in how count growth, the published size and the end-of-list test are handled.
   */
  datatype Revision = Core | Legacy

  /** The options as a caller passes them: `count` and `overscan` are arbitrary numbers. */
  datatype RawOptions = RawOptions(
    count: real,
    overscan: Option<real>,
    size: SizePolicy,
    horizontal: bool,
    scrollbar: Option<bool>,
    scrolling: Option<Scrolling>)

  /** The options the engine works with: `count` and `overscan` are non-negative integers. */
  datatype Options = Options(
    count: nat,
    overscan: Option<nat>,
    size: SizePolicy,
    horizontal: bool,
    scrollbar: Option<bool>,
    scrolling: Option<Scrolling>)

  /** The two RangeErrors of the development-build checks. */
  datatype ConfigError = CountNotUint32 | OverscanNotUint32

  /** `x === x >>> 0`. */
  predicate IsUint32(x: real) {
    ToUint32(x) as real == x
  }

  /**
   * The development-build check at the top of the hook: `count`, and `overscan` when given,
   * must survive the unsigned 32-bit conversion unchanged. `count` is checked first.
   */
  function Validate(raw: RawOptions): (r: Result<Options, ConfigError>)
    ensures r.Ok? <==> IsUint32(raw.count) && (raw.overscan.None? || IsUint32(raw.overscan.value))
    ensures !IsUint32(raw.count) ==> r == Err(CountNotUint32)
    ensures IsUint32(raw.count) && r.Err? ==> r.error == OverscanNotUint32
    ensures r.Ok? ==> r.value.count as real == raw.count
    ensures r.Ok? ==> (r.value.overscan.None? <==> raw.overscan.None?)
    ensures r.Ok? && raw.overscan.Some? ==> r.value.overscan.value as real == raw.overscan.value
    ensures r.Ok? ==> r.value.size == raw.size && r.value.horizontal == raw.horizontal
    ensures r.Ok? ==> r.value.scrollbar == raw.scrollbar && r.value.scrolling == raw.scrolling
  {
    if !IsUint32(raw.count) then Err(CountNotUint32)
    else if raw.overscan.Some? && !IsUint32(raw.overscan.value) then Err(OverscanNotUint32)
    else
      var overscan: Option<nat> := if raw.overscan.Some? then Some(ToUint32(raw.overscan.value)) else None;
      Ok(Options(ToUint32(raw.count), overscan, raw.size, raw.horizontal, raw.scrollbar, raw.scrolling))
  }

  /** A value passes the check exactly when it is an integer in [0, 2^32). */
  lemma ValidateAcceptsUint32Range(raw: RawOptions)
    requires raw.overscan.None?
    ensures Validate(raw).Ok? <==> raw.count == raw.count.Floor as real && 0.0 <= raw.count < TwoTo32 as real
  {
    ToUint32Fixed(raw.count);
  }

  lemma ValidateRejects()
    ensures forall s: SizePolicy :: Validate(RawOptions(-1.0, None, s, false, None, None)) == Err(CountNotUint32)
    ensures forall s: SizePolicy :: Validate(RawOptions(2.5, None, s, false, None, None)) == Err(CountNotUint32)
    ensures forall s: SizePolicy :: Validate(RawOptions(3.0, Some(0.5), s, false, None, None)) == Err(OverscanNotUint32)
  {
  }

  /** `const { overscan = 10 } = options`. */
  function Overscan(o: Options): (r: nat)
    ensures o.overscan.Some? ==> r == o.overscan.value
    ensures o.overscan.None? ==> r == 10
  {
    o.overscan.GetOr(10)
  }
}
