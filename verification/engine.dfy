/**
 * The engine's mutable state as an immutable record, the notifications and scroll writes it
 * emits, and the well-formedness conditions every step keeps.
 */
module EngineState {
  import opened Geometry
  import opened Measurements
  import opened Ranges
  import opened RenderState
  import opened Config
  import opened Easing

  /** The payloads of `onResize`, `onScroll` and `onReachEnd`. */
  datatype Notice =
    | ResizeNotice(visible: Range, items: Range, width: real, height: real)
    | ScrollNotice(offset: real, visible: Range, items: Range, delta: real)
    | ReachEndNotice(visible: Range, items: Range)

  /**
   * What a step asks of the outside world: a callback, an instant write of the viewport's
   * scroll offset, or an animated scroll from one offset to another over `duration` ms whose
   * frames follow the curve `easing`.
   */
  datatype Effect =
    | Notify(notice: Notice)
    | WriteScroll(offset: real)
    | AnimateScroll(from: real, to: real, duration: real, easing: Curve)

  /**
   * The engine: the hook's internal record plus its published state.
   * `remeasureIndex` is the watermark (-1 when the cache is clean), `items` the cache of
   * rendered items by index, `settlePending` whether the post-scroll settle is scheduled, and
   * `pass` the number of the next update pass (the identity given to items it creates).
   */
  datatype Engine = Engine(
    rev: Revision,
    dev: bool,
    opts: Options,
    mounted: bool,
    scrolling: bool,
    settlePending: bool,
    anchor: nat,
    scrollOffset: real,
    remeasureIndex: int,
    viewport: Rect,
    measurements: seq<Measurement>,
    items: map<nat, Item>,
    state: State,
    pass: nat)

  /** The engine after a step, with the effects the step emitted, in order. */
  datatype Step = Step(engine: Engine, effects: seq<Effect>)

  /** The internal record as first created, before mounting. */
  function Init(rev: Revision, dev: bool, opts: Options): (e: Engine)
    ensures !e.mounted && e.remeasureIndex == -1 && e.anchor == 0 && e.scrollOffset == 0.0
    ensures e.measurements == [] && e.items == map[] && e.state == InitialState()
    ensures e.viewport == Rect(0.0, 0.0)
  {
    Engine(rev, dev, opts, false, false, false, 0, 0.0, -1, Rect(0.0, 0.0), [], map[], InitialState(), 0)
  }

  /** The viewport's extent along the scroll axis. */
  function ViewportSize(e: Engine): real {
    AxisSize(e.viewport, e.opts.horizontal)
  }

  /** The cache length once a pending remeasure has run. */
  function EffectiveLength(e: Engine): nat {
    if 0 <= e.remeasureIndex < e.opts.count then e.opts.count else |e.measurements|
  }

  /**
   * The bounds an update needs: the cache is dense up to the watermark, never longer than
   * `count`, and the anchor indexes the cache as it will be after remeasuring.
   */
  predicate Pending(e: Engine) {
    && -1 <= e.remeasureIndex
    && |e.measurements| <= e.opts.count
    && (0 <= e.remeasureIndex < e.opts.count ==> e.remeasureIndex <= |e.measurements|)
    && e.anchor <= if EffectiveLength(e) > 0 then EffectiveLength(e) - 1 else 0
  }

  /** The bounds that hold between steps: a pending watermark never lies past the cache. */
  predicate Wf(e: Engine) {
    Pending(e) && (e.remeasureIndex >= 0 ==> e.remeasureIndex <= |e.measurements|)
  }

  /** The chain invariant up to the watermark: below it, slots are linked; every slot is consistent. */
  predicate ChainOk(e: Engine) {
    AllConsistent(e.measurements)
    && LinkedBelow(e.measurements, if e.remeasureIndex >= 0 then e.remeasureIndex else |e.measurements|)
  }

  lemma InitWf(rev: Revision, dev: bool, opts: Options)
    ensures Wf(Init(rev, dev, opts)) && ChainOk(Init(rev, dev, opts))
  {
  }
}
