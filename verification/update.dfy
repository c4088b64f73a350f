/** `update`: remeasure, resolve the visible range, render the window and publish. */
module Updates {
  import opened Wrappers
  import opened Geometry
  import opened Measurements
  import opened Sizes
  import opened Ranges
  import opened RenderState
  import opened Equality
  import opened Events
  import opened Config
  import opened EngineState
  import opened Remeasuring
  import opened Publish

  /** The three callbacks an update pass may call. */
  datatype Callback = OnResize | OnScroll | OnReachEnd

  function CallbackOf(n: Notice): Callback {
    match n
    case ResizeNotice(_, _, _, _) => OnResize
    case ScrollNotice(_, _, _, _) => OnScroll
    case ReachEndNotice(_, _) => OnReachEnd
  }

  /** Some effect in the list calls callback `c`. */
  predicate Emits(effects: seq<Effect>, c: Callback) {
    exists i :: 0 <= i < |effects| && effects[i].Notify? && CallbackOf(effects[i].notice) == c
  }

  lemma EmitsConcat(a: seq<Effect>, b: seq<Effect>, c: Callback)
    ensures Emits(a + b, c) <==> Emits(a, c) || Emits(b, c)
  {
    if Emits(a + b, c) {
      var i :| 0 <= i < |a + b| && (a + b)[i].Notify? && CallbackOf((a + b)[i].notice) == c;
      if i >= |a| {
        assert b[i - |a|] == (a + b)[i];
      }
    }
    if Emits(b, c) {
      var i :| 0 <= i < |b| && b[i].Notify? && CallbackOf(b[i].notice) == c;
      assert (a + b)[|a| + i] == b[i];
    }
    if Emits(a, c) {
      var i :| 0 <= i < |a| && a[i].Notify? && CallbackOf(a[i].notice) == c;
      assert (a + b)[i] == a[i];
    }
  }

  /** The list a gated callback contributes: the notice when the gate is open and there is one. */
  function Gated(gate: bool, n: Option<Notice>): (r: seq<Effect>)
    ensures forall c :: Emits(r, c) <==> gate && n.Some? && CallbackOf(n.value) == c
    ensures forall i :: 0 <= i < |r| ==> r[i].Notify?
  {
    if gate && n.Some? then
      var r := [Notify(n.value)];
      assert r[0] == Notify(n.value);
      r
    else []
  }

  /** Every effect is a callback: an update never writes the scroll offset. */
  predicate OnlyNotices(effects: seq<Effect>) {
    forall i :: 0 <= i < |effects| ==> effects[i].Notify?
  }

  /** An update leaves everything but the cache, the anchor, the item cache, the state and the pass counter alone. */
  ghost predicate SameSettings(e: Engine, e': Engine) {
    && e'.rev == e.rev && e'.dev == e.dev && e'.opts == e.opts && e'.mounted == e.mounted
    && e'.scrolling == e.scrolling && e'.settlePending == e.settlePending
    && e'.scrollOffset == e.scrollOffset && e'.viewport == e.viewport
  }

  /** The callbacks of one pass, in the order the source calls them; each is gated by its flag. */
  function PassNotices(events: Mask, resize: Notice, scroll: Option<Notice>, reachEnd: Option<Notice>): (r: seq<Effect>)
    requires resize.ResizeNotice?
    requires scroll.Some? ==> scroll.value.ScrollNotice?
    requires reachEnd.Some? ==> reachEnd.value.ReachEndNotice?
    ensures OnlyNotices(r)
    ensures Emits(r, OnResize) <==> HasEvent(events, Resize)
    ensures Emits(r, OnScroll) <==> HasEvent(events, Scroll) && scroll.Some?
    ensures Emits(r, OnReachEnd) <==> HasEvent(events, ReachEnd) && reachEnd.Some?
  {
    var a := Gated(HasEvent(events, Resize), Some(resize));
    var b := Gated(HasEvent(events, Scroll), scroll);
    var c := Gated(HasEvent(events, ReachEnd), reachEnd);
    EmitsConcat(a + b, c, OnResize);
    EmitsConcat(a + b, c, OnScroll);
    EmitsConcat(a + b, c, OnReachEnd);
    EmitsConcat(a, b, OnResize);
    EmitsConcat(a, b, OnScroll);
    EmitsConcat(a, b, OnReachEnd);
    a + b + c
  }

  /** The precondition of the non-empty branch: remeasured, a viewport of some size, a non-empty cache. */
  predicate Renderable(e: Engine) {
    e.remeasureIndex == -1 && |e.measurements| > 0 && e.anchor < |e.measurements| && ViewportSize(e) > 0.0
  }

  /** The clamped offset an update renders at. */
  function RenderOffset(e: Engine, scrollOffset: real): real {
    Clamp(e.rev, e.measurements, ViewportSize(e), scrollOffset)
  }

  /** The visible range an update resolves, seeded with the engine's anchor. */
  function Visible(e: Engine, scrollOffset: real): (r: Range)
    requires Renderable(e)
    ensures 0 <= r.start <= r.end < |e.measurements|
  {
    GetRange(e.measurements, ViewportSize(e), RenderOffset(e, scrollOffset), e.anchor)
  }

  /** The rendered window of an update. */
  function RenderWindow(e: Engine, scrollOffset: real): (r: Range)
    requires Renderable(e)
    ensures 0 <= r.start <= r.end < |e.measurements|
  {
    Window(Visible(e, scrollOffset), Overscan(e.opts), |e.measurements| - 1)
  }

  /** Publishing keeps what the items show: the guard only swaps in structurally equal items. */
  lemma PublishKeepsSlots(next: State, prev: State, m: seq<Measurement>, lo: nat, hi: int)
    requires hi < |m|
    requires ShowsSlots(next.items, m, lo, hi)
    ensures ShowsSlots(PublishState(next, prev).items, m, lo, hi)
  {
    var state := PublishState(next, prev);
    forall k | 0 <= k < |state.items|
      ensures state.items[k].(ref := 0) == next.items[k].(ref := 0)
    {
      assert Unref(state).items[k] == Unref(next).items[k];
    }
  }

  /** The engine after the non-empty branch: new anchor, item cache, published state and pass. */
  function Rendered(e: Engine, scrollOffset: real): (r: Engine)
    requires Renderable(e)
    ensures r.anchor == Visible(e, scrollOffset).start
    ensures ShowsSlots(r.state.items, e.measurements, RenderWindow(e, scrollOffset).start, RenderWindow(e, scrollOffset).end)
    ensures r.state.size == PublishedSize(e.rev, e.opts.scrollbar, e.state.size, scrollOffset, ViewportSize(e), Total(e.measurements))
    ensures r == e.(anchor := r.anchor, items := r.items, state := r.state, pass := e.pass + 1)
  {
    var m := e.measurements;
    var w := RenderWindow(e, scrollOffset);
    var items := Materialize(m, w, e.items, e.pass, e.rev == Core);
    var cache := if e.rev == Core then StoreItems(e.items, items, w.start) else e.items;
    var next := State(PublishedSize(e.rev, e.opts.scrollbar, e.state.size, scrollOffset, ViewportSize(e), Total(m)), items);
    PublishKeepsSlots(next, e.state, m, w.start, w.end);
    e.(anchor := Visible(e, scrollOffset).start, items := cache, state := PublishState(next, e.state), pass := e.pass + 1)
  }

  /** Whether the non-empty branch calls `onReachEnd` (its flag aside). */
  predicate RenderReachesEnd(e: Engine, scrollOffset: real)
    requires Renderable(e)
  {
    ReachesEnd(e.rev, RenderOffset(e, scrollOffset), ViewportSize(e), Total(e.measurements), Visible(e, scrollOffset).end, |e.measurements| - 1)
  }

  /** The callbacks of the non-empty branch. */
  function RenderNotices(e: Engine, scrollOffset: real, events: Mask): (r: seq<Effect>)
    requires Renderable(e)
    ensures Emits(r, OnReachEnd) <==> HasEvent(events, ReachEnd) && RenderReachesEnd(e, scrollOffset)
    ensures forall i :: 0 <= i < |r| && r[i].Notify? && r[i].notice.ScrollNotice? ==>
      r[i].notice.delta == RenderOffset(e, scrollOffset) - e.scrollOffset
    ensures Emits(r, OnResize) <==> HasEvent(events, Resize)
    ensures Emits(r, OnScroll) <==> HasEvent(events, Scroll)
    ensures OnlyNotices(r)
  {
    var offset := RenderOffset(e, scrollOffset);
    var visible := Visible(e, scrollOffset);
    var w := RenderWindow(e, scrollOffset);
    var reachEnd := if RenderReachesEnd(e, scrollOffset) then Some(ReachEndNotice(visible, w)) else None;
    var scroll := ScrollNotice(offset, visible, w, offset - e.scrollOffset);
    var effects := PassNotices(events, ResizeNotice(visible, w, e.viewport.width, e.viewport.height), Some(scroll), reachEnd);
    assert forall i :: 0 <= i < |effects| && effects[i].Notify? && effects[i].notice.ScrollNotice? ==> effects[i].notice == scroll;
    effects
  }

  /** The non-empty branch of `update`, on a remeasured cache. */
  function Render(e: Engine, scrollOffset: real, events: Mask): (r: Step)
    requires Renderable(e)
  {
    Step(Rendered(e, scrollOffset), RenderNotices(e, scrollOffset, events))
  }

  /** The empty branch of `update`: nothing to render, the published state becomes `{size: 0, items: []}`. */
  function RenderEmpty(e: Engine, events: Mask): (r: Step)
    ensures r.engine == e.(state := State(0.0, []))
    ensures OnlyNotices(r.effects)
    ensures Emits(r.effects, OnResize) <==> HasEvent(events, Resize)
    ensures !Emits(r.effects, OnScroll)
    ensures Emits(r.effects, OnReachEnd) <==> HasEvent(events, ReachEnd) && ViewportSize(e) > 0.0
  {
    var empty := Range(0, 0);
    var state := PublishState(State(0.0, []), e.state);
    var reachEnd := if ViewportSize(e) > 0.0 then Some(ReachEndNotice(empty, empty)) else None;
    Step(e.(state := state), PassNotices(events, ResizeNotice(empty, empty, e.viewport.width, e.viewport.height), None, reachEnd))
  }

  /** The remeasure step of `update`: the cache brought up to date, the watermark cleared. */
  function Remeasured(e: Engine): (r: Result<Engine, SizeError>)
    requires Pending(e)
    ensures r.Err? ==> e.dev
    ensures r.Ok? ==> r.value == e.(measurements := r.value.measurements, remeasureIndex := -1) && Wf(r.value)
    ensures r.Ok? && ChainOk(e) ==> Chained(r.value.measurements)
    ensures r.Ok? && 0 <= e.remeasureIndex <= |e.measurements| ==> |r.value.measurements| == e.opts.count
    ensures r.Ok? && e.remeasureIndex < 0 ==> r.value.measurements == e.measurements
    ensures r.Ok? ==> |r.value.measurements| >= |e.measurements|
    ensures r.Ok? ==> forall j :: 0 <= j < |e.measurements| && j < e.remeasureIndex ==> r.value.measurements[j] == e.measurements[j]
  {
    assert Remeasurable(e.measurements, e.remeasureIndex, e.opts.count);
    var m :- Remeasure(e.measurements, e.remeasureIndex, e.opts.count, e.opts.size, e.viewport, e.dev);
    Ok(e.(measurements := m, remeasureIndex := -1))
  }

  /**
   * `update(scrollOffset, events)`: nothing while unmounted; otherwise remeasure (which may
   * throw in a development build), then render the window around the visible range when the
   * viewport has a size and the cache is not empty, else publish the empty state.
   */
  function Update(e: Engine, scrollOffset: real, events: Mask): (r: Result<Step, SizeError>)
    requires Pending(e)
    ensures !e.mounted ==> r == Ok(Step(e, []))
    ensures r.Err? ==> e.mounted && e.dev
    ensures r.Ok? ==> SameSettings(e, r.value.engine) && OnlyNotices(r.value.effects)
    ensures r.Ok? && e.mounted ==> Wf(r.value.engine) && r.value.engine.remeasureIndex == -1
    ensures e.mounted ==> (r.Ok? <==> Remeasured(e).Ok?)
    ensures r.Ok? && e.mounted ==> r.value.engine.measurements == Remeasured(e).value.measurements
    ensures r.Ok? && e.mounted && (ViewportSize(e) <= 0.0 || |r.value.engine.measurements| == 0) ==>
      r.value.engine.state == State(0.0, [])
    ensures r.Ok? && e.mounted ==>
      var e1 := Remeasured(e).value;
      (ViewportSize(e) > 0.0 && |e1.measurements| > 0 <==> Renderable(e1))
      && (Renderable(e1) ==> r.value == Render(e1, scrollOffset, events))
  {
    if !e.mounted then Ok(Step(e, []))
    else
      var e1 :- Remeasured(e);
      if ViewportSize(e1) > 0.0 && |e1.measurements| > 0 then Ok(Render(e1, scrollOffset, events))
      else Ok(RenderEmpty(e1, events))
  }

  /**
   * What an update shows: on a chained cache of positive sizes, every slot that overlaps the
   * viewport at the clamped offset is among the published items, with its measured geometry.
   */
  lemma UpdateShowsVisibleSlots(e: Engine, scrollOffset: real, events: Mask, e1: Engine, j: nat)
    requires Pending(e) && e.mounted && ChainOk(e) && Remeasured(e) == Ok(e1)
    requires ViewportSize(e) > 0.0 && Positive(e1.measurements) && |e1.measurements| > 0
    requires -ViewportSize(e) < RenderOffset(e1, scrollOffset) < Total(e1.measurements)
    requires j < |e1.measurements| && Intersects(e1.measurements, j, RenderOffset(e1, scrollOffset), ViewportSize(e))
    ensures Update(e, scrollOffset, events).Ok?
    ensures var items := Update(e, scrollOffset, events).value.engine.state.items;
      exists k :: 0 <= k < |items| && items[k].index == j && items[k].start == e1.measurements[j].start
        && items[k].size == e1.measurements[j].size && items[k].end == e1.measurements[j].end
  {
    assert Renderable(e1) && Chained(e1.measurements);
    RenderedShowsVisibleSlots(e1, scrollOffset, j);
    assert Update(e, scrollOffset, events).value.engine.state.items == Rendered(e1, scrollOffset).state.items;
  }

  /** The non-empty branch alone: a slot overlapping the viewport is among the rendered items. */
  lemma RenderedShowsVisibleSlots(e: Engine, scrollOffset: real, j: nat)
    requires Renderable(e) && Chained(e.measurements) && Positive(e.measurements)
    requires -ViewportSize(e) < RenderOffset(e, scrollOffset) < Total(e.measurements)
    requires j < |e.measurements|
    requires Intersects(e.measurements, j, RenderOffset(e, scrollOffset), ViewportSize(e))
    ensures var items := Rendered(e, scrollOffset).state.items;
      exists k :: 0 <= k < |items| && items[k].index == j && items[k].start == e.measurements[j].start
        && items[k].size == e.measurements[j].size && items[k].end == e.measurements[j].end
  {
    var m := e.measurements;
    GetRangeIsVisibleSet(m, ViewportSize(e), RenderOffset(e, scrollOffset), e.anchor);
    var w := RenderWindow(e, scrollOffset);
    assert w.Contains(j);
    var items := Rendered(e, scrollOffset).state.items;
    assert items[j - w.start].index == j;
  }
}
