# use-virtual engine, modelled in Dafny

A model of the virtualization engine behind the `useVirtual` React hook of `use-virtual`.
The engine keeps a cache of item measurements and resolves which items overlap the viewport
at a given scroll offset. It renders those items plus an overscan margin and publishes
`{size, items}` to React. It also answers programmatic scrolls to an offset or to an item.
Two revisions of the engine are modelled side by side:

- `Core` is the current engine of `packages/core/src/index.ts`.
- `Legacy` is the older engine of `src/index.ts`, together with the helpers of the
  monolithic `src/utils.ts`.

The engine's mutable record (`useInternal`, or the many refs of the older revision) becomes
the immutable datatype `EngineState.Engine`. Every callback the hook registers becomes a pure
step function from an engine to a `Step`, which holds the next engine and the effects it
emitted. The callbacks are: the `[count, size]` effect, the update effect, mount and unmount,
the viewport observer, the scroll listener and its settle frame, the item observer and the
item ref cleanup. Effects are user callbacks (`onResize`, `onScroll`, `onReachEnd`) and
scroll writes (an instant write or a smooth animation). Development-build errors (`__DEV__`)
are `Err` results.

Modules, in dependency order:

| file | module | concern |
|---|---|---|
| wrappers.dfy | Wrappers | `Option`, `Result` |
| geometry.dfy | Geometry | rectangles, `Math.ceil`, JavaScript's `ToInt32`/`ToUint32` |
| measurement.dfy | Measurements | `setMeasurementAt` and the chain invariant |
| size.dfy | Sizes | `getSize` and the size policy |
| offset.dfy | Offsets | `clampOffset` and `getScrollOffset` |
| range.dfy | Ranges | `binarySearch` and `getRange` |
| state.dfy | RenderState | published items and state |
| equal.dfy | Equality | `isEqualItem`, `isEqualState`, `isEqualRect` |
| events.dfy | Events | event flags and `hasEvent` |
| easing.dfy | Easing | `easingDuration`, `getDuration` |
| scroll.dfy | ScrollOptions | option normalisers |
| legacy_utils.dfy | LegacyUtils | the monolithic `src/utils.ts` |
| config.dfy | Config | options and their development-build validation |
| engine.dfy | EngineState | the engine record and its well-formedness |
| remeasure.dfy | Remeasuring | `remeasure` from the watermark |
| publish.dfy | Publish | window, item reuse, scrollbar-lag size, state publishing |
| update.dfy | Updates | `update` |
| transitions.dfy | Transitions | lifecycle, resize, scroll, item resize |
| scroll_control.dfy | ScrollControl | `scrollTo`, `scrollToItem` and its re-issue rule |

Pixels are `real`. `Math.ceil` is written as `Geometry.Ceil`. The older revision's
`(x + 0.5) | 0` is written as `Geometry.ToInt32`: truncation and then a 32-bit wrap.

Where the engines disagree, the model follows the code:

- `clampOffset` has no lower bound of 0. `Offsets.ClampOffsetCanBeNegative` exhibits a
  negative result, and `ScrollControl.ScrollToItemWritesTarget` shows that `scrollToItem`
  writes a negative offset when the content is shorter than the viewport.
- `getSize` treats only an exact `0` as invalid. A negative size passes, and a cached size of
  `0` falls through to the policy.
- The jump-prevention write after an item resize does not look at an animation in flight.
- The `[count, size]` effect of the current revision does not mark new slots when `count`
  grows on a clean cache, so they stay unmeasured
  (`Transitions.CoreGrowthLeavesNewSlotsUnmeasured`).
- The older revision marks new slots, but it overwrites a lower pending watermark while doing
  so. That can leave the cache broken (`Transitions.LegacyGrowthCanBreakChain`).

## Model

| member | source | states |
|---|---|---|
| Geometry.CeilLeast | packages/core/src/index.ts:341 | an integer is at least `x` exactly when it is at least `Math.ceil(x)` |
| Geometry.ToInt32RoundsHalfUp | src/index.ts:193 | below 2^31, `(x + 0.5) \| 0` is `x` rounded half up |
| Geometry.ToUint32Fixed | packages/core/src/index.ts:44 | `x >>> 0 === x` exactly for integers in `[0, 2^32)` |
| Measurements.SetMeasurementAt | packages/core/src/utils/measurement.ts:17-21 | slot `index` starts at the previous slot's end (0 for the first), ends at start + size; only that slot changes; writing one past the end appends |
| Measurements.SetMeasurementAtExtendsChain | packages/core/src/utils/measurement.ts:17-21 | writing the first unlinked slot keeps every slot consistent and extends the linked prefix by one |
| Measurements.FromSizes | packages/core/src/utils/measurement.ts:17-21 | writing sizes in order yields a chained cache holding those sizes |
| Measurements.ChainedIsPrefixSums | packages/core/src/index.ts:61-72 | a cache is chained exactly when it equals the prefix sums of its own sizes |
| Measurements.ChainedIsOrdered | packages/core/src/utils/measurement.ts:17-21 | a chained cache of non-negative sizes occupies disjoint, ascending intervals |
| Measurements.ChainedWithinTotal | packages/core/src/utils/measurement.ts:17-21 | in such a cache every slot lies within `[0, total]` |
| Sizes.GetSize | src/utils/size.ts:20-36 | a truthy cached size wins; otherwise the policy's size; a development build throws exactly on a result of 0, with the message for a function or a number policy |
| Sizes.ZeroCachedSizeFallsThrough | src/utils/size.ts:23 | a cached size of 0 is ignored in favour of the policy |
| Sizes.NegativeSizeAccepted | src/utils/size.ts:25-33 | every negative size the policy yields passes the development-build check unchanged |
| Sizes.ProductionNeverThrows | src/utils/size.ts:25-35 | outside a development build `getSize` never fails |
| Sizes.CachedSizeIgnoresPolicy | src/utils/size.ts:23 | once a slot holds a truthy size, the policy does not matter |
| Sizes.GetSizeReadsOneSlot | src/utils/size.ts:22-23 | `getSize(index)` depends on slot `index` of the cache only |
| Offsets.ClampOffset | packages/core/src/utils/offset.ts:14-18 | the result is the offset or the scroll limit, whichever is smaller |
| Offsets.ClampOffsetEmpty | packages/core/src/utils/offset.ts:15-17 | on an empty cache the limit is 0 |
| Offsets.ClampOffsetIdempotent | packages/core/src/utils/offset.ts:14-18 | clamping twice equals clamping once |
| Offsets.ClampOffsetCanBeNegative | packages/core/src/utils/offset.ts:17 | non-empty content shorter than the viewport clamps every non-negative offset to content size minus viewport, a negative value above minus the viewport |
| Offsets.GetScrollOffset | src/utils/offset.ts:14-18 | as `clampOffset`, but content ending at 0 gives limit 0 |
| Offsets.ClampsAgree | src/utils/offset.ts:15-17 | for non-zero content the two revisions' clamps agree |
| Offsets.ClampsDisagreeOnZeroContent | src/utils/offset.ts:17 | a non-empty cache ending at 0 is clamped differently by the two revisions |
| Offsets.GetScrollOffsetIdempotent | src/utils/offset.ts:14-18 | clamping twice equals clamping once |
| Ranges.BinarySearch | src/utils/range.ts:17-32 | on a non-empty interval the result stays inside it; on an empty one it is the low end |
| Ranges.BinarySearchFindsCover | src/utils/range.ts:17-32 | on ordered slots, when the interval holds the slot covering the offset, the search returns that slot |
| Ranges.ScanEnd | src/utils/range.ts:55-67 | the scan stops at the first slot reaching the far edge, or at the last slot |
| Ranges.GetRange | src/utils/range.ts:42-68 | a valid range; an anchor starting exactly at the offset is the start; an end before the last slot straddles the far edge |
| Ranges.SeededSearchMatchesUnseeded | src/utils/range.ts:49-53 | the anchored search finds the slot covering the offset, the same one a search of the whole cache finds |
| Ranges.BinarySearchBeforeAll | src/utils/range.ts:17-32 | when the offset lies before the interval's first slot, the search returns the low end |
| Ranges.StartBeforeContent | src/utils/range.ts:42-53 | an offset before the content, such as the negative clamp of a short list, starts the range at slot 0 whatever the anchor |
| Ranges.AnchorIsOnlyAHint | src/utils/range.ts:42-68 | on a chained positive cache the range does not depend on the anchor, for every offset below the content size, negative ones included |
| Ranges.StartIsFirstOverlap | src/utils/range.ts:42-53 | for any offset in (−viewport, content size) the range starts at the first slot overlapping the viewport |
| Ranges.GetRangeIsVisibleSet | src/utils/range.ts:42-68 | for every offset in (−viewport, content size), including the negative clamp of content shorter than the viewport, a slot lies in the range exactly when it overlaps `[offset, offset + viewport)` |
| Equality.IsEqualItem | packages/core/src/utils/equal.ts:16-27 | items are equal exactly when they agree on everything but `ref` |
| Equality.ItemsEqualFrom | packages/core/src/utils/equal.ts:52-57 | the loop accepts exactly when every remaining pair is equal |
| Equality.IsEqualState | packages/core/src/utils/equal.ts:35-61 | states are equal exactly when sizes, lengths and every item pair are equal |
| Equality.IsEqualStateIffSameView | packages/core/src/utils/equal.ts:35-61 | states are equal exactly when they are identical once refs are erased |
| Equality.IsEqualRect | packages/core/src/utils/equal.ts:69-76 | rectangles are equal exactly when width and height are |
| Equality.IsEqualItemReflexiveSymmetric | packages/core/src/utils/equal.ts:16-27 | item equality is reflexive and symmetric |
| Equality.IsEqualStateReflexive | packages/core/src/utils/equal.ts:35-61 | every state equals itself |
| Equality.IsEqualRectReflexiveSymmetric | packages/core/src/utils/equal.ts:69-76 | rectangle equality is reflexive and symmetric |
| Events.FlagsAreDistinctSingleBits | packages/core/src/utils/events.ts:39-44 | each flag is one distinct bit |
| Events.HasEvent | packages/core/src/utils/events.ts:52-54 | `(events & type) === type`; a contained flag is never larger than the mask |
| Events.AndAtMost | packages/core/src/utils/events.ts:52-54 | `a & b` is never larger than `a` |
| Events.HasEventIffEveryBit | packages/core/src/utils/events.ts:52-54 | `(events & t) === t` exactly when every bit of `t` is set in `events` |
| Events.HasEventNone | packages/core/src/utils/events.ts:52-54 | every mask contains `None` |
| Events.HasEventOfUnion | packages/core/src/index.ts:405 | a combined mask such as `Resize \| ReachEnd` contains each part |
| Events.ResizeDoesNotContainScroll | packages/core/src/index.ts:405 | the resize mask does not raise the scroll callback |
| Easing.EasingDuration | src/utils/easing.ts:29-31 | 7.5% of the distance, clamped to `[100, 500]` ms |
| Easing.EasingDurationMonotone | src/utils/easing.ts:29-31 | a longer distance never animates for less time |
| Easing.GetDuration | src/utils/easing.ts:39-41 | a number is used as is; a function receives the absolute distance |
| Easing.ConstantDurationIgnoresDistance | src/utils/easing.ts:39-41 | a numeric duration ignores the distance |
| Easing.DurationIgnoresDirection | src/utils/easing.ts:39-41 | scrolling up or down the same distance takes the same time |
| Easing.DefaultDurationOfDistance | src/utils/easing.ts:29-41 | the default duration of any distance lies in `[100, 500]` |
| ScrollOptions.GetScrollingOptions | src/utils/scroll.ts:40-47 | missing members get defaults; a duration of 0 is falsy and is replaced |
| ScrollOptions.ZeroDurationReplaced | src/utils/scroll.ts:45 | a duration of 0 becomes the default duration |
| ScrollOptions.GetScrollingOptionsIdempotent | src/utils/scroll.ts:40-47 | normalising a normalised configuration changes nothing |
| ScrollOptions.GetScrollToOptions | src/utils/scroll.ts:54-56 | a number becomes `{offset}`; an object passes through |
| ScrollOptions.ScrollToOptionsIdempotent | src/utils/scroll.ts:54-56 | normalising twice equals normalising once |
| ScrollOptions.GetScrollToItemOptions | src/utils/scroll.ts:63-65 | a number becomes `{index}`; an object passes through |
| ScrollOptions.ScrollToItemOptionsIdempotent | src/utils/scroll.ts:63-65 | normalising twice equals normalising once |
| LegacyUtils.EasingImpl | src/utils.ts:24-26 | ease-out-cubic maps 0 to 0 and 1 to 1 |
| LegacyUtils.EasingImplInUnitInterval | src/utils.ts:24-26 | on `[0, 1]` the curve stays in `[0, 1]` |
| LegacyUtils.DurationImpl | src/utils.ts:33-35 | 7.5% of the distance, raised to 100 and capped at 500, with the value in each of the three regimes |
| LegacyUtils.DurationImplIsEasingDuration | src/utils.ts:33-35 | the monolith's default duration equals `easingDuration` |
| LegacyUtils.SetMeasure | src/utils.ts:228-232 | as `setMeasurementAt`, also recording the index |
| LegacyUtils.SetMeasureIsSetMeasurementAt | src/utils.ts:228-232 | once the index is erased, `setMeasure` equals `setMeasurementAt` |
| LegacyUtils.MonolithGetSize | src/utils.ts:241-245 | any cached slot wins, even a size of 0; otherwise the policy |
| LegacyUtils.GetSizesAgreeOnTruthyCache | src/utils.ts:241-245 | when no size involved is 0, the monolith's `getSize` agrees with the current one |
| LegacyUtils.ZeroCachedSizeKept | src/utils.ts:244 | the monolith keeps a cached 0 that the current `getSize` would replace |
| LegacyUtils.MonolithScrollOffset | src/utils.ts:173-175 | caps the offset at the content end, not at end minus viewport |
| LegacyUtils.MonolithScrollOffsetIsLooser | src/utils.ts:173-175 | its cap is never below `clampOffset`'s |
| LegacyUtils.MonolithBinarySearch | src/utils.ts:255-270 | on a non-empty interval the result stays inside it; on an empty one it is the low end |
| LegacyUtils.MonolithScanEnd | src/utils.ts:295-307 | the scan stops at the first slot from `end` on that reaches the far edge, or at the last slot, and no earlier slot reaches it |
| LegacyUtils.BinarySearchesAgree | src/utils.ts:255-270 | the monolith's `binarySearch` equals the current one |
| LegacyUtils.ScansAgree | src/utils.ts:295-307 | its end scan equals the current one |
| LegacyUtils.GetVirtualRange | src/utils.ts:279-309 | no range exactly when the viewport has no size or the cache is empty |
| LegacyUtils.GetVirtualRangeIsGetRange | src/utils.ts:279-309 | past that guard the result is `getRange`'s |
| LegacyUtils.LegacyIsEqualItem | src/utils.ts:82-92 | items are equal exactly when every compared field and the viewport agree |
| LegacyUtils.ItemsEqualBelow | src/utils.ts:116-120 | the reverse loop accepts exactly when every pair below `k` is equal |
| LegacyUtils.LegacyIsEqualState | src/utils.ts:99-123 | states are equal exactly when frame, visible range and items agree |
| LegacyUtils.LegacyGetScrolling | src/utils.ts:181-189 | defaults fill only missing members |
| LegacyUtils.ZeroDurationKeptByLegacy | src/utils.ts:183 | a duration of 0 survives here but is replaced by `getScrollingOptions` |
| Config.Validate | packages/core/src/index.ts:43-53 | accepted exactly when `count` and any `overscan` are uint32; `count` is checked first |
| Config.ValidateAcceptsUint32Range | packages/core/src/index.ts:44 | `count` passes exactly when it is an integer in `[0, 2^32)` |
| Config.ValidateRejects | packages/core/src/index.ts:44-51 | examples: -1 and 2.5 are rejected as counts, 0.5 as an overscan, whatever the size policy |
| Config.Overscan | packages/core/src/index.ts:223 | a missing overscan is 10 |
| EngineState.Init | packages/core/src/hooks/useInternal.ts:19-31 | unmounted, anchor 0, offset 0, no watermark, empty caches, a 0 by 0 viewport |
| EngineState.InitWf | packages/core/src/hooks/useInternal.ts:19-31 | the initial record is well formed and chained |
| Remeasuring.RemeasureFrom | packages/core/src/index.ts:66-68 | on success the cache has `count` slots, keeps those below the watermark, holds `getSize`'s value for every later slot and is chained when the prefix was; a failure comes from some later slot |
| Remeasuring.Remeasure | packages/core/src/index.ts:61-72 | no-op without a watermark in range; fails exactly when some `getSize` from the watermark fails |
| Remeasuring.RemeasureIsPrefixSums | packages/core/src/index.ts:61-72 | a remeasured cache is the prefix sums of its sizes |
| Remeasuring.ResizeShiftsLaterSlots | packages/core/src/index.ts:262-270 | after one slot changes size and the cache is remeasured, every later slot keeps its size and moves by exactly the size difference |
| Publish.Clamp | packages/core/src/index.ts:218 | each revision clamps with its own function |
| Publish.Window | packages/core/src/index.ts:223-226 | a slot is rendered exactly when it is in the cache and within `overscan` of the visible range |
| Publish.Materialize | packages/core/src/index.ts:230-304 | one item per window slot with the slot's geometry; a cached item is reused exactly when reuse is on and it is structurally equal |
| Publish.StoreItems | packages/core/src/index.ts:297-301 | the new items are stored under their indices; other cache entries are kept |
| Publish.CorePublishedSize | packages/core/src/index.ts:306-320 | the size is the content size or the previous size; `scrollbar: false` and a viewport edge reaching the content give the content size |
| Publish.LegacyPublishedSize | src/index.ts:185-197 | as above, but `scrollbar: false` keeps the previous size and the edge is rounded half up |
| Publish.PublishedSize | packages/core/src/index.ts:306-320 | both revisions publish either the content size or the previous size |
| Publish.ScrollbarLagIff | packages/core/src/index.ts:313-317 | the previous size is kept exactly when the rounded-up edge is below both sizes |
| Publish.PublishedSizeCoversEdge | packages/core/src/index.ts:313-317 | the published size never lags behind a viewport edge that reaches the content |
| Publish.FarEdgeRoundingDiffers | src/index.ts:193 | at edge 100.2 the current revision rounds up to 101 and the older one to 100, publishing different sizes |
| Publish.PublishState | packages/core/src/index.ts:199-207 | an equal state keeps the previous one; either way the published view is the new one |
| Publish.ReachesEnd | packages/core/src/index.ts:339-340 | in the current revision the end is reached whenever the viewport edge reaches the content size, and only when it lies within 1 px of it; in the older revision (src/index.ts:217) exactly when the visible end reaches the last index |
| Publish.CoreReachesEndIff | packages/core/src/index.ts:339-340 | the end is reached exactly when the viewport edge exceeds `ceil(size) - 1` |
| Updates.PassNotices | packages/core/src/index.ts:322-347 | each callback is called exactly when its flag is set (and, for scroll and end, when there is a notice) |
| Updates.Rendered | packages/core/src/index.ts:217-320 | the anchor moves to the visible start, the published items show the window's slots and the size follows the scrollbar rule; nothing else changes |
| Updates.RenderNotices | packages/core/src/index.ts:322-347 | resize and scroll callbacks follow their flags; the scroll delta is the clamped offset minus the cached one; the end callback follows its flag and test |
| Updates.RenderEmpty | packages/core/src/index.ts:348-366 | publishes `{size: 0, items: []}`; never a scroll callback; the end callback only for a viewport with a size |
| Updates.Remeasured | packages/core/src/index.ts:211 | clears the watermark; with a pending watermark it brings the cache to `count` slots keeping the prefix below the watermark, otherwise it leaves the cache unchanged; it fails only in a development build, and a chained cache comes out chained |
| Updates.Update | packages/core/src/index.ts:209-368 | nothing while unmounted; afterwards well formed, chained when the prefix was, settings untouched, only callbacks emitted; renders exactly when the viewport has a size and the cache is not empty, else publishes the empty state |
| Updates.UpdateShowsVisibleSlots | packages/core/src/index.ts:217-235 | once the remeasure succeeds the update succeeds, and whenever the clamped offset lies in (−viewport, content size), short content included, every slot overlapping the viewport there is published with its measured geometry |
| Updates.RenderedShowsVisibleSlots | packages/core/src/index.ts:217-235 | in the non-empty branch, for a clamped offset in (−viewport, content size), every slot overlapping the viewport is among the rendered items with its measured geometry |
| Transitions.CountSizeEffect | packages/core/src/index.ts:374-387 | a new size policy empties the cache and sets the watermark to 0; a shorter count truncates; the anchor is clamped to `max(0, count - 1)` |
| Transitions.CountSizeEffectKeepsChain | packages/core/src/index.ts:374-387 | on a well-formed engine whose chain invariant holds, the `[count, size]` effect keeps the invariant whenever the revision is the current one, the size policy changed, or `count` did not grow |
| Transitions.Mount | packages/core/src/index.ts:374-394 | after mounting, the engine is mounted, well formed and chained, with `count` slots |
| Transitions.Unmount | packages/core/src/index.ts:393-455 | the older revision always stops reacting; the current one stops reacting and forgets its items only when a viewport element was attached, and otherwise stays mounted and unchanged |
| Transitions.Recount | packages/core/src/index.ts:374-391 | the count effect and update keep the engine well formed, and chained unless the older revision grew |
| Transitions.Rerender | packages/core/src/index.ts:374-391 | a render with unchanged count, size and axis only stores the options; otherwise the engine stays well formed and, in the current revision, chained; in the older revision, growth keeps every old slot as it was and fills the cache up to the new count |
| Transitions.ViewportResized | packages/core/src/index.ts:399-407 | an equal rectangle is ignored; another is stored and raises `onResize` |
| Transitions.Scrolled | packages/core/src/index.ts:409-425 | an unchanged offset is ignored (the current revision still cancels the settle frame); a new one is cached, marks scrolling and schedules the settle frame; `onScroll` only when the offset moved |
| Transitions.ScrollSettled | packages/core/src/index.ts:427-440 | scrolling ends; the current revision updates only with a pending watermark |
| Transitions.Invalidate | packages/core/src/index.ts:262-270 | the slot is rewritten and the watermark becomes the minimum of the old one and the index; the chain invariant is kept |
| Transitions.ItemResized | packages/core/src/index.ts:245-279 | a past-the-end index or an unchanged size is ignored; a slot above the offset shifts the scroll by the size change; otherwise an update runs unless scrolling |
| Transitions.ItemDetached | packages/core/src/index.ts:284-288 | the index leaves the item cache and nothing else does |
| Transitions.CompensationMatchesShift | packages/core/src/index.ts:272-274 | the compensating scroll moves by exactly as much as every later slot moves after remeasuring |
| Transitions.CoreGrowthLeavesNewSlotsUnmeasured | packages/core/src/index.ts:378-384 | growing `count` on a clean cache leaves the cache as it was, shorter than `count` |
| Transitions.LegacyGrowthMeasuresNewSlots | src/index.ts:432-440 | in the older revision growth measures the new slots up to the new count and keeps every old slot as it was |
| Transitions.LegacyGrowthCanBreakChain | src/index.ts:438-440 | growth with a lower watermark pending leaves a broken cache after the update |
| Transitions.LegacyGrowthKeepsBrokenLink | src/index.ts:432-440 | in the older revision, growth leaves a broken link between the first two slots in place, so the cache is not chained after the update |
| ScrollControl.ScrollTo | packages/core/src/index.ts:81-136 | one write or animation whose target is the requested offset clamped by the revision's rule, so never above the request or the scroll limit and equal to a request within the limit; an animation starts from the cached offset, uses the configured curve and lasts the configured duration for the distance, by default 100 to 500 ms |
| ScrollControl.ScrollToTargetIsMin | packages/core/src/index.ts:84-89 | on a chained, non-empty cache of positive sizes the target is min(request, content size − viewport) in both revisions, animated or not |
| ScrollControl.FrameTime | packages/core/src/index.ts:117 | the animation time never exceeds 1 and reaches 1 exactly once the duration has elapsed |
| ScrollControl.Frame | packages/core/src/index.ts:117-119 | the frame offset `easing(time) * distance + scrollOffset` lies between the start and the target whenever the eased progress is in [0, 1] |
| ScrollControl.FrameBetween | packages/core/src/index.ts:117-119 | for every eased progress in [0, 1], `progress * (to - from) + from` lies between `from` and `to` |
| ScrollControl.AnimationEndsOnTarget | packages/core/src/index.ts:117-125 | for any curve mapping 0 to 0 and 1 to 1, the first frame writes the cached offset, the loop stops exactly once the duration has elapsed, and the last frame writes the target |
| ScrollControl.EaseOutCubicEndsOnTarget | src/utils.ts:24-26 | the first revision's ease-out-cubic curve lands the last frame on the target |
| ScrollControl.Aligned | packages/core/src/index.ts:157-174 | start, centre or end alignment; `auto` keeps a visible item in place and otherwise aligns the nearer edge |
| ScrollControl.TargetIsFixedPoint | packages/core/src/index.ts:157-176 | aligning again from the clamped target yields that same target, for every alignment |
| ScrollControl.ClampIndex | packages/core/src/index.ts:152 | the index is clamped into the cache |
| ScrollControl.ItemOffset | packages/core/src/index.ts:142-181 | -1 exactly while unmounted or for an empty cache, otherwise at least 0 and at most the scroll limit; on a chained cache of positive sizes it is max(0, min(aligned offset of the clamped index, content size − viewport)) |
| ScrollControl.ScrollToItem | packages/core/src/index.ts:138-197 | scrolls exactly when the item has a target, and then is `scrollTo` of that target with the requested `smooth` forwarded: it animates exactly when `smooth` is true and aims at the target clamped again |
| ScrollControl.ItemOffsetOnCleanCache | packages/core/src/index.ts:142-177 | on a clean, chained cache of positive sizes the target keeps the engine and is max(0, min(aligned offset of the clamped index, content size − viewport)) |
| ScrollControl.SettleCheck | packages/core/src/index.ts:186-193 | re-issues exactly when the recomputed target exists and differs |
| ScrollControl.ScrolledItemIsVisible | packages/core/src/index.ts:142-181 | for every alignment the window at the target overlaps the item |
| ScrollControl.LandedScrollNeedsNoReissue | packages/core/src/index.ts:183-195 | once the scroll lands on the target of an unchanged cache, the recomputed target is the same and nothing is re-issued |
| ScrollControl.ScrollToItemWritesTarget | packages/core/src/index.ts:176-186 | content at least a viewport long gets the target written; shorter content gets a negative offset |

## Left out

- React itself: rendering, state batching (`startTransition`), `usePrevious` and the
  ordering of effects are taken as given. Each callback is one step, and a render runs the
  count effect before the update effect. A re-render is modelled only for a mounted hook.
- The DOM: `getBoundingRect`, `ResizeObserver`, scroll listeners and `scrollTo` become step
  inputs and output effects. A written scroll offset comes back as a separate `Scrolled`
  step; the model does not chain the two.
- CountSizeEffectKeepsChain: makes no claim for the older revision's growth without a
  policy change, because there the effect can break the chain
  (`Transitions.LegacyGrowthCanBreakChain`).
- Frame scheduling and timing: `requestAnimationFrame`, `now()` and the six-frame completion
  delay are not modelled, and an animation is emitted as one `AnimateScroll` effect carrying
  its curve rather than as a sequence of frames. Single frames are modelled as functions of
  the elapsed time (`ScrollControl.Frame`, `ScrollControl.FrameTime`). Cancelling an
  animation is not modelled either.
- Pixels: JavaScript numbers are doubles, and the model uses exact `real`s. Rounding in the
  `start + size` chain is therefore not modelled, so the exact shifts stated by
  `Remeasuring.ResizeShiftsLaterSlots` and `Transitions.CompensationMatchesShift` hold in
  exact arithmetic only. `NaN` is not modelled either: it is falsy in
  `measurement?.size ||` and passes the `=== 0` check. Neither is `Infinity`.
- `easeInOutSine`, the default curve of both engines, uses `Math.cos`. It is kept as an
  opaque curve value. `ScrollControl.AnimationEndsOnTarget` therefore takes the curve's
  values as a parameter and assumes it maps 0 to 0 and 1 to 1, which `easeInOutSine` does
  but the model does not compute; only the first revision's ease-out-cubic is checked
  against it (`ScrollControl.EaseOutCubicEndsOnTarget`).
- `ScrollControl.AnimationEndsOnTarget` requires a positive duration. A duration function
  that returns 0 makes the source divide by zero; that case is not modelled.
- Item `ref` identity is a pass number instead of a closure. `Object.freeze` in development
  builds has no effect on values.
- `Config.Validate` models only the development-build check. A production build with a
  fractional or negative `count` is not modelled: `count` is a `nat` throughout.
- `Ranges.BinarySearch` does not model the wrap of `((start + end) / 2) | 0` above 2^31
  slots. Indices are unbounded.
- The `horizontal` flag only selects which rectangle side is the viewport size; the key
  tables are not modelled.
- The development build's `console.error` when an item shrinks below its estimate is a
  warning only. Its `getSize` call is modelled because it can throw.
- Several helper files the two engines import are not part of this model:
  `packages/core/src/utils/{size,range,scroll,easing}.ts`, `src/utils/equal.ts`,
  `src/utils/align.ts` and the `usePrevious` hook. The current engine is modelled with the
  `src/utils/*` versions of these helpers, on the assumption that they compute the same
  values. Their parameter order differs at least for `getSize`: the current engine calls
  `getSize(measurements, viewport, size, index)` (packages/core/src/index.ts:67), while
  src/utils/size.ts:20 declares `getSize(index, size, measurements, viewport)`. The model
  has one `Sizes.GetSize` with the second order.
- The older engine's `isEqual` and `isEqualState` come from `src/utils/equal.ts`
  (src/index.ts:23), which is not part of this model. Both revisions are modelled with the
  current engine's packages/core/src/utils/equal.ts: `Publish.PublishState` applies
  `Equality.IsEqualState` in either revision, and `Transitions.ViewportResized` compares
  rectangles with `Equality.IsEqualRect`. The monolith's differently shaped
  `isEqualState` is modelled separately (`LegacyUtils.LegacyIsEqualState`) and is not used
  by the engine.
- `src/index.ts` imports `getVirtualRange` from a module that exports only `getRange`. It is
  modelled as the guarded `getVirtualRange` of `src/utils.ts`.
- `src/utils/state.ts` declares a `{items, list}` shape, but `src/index.ts` reads
  `{size, items}`. Both revisions publish `{size, items}`, starting from size 0.
- The normalisers are named `normalize*` at the call sites and `get*` in the helper files.
  They are modelled once, under the `get*` names.
