# virtua `List`: scroll direction, resize batches, jump compensation, end-reached latch, scroll-to-index

This project models the decision logic of the React `List` component of the
virtua virtualized list (src/List.tsx) and the two helpers of its alternative
front-end (src/uix/utils.ts), and proves what that logic promises.

- **Scroll-direction state machine** (`ScrollState`, `ObserverHandle`): the observer
  handle keeps the last synced offset, the direction (STOP, DOWN, UP, MANUAL)
  and a "just resized" flag. It reacts to scroll events, "scroll stopped", resize
  batches and the start of a manual scroll. `ObserverHandle.Handle` is a class
  with those fields. Its methods are proved equal to the pure transitions in
  `ScrollState`, and the lemmas there state the rules.
- **Resize-batch partition** (`ResizeBatch`, `Handle.OnResize`): root entries become
  viewport-size updates, in order. Entries of mounted items become one
  item-size update per batch. Entries of other elements are dropped.
- **Jump compensation** (`JumpCompensation`): the correction added to the scroll
  position after the store reports size changes. The `reduce` folds are proved
  equal to reference sums over the items above and below the start of the
  visible range.
- **End-reached latch** (`EndReached`): when `onEndReached` fires, why it fires
  at most once while the count stays the same, and how it re-arms.
- **Rendered range** (`RenderRange`): the count of valid children (a loop), the
  count clamped to what the store knows, the overscanned range and the inner
  element's size.
- **Scroll to index** (`ScrollToIndex`): clamping the index, the destination
  against the live scroll size, and the measure-then-scroll do-while loop.
  Store and DOM answers and the outcome of each wait are inputs.
- **`isSameRange` and `getKey`** (`UixUtils`).

The virtual store (src/core/store.ts), the resizer and the scroller are not part
of this model. The store's outputs (start and end index, item count, item
offset, jump list, "unmeasured items in range") are inputs. Its update entry
point is `StoreLog.Store`, which records every action handed to it. The
methods state exactly which actions reach the store, and in which order.

## Model

| member | source | states |
|---|---|---|
| ScrollState.SameOffsetIsNoop | src/List.tsx:293-296 | a scroll event at the offset already synced changes no state and dispatches nothing |
| ScrollState.ManualNotOverwritten | src/List.tsx:299-304 | a scroll event never replaces MANUAL |
| ScrollState.DirectionFollowsOffset | src/List.tsx:299-304 | outside MANUAL and the resize skip, the direction becomes UP iff `prevOffset > offset` and DOWN iff `prevOffset < offset`; `prevOffset` becomes the offset |
| ScrollState.ResizeSkipsDetection | src/List.tsx:297-307 | while the direction is not STOP, the first moving event after a resize keeps the direction and only clears `resized` |
| ScrollState.ResizeFromStopDelaysSkip | src/List.tsx:297-307 | from STOP the event after a resize detects the direction and leaves `resized` set, so the skip falls on the next event (100 → 50 gives UP with `resized` set, then 80 keeps UP and clears it) |
| ScrollState.ScrollEventNeverStops | src/List.tsx:292-312 | a scroll event leaves STOP only when it was STOP already and the offset did not move |
| ScrollState.FirstEventFromInitial | src/List.tsx:285-311 | from the initial state (`prevOffset = -1`), the first event at a non-negative offset is dispatched and reads as DOWN |
| ScrollState.OnlyScrollEventsMoveOffset | src/List.tsx:325-376 | resize batches and the manual-scroll start keep `prevOffset` |
| ScrollState.OnlyScrollStoppedResets | src/List.tsx:314-318 | over any run of events without "scroll stopped", a moving direction never returns to STOP |
| ScrollState.ManualHoldsUntilStopped | src/List.tsx:299-318 | once MANUAL, the direction stays MANUAL through any events until "scroll stopped" |
| ScrollState.PrevOffsetIsLastScrolled | src/List.tsx:308-311 | after a run of scroll events, `prevOffset` is the last offset seen |
| ObserverHandle.Handle.constructor | src/List.tsx:283-288 | the handle starts at `prevOffset = -1`, STOP, not resized, with no mounted items |
| ObserverHandle.Handle.SyncViewportToScrollPosition | src/List.tsx:292-312 | the new state is `AfterScrollEvent` of the old; the store receives the offset iff it changed; mounted items unchanged |
| ObserverHandle.Handle.OnScroll | src/List.tsx:320-323 | a scroll event syncs the offset as above |
| ObserverHandle.Handle.OnScrollStopped | src/List.tsx:314-318 | a last sync, then the direction is STOP |
| ObserverHandle.Handle.OnResize | src/List.tsx:325-352 | the store receives the root's viewport sizes in order, then one item-size update if any mounted item resized; `resized` is set exactly then |
| ObserverHandle.Handle.Observe | src/List.tsx:363-365 | the element is mapped to its index; the scroll state is unchanged |
| ObserverHandle.Handle.Unobserve | src/List.tsx:366-369 | the element is forgotten; the scroll state is unchanged |
| ObserverHandle.Handle.StartManualScroll | src/List.tsx:374-376 | the direction becomes MANUAL; nothing else changes |
| ResizeBatch.PartitionCount | src/List.tsx:327-343 | every entry is exactly one of: a viewport update, an item resize, dropped |
| ResizeBatch.ItemResizesSound | src/List.tsx:334-341 | each `[index, size]` pair comes from an entry of a mounted non-root element, with that element's index and axis size |
| ResizeBatch.ItemResizesComplete | src/List.tsx:334-341 | each entry of a mounted non-root element yields its `[index, size]` pair |
| ResizeBatch.UnknownEntriesDropped | src/List.tsx:335-351 | a batch of only untracked elements dispatches nothing |
| ResizeBatch.ObserveThenUnobserve | src/List.tsx:363-370 | after `_observe(el, i)` an entry for `el` reports index `i`; after the cleanup it is dropped |
| ResizeBatch.OneItemUpdatePerBatch | src/List.tsx:345-351 | a batch reaches the store as at most one item-size update |
| JumpCompensation.Correction | src/List.tsx:396-429 | no correction without a scroll element, with an empty jump list, or when the direction is STOP or DOWN |
| JumpCompensation.SumDeltasIsTotal | src/List.tsx:402 | the left fold of `reduce` equals the sum of all deltas |
| JumpCompensation.ManualFoldIsPartition | src/List.tsx:407-422 | the MANUAL fold is 0 when the start is in view; otherwise it is the sum above the start, plus the sum from the start on when the end is in view |
| JumpCompensation.UpAddsEveryDelta | src/List.tsx:401-405 | scrolling up, the correction is the sum of all deltas, whatever their indices (above plus below the start) |
| JumpCompensation.ManualPinnedStartKeepsPosition | src/List.tsx:406-422 | MANUAL with `startIndex == 0`: the correction is 0, whatever the deltas |
| JumpCompensation.ManualAwayFromStart | src/List.tsx:407-420 | MANUAL with `startIndex != 0`: the deltas above the start are added; those from the start on only when `endIndex == count - 1` |
| JumpCompensation.ManualStuckToEndAddsEveryDelta | src/List.tsx:408-420 | MANUAL stuck to the end and not the start corrects exactly as scrolling up does |
| JumpCompensation.UpGrowthAboveStart | src/List.tsx:401-405 | scrolling up, +50 on one item above the start gives a correction of exactly +50 |
| EndReached.EndReachedLatch.constructor | src/List.tsx:278 | the latch starts at -1 |
| EndReached.EndReachedLatch.OnEndIndexChanged | src/List.tsx:431-447 | the new latch and whether `onEndReached` was called are `LatchStep` of the old latch |
| EndReached.FiresIff | src/List.tsx:434-446 | for a count >= 0 it fires iff `count - 1 - endIndex <= endThreshold` and the latch is not at this count |
| EndReached.LatchAfterStep | src/List.tsx:434-445 | firing sets the latch to `count`; afterwards the latch is at most `count` or -1 |
| EndReached.NoCallbackNoChange | src/List.tsx:432 | without `onEndReached` nothing changes |
| EndReached.NoSecondFireAtSameCount | src/List.tsx:440-445 | after firing, the next run at the same count does not fire |
| EndReached.RearmsAfterShrink | src/List.tsx:434-446 | when the count is below the one it fired at, the run fires if the end is within the threshold and otherwise leaves the latch at -1 |
| EndReached.FiresOnceAfterShrink | src/List.tsx:434-446 | after such a shrink, runs at the new count fire exactly once when one of them reaches the end |
| EndReached.FiresOnceWhenArmed | src/List.tsx:440-446 | from the unarmed latch, runs at one count fire exactly once when one of them reaches the end |
| EndReached.NoFireBeforeEnd | src/List.tsx:439-446 | from the unarmed latch, runs at non-negative counts that never come within the threshold never fire |
| EndReached.AtMostOncePerCount | src/List.tsx:431-447 | over any run of effect runs at one count, `onEndReached` is called at most once |
| EndReached.NeverAgainAtCount | src/List.tsx:440-444 | once the latch holds the count, no further run at that count fires |
| EndReached.CountChangeFiresAgain | src/List.tsx:434-446 | a count that goes 100, 101, 100 with the end in view fires three times: the once-per-count rule holds only while the count stays the same |
| EndReached.HundredItemsScenario | src/List.tsx:431-447 | 100 items, threshold 0: fires once at index 99; after a reset to 50 items it fires again at 49 |
| RenderRange.ValidChildren | src/List.tsx:104 | the valid children are exactly those that are not null, undefined or boolean, and there are as many as the children minus the invalid ones |
| RenderRange.RawCount | src/List.tsx:255-264 | the counting loop returns the number of valid children, which equals the number of children iff none is invalid |
| RenderRange.SyncCacheLength | src/List.tsx:387-392 | the store receives the raw count as the new cache length |
| RenderRange.ItemCount | src/List.tsx:380-381 | `count` is the smaller of the raw count and the store's item count |
| RenderRange.RenderedRange | src/List.tsx:383-384 | `startIndexWithMargin >= 0`, `endIndexWithMargin <= count - 1`, each bound at most `overscan` beyond the visible one |
| RenderRange.RenderedIndicesExist | src/List.tsx:381-384 | every rendered index is below both the raw count and the store's item count |
| RenderRange.RenderedCoversVisible | src/List.tsx:383-384 | with `overscan >= 0`, every index of the visible range is rendered |
| RenderRange.EmptyListRendersNothing | src/List.tsx:381-384 | with count 0 no index is rendered |
| RenderRange.ClampedScrollSize | src/List.tsx:163-164 | the inner size is the larger of scroll size and viewport size |
| ScrollToIndex.ClampIndex | src/List.tsx:456 | the index is clamped into `[0, count - 1]`, unchanged when already inside, 0 for an empty list |
| ScrollToIndex.ScrollDestination | src/List.tsx:458-469 | the destination is at most `scrollSize - viewportSize`, and equals the item's offset when that is below the bound |
| ScrollToIndex.ScrollToIndex | src/List.tsx:452-497 | the outcome and the offsets handed to the store follow the do-while protocol; a call that scrolls sets the direction to MANUAL, any other leaves the scroll state unchanged |
| ScrollToIndex.ScrolledOnlyWhenMeasured | src/List.tsx:471-488 | the loop scrolls only to the destination of a snapshot with nothing unmeasured, never past its end |
| ScrollToIndex.ScrollsAtFirstMeasuredRound | src/List.tsx:471-488 | with no cancellation, the loop scrolls at the first round that reports everything measured, after one store update per round |
| ScrollToIndex.CancelledEndsCall | src/List.tsx:478-484 | the call ends as cancelled only when some wait was cancelled |
| ScrollToIndex.CancelledWaitEndsCall | src/List.tsx:478-484 | a cancelled wait, reached before any round reports everything measured, ends the call as cancelled after one store update per round started; with `ScrollToIndex`'s ensures there is then no scroll and no switch to MANUAL |
| ScrollToIndex.ProbesWithinBounds | src/List.tsx:472-477 | the store is moved at least once and at most once per wait plus one, never further than the largest scrollable distance of any snapshot in the input |
| ScrollToIndex.DestinationNonNegative | src/List.tsx:458-468 | the destination is not negative when the item offset is not, and the content is at least the viewport |
| ScrollToIndex.MeasuredTargetScrollsAtOnce | src/List.tsx:489-494 | with nothing unmeasured, the element and the store are moved to the destination at once |
| UixUtils.IsSameRange | src/uix/utils.ts:15-17 | two ranges are the same iff they are equal as pairs |
| UixUtils.IsSameRangeReflexive | src/uix/utils.ts:15-17 | reflexive |
| UixUtils.IsSameRangeSymmetric | src/uix/utils.ts:15-17 | symmetric |
| UixUtils.IsSameRangeTransitive | src/uix/utils.ts:15-17 | transitive |
| UixUtils.GetKey | src/uix/utils.ts:7-10 | an element's own `key` attribute is returned as is; otherwise the key starts with `_` and is followed by at least one character |
| UixUtils.ParseNatToString | src/uix/utils.ts:9 | the decimal digits of an index read back as that index |
| UixUtils.FallbackKeyDecodes | src/uix/utils.ts:7-10 | a fallback key is `_` followed by the index's decimal digits |
| UixUtils.FallbackKeysDistinct | src/uix/utils.ts:7-10 | fallback keys of distinct indices are distinct |

`getScrollDestination` (src/List.tsx:458-469) applies only the upper bound
`scrollSize - viewportSize`; `ScrollToIndex.DestinationNonNegative` states when
the result is non-negative.

## Left out

- The virtual store, resizer and scroller (src/core/*) are not part of this model. Start and end index, item count, item offsets, the jump list and "unmeasured items in range" are inputs.
- React rendering: `Item`, `Window`, `Inner` and their styles, `useSyncExternalStore`, `useImperativeHandle`, and the `Children.map` element construction with its `key || i` fallback. This is UI code; only the inner size clamp is modelled.
- DOM plumbing: ResizeObserver registration and `disconnect`/`unobserve`, adding and removing listeners, and reading `scrollTop`/`scrollLeft`/`scrollWidth`/`scrollHeight`. Offsets and sizes read from the DOM are inputs. Offsets written to the DOM are results: `Correction` for jump compensation (the position is written only when it is non-zero) and `Scrolled(offset)` for scroll-to-index.
- `_init` and handle creation are one constructor. The teardown `_init` returns (disconnect, remove the listener, cancel the debounce) is not modelled.
- ObserverHandle.Handle.OnScroll: the 300 ms debounce timer is not modelled. "Scroll stopped" is the explicit `OnScrollStopped` call, at whatever time the caller chooses.
- `_getScrollDirection` is a plain read of the `scrollDirection` field.
- ScrollToIndex.ScrollToIndex: `await store._waitForScrollDestinationItemsMeasured()` is one round of the `rounds` input, which is cancelled or not. When the input runs out first, the outcome is `Waiting` (still suspended). The store's answers are per-round snapshots; for an empty list the source also asks for item 0. The call is treated as atomic: while a wait is pending, other handlers run (the resize batch that ends a wait dispatches item sizes and sets `resized`; scroll events move `prevOffset` and the direction), and the ensures describe only this call's own dispatches, its scroll write and its final switch to MANUAL, not those interleaved events or their order relative to the call's actions.
- EndReached.EndReachedLatch.OnEndIndexChanged: React decides when the effect runs (after renders where `endIndex` changed). Each call here is one run.
- RenderRange.RawCount: `Children.forEach` flattens nested arrays (a fragment counts as one child). Children here are a flat sequence.
- Numbers: JavaScript numbers are modelled as unbounded integers. Fractional `contentRect` sizes and NaN are not modelled (`isSameRange` is not reflexive on NaN).
- UixUtils.GetKey: indices are non-negative integers. JavaScript's rendering of negative, fractional or very large (exponent notation) numbers is not modelled.
- src/uix/Virtualizer.tsx, WindowVirtualizer.tsx, VList.tsx, ListItem.tsx and the stories wire the unseen core into templates. Apart from the two helpers above, they are not part of this model.
