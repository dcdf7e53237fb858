# OneList: index and offset arithmetic of a cross-platform virtualized list

OneList gives application code one list component with two implementations.
The browser surface is built on a windowed list. It iterates synthetic slots: an optional inner header, the data items, and an optional inner footer.
The native surface is built on a flat list. It asks for every item's offset and length, reports viewable items, and draws separators between items.

This project models the logic the two surfaces wrap around those engines:

- Browser surface:
  - which slot is the header, the footer or which data item;
  - each slot's size and key;
  - the row each slot renders, with its separator props;
  - the visible range shifted back into data indices;
  - the imperative scroll handle;
  - the layout effect. It compares the previous render's per-slot size table with the new one and resets the engine's cached offsets from the first slot that changed.
- Native surface:
  - the cumulative item layout table;
  - the viewability callback;
  - the separator's leading and trailing indices;
  - the scroll handle with its alignment-to-position mapping;
  - the window-size budget.

Modules:

- `OneListShared` (`shared.dfy`): the prop shapes of `index.shared.ts`, scroll requests, sums of pixel sizes, and the header/footer placement rule that both surfaces share.
- `WebSlots` (`web_slots.dfy`): slot mapping, sizes, keys, rows, the visible range and the scroll handle of `index.web.tsx`.
- `WebInvalidation` (`web_invalidation.dfy`): the first-different-index search, its properties, and `ListSizeCache`. That class holds what the `usePrevious` hook remembers between renders.
- `NativeList` (`native.dfy`): everything modelled from `index.tsx`.
- `Surfaces` (`surfaces.dfy`): the two surfaces compared on the same props.

Pixel sizes are real numbers. Calls into the engines (`scrollTo`, `scrollToItem`, `resetAfterIndex`, `scrollToOffset`, `scrollToEnd`, `scrollToIndex`) become command values, or entries in a recorded call sequence. The same goes for the visibility callback.

Boundary rules, as the code has them:

- Native offsets add no separator gap before the last item. Sizes 10, 20, 30 with a separator of 5 give offsets 0, 15, 35. The browser surface adds a separator after every item but the last, so the two surfaces disagree on where the last item starts (`Surfaces.NativeOffsetLagsWebStart`).
- The window size is 2 when the estimated item size or the overscan count is not positive.
- Sometimes the invalidation search finds no differing slot although the lengths differ. That can only happen when the new table is shorter, and the result is then its last index. When the new table is longer, the first new slot already counts as differing, because the old table has no entry there.
- When nothing is viewable, the native callback is called twice. First with `(-1, -1)`, then with `Math.min()` and `Math.max()` of no numbers, which are +Infinity and -Infinity.
- On both surfaces, the separator before the last item names no trailing item.
- Both scroll handles call the engine through a non-null assertion on its ref. The engine is mounted only for non-empty data and a positive extent (`ListMounted`). Before that, every handle call throws; the model returns `None` for it.

## Model

| member | source | states |
|---|---|---|
| `OneListShared.RendersOutside` | packages/components/src/libs/one-list/index.web.tsx:293-298 | a header or footer is drawn outside the list only if it has a renderer and a positive size |
| `OneListShared.RendersInside` | packages/components/src/libs/one-list/index.web.tsx:166-169 | a header or footer is drawn by the list itself only if it has a renderer, a positive size, is not sticky and data is non-empty |
| `OneListShared.DecorationRenderedOnce` | packages/components/src/libs/one-list/index.web.tsx:293-343 | a header or footer with a renderer and positive size is drawn exactly once: inside the list when it is not sticky and data is non-empty, outside otherwise; any other is not drawn |
| `WebSlots.InnerSize` | packages/components/src/libs/one-list/index.web.tsx:166-174 | the inner size is non-negative, non-zero exactly for a non-sticky decoration with a renderer and positive size, and then equals its size |
| `WebSlots.ItemSeparatorSize` | packages/components/src/libs/one-list/index.web.tsx:161-164 | the separator size is non-negative, non-zero exactly when the separator has a renderer and positive size, and then equals it |
| `WebSlots.HeaderShift` | packages/components/src/libs/one-list/index.web.tsx:79 | the data-index shift is 1 exactly when an inner header exists, else 0 |
| `WebSlots.ItemCount` | packages/components/src/libs/one-list/index.web.tsx:176-177 | slot count = data length + 1 per inner header + 1 per inner footer |
| `WebSlots.ClassifySlot` | packages/components/src/libs/one-list/index.web.tsx:55-80 | slot 0 is the header iff an inner header exists; the last slot is the footer iff an inner footer exists and it is not the header; a data slot's index is the slot minus the shift and lies in the data; a slot is unclassified exactly when out of range |
| `WebSlots.SlotRoundTrip` | packages/components/src/libs/one-list/index.web.tsx:79-80 | data item d placed at slot d + shift is classified back as item d, and that slot is in range |
| `WebSlots.SlotsPartition` | packages/components/src/libs/one-list/index.web.tsx:55-80 | every in-range slot that is neither the inner header nor the inner footer holds exactly one data item, placed back at that slot |
| `WebSlots.SeparatorAfter` | packages/components/src/libs/one-list/index.web.tsx:96-110 | a separator follows item d iff d is not the last item and the separator is drawn; its leading index is the slot index; its trailing index is d + 1, present only when d + 2 < data length |
| `WebSlots.Row` | packages/components/src/libs/one-list/index.web.tsx:55-111 | the row is the header, footer, nothing, or the item of exactly the slot's classification |
| `WebSlots.LastSeparatorHasNoTrailing` | packages/components/src/libs/one-list/index.web.tsx:96-110 | the separator after the last-but-one item has no trailing item, and the last item has no separator |
| `WebSlots.ItemKey` | packages/components/src/libs/one-list/index.web.tsx:179-187 | an in-range slot's key is 'header' for the inner header, 'footer' for the inner footer, and the caller's key of the item it holds otherwise |
| `WebSlots.SlotKeysDistinct` | packages/components/src/libs/one-list/index.web.tsx:179-187 | when the caller's keys are distinct and never 'header' or 'footer', no two slots share a key |
| `WebSlots.SlotSize` | packages/components/src/libs/one-list/index.web.tsx:189-203 | the header slot has the header size, the footer slot the footer size, an out-of-range slot 0, and item d's slot its size plus the separator size exactly when d is not last |
| `WebSlots.SeparatorRenderedIffSized` | packages/components/src/libs/one-list/index.web.tsx:96-102 | an item row draws a separator exactly when its slot size exceeds the item's own size, so the drawing and the sizing agree |
| `WebSlots.SlotSizes` | packages/components/src/libs/one-list/index.web.tsx:236-238 | the new size table has one entry per slot, equal to that slot's size |
| `WebSlots.DataSlotSize` | packages/components/src/libs/one-list/index.web.tsx:194-202 | item d's slot is the item's size plus one separator unless d is the last item |
| `WebSlots.DataSlotPrefixSum` | packages/components/src/libs/one-list/index.web.tsx:197-202 | the first k data slots add up to the first k item sizes plus one separator for each of them that is not the last item |
| `WebSlots.DataSlotsTotal` | packages/components/src/libs/one-list/index.web.tsx:197-202 | the data slots add up to all item sizes plus (n - 1) separators |
| `WebSlots.SlotSizesShape` | packages/components/src/libs/one-list/index.web.tsx:189-203 | the slot size table is the inner header size, then the data slots, then the inner footer size |
| `WebSlots.ItemStart` | packages/components/src/libs/one-list/index.web.tsx:189-203 | item d starts after the inner header, the first d item sizes and d separators |
| `WebSlots.TotalExtent` | packages/components/src/libs/one-list/index.web.tsx:189-203 | the scrollable extent is inner header + all item sizes + (n - 1) separators + inner footer |
| `WebSlots.OnItemsRendered` | packages/components/src/libs/one-list/index.web.tsx:213-225 | no handler exists without a callback; with one, a call is made whose range has the width of the rendered slot range |
| `WebSlots.ReportedRangeIsDataRange` | packages/components/src/libs/one-list/index.web.tsx:218-223 | when both range ends are data slots, the callback receives exactly the data indices they hold |
| `WebSlots.ReportedDecorationIndices` | packages/components/src/libs/one-list/index.web.tsx:219-223 | a visible inner header is reported as -1, and a visible inner footer as data length (no footer adjustment) |
| `WebSlots.WebScrollCommand` | packages/components/src/libs/one-list/index.web.tsx:120-138 | every call throws (`None`) exactly when the list is not mounted; otherwise scrollToStart scrolls to offset 0, scrollToEnd brings item length - 1 in at 'start', and scrollToIndex passes the index on, with the given alignment, or 'smart' only when no params are given |
| `WebSlots.ScrollTargetsPreviousItem` | packages/components/src/libs/one-list/index.web.tsx:126-135 | with an inner header, scrollToIndex(i) targets the slot of item i - 1, and scrollToEnd the slot of the last-but-one item |
| `WebSlots.WebScrollCommandCorrected` | packages/components/src/libs/one-list/index.web.tsx:126-135 | the corrected handle throws exactly when the list is not mounted; scrollToStart is the command as written (offset 0); scrollToEnd keeps 'start' alignment; scrollToIndex keeps the alignment rule as written |
| `WebSlots.CorrectedScrollTargetsItem` | packages/components/src/libs/one-list/index.web.tsx:126-135 | the corrected handle targets the slot holding the requested item, and scrollToEnd the slot of the last item |
| `WebInvalidation.SizeTable` | packages/components/src/libs/one-list/index.web.tsx:233-238 | a size table has one entry per slot below the count, each the size function at that slot |
| `WebInvalidation.FindDifferenceFrom` | packages/components/src/libs/one-list/index.web.tsx:240-242 | the search returns -1 or a differing index, and no index before the result differs |
| `WebInvalidation.FirstDifferentIndex` | packages/components/src/libs/one-list/index.web.tsx:240-252 | the result is -1 or a slot of the new table; no slot before it differs; it is a differing slot, or the last slot of a shorter new table |
| `WebInvalidation.FindFirstDifferentIndex` | packages/components/src/libs/one-list/index.web.tsx:240-252 | the loop over the two size arrays computes the first-different index |
| `WebInvalidation.FirstDifferentIsLowest` | packages/components/src/libs/one-list/index.web.tsx:240-242 | if some slot differs (an index past the old table counts), the result is the lowest differing slot |
| `WebInvalidation.ShrunkWithoutChange` | packages/components/src/libs/one-list/index.web.tsx:244-252 | when no slot differs but the lengths do, the new table is shorter and the result is min(prevLen - 1, newLen - 1), i.e. its last index |
| `WebInvalidation.NoResetIff` | packages/components/src/libs/one-list/index.web.tsx:240-256 | the result is negative (no reset) exactly when the tables are identical or the new table is empty |
| `WebInvalidation.UnchangedBeforeReset` | packages/components/src/libs/one-list/index.web.tsx:254-256 | every slot before the reset index has its old size, so the offsets of all slots up to the reset index are unchanged |
| `WebInvalidation.ResetCalls` | packages/components/src/libs/one-list/index.web.tsx:229-256 | at most one reset, only when mounted and not on the first render, at a slot of the new table: the first differing slot (or the last slot of a shorter new table), with every earlier slot unchanged; none exactly when the size tables agree or the new one is empty |
| `WebInvalidation.SameSizesNoReset` | packages/components/src/libs/one-list/index.web.tsx:229-257 | re-rendering with the same count and the same sizes, even through a new size function, resets nothing |
| `WebInvalidation.ListSizeCache.constructor` | packages/components/src/libs/one-list/index.web.tsx:227-228 | before the first render there is no previous snapshot and no reset has been issued |
| `WebInvalidation.ListSizeCache.LayoutEffect` | packages/components/src/libs/one-list/index.web.tsx:227-257 | appends this render's resets to the log, and the render's count and size function become the previous ones |
| `NativeList.SeparatorGap` | packages/components/src/libs/one-list/index.tsx:71-77 | a gap is added only for an item that is neither first nor last, and equals the separator size |
| `NativeList.Offset` | packages/components/src/libs/one-list/index.tsx:61-77 | the first item starts at 0; each later item starts where the one before ends, plus the gap (closed form in `OffsetClosedForm`) |
| `NativeList.LayoutTable` | packages/components/src/libs/one-list/index.tsx:58-81 | the table has one entry per data item |
| `NativeList.PushNextEntry` | packages/components/src/libs/one-list/index.tsx:61-78 | computing the next entry from the one pushed last extends a correctly built table by the next item's entry |
| `NativeList.BuildItemLayouts` | packages/components/src/libs/one-list/index.tsx:53-84 | the reduce builds the layout table; entry i has index i and length getItemSize(data[i], i) |
| `NativeList.GetItemLayout` | packages/components/src/libs/one-list/index.tsx:83 | lookup returns the entry at a valid index and nothing past the table |
| `NativeList.LookupGivesItem` | packages/components/src/libs/one-list/index.tsx:58-83 | looking up item i gives index i, the item's length and its offset |
| `NativeList.OffsetClosedForm` | packages/components/src/libs/one-list/index.tsx:61-77 | offset[i] = sum of the lengths before i + one gap for each item in 1..i except the last item |
| `NativeList.NoGapBeforeLastItem` | packages/components/src/libs/one-list/index.tsx:71-72 | the last item starts right after the one before it, with no gap |
| `NativeList.OffsetsMonotone` | packages/components/src/libs/one-list/index.tsx:68-77 | with non-negative sizes, offsets are non-decreasing and offset[i] is at least the sum of the lengths before i |
| `NativeList.ThreeItemExample` | packages/components/src/libs/one-list/index.tsx:56-77 | sizes 10, 20, 30 give offsets 0, 10, 30 without a separator and 0, 15, 35 with a separator of 5 |
| `NativeList.VisibleIndexes` | packages/components/src/libs/one-list/index.tsx:94-96 | an index is kept exactly when some viewable entry with a numeric index has it |
| `NativeList.JsMin` | packages/components/src/libs/one-list/index.tsx:101 | Math.min of no numbers is +Infinity; otherwise a member no greater than any element |
| `NativeList.JsMax` | packages/components/src/libs/one-list/index.tsx:102 | Math.max of no numbers is -Infinity; otherwise a member no smaller than any element |
| `NativeList.OnViewableItemsChanged` | packages/components/src/libs/one-list/index.tsx:88-105 | no handler exists without a callback |
| `NativeList.ViewableRangeReported` | packages/components/src/libs/one-list/index.tsx:94-103 | with a viewable item, one call is made with (min, max), both viewable indices and bounding every viewable index |
| `NativeList.NothingViewableReported` | packages/components/src/libs/one-list/index.tsx:98-103 | with nothing viewable, the calls are (-1, -1) and then (+Infinity, -Infinity) |
| `NativeList.SeparatorIndices` | packages/components/src/libs/one-list/index.tsx:155-162 | leading is present iff its index is found; trailing is leading + 1, present only when it is before the last item |
| `NativeList.NativeAlignment` | packages/components/src/libs/one-list/index.tsx:21 | the alignment is 'center' only when no params are given, else the caller's |
| `NativeList.ViewPosition` | packages/components/src/libs/one-list/index.tsx:28-29 | the position is 0 iff 'start', 1 iff 'end', and 0.5 for anything else |
| `NativeList.NativeScrollCommand` | packages/components/src/libs/one-list/index.tsx:13-32 | every call throws (`None`) exactly when the list is not mounted; otherwise it is unanimated, scrollToStart goes to offset 0, scrollToEnd goes to the end, and scrollToIndex passes the index with view offset 0 and the mapped view position |
| `NativeList.SmartAndDefaultCentre` | packages/components/src/libs/one-list/index.tsx:20-30 | no params, 'smart' and 'center' all centre the item |
| `NativeList.Ceil` | packages/components/src/libs/one-list/index.tsx:206-211 | the result is the least integer not below its argument |
| `NativeList.OverscanOrDefault` | packages/components/src/libs/one-list/index.tsx:47 | an absent overscan count is 1 |
| `NativeList.WindowSize` | packages/components/src/libs/one-list/index.tsx:203-213 | the window is at least 2; exactly 2 unless both the estimated size and the overscan count are positive; otherwise 1 + the overscan count times estimated size over extent, rounded up |
| `NativeList.WindowSizeMonotone` | packages/components/src/libs/one-list/index.tsx:203-213 | a larger overscan count never gives a smaller window |
| `Surfaces.NativeOffsetLagsWebStart` | packages/components/src/libs/one-list/index.tsx:68-77 | with a drawn separator, the browser surface starts item d at inner header + native offset, plus one separator more for the last item of two or more |
| `Surfaces.UnmountedHandlesThrow` | packages/components/src/libs/one-list/index.web.tsx:307-313 | with empty data or no extent on the scroll axis, every call on either handle throws |
| `Surfaces.SeparatorPropsCompared` | packages/components/src/libs/one-list/index.tsx:155-162 | both surfaces give the separator after item d the same trailing index; the native leading index is d, the browser one d's slot |

## Findings

| source | as written | input that shows it | evidently intended | confidence | as-written member | corrected member |
|---|---|---|---|---|---|---|
| packages/components/src/libs/one-list/index.web.tsx:126-135 | `scrollToIndex(index)` passes the data index to `scrollToItem`, and `scrollToEnd` passes `data.length - 1`. The windowed list counts slots, and an inner header moves every item one slot down. | a header with a renderer, size 40, not sticky; data [a, b, c]; `scrollToIndex(2)` scrolls to slot 2, which holds b, not c; `scrollToEnd` scrolls to b | translate the item to its slot, index + 1 with an inner header (`WebSlots.CorrectedScrollTargetsItem`) | medium, not executed | `WebSlots.ScrollTargetsPreviousItem` | `WebSlots.WebScrollCommandCorrected` |

## Left out

- Rendering itself is left out: JSX, the `View`/`div` wrappers, styles, memoisation and ref forwarding. Memoised closures are plain functions.
- The engines' internals are left out: offset caching, recycling, scroll physics, and whether a scroll succeeds once the engine is mounted. Each call into an engine is a command value.
- Viewport measurement is an input. The window size takes width and height, and requires the one on the scroll axis to be positive, which is the guard before the list renders. The layout effect and the scroll handles take a `mounted` flag: the engine exists only for non-empty data and a positive viewport (`ListMounted`). `RendersInside` ignores the viewport.
- `onScrollToIndexFailed` (index.tsx:240-249) is left out. It only logs and notifies error telemetry.
- The native separator's leading-index search (index.tsx:155-157) compares items by object identity. Its result is an input of `NativeList.SeparatorIndices`.
- Floating-point behaviour is not modelled: NaN, infinite sizes, `|| 0` on NaN, and the rounding of `/` and `Math.ceil`. Sizes are exact reals.
- The `usePrevious` hook (hooks/use-previous) is not part of this model. It is taken to return the value of the previous render.
- The effect's dependency list (index.web.tsx:257) is not modelled. The effect is run on every render. Skipping it when nothing changed would not change the resets (`WebInvalidation.SameSizesNoReset`).
- Two fallback keys are not modelled: `react-window-row-*` and `react-window-item-row-*`, used when `getItemKey` is missing. `getItemKey` is a required prop. The key on the header's own `div` (index.web.tsx:59-63) is React-internal.
- WebSlots.ItemKey: requires a slot index inside the slot count. The windowed list asks only for those. Outside it, the source would call `getItemKey` with an undefined item.
- Some options are only passed through and are not modelled: `refreshControl`, `pointerEvents`, `horizontal` (except for choosing the extent), `maxToRenderPerBatch`, `viewabilityConfig`, `keyExtractor`, and `ListEmptyComponent`.
