/** The browser surface (index.web.tsx), built on a windowed list that
    iterates synthetic slots. An inner header occupies slot 0 and an inner
    footer the last slot; data item d sits in slot d + HeaderShift. Each slot
    has a size (item size plus a trailing separator), a key, and a row view;
    the windowed list reports its rendered slot range, which is shifted back
    into data indices; the imperative handle becomes one command value. */
module WebSlots {
  import opened OneListShared

  /** `innerHeaderSize` / `innerFooterSize`: the decoration's size when it
      occupies a slot of its own, else 0. */
  function InnerSize(d: Option<Decoration>): (s: real)
    ensures s >= 0.0
    ensures s != 0.0 <==> IsInner(d)
    ensures IsInner(d) ==> s == d.value.size
  {
    if d.Some? && d.value.hasComponent && !d.value.sticky && d.value.size > 0.0 then d.value.size else 0.0
  }

  /** The separator is drawn, and sized, only with a renderer and a positive size. */
  predicate SeparatorShown(sep: Option<ItemSeparator>)
  {
    sep.Some? && sep.value.hasComponent && sep.value.size > 0.0
  }

  /** `itemSeparatorSize`: the separator's size when it is drawn, else 0. */
  function ItemSeparatorSize(sep: Option<ItemSeparator>): (s: real)
    ensures s >= 0.0
    ensures s != 0.0 <==> SeparatorShown(sep)
    ensures SeparatorShown(sep) ==> s == sep.value.size
  {
    if sep.Some? && sep.value.hasComponent && sep.value.size > 0.0 then sep.value.size else 0.0
  }

  /** The slot offset of data items: 1 when an inner header takes slot 0. */
  function HeaderShift<T>(p: ListProps<T>): (h: nat)
    ensures h <= 1
    ensures h == 1 <==> IsInner(p.header)
  {
    if InnerSize(p.header) != 0.0 then 1 else 0
  }

  /** `itemCount`: the number of slots the windowed list iterates. */
  function ItemCount<T>(p: ListProps<T>): (c: nat)
    ensures c == |p.data| + (if IsInner(p.header) then 1 else 0) + (if IsInner(p.footer) then 1 else 0)
  {
    |p.data| + (if InnerSize(p.header) != 0.0 then 1 else 0) + (if InnerSize(p.footer) != 0.0 then 1 else 0)
  }

  /** What a slot index stands for. */
  datatype Slot = HeaderSlot | FooterSlot | DataSlot(dataIndex: nat) | OutOfRange

  /** The classification the row renderer performs: header first, then
      footer, else the shifted data index when it is a valid one. */
  function ClassifySlot<T>(p: ListProps<T>, index: int): (s: Slot)
    ensures s.HeaderSlot? <==> IsInner(p.header) && index == 0
    ensures s.FooterSlot? <==> IsInner(p.footer) && index == ItemCount(p) - 1 && !s.HeaderSlot?
    ensures s.DataSlot? ==> s.dataIndex < |p.data| && index == s.dataIndex + HeaderShift(p)
    ensures s.OutOfRange? <==> index < 0 || index >= ItemCount(p)
  {
    if InnerSize(p.header) != 0.0 && index == 0 && p.header.Some? then HeaderSlot
    else if InnerSize(p.footer) != 0.0 && index == ItemCount(p) - 1 && p.footer.Some? then FooterSlot
    else
      var dataIndex := if InnerSize(p.header) != 0.0 then index - 1 else index;
      if 0 <= dataIndex <= |p.data| - 1 then DataSlot(dataIndex) else OutOfRange
  }

  /** The slot that holds data item d. */
  function SlotOf<T>(p: ListProps<T>, d: int): int
  {
    d + HeaderShift(p)
  }

  /** Placing data item d in its slot and classifying that slot gives d back. */
  lemma SlotRoundTrip<T>(p: ListProps<T>, d: nat)
    requires d < |p.data|
    ensures 0 <= SlotOf(p, d) < ItemCount(p)
    ensures ClassifySlot(p, SlotOf(p, d)) == DataSlot(d)
  {
  }

  /** Every slot in range is the header, the footer or the slot of one data item. */
  lemma SlotsPartition<T>(p: ListProps<T>, index: int)
    requires 0 <= index < ItemCount(p)
    ensures ClassifySlot(p, index).DataSlot? <==>
              !(IsInner(p.header) && index == 0) && !(IsInner(p.footer) && index == ItemCount(p) - 1)
    ensures ClassifySlot(p, index).DataSlot? ==> SlotOf(p, ClassifySlot(p, index).dataIndex) == index
  {
  }

  /** The `leading`/`trailing` props given to the separator renderer. */
  datatype SeparatorProps = SeparatorProps(leadingIndex: int, trailingIndex: Option<int>)

  /** What the row renderer draws for one slot. */
  datatype RowView =
    | HeaderRow
    | FooterRow
    | NothingRow
    | ItemRow(dataIndex: nat, separator: Option<SeparatorProps>)

  /** The separator drawn after data item d, which sits in slot `index`. */
  function SeparatorAfter<T>(p: ListProps<T>, index: int, d: nat): (sp: Option<SeparatorProps>)
    ensures sp.Some? <==> d + 1 < |p.data| && SeparatorShown(p.itemSeparator)
    ensures sp.Some? ==> sp.value.leadingIndex == index
    ensures sp.Some? ==> (sp.value.trailingIndex.Some? <==> d + 2 < |p.data|)
    ensures sp.Some? && sp.value.trailingIndex.Some? ==> sp.value.trailingIndex.value == d + 1
  {
    if d < |p.data| - 1 && p.itemSeparator.Some? && p.itemSeparator.value.size > 0.0
       && p.itemSeparator.value.hasComponent
    then Some(SeparatorProps(index, if d + 1 < |p.data| - 1 then Some(d + 1) else None))
    else None
  }

  /** The row renderer: header, footer, nothing, or the item and its separator. */
  function Row<T>(p: ListProps<T>, index: int): (v: RowView)
    ensures v.HeaderRow? <==> ClassifySlot(p, index).HeaderSlot?
    ensures v.FooterRow? <==> ClassifySlot(p, index).FooterSlot?
    ensures v.NothingRow? <==> ClassifySlot(p, index).OutOfRange?
    ensures v.ItemRow? ==> ClassifySlot(p, index) == DataSlot(v.dataIndex)
  {
    match ClassifySlot(p, index)
    case HeaderSlot => HeaderRow
    case FooterSlot => FooterRow
    case OutOfRange => NothingRow
    case DataSlot(d) => ItemRow(d, SeparatorAfter(p, index, d))
  }

  /** The separator after the last-but-one item names no trailing item, and
      no separator follows the last item. */
  lemma LastSeparatorHasNoTrailing<T>(p: ListProps<T>)
    requires |p.data| >= 2 && SeparatorShown(p.itemSeparator)
    ensures Row(p, SlotOf(p, |p.data| - 2)).separator.Some?
    ensures Row(p, SlotOf(p, |p.data| - 2)).separator.value.trailingIndex == None
    ensures Row(p, SlotOf(p, |p.data| - 1)).separator == None
  {
    SlotRoundTrip(p, |p.data| - 2);
    SlotRoundTrip(p, |p.data| - 1);
  }

  /** `itemKey`: the key the windowed list gives each slot. */
  function ItemKey<T>(p: ListProps<T>, index: int): (k: string)
    requires 0 <= index < ItemCount(p)
    ensures match ClassifySlot(p, index)
            case HeaderSlot => k == "header"
            case FooterSlot => k == "footer"
            case DataSlot(d) => k == p.getItemKey(p.data[d], d)
            case OutOfRange => false
  {
    if InnerSize(p.header) != 0.0 && index == 0 then "header"
    else if InnerSize(p.footer) != 0.0 && index == ItemCount(p) - 1 then "footer"
    else
      var dataIndex := if InnerSize(p.header) != 0.0 then index - 1 else index;
      p.getItemKey(p.data[dataIndex], dataIndex)
  }

  /** The caller's keys are distinct and never the reserved 'header'/'footer'. */
  predicate KeysWellFormed<T>(p: ListProps<T>)
  {
    && (forall i, j :: 0 <= i < j < |p.data| ==> p.getItemKey(p.data[i], i) != p.getItemKey(p.data[j], j))
    && (forall i :: 0 <= i < |p.data| ==> p.getItemKey(p.data[i], i) != "header" && p.getItemKey(p.data[i], i) != "footer")
  }

  /** With well-formed caller keys, no two slots share a key. */
  lemma SlotKeysDistinct<T>(p: ListProps<T>, a: int, b: int)
    requires KeysWellFormed(p)
    requires 0 <= a < b < ItemCount(p)
    ensures ItemKey(p, a) != ItemKey(p, b)
  {
    var ka, kb := ItemKey(p, a), ItemKey(p, b);
    match ClassifySlot(p, a)
    case HeaderSlot =>
    case FooterSlot =>
    case OutOfRange =>
    case DataSlot(da) =>
      match ClassifySlot(p, b)
      case HeaderSlot =>
      case FooterSlot =>
      case OutOfRange =>
      case DataSlot(db) =>
        assert da < db;
  }

  /** `itemSize`: the size of one slot, the item's own size plus the
      separator that follows it. */
  function SlotSize<T>(p: ListProps<T>, index: int): (s: real)
    ensures match ClassifySlot(p, index)
            case HeaderSlot => s == p.header.value.size
            case FooterSlot => s == p.footer.value.size
            case DataSlot(d) =>
              s == p.getItemSize(p.data[d], d) + (if d + 1 < |p.data| then ItemSeparatorSize(p.itemSeparator) else 0.0)
            case OutOfRange => s == 0.0
  {
    if InnerSize(p.header) != 0.0 && index == 0 then InnerSize(p.header)
    else if InnerSize(p.footer) != 0.0 && index == ItemCount(p) - 1 then InnerSize(p.footer)
    else
      var dataIndex := if InnerSize(p.header) != 0.0 then index - 1 else index;
      if !(dataIndex >= 0 && dataIndex <= |p.data| - 1) then 0.0
      else p.getItemSize(p.data[dataIndex], dataIndex)
           + (if dataIndex >= 0 && dataIndex < |p.data| - 1 then ItemSeparatorSize(p.itemSeparator) else 0.0)
  }

  /** A row draws a separator exactly when its slot's size makes room for one. */
  lemma SeparatorRenderedIffSized<T>(p: ListProps<T>, d: nat)
    requires d < |p.data|
    ensures var v := Row(p, SlotOf(p, d));
            v.ItemRow? && (v.separator.Some? <==> SlotSize(p, SlotOf(p, d)) != p.getItemSize(p.data[d], d))
  {
    SlotRoundTrip(p, d);
  }

  /** The per-slot size table the windowed list reads. */
  function SlotSizes<T>(p: ListProps<T>): (t: seq<real>)
    ensures |t| == ItemCount(p)
    ensures forall i :: 0 <= i < |t| ==> t[i] == SlotSize(p, i)
  {
    seq(ItemCount(p), i => SlotSize(p, i))
  }

  /** The sizes of the first k data slots. */
  function DataSlotSizes<T>(p: ListProps<T>, k: nat): (t: seq<real>)
    requires k <= |p.data|
    ensures |t| == k
    ensures forall j :: 0 <= j < k ==> t[j] == SlotSize(p, SlotOf(p, j))
  {
    seq(k, j requires 0 <= j < k => SlotSize(p, SlotOf(p, j)))
  }

  /** The number of separators among the first k data slots: one after every
      item but the last. */
  function SeparatorsBefore(k: nat, n: nat): nat
    requires k <= n
  {
    if k < n then k else if n > 0 then n - 1 else 0
  }

  /** A data slot holds the item's size plus, unless it is the last item, one separator. */
  lemma DataSlotSize<T>(p: ListProps<T>, d: nat)
    requires d < |p.data|
    ensures SlotSize(p, SlotOf(p, d))
            == Lengths(p.data, p.getItemSize)[d] + (if d + 1 < |p.data| then ItemSeparatorSize(p.itemSeparator) else 0.0)
  {
    SlotRoundTrip(p, d);
  }

  /** Adding data slot k - 1 to the first k - 1 data slots. */
  lemma DataSlotsStep<T>(p: ListProps<T>, k: nat)
    requires 0 < k <= |p.data|
    ensures Sum(DataSlotSizes(p, k))
            == Sum(DataSlotSizes(p, k - 1)) + Lengths(p.data, p.getItemSize)[k - 1]
               + (if k < |p.data| then ItemSeparatorSize(p.itemSeparator) else 0.0)
  {
    assert DataSlotSizes(p, k)[..k - 1] == DataSlotSizes(p, k - 1);
    DataSlotSize(p, k - 1);
  }

  /** The first k data slots span the first k item sizes plus one separator
      after every one of them that is not the last item. */
  lemma {:induction false} DataSlotPrefixSum<T>(p: ListProps<T>, k: nat)
    requires k <= |p.data|
    ensures Sum(DataSlotSizes(p, k))
            == Sum(Lengths(p.data, p.getItemSize)[..k]) + Repeat(SeparatorsBefore(k, |p.data|), ItemSeparatorSize(p.itemSeparator))
  {
    if k > 0 {
      DataSlotPrefixSum(p, k - 1);
      DataSlotsStep(p, k);
      SumStep(Lengths(p.data, p.getItemSize), k - 1);
      if k < |p.data| {
        assert SeparatorsBefore(k, |p.data|) == SeparatorsBefore(k - 1, |p.data|) + 1;
      } else {
        assert SeparatorsBefore(k, |p.data|) == SeparatorsBefore(k - 1, |p.data|);
      }
    }
  }

  /** The data slots together: every item size, plus `(n - 1)` separators. */
  lemma DataSlotsTotal<T>(p: ListProps<T>)
    requires |p.data| > 0
    ensures Sum(DataSlotSizes(p, |p.data|))
            == Sum(Lengths(p.data, p.getItemSize)) + Repeat(|p.data| - 1, ItemSeparatorSize(p.itemSeparator))
  {
    DataSlotPrefixSum(p, |p.data|);
    assert Lengths(p.data, p.getItemSize)[..|p.data|] == Lengths(p.data, p.getItemSize);
  }

  /** The slots a header or footer occupies in the table: one when inner, none otherwise. */
  function InnerPart(d: Option<Decoration>): (t: seq<real>)
    ensures |t| == (if IsInner(d) then 1 else 0)
    ensures Sum(t) == InnerSize(d)
  {
    if IsInner(d) then
      var t := [InnerSize(d)];
      assert t[..0] == [];
      t
    else []
  }

  /** Slot i of the table, read off the header part, the data slots and the footer part. */
  lemma SlotSizeAt<T>(p: ListProps<T>, i: nat)
    requires i < ItemCount(p)
    ensures var hs, ds, fs := InnerPart(p.header), DataSlotSizes(p, |p.data|), InnerPart(p.footer);
            SlotSize(p, i) == (hs + ds + fs)[i]
  {
    var hs, ds, fs := InnerPart(p.header), DataSlotSizes(p, |p.data|), InnerPart(p.footer);
    if i < |hs| {
      assert ClassifySlot(p, i).HeaderSlot?;
    } else if i < |hs| + |ds| {
      SlotRoundTrip(p, i - |hs|);
      assert (hs + ds + fs)[i] == ds[i - |hs|];
    } else {
      assert ClassifySlot(p, i).FooterSlot?;
      assert (hs + ds + fs)[i] == fs[0];
    }
  }

  /** The slot table is the inner header, the data slots, then the inner footer. */
  lemma SlotSizesShape<T>(p: ListProps<T>)
    ensures SlotSizes(p) == InnerPart(p.header) + DataSlotSizes(p, |p.data|) + InnerPart(p.footer)
  {
    var rhs := InnerPart(p.header) + DataSlotSizes(p, |p.data|) + InnerPart(p.footer);
    forall i | 0 <= i < ItemCount(p)
      ensures SlotSizes(p)[i] == rhs[i]
    {
      SlotSizeAt(p, i);
    }
  }

  /** The slots before data item d: the inner header, then the first d data slots. */
  lemma SlotsBeforeItem<T>(p: ListProps<T>, d: nat)
    requires d < |p.data|
    ensures SlotSizes(p)[..SlotOf(p, d)] == InnerPart(p.header) + DataSlotSizes(p, d)
  {
    var hs := InnerPart(p.header);
    var lhs := SlotSizes(p)[..SlotOf(p, d)];
    var rhs := hs + DataSlotSizes(p, d);
    assert |lhs| == |rhs|;
    forall i | 0 <= i < |lhs|
      ensures lhs[i] == rhs[i]
    {
      if i < |hs| {
        assert ClassifySlot(p, i).HeaderSlot?;
      } else {
        SlotRoundTrip(p, i - |hs|);
      }
    }
  }

  /** The offset at which the windowed list places data item d: the inner
      header, then the first d items, each followed by a separator. */
  lemma ItemStart<T>(p: ListProps<T>, d: nat)
    requires d < |p.data|
    ensures Sum(SlotSizes(p)[..SlotOf(p, d)])
            == InnerSize(p.header) + Sum(Lengths(p.data, p.getItemSize)[..d]) + Repeat(d, ItemSeparatorSize(p.itemSeparator))
  {
    SlotsBeforeItem(p, d);
    SumConcat(InnerPart(p.header), DataSlotSizes(p, d));
    DataSlotPrefixSum(p, d);
  }

  /** The whole scrollable extent of a non-empty list. */
  lemma TotalExtent<T>(p: ListProps<T>)
    requires |p.data| > 0
    ensures Sum(SlotSizes(p))
            == InnerSize(p.header) + Sum(Lengths(p.data, p.getItemSize))
               + Repeat(|p.data| - 1, ItemSeparatorSize(p.itemSeparator)) + InnerSize(p.footer)
  {
    var hs, ds, fs := InnerPart(p.header), DataSlotSizes(p, |p.data|), InnerPart(p.footer);
    SlotSizesShape(p);
    SumConcat(hs + ds, fs);
    SumConcat(hs, ds);
    DataSlotsTotal(p);
  }

  /** `onItemsRendered`: absent without a visibility callback; otherwise the
      call it makes for a rendered slot range. */
  function OnItemsRendered<T>(p: ListProps<T>, hasCallback: bool, visibleStartIndex: int, visibleStopIndex: int)
    : (call: Option<(int, int)>)
    ensures call.Some? <==> hasCallback
    ensures call.Some? ==> call.value.1 - call.value.0 == visibleStopIndex - visibleStartIndex
  {
    if !hasCallback then None
    else
      var dataIndexFix := if InnerSize(p.header) != 0.0 then -1 else 0;
      Some((visibleStartIndex + dataIndexFix, visibleStopIndex + dataIndexFix))
  }

  /** A rendered range of data slots is reported as the data indices they hold. */
  lemma ReportedRangeIsDataRange<T>(p: ListProps<T>, start: int, stop: int, a: nat, b: nat)
    requires ClassifySlot(p, start) == DataSlot(a) && ClassifySlot(p, stop) == DataSlot(b)
    ensures OnItemsRendered(p, true, start, stop) == Some((a, b))
  {
  }

  /** A visible inner header is reported as index -1, and a visible inner
      footer as the index one past the last item: the footer is not adjusted for. */
  lemma ReportedDecorationIndices<T>(p: ListProps<T>, start: int, stop: int)
    ensures ClassifySlot(p, start).HeaderSlot? ==> OnItemsRendered(p, true, start, stop).value.0 == -1
    ensures ClassifySlot(p, stop).FooterSlot? ==> OnItemsRendered(p, true, start, stop).value.1 == |p.data|
  {
  }

  /** The primitive calls the imperative handle makes on the windowed list:
      scroll to a pixel offset, or bring a slot into view with an alignment
      (absent when the caller passed params without one). */
  datatype WebCommand = ScrollTo(offset: real) | ScrollToItem(index: int, alignment: Option<Alignment>)

  /** The imperative handle, as written: item positions are passed on as
      they are given, in data-index terms. Every call goes through a non-null
      assertion on the list's ref, which is unset while the list is not
      mounted (`ListMounted`): the call then throws, which is `None` here. */
  function WebScrollCommand(mounted: bool, dataLength: nat, req: ScrollRequest): (c: Option<WebCommand>)
    ensures c.None? <==> !mounted
    ensures c.Some? ==> (c.value.ScrollTo? <==> req.ScrollToStart?)
    ensures c.Some? && c.value.ScrollTo? ==> c.value.offset == 0.0
    ensures c.Some? && req.ScrollToEnd? ==> c.value == ScrollToItem(dataLength - 1, Some(Start))
    ensures c.Some? && req.ScrollToIndex? ==> c.value.ScrollToItem? && c.value.index == req.index
    ensures c.Some? && req.ScrollToIndex? && req.params.None? ==> c.value.alignment == Some(Smart)
    ensures c.Some? && req.ScrollToIndex? && req.params.Some? ==> c.value.alignment == req.params.value.alignment
  {
    if !mounted then None
    else
      match req
      case ScrollToStart => Some(ScrollTo(0.0))
      case ScrollToEnd => Some(ScrollToItem(dataLength - 1, Some(Start)))
      case ScrollToIndex(index, params) =>
        Some(ScrollToItem(index, if params.Some? then params.value.alignment else Some(Smart)))
  }

  /** With an inner header, the slot the mounted handle scrolls to holds the
      data item before the one requested. */
  lemma ScrollTargetsPreviousItem<T>(p: ListProps<T>, index: nat, params: Option<ScrollParams>)
    requires IsInner(p.header) && 1 <= index < |p.data|
    ensures ClassifySlot(p, WebScrollCommand(true, |p.data|, ScrollToIndex(index, params)).value.index) == DataSlot(index - 1)
    ensures ClassifySlot(p, WebScrollCommand(true, |p.data|, ScrollToEnd).value.index) == DataSlot(|p.data| - 2)
  {
  }

  /** The handle with item positions translated to slots. */
  function WebScrollCommandCorrected<T>(p: ListProps<T>, mounted: bool, req: ScrollRequest): (c: Option<WebCommand>)
    ensures c.None? <==> !mounted
    ensures c.Some? ==> (c.value.ScrollTo? <==> req.ScrollToStart?)
    ensures req.ScrollToStart? ==> c == WebScrollCommand(mounted, |p.data|, req)
    ensures c.Some? && req.ScrollToEnd? ==> c.value.ScrollToItem? && c.value.alignment == Some(Start)
    ensures c.Some? && req.ScrollToIndex? ==>
              c.value.ScrollToItem? && c.value.alignment == WebScrollCommand(mounted, |p.data|, req).value.alignment
  {
    if !mounted then None
    else
      match req
      case ScrollToStart => Some(ScrollTo(0.0))
      case ScrollToEnd => Some(ScrollToItem(SlotOf(p, |p.data| - 1), Some(Start)))
      case ScrollToIndex(index, params) =>
        Some(ScrollToItem(SlotOf(p, index), if params.Some? then params.value.alignment else Some(Smart)))
  }

  /** The corrected handle scrolls to the slot that holds the requested item,
      and `scrollToEnd` to the slot of the last item. */
  lemma CorrectedScrollTargetsItem<T>(p: ListProps<T>, index: nat, params: Option<ScrollParams>)
    requires index < |p.data|
    ensures ClassifySlot(p, WebScrollCommandCorrected(p, true, ScrollToIndex(index, params)).value.index) == DataSlot(index)
    ensures ClassifySlot(p, WebScrollCommandCorrected(p, true, ScrollToEnd).value.index) == DataSlot(|p.data| - 1)
  {
    SlotRoundTrip(p, index);
    SlotRoundTrip(p, |p.data| - 1);
  }
}
