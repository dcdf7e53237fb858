/** How the two surfaces compare on the same props: where each places an
    item along the scroll axis, and what each tells the separator renderer. */
module Surfaces {
  import opened OneListShared
  import WebSlots
  import NativeList

  /** With a drawn separator, the browser surface starts item d after d
      separators, while the native offsets leave out the gap before the last
      item: the two agree on every item but the last of two or more. */
  lemma NativeOffsetLagsWebStart<T>(p: ListProps<T>, d: nat)
    requires WebSlots.SeparatorShown(p.itemSeparator)
    requires d < |p.data|
    ensures Sum(WebSlots.SlotSizes(p)[..WebSlots.SlotOf(p, d)])
            == WebSlots.InnerSize(p.header)
               + NativeList.Offset(Lengths(p.data, p.getItemSize), p.itemSeparator, d)
               + (if 0 < d == |p.data| - 1 then p.itemSeparator.value.size else 0.0)
  {
    var ls := Lengths(p.data, p.getItemSize);
    WebSlots.ItemStart(p, d);
    NativeList.OffsetClosedForm(ls, p.itemSeparator, d);
    assert NativeList.GapSize(p.itemSeparator) == WebSlots.ItemSeparatorSize(p.itemSeparator);
    if 0 < d == |p.data| - 1 {
      assert NativeList.GapsBefore(d, |p.data|) == d - 1;
    } else {
      assert NativeList.GapsBefore(d, |p.data|) == d;
    }
  }

  /** Both surfaces name the same trailing item (none for the separator
      before the last item); the browser surface names the leading item by
      its slot, the native one by its data index. */
  lemma SeparatorPropsCompared<T>(p: ListProps<T>, d: nat)
    requires WebSlots.SeparatorShown(p.itemSeparator)
    requires d + 1 < |p.data|
    ensures var web := WebSlots.Row(p, WebSlots.SlotOf(p, d));
            var native := NativeList.SeparatorIndices(d, |p.data|);
            && web.ItemRow? && web.separator.Some?
            && web.separator.value.trailingIndex == native.trailing
            && native.leading == Some(d)
            && web.separator.value.leadingIndex == d + WebSlots.HeaderShift(p)
  {
    WebSlots.SlotRoundTrip(p, d);
  }

  /** Before the list is mounted (empty data, or no extent along the scroll
      axis), every call on either handle throws. */
  lemma UnmountedHandlesThrow<T>(p: ListProps<T>, horizontal: bool, width: real, height: real, req: ScrollRequest)
    requires !ListMounted(|p.data|, horizontal, width, height)
    ensures WebSlots.WebScrollCommand(ListMounted(|p.data|, horizontal, width, height), |p.data|, req).None?
    ensures NativeList.NativeScrollCommand(ListMounted(|p.data|, horizontal, width, height), req).None?
  {
  }
}
