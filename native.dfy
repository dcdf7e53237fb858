/** The native surface (index.tsx), built on a flat list that asks for each
    item's offset and length, reports which items are viewable, renders a
    separator between items, and is scrolled through primitive calls. */
module NativeList {
  import opened OneListShared

  /** One entry of the `getItemLayout` table. */
  datatype ItemLayout = ItemLayout(index: int, length: real, offset: real)

  /** The separator gap added to the offset of the item at `index`: only for
      an item that is neither the first nor the last, and only when the
      separator has a renderer and a non-zero size. */
  function SeparatorGap(itemSeparator: Option<ItemSeparator>, index: int, lastIndex: int): (g: real)
    ensures g != 0.0 ==> 0 < index < lastIndex && itemSeparator.Some? && g == itemSeparator.value.size
  {
    if index > 0 && index < lastIndex && itemSeparator.Some? && itemSeparator.value.hasComponent
       && itemSeparator.value.size != 0.0
    then itemSeparator.value.size
    else 0.0
  }

  /** The gap size itself, wherever it applies. */
  function GapSize(itemSeparator: Option<ItemSeparator>): real
  {
    if itemSeparator.Some? && itemSeparator.value.hasComponent then itemSeparator.value.size else 0.0
  }

  /** The offset of item i: the previous item's offset and length, plus the gap. */
  function Offset(lengths: seq<real>, itemSeparator: Option<ItemSeparator>, i: nat): (o: real)
    requires i < |lengths|
    ensures i == 0 ==> o == 0.0
  {
    if i == 0 then 0.0
    else Offset(lengths, itemSeparator, i - 1) + lengths[i - 1] + SeparatorGap(itemSeparator, i, |lengths| - 1)
  }

  /** The whole table: entry i has index i, the item's length and its offset. */
  function LayoutTable(lengths: seq<real>, itemSeparator: Option<ItemSeparator>): (t: seq<ItemLayout>)
    ensures |t| == |lengths|
  {
    seq(|lengths|, i requires 0 <= i < |lengths| => ItemLayout(i, lengths[i], Offset(lengths, itemSeparator, i)))
  }

  /** The first |t| entries of the table are built. */
  ghost predicate BuiltUpTo(lengths: seq<real>, itemSeparator: Option<ItemSeparator>, t: seq<ItemLayout>)
  {
    |t| <= |lengths| && forall k :: 0 <= k < |t| ==> t[k] == ItemLayout(k, lengths[k], Offset(lengths, itemSeparator, k))
  }

  /** Pushing the next entry, computed from the entry pushed last, extends the table. */
  lemma PushNextEntry(lengths: seq<real>, itemSeparator: Option<ItemSeparator>, t: seq<ItemLayout>)
    requires BuiltUpTo(lengths, itemSeparator, t) && |t| < |lengths|
    ensures var last := if |t| > 0 then t[|t| - 1].offset + t[|t| - 1].length else 0.0;
            BuiltUpTo(lengths, itemSeparator,
                      t + [ItemLayout(|t|, lengths[|t|], last + SeparatorGap(itemSeparator, |t|, |lengths| - 1))])
  {
  }

  /** The reduce that builds the `getItemLayout` table, reading the entry
      pushed last at every step. */
  method BuildItemLayouts<T>(data: seq<T>, getItemSize: (T, int) -> real, itemSeparator: Option<ItemSeparator>)
    returns (itemLayouts: seq<ItemLayout>)
    ensures itemLayouts == LayoutTable(Lengths(data, getItemSize), itemSeparator)
    ensures forall i :: 0 <= i < |data| ==> itemLayouts[i].index == i && itemLayouts[i].length == getItemSize(data[i], i)
  {
    var lastIndex := |data| - 1;
    ghost var lengths := Lengths(data, getItemSize);
    itemLayouts := [];
    var index := 0;
    while index < |data|
      invariant 0 <= index <= |data|
      invariant |itemLayouts| == index
      invariant BuiltUpTo(lengths, itemSeparator, itemLayouts)
    {
      var lastOffset := if |itemLayouts| > 0 then itemLayouts[|itemLayouts| - 1].offset else 0.0;
      var lastLength := if |itemLayouts| > 0 then itemLayouts[|itemLayouts| - 1].length else 0.0;
      var gap := if index > 0 && index < lastIndex && itemSeparator.Some? && itemSeparator.value.hasComponent
                    && itemSeparator.value.size != 0.0
                 then itemSeparator.value.size else 0.0;
      PushNextEntry(lengths, itemSeparator, itemLayouts);
      itemLayouts := itemLayouts + [ItemLayout(index, getItemSize(data[index], index), lastOffset + lastLength + gap)];
      index := index + 1;
    }
    LayoutTableEntries(lengths, itemSeparator, itemLayouts);
  }

  lemma LayoutTableEntries(lengths: seq<real>, itemSeparator: Option<ItemSeparator>, t: seq<ItemLayout>)
    requires |t| == |lengths| && BuiltUpTo(lengths, itemSeparator, t)
    ensures t == LayoutTable(lengths, itemSeparator)
  {
  }

  /** The lookup FlatList performs: the entry at the index, `undefined` past the table. */
  function GetItemLayout(itemLayouts: seq<ItemLayout>, index: int): (r: Option<ItemLayout>)
    ensures r.Some? <==> 0 <= index < |itemLayouts|
    ensures r.Some? ==> r.value == itemLayouts[index]
  {
    if 0 <= index < |itemLayouts| then Some(itemLayouts[index]) else None
  }

  /** Looking an item up in the built table gives its own index, its own
      length and its offset. */
  lemma LookupGivesItem<T>(data: seq<T>, getItemSize: (T, int) -> real, itemSeparator: Option<ItemSeparator>, i: int)
    requires 0 <= i < |data|
    ensures var e := GetItemLayout(LayoutTable(Lengths(data, getItemSize), itemSeparator), i);
            e.Some? && e.value.index == i && e.value.length == getItemSize(data[i], i)
            && e.value.offset == Offset(Lengths(data, getItemSize), itemSeparator, i)
  {
  }

  /** The number of gaps before item i: one before every item but the first
      and the last. */
  function GapsBefore(i: nat, n: nat): nat
  {
    if i == 0 then 0 else if i < n - 1 then i else i - 1
  }

  /** Closed form: item i starts after the lengths of the items before it and
      one gap before each of them but the last item. */
  lemma {:induction false} OffsetClosedForm(lengths: seq<real>, itemSeparator: Option<ItemSeparator>, i: nat)
    requires i < |lengths|
    ensures Offset(lengths, itemSeparator, i) == Sum(lengths[..i]) + Repeat(GapsBefore(i, |lengths|), GapSize(itemSeparator))
  {
    if i > 0 {
      OffsetClosedForm(lengths, itemSeparator, i - 1);
      SumStep(lengths, i - 1);
      var gap := SeparatorGap(itemSeparator, i, |lengths| - 1);
      assert Offset(lengths, itemSeparator, i) == Offset(lengths, itemSeparator, i - 1) + lengths[i - 1] + gap;
      if i < |lengths| - 1 {
        assert gap == GapSize(itemSeparator);
        assert GapsBefore(i, |lengths|) == GapsBefore(i - 1, |lengths|) + 1;
      } else {
        assert gap == 0.0;
        assert GapsBefore(i, |lengths|) == GapsBefore(i - 1, |lengths|);
      }
    }
  }

  /** No gap is added before the last item. */
  lemma NoGapBeforeLastItem(lengths: seq<real>, itemSeparator: Option<ItemSeparator>)
    requires |lengths| >= 2
    ensures Offset(lengths, itemSeparator, |lengths| - 1)
            == Offset(lengths, itemSeparator, |lengths| - 2) + lengths[|lengths| - 2]
  {
  }

  /** With non-negative sizes, offsets never decrease and item i starts no
      earlier than the lengths before it add up to. */
  lemma {:induction false} OffsetsMonotone(lengths: seq<real>, itemSeparator: Option<ItemSeparator>, i: nat, j: nat)
    requires NonNegative(lengths)
    requires itemSeparator.Some? ==> itemSeparator.value.size >= 0.0
    requires i <= j < |lengths|
    ensures Offset(lengths, itemSeparator, i) <= Offset(lengths, itemSeparator, j)
    ensures Offset(lengths, itemSeparator, j) >= Sum(lengths[..j])
    decreases j
  {
    if j > 0 {
      SumStep(lengths, j - 1);
      if i < j {
        OffsetsMonotone(lengths, itemSeparator, i, j - 1);
      } else {
        OffsetsMonotone(lengths, itemSeparator, j - 1, j - 1);
      }
    }
  }

  /** Three items of sizes 10, 20 and 30: offsets 0, 10, 30 without a
      separator, and 0, 15, 35 with a separator of size 5. */
  lemma ThreeItemExample()
    ensures var ls := [10.0, 20.0, 30.0];
            [Offset(ls, None, 0), Offset(ls, None, 1), Offset(ls, None, 2)] == [0.0, 10.0, 30.0]
    ensures var ls := [10.0, 20.0, 30.0];
            var sep := Some(ItemSeparator(true, 5.0));
            [Offset(ls, sep, 0), Offset(ls, sep, 1), Offset(ls, sep, 2)] == [0.0, 15.0, 35.0]
  {
  }

  /** One entry of the flat list's viewability report. */
  datatype ViewToken = ViewToken(isViewable: bool, index: Option<int>)

  /** A number handed to the visibility callback: `Math.min` and `Math.max`
      of no arguments are the infinities. */
  datatype JsNumber = Finite(value: int) | PositiveInfinity | NegativeInfinity

  predicate Kept(t: ViewToken)
  {
    t.isViewable && t.index.Some?
  }

  /** Whether x is the index of a viewable token. */
  predicate Reported(tokens: seq<ViewToken>, x: int)
  {
    exists k :: 0 <= k < |tokens| && Kept(tokens[k]) && tokens[k].index.value == x
  }

  /** `visibleIndexes`: the indices of the viewable tokens, in order. */
  function VisibleIndexes(tokens: seq<ViewToken>): (r: seq<int>)
    ensures |r| <= |tokens|
    ensures forall x :: x in r <==> Reported(tokens, x)
  {
    if tokens == [] then []
    else
      var rest := VisibleIndexes(tokens[1..]);
      assert forall x :: Reported(tokens[1..], x) ==> Reported(tokens, x) by {
        forall x | Reported(tokens[1..], x) ensures Reported(tokens, x) {
          var k :| 0 <= k < |tokens[1..]| && Kept(tokens[1..][k]) && tokens[1..][k].index.value == x;
          assert tokens[k + 1] == tokens[1..][k];
        }
      }
      assert forall x :: Reported(tokens, x) ==> (Kept(tokens[0]) && tokens[0].index.value == x) || Reported(tokens[1..], x) by {
        forall x | Reported(tokens, x) ensures (Kept(tokens[0]) && tokens[0].index.value == x) || Reported(tokens[1..], x) {
          var k :| 0 <= k < |tokens| && Kept(tokens[k]) && tokens[k].index.value == x;
          if k > 0 { assert tokens[1..][k - 1] == tokens[k]; }
        }
      }
      if Kept(tokens[0]) then [tokens[0].index.value] + rest else rest
  }

  /** `Math.min(...s)`. */
  function JsMin(s: seq<int>): (m: JsNumber)
    ensures s == [] <==> m == PositiveInfinity
    ensures s != [] ==> m.Finite? && m.value in s && forall i :: 0 <= i < |s| ==> m.value <= s[i]
  {
    if s == [] then PositiveInfinity
    else
      var rest := JsMin(s[1..]);
      if rest.Finite? && rest.value < s[0] then rest else Finite(s[0])
  }

  /** `Math.max(...s)`. */
  function JsMax(s: seq<int>): (m: JsNumber)
    ensures s == [] <==> m == NegativeInfinity
    ensures s != [] ==> m.Finite? && m.value in s && forall i :: 0 <= i < |s| ==> s[i] <= m.value
  {
    if s == [] then NegativeInfinity
    else
      var rest := JsMax(s[1..]);
      if rest.Finite? && rest.value > s[0] then rest else Finite(s[0])
  }

  /** `onViewableItemsChanged`: absent without a visibility callback;
      otherwise the calls it makes to the callback for one report. */
  function OnViewableItemsChanged(hasCallback: bool, viewableItems: seq<ViewToken>)
    : (calls: Option<seq<(JsNumber, JsNumber)>>)
    ensures calls.Some? <==> hasCallback
  {
    if !hasCallback then None
    else
      var visibleIndexes := VisibleIndexes(viewableItems);
      var first := if |visibleIndexes| == 0 then [(Finite(-1), Finite(-1))] else [];
      Some(first + [(JsMin(visibleIndexes), JsMax(visibleIndexes))])
  }

  /** When some item is viewable the callback is called once, with the least
      and the greatest viewable index. */
  lemma ViewableRangeReported(viewableItems: seq<ViewToken>, x: int)
    requires Reported(viewableItems, x)
    ensures var calls := OnViewableItemsChanged(true, viewableItems).value;
            |calls| == 1 && calls[0].0.Finite? && calls[0].1.Finite?
            && calls[0].0.value <= x <= calls[0].1.value
            && Reported(viewableItems, calls[0].0.value) && Reported(viewableItems, calls[0].1.value)
  {
    var v := VisibleIndexes(viewableItems);
    assert x in v;
    var i :| 0 <= i < |v| && v[i] == x;
  }

  /** When nothing is viewable the callback is called with (-1, -1), and then
      again with the minimum and maximum of no indices. */
  lemma NothingViewableReported(viewableItems: seq<ViewToken>)
    requires forall k :: 0 <= k < |viewableItems| ==> !Kept(viewableItems[k])
    ensures OnViewableItemsChanged(true, viewableItems).value
            == [(Finite(-1), Finite(-1)), (PositiveInfinity, NegativeInfinity)]
  {
  }

  /** The props handed to the separator renderer, given the index of the
      item before it (-1 when that item is not found in the data). */
  datatype NativeSeparatorProps = NativeSeparatorProps(leading: Option<int>, trailing: Option<int>)

  function SeparatorIndices(leadingIndex: int, dataLength: nat): (sp: NativeSeparatorProps)
    ensures sp.leading.Some? <==> leadingIndex >= 0
    ensures sp.leading.Some? ==> sp.leading.value == leadingIndex
    ensures sp.trailing.Some? <==> 0 <= leadingIndex && leadingIndex + 2 < dataLength
    ensures sp.trailing.Some? ==> sp.trailing.value == leadingIndex + 1 && sp.trailing.value < dataLength - 1
  {
    var trailingIndex := if leadingIndex >= 0 && leadingIndex + 1 < dataLength - 1 then leadingIndex + 1 else -1;
    NativeSeparatorProps(
      if leadingIndex >= 0 then Some(leadingIndex) else None,
      if trailingIndex >= 0 then Some(trailingIndex) else None)
  }

  /** The primitive scroll calls of the flat list. */
  datatype NativeCommand =
    | ScrollToOffset(animated: bool, offset: real)
    | ScrollToListEnd(animated: bool)
    | ScrollToItemIndex(animated: bool, index: int, viewOffset: real, viewPosition: real)

  /** The alignment used: the caller's, or 'center' when no params are given. */
  function NativeAlignment(params: Option<ScrollParams>): (a: Option<Alignment>)
    ensures params.None? ==> a == Some(Center)
    ensures params.Some? ==> a == params.value.alignment
  {
    if params.Some? then params.value.alignment else Some(Center)
  }

  /** Where in the viewport the item lands: 0 at the start, 1 at the end,
      0.5 (the middle) for anything else. */
  function ViewPosition(alignment: Option<Alignment>): (pos: real)
    ensures pos == 0.0 <==> alignment == Some(Start)
    ensures pos == 1.0 <==> alignment == Some(End)
    ensures pos == 0.5 <==> alignment != Some(Start) && alignment != Some(End)
  {
    if alignment == Some(Start) then 0.0 else if alignment == Some(End) then 1.0 else 0.5
  }

  /** The imperative handle: every call is without animation. Every call goes
      through a non-null assertion on the list's ref, which is unset while the
      list is not mounted (`ListMounted`): the call then throws, which is
      `None` here. */
  function NativeScrollCommand(mounted: bool, req: ScrollRequest): (c: Option<NativeCommand>)
    ensures c.None? <==> !mounted
    ensures c.Some? ==> !c.value.animated
    ensures c.Some? ==> (req.ScrollToStart? <==> c.value.ScrollToOffset?)
    ensures c.Some? && c.value.ScrollToOffset? ==> c.value.offset == 0.0
    ensures c.Some? ==> (req.ScrollToEnd? <==> c.value.ScrollToListEnd?)
    ensures c.Some? && req.ScrollToIndex? ==>
              c.value.ScrollToItemIndex? && c.value.index == req.index && c.value.viewOffset == 0.0
              && c.value.viewPosition == ViewPosition(NativeAlignment(req.params))
  {
    if !mounted then None
    else
      match req
      case ScrollToStart => Some(ScrollToOffset(false, 0.0))
      case ScrollToEnd => Some(ScrollToListEnd(false))
      case ScrollToIndex(index, params) =>
        var alignment := if params.Some? then params.value.alignment else Some(Center);
        Some(ScrollToItemIndex(false, index, 0.0,
          if alignment == Some(Start) then 0.0 else if alignment == Some(End) then 1.0 else 0.5))
  }

  /** Without params, and for 'smart', the item is centred. */
  lemma SmartAndDefaultCentre(index: int)
    ensures NativeScrollCommand(true, ScrollToIndex(index, None)).value.viewPosition == 0.5
    ensures NativeScrollCommand(true, ScrollToIndex(index, Some(ScrollParams(Some(Smart))))).value.viewPosition == 0.5
    ensures NativeScrollCommand(true, ScrollToIndex(index, Some(ScrollParams(Some(Center))))).value.viewPosition == 0.5
  {
  }

  /** The smallest integer not below x (`Math.ceil`). */
  function Ceil(x: real): (c: int)
    ensures (c - 1) as real < x <= c as real
  {
    var f := x.Floor;
    if f as real == x then f else f + 1
  }

  lemma CeilMonotone(x: real, y: real)
    requires x <= y
    ensures Ceil(x) <= Ceil(y)
  {
  }

  /** The overscan count, 1 when the prop is absent. */
  function OverscanOrDefault(overscanCount: Option<real>): (o: real)
    ensures overscanCount.None? ==> o == 1.0
  {
    if overscanCount.Some? then overscanCount.value else 1.0
  }

  /** `windowSize`: 1 plus the overscan count measured in viewports' worth of
      estimated items, rounded up; 1 plus 1 when that does not apply. The
      extent is the measured width or height, positive once the list renders. */
  function WindowSize(horizontal: bool, width: real, height: real, estimatedItemSize: real, overscanCount: Option<real>)
    : (w: int)
    requires if horizontal then width > 0.0 else height > 0.0
    ensures w >= 2
    ensures !(estimatedItemSize > 0.0 && OverscanOrDefault(overscanCount) > 0.0) ==> w == 2
    ensures estimatedItemSize > 0.0 && OverscanOrDefault(overscanCount) > 0.0 ==>
              var budget := OverscanOrDefault(overscanCount) * estimatedItemSize / (if horizontal then width else height);
              (w - 2) as real < budget <= (w - 1) as real
  {
    var o := if overscanCount.Some? then overscanCount.value else 1.0;
    var extent := if horizontal then width else height;
    if estimatedItemSize > 0.0 && o > 0.0 then
      var q := o / (extent / estimatedItemSize);
      QuotientOfQuotient(o, extent, estimatedItemSize);
      1 + Ceil(q)
    else 1 + 1
  }

  lemma QuotientOfQuotient(o: real, extent: real, e: real)
    requires o > 0.0 && extent > 0.0 && e > 0.0
    ensures o / (extent / e) == o * e / extent
    ensures o / (extent / e) > 0.0
  {
  }

  /** A larger overscan count never shrinks the window. */
  lemma WindowSizeMonotone(horizontal: bool, width: real, height: real, estimatedItemSize: real, o1: real, o2: real)
    requires if horizontal then width > 0.0 else height > 0.0
    requires o1 <= o2
    ensures WindowSize(horizontal, width, height, estimatedItemSize, Some(o1))
            <= WindowSize(horizontal, width, height, estimatedItemSize, Some(o2))
  {
    if estimatedItemSize > 0.0 && o1 > 0.0 {
      var extent := if horizontal then width else height;
      QuotientOfQuotient(o1, extent, estimatedItemSize);
      QuotientOfQuotient(o2, extent, estimatedItemSize);
      MonotoneScale(o1, o2, estimatedItemSize / extent);
      assert o1 * estimatedItemSize / extent == o1 * (estimatedItemSize / extent);
      assert o2 * estimatedItemSize / extent == o2 * (estimatedItemSize / extent);
      CeilMonotone(o1 / (extent / estimatedItemSize), o2 / (extent / estimatedItemSize));
    }
  }

  lemma MonotoneScale(a: real, b: real, k: real)
    requires a <= b && k > 0.0
    ensures a * k <= b * k
  {
  }
}
