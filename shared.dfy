/** Types and helpers shared by the browser and the native list surfaces:
    the prop shapes of index.shared.ts, the scroll request of the imperative
    handle, running sums of pixel sizes, and the rule that places a header or
    footer outside the virtualized region (the same in both surfaces). */
module OneListShared {

  datatype Option<+T> = None | Some(value: T)

  /** The alignment union accepted by `scrollToIndex`. */
  datatype Alignment = Start | Center | End | Smart

  /** A `header` or `footer` prop: whether a renderer Component is supplied,
      its size along the scroll axis, and whether it is sticky
      (an absent `sticky` is `false`). */
  datatype Decoration = Decoration(hasComponent: bool, size: real, sticky: bool)

  /** The `itemSeparator` prop: whether a renderer is supplied and its size. */
  datatype ItemSeparator = ItemSeparator(hasComponent: bool, size: real)

  /** The optional second argument of `scrollToIndex`. */
  datatype ScrollParams = ScrollParams(alignment: Option<Alignment>)

  /** One call on the imperative handle exposed to callers. */
  datatype ScrollRequest =
    | ScrollToStart
    | ScrollToEnd
    | ScrollToIndex(index: int, params: Option<ScrollParams>)

  /** The props both surfaces read; items are opaque values of type T. */
  datatype ListProps<!T> = ListProps(
    data: seq<T>,
    getItemKey: (T, int) -> string,
    getItemSize: (T, int) -> real,
    header: Option<Decoration>,
    footer: Option<Decoration>,
    itemSeparator: Option<ItemSeparator>)

  /** `getItemSize(data[i], i)` for every data index i. */
  function Lengths<T>(data: seq<T>, getItemSize: (T, int) -> real): (ls: seq<real>)
    ensures |ls| == |data|
    ensures forall i :: 0 <= i < |data| ==> ls[i] == getItemSize(data[i], i)
  {
    seq(|data|, i requires 0 <= i < |data| => getItemSize(data[i], i))
  }

  predicate NonNegative(s: seq<real>)
  {
    forall i :: 0 <= i < |s| ==> s[i] >= 0.0
  }

  /** The total of a sequence of pixel sizes, summed left to right. */
  function Sum(s: seq<real>): real
  {
    if s == [] then 0.0 else Sum(s[..|s| - 1]) + s[|s| - 1]
  }

  /** c separators of size x laid end to end. */
  function Repeat(c: nat, x: real): real
  {
    if c == 0 then 0.0 else Repeat(c - 1, x) + x
  }

  lemma SumStep(s: seq<real>, k: nat)
    requires k < |s|
    ensures Sum(s[..k + 1]) == Sum(s[..k]) + s[k]
  {
    assert s[..k + 1][..k] == s[..k];
  }

  lemma {:induction false} SumConcat(a: seq<real>, b: seq<real>)
    ensures Sum(a + b) == Sum(a) + Sum(b)
    decreases |b|
  {
    if b == [] {
      assert a + b == a;
    } else {
      var b' := b[..|b| - 1];
      assert (a + b)[..|a + b| - 1] == a + b';
      SumConcat(a, b');
    }
  }

  /** Has a renderer and a positive size: a header or footer that is shown at all. */
  predicate Displayable(d: Option<Decoration>)
  {
    d.Some? && d.value.hasComponent && d.value.size > 0.0
  }

  /** A displayable header or footer that is not sticky: it belongs inside the list. */
  predicate IsInner(d: Option<Decoration>)
  {
    Displayable(d) && !d.value.sticky
  }

  /** Whether the header (or footer) is rendered outside the virtualized list,
      next to it, for a data sequence of `dataLength` items. */
  function RendersOutside(d: Option<Decoration>, dataLength: nat): (b: bool)
    ensures b ==> Displayable(d)
  {
    d.Some? && d.value.size > 0.0 && d.value.hasComponent && (d.value.sticky || dataLength == 0)
  }

  /** Whether the header (or footer) is rendered by the list itself: the list
      exists only for non-empty data, and takes only non-sticky decorations. */
  function RendersInside(d: Option<Decoration>, dataLength: nat): (b: bool)
    ensures b ==> Displayable(d) && !d.value.sticky && dataLength > 0
  {
    dataLength > 0 && IsInner(d)
  }

  /** Whether the engine's list is on screen, so that the ref the imperative
      handle calls through is set: only for non-empty data and a positive
      extent along the scroll axis. */
  predicate ListMounted(dataLength: nat, horizontal: bool, width: real, height: real)
  {
    dataLength > 0 && ((horizontal && width > 0.0) || (!horizontal && height > 0.0))
  }

  /** A header or footer with a renderer and a positive size is rendered
      exactly once, either by the list or outside it; any other is not
      rendered at all. */
  lemma DecorationRenderedOnce(d: Option<Decoration>, dataLength: nat)
    ensures Displayable(d) ==> (RendersOutside(d, dataLength) <==> !RendersInside(d, dataLength))
    ensures !Displayable(d) ==> !RendersOutside(d, dataLength) && !RendersInside(d, dataLength)
    ensures RendersOutside(d, dataLength) && dataLength > 0 ==> d.value.sticky
  {
  }
}
