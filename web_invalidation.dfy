/** The layout effect of the browser surface (index.web.tsx): after each
    render it compares the per-slot size table of the previous render with the
    new one and asks the windowed list to drop its cached offsets from the
    first slot whose size changed. The "previous render" values kept by the
    `usePrevious` hook are the fields of a small class. */
module WebInvalidation {
  import opened OneListShared

  /** A per-slot size table: `size(i)` for every slot index below `count`. */
  function SizeTable(size: int -> real, count: nat): (t: seq<real>)
    ensures |t| == count
    ensures forall i :: 0 <= i < count ==> t[i] == size(i)
  {
    seq(count, i => size(i))
  }

  /** The findIndex test `size !== previousSizes[index]`: an index past the
      end of the previous table reads `undefined`, so it always differs. */
  predicate DiffersAt(prev: seq<real>, next: seq<real>, i: nat)
    requires i < |next|
  {
    i >= |prev| || next[i] != prev[i]
  }

  /** `newSizes.findIndex(...)`, searching from index i on: the first
      differing index, or -1. */
  function FindDifferenceFrom(prev: seq<real>, next: seq<real>, i: nat): (r: int)
    requires i <= |next|
    ensures r == -1 || (i <= r < |next| && DiffersAt(prev, next, r))
    ensures forall j :: i <= j < |next| && (r == -1 || j < r) ==> !DiffersAt(prev, next, j)
    decreases |next| - i
  {
    if i == |next| then -1
    else if DiffersAt(prev, next, i) then i
    else FindDifferenceFrom(prev, next, i + 1)
  }

  function Min(a: int, b: int): int
  {
    if a <= b then a else b
  }

  /** `firstDifferentIndex`: the first differing slot; failing that, when
      only the lengths differ, the last index both tables share. */
  function FirstDifferentIndex(prev: seq<real>, next: seq<real>): (r: int)
    ensures -1 <= r < |next|
    ensures r >= 0 ==> forall j :: 0 <= j < r ==> !DiffersAt(prev, next, j)
    ensures r >= 0 ==> DiffersAt(prev, next, r) || (|next| < |prev| && r == |next| - 1)
  {
    var found := FindDifferenceFrom(prev, next, 0);
    if !(found >= 0) && |prev| != |next| then
      assert |prev| < |next| ==> DiffersAt(prev, next, |prev|);
      Min(|prev| - 1, |next| - 1)
    else found
  }

  /** The search loop of the layout effect, over the two size arrays. */
  method FindFirstDifferentIndex(previousSizes: array<real>, newSizes: array<real>) returns (firstDifferentIndex: int)
    ensures firstDifferentIndex == FirstDifferentIndex(previousSizes[..], newSizes[..])
  {
    firstDifferentIndex := -1;
    var i := 0;
    while i < newSizes.Length
      invariant 0 <= i <= newSizes.Length
      invariant firstDifferentIndex == -1
      invariant FindDifferenceFrom(previousSizes[..], newSizes[..], i) == FindDifferenceFrom(previousSizes[..], newSizes[..], 0)
    {
      if i >= previousSizes.Length || newSizes[i] != previousSizes[i] {
        firstDifferentIndex := i;
        break;
      }
      i := i + 1;
    }
    if !(firstDifferentIndex >= 0) && previousSizes.Length != newSizes.Length {
      firstDifferentIndex := Min(previousSizes.Length - 1, newSizes.Length - 1);
    }
  }

  /** When some slot's size changed (or a slot is new), the result is the
      lowest such slot. */
  lemma FirstDifferentIsLowest(prev: seq<real>, next: seq<real>, i: nat)
    requires i < |next| && DiffersAt(prev, next, i)
    ensures var r := FirstDifferentIndex(prev, next);
            0 <= r <= i && DiffersAt(prev, next, r)
            && forall j :: 0 <= j < r ==> !DiffersAt(prev, next, j)
  {
  }

  /** When no shared slot changed but the tables differ in length, the new
      table is the shorter one and the result is its last index. */
  lemma ShrunkWithoutChange(prev: seq<real>, next: seq<real>)
    requires forall j :: 0 <= j < |next| ==> !DiffersAt(prev, next, j)
    requires |prev| != |next|
    ensures |next| < |prev|
    ensures FirstDifferentIndex(prev, next) == Min(|prev| - 1, |next| - 1) == |next| - 1
  {
    if |next| > |prev| {
      assert DiffersAt(prev, next, |prev|);
    }
    var found := FindDifferenceFrom(prev, next, 0);
    assert found == -1;
  }

  /** No reset is asked for exactly when the tables are identical, or the new
      table is empty. */
  lemma {:induction false} NoResetIff(prev: seq<real>, next: seq<real>)
    ensures FirstDifferentIndex(prev, next) < 0 <==> prev == next || next == []
  {
    var found := FindDifferenceFrom(prev, next, 0);
    if found >= 0 {
      assert DiffersAt(prev, next, found);
      assert next != [];
      assert prev != next;
    } else if |prev| == |next| {
      forall j | 0 <= j < |next|
        ensures prev[j] == next[j]
      {
        assert !DiffersAt(prev, next, j);
      }
      assert prev == next;
    } else {
      ShrunkWithoutChange(prev, next);
      assert FirstDifferentIndex(prev, next) < 0 <==> next == [];
    }
  }

  /** Every slot before the reset index kept its size, so the cached offsets
      of all slots up to and including it are still right. */
  lemma UnchangedBeforeReset(prev: seq<real>, next: seq<real>)
    requires FirstDifferentIndex(prev, next) >= 0
    ensures var r := FirstDifferentIndex(prev, next);
            r < |next| && r <= |prev| && prev[..r] == next[..r]
            && forall k :: 0 <= k <= r ==> Sum(prev[..k]) == Sum(next[..k])
  {
    var r := FirstDifferentIndex(prev, next);
    var found := FindDifferenceFrom(prev, next, 0);
    if found < 0 {
      ShrunkWithoutChange(prev, next);
    } else if |prev| < |next| {
      FirstDifferentIsLowest(prev, next, |prev|);
    }
    assert r < |next| && r <= |prev|;
    forall j | 0 <= j < r
      ensures prev[j] == next[j]
    {
      assert !DiffersAt(prev, next, j);
    }
    assert prev[..r] == next[..r];
    forall k | 0 <= k <= r
      ensures Sum(prev[..k]) == Sum(next[..k])
    {
      assert prev[..k] == prev[..r][..k];
      assert next[..k] == next[..r][..k];
    }
  }

  /** The values `usePrevious` hands to the next render: the slot count and
      the slot size function. */
  datatype Snapshot = Snapshot(count: nat, size: int -> real)

  /** The `resetAfterIndex` calls one run of the layout effect makes: none
      when the list is not mounted or on the first render, otherwise one when
      the size tables differ. */
  function ResetCalls(previous: Option<Snapshot>, mounted: bool, itemCount: nat, itemSize: int -> real): (calls: seq<int>)
    ensures |calls| <= 1
    ensures calls != [] ==> mounted && previous.Some?
    ensures calls != [] ==> 0 <= calls[0] < itemCount
    ensures mounted && previous.Some? ==>
              (calls == [] <==> SizeTable(previous.value.size, previous.value.count) == SizeTable(itemSize, itemCount)
                                || itemCount == 0)
    ensures calls != [] ==>
              var prev, next := SizeTable(previous.value.size, previous.value.count), SizeTable(itemSize, itemCount);
              calls[0] <= |prev| && prev[..calls[0]] == next[..calls[0]]
              && (DiffersAt(prev, next, calls[0]) || (|next| < |prev| && calls[0] == |next| - 1))
  {
    if mounted && previous.Some? then
      var prev := SizeTable(previous.value.size, previous.value.count);
      var next := SizeTable(itemSize, itemCount);
      var r := FirstDifferentIndex(prev, next);
      NoResetIff(prev, next);
      if r >= 0 then
        UnchangedBeforeReset(prev, next);
        [r]
      else []
    else []
  }

  /** Re-rendering with the same slot count and the same sizes, even through
      a new size function, resets nothing. */
  lemma SameSizesNoReset(count: nat, f: int -> real, g: int -> real, mounted: bool)
    requires forall i :: 0 <= i < count ==> f(i) == g(i)
    ensures ResetCalls(Some(Snapshot(count, f)), mounted, count, g) == []
  {
    assert SizeTable(f, count) == SizeTable(g, count);
  }

  /** The browser list's memory of the previous render, and the cache resets
      issued to the windowed list so far. */
  class ListSizeCache {
    var previous: Option<Snapshot>
    var resets: seq<int>

    constructor ()
      ensures previous == None && resets == []
    {
      previous := None;
      resets := [];
    }

    /** One run of the layout effect for a render with `itemCount` slots and
        slot size function `itemSize`; `mounted` says whether the windowed
        list exists. The render's values then become the previous ones. */
    method LayoutEffect(mounted: bool, itemCount: nat, itemSize: int -> real)
      modifies this
      ensures previous == Some(Snapshot(itemCount, itemSize))
      ensures resets == old(resets) + ResetCalls(old(previous), mounted, itemCount, itemSize)
    {
      if mounted && previous.Some? {
        var prev := previous.value;
        var previousSizes := new real[prev.count](i => prev.size(i));
        var newSizes := new real[itemCount](i => itemSize(i));
        assert previousSizes[..] == SizeTable(prev.size, prev.count);
        assert newSizes[..] == SizeTable(itemSize, itemCount);
        var firstDifferentIndex := FindFirstDifferentIndex(previousSizes, newSizes);
        if firstDifferentIndex >= 0 {
          resets := resets + [firstDifferentIndex];
        }
      }
      previous := Some(Snapshot(itemCount, itemSize));
    }
  }
}
