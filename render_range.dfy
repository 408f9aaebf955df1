/**
 * Which children `List` renders (src/List.tsx:104, 163-164, 255-264, 380-392):
 * the count of valid children, the item count clamped to what the store
 * knows, the overscanned range, and the size of the inner element.
 */
module RenderRange {
  import opened Optional
  import opened ListTypes
  import opened StoreLog

  /** What a child of `List` can be. */
  datatype Child =
    | NullChild
    | UndefinedChild
    | BoolChild(b: bool)
    | TextChild(text: string)
    | NumberChild(n: int)
    | ElementChild(key: Option<string>)

  /** `isInvalidElement`: null, undefined and booleans render nothing. */
  predicate IsInvalidElement(c: Child)
  {
    c.NullChild? || c.UndefinedChild? || c.BoolChild?
  }

  /** How many children render nothing, counted from the front. */
  function InvalidCount(cs: seq<Child>): nat
    decreases |cs|
  {
    if cs == [] then 0 else (if IsInvalidElement(cs[0]) then 1 else 0) + InvalidCount(cs[1..])
  }

  lemma {:induction false} InvalidCountAppend(cs: seq<Child>, c: Child)
    ensures InvalidCount(cs + [c]) == InvalidCount(cs) + (if IsInvalidElement(c) then 1 else 0)
    decreases |cs|
  {
    if cs != [] {
      assert (cs + [c])[1..] == cs[1..] + [c];
      InvalidCountAppend(cs[1..], c);
    }
  }

  /** The children that become items, in order: every valid child is kept, each occurrence once. */
  function ValidChildren(cs: seq<Child>): (r: seq<Child>)
    ensures |r| <= |cs|
    ensures |r| == |cs| - InvalidCount(cs)
    ensures forall c :: c in r <==> c in cs && !IsInvalidElement(c)
    decreases |cs|
  {
    if cs == [] then []
    else
      var init := ValidChildren(cs[..|cs| - 1]);
      var c := cs[|cs| - 1];
      assert forall x :: x in cs <==> x in cs[..|cs| - 1] || x == c by {
        assert cs == cs[..|cs| - 1] + [c];
      }
      assert InvalidCount(cs) == InvalidCount(cs[..|cs| - 1]) + (if IsInvalidElement(c) then 1 else 0) by {
        InvalidCountAppend(cs[..|cs| - 1], c);
        assert cs[..|cs| - 1] + [c] == cs;
      }
      if IsInvalidElement(c) then init else init + [c]
  }

  /** `rawCount`: the loop over the children that counts the valid ones. */
  method RawCount(children: seq<Child>) returns (n: nat)
    ensures n == |ValidChildren(children)|
    ensures n <= |children|
    ensures n == |children| <==> forall k :: 0 <= k < |children| ==> !IsInvalidElement(children[k])
  {
    n := 0;
    var k := 0;
    while k < |children|
      invariant 0 <= k <= |children|
      invariant n == |ValidChildren(children[..k])|
      invariant n == k <==> forall m :: 0 <= m < k ==> !IsInvalidElement(children[m])
    {
      assert children[..k + 1][..k] == children[..k];
      if !IsInvalidElement(children[k]) {
        n := n + 1;
      } else {
        assert |ValidChildren(children[..k])| <= k;
      }
      k := k + 1;
    }
    assert children[..k] == children;
  }

  /** The cache-length effect: the store is told the raw count. */
  method SyncCacheLength(store: Store, rawCount: nat)
    modifies store
    ensures store.actions == old(store.actions) + [UpdateCacheLength(rawCount)]
  {
    store.Update(UpdateCacheLength(rawCount));
  }

  /** `count`: the children and the store may disagree just after a change; take the smaller. */
  function ItemCount(rawCount: int, storeItemCount: int): (c: int)
    ensures c <= rawCount && c <= storeItemCount
    ensures c == rawCount || c == storeItemCount
  {
    if rawCount < storeItemCount then rawCount else storeItemCount
  }

  datatype Range = Range(lo: int, hi: int)

  /** `startIndexWithMargin` and `endIndexWithMargin`. */
  function RenderedRange(startIndex: int, endIndex: int, overscan: int, count: int): (r: Range)
    ensures r.lo >= 0 && r.hi <= count - 1
    ensures r.lo >= startIndex - overscan && r.hi <= endIndex + overscan
    ensures r.lo == startIndex - overscan || r.lo == 0
    ensures r.hi == endIndex + overscan || r.hi == count - 1
  {
    var lo := if startIndex - overscan > 0 then startIndex - overscan else 0;
    var hi := if endIndex + overscan < count - 1 then endIndex + overscan else count - 1;
    Range(lo, hi)
  }

  /** Whether the `i`-th valid child is rendered as an item. */
  predicate IsRendered(r: Range, i: int)
  {
    r.lo <= i <= r.hi
  }

  /** The rendered indices are items the list has. */
  lemma RenderedIndicesExist(startIndex: int, endIndex: int, overscan: int, rawCount: int, storeItemCount: int, i: int)
    requires IsRendered(RenderedRange(startIndex, endIndex, overscan, ItemCount(rawCount, storeItemCount)), i)
    ensures 0 <= i < rawCount && i < storeItemCount
  {
  }

  /** With a non-negative overscan the visible range is rendered, widened by at most `overscan` on each side. */
  lemma RenderedCoversVisible(startIndex: int, endIndex: int, overscan: int, count: int)
    requires overscan >= 0 && 0 <= startIndex && endIndex <= count - 1
    ensures var r := RenderedRange(startIndex, endIndex, overscan, count);
            r.lo <= startIndex && endIndex <= r.hi
            && forall i :: startIndex <= i <= endIndex ==> IsRendered(r, i)
  {
  }

  /** An empty list renders nothing, whatever the store's range says. */
  lemma EmptyListRendersNothing(startIndex: int, endIndex: int, overscan: int, i: int)
    ensures !IsRendered(RenderedRange(startIndex, endIndex, overscan, 0), i)
  {
  }

  /** The inner element is as large as the content, and never smaller than the viewport. */
  function ClampedScrollSize(scrollSize: int, viewportSize: int): (r: int)
    ensures r >= scrollSize && r >= viewportSize
    ensures r == scrollSize || r == viewportSize
  {
    if scrollSize >= viewportSize then scrollSize else viewportSize
  }
}
