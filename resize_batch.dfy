/**
 * How one ResizeObserver batch is split (src/List.tsx:325-351): entries for
 * the root become viewport-size updates, in order; entries for a mounted item
 * contribute `[index, size]` to a single item-size update; entries for any
 * other element are dropped.
 */
module ResizeBatch {
  import opened ListTypes

  /** One observed entry: its target and its content-box width and height. */
  datatype ResizeEntry = ResizeEntry(target: Element, width: int, height: int)

  /** The size along the scroll axis. */
  function AxisSize(e: ResizeEntry, isHorizontal: bool): int
  {
    if isHorizontal then e.width else e.height
  }

  /** The entries that target the root become viewport-size updates, in order. */
  function ViewportUpdates(es: seq<ResizeEntry>, root: Element): (r: seq<StoreAction>)
    ensures |r| <= |es|
    ensures forall a :: a in r ==> a.UpdateViewportSize?
    decreases |es|
  {
    if es == [] then []
    else
      var e := es[|es| - 1];
      ViewportUpdates(es[..|es| - 1], root)
        + (if e.target == root then [UpdateViewportSize(e.width, e.height)] else [])
  }

  /** The entries that target a mounted item, as `[index, size]` pairs, in order. */
  function ItemResizes(es: seq<ResizeEntry>, root: Element, mounted: map<Element, nat>, isHorizontal: bool)
    : (r: seq<ItemResize>)
    ensures |r| <= |es|
    decreases |es|
  {
    if es == [] then []
    else
      var e := es[|es| - 1];
      ItemResizes(es[..|es| - 1], root, mounted, isHorizontal)
        + (if e.target != root && e.target in mounted
           then [ItemResize(mounted[e.target], AxisSize(e, isHorizontal))] else [])
  }

  /** How many entries target neither the root nor a mounted item. */
  function DroppedCount(es: seq<ResizeEntry>, root: Element, mounted: map<Element, nat>): nat
    decreases |es|
  {
    if es == [] then 0
    else
      var e := es[|es| - 1];
      DroppedCount(es[..|es| - 1], root, mounted)
        + (if e.target != root && e.target !in mounted then 1 else 0)
  }

  /** Everything one batch hands to the store, in dispatch order. */
  function BatchActions(es: seq<ResizeEntry>, root: Element, mounted: map<Element, nat>, isHorizontal: bool)
    : seq<StoreAction>
  {
    var items := ItemResizes(es, root, mounted, isHorizontal);
    ViewportUpdates(es, root) + (if items != [] then [UpdateItemSizes(items)] else [])
  }

  /** Every entry lands in exactly one of the three classes. */
  lemma {:induction false} PartitionCount(es: seq<ResizeEntry>, root: Element, mounted: map<Element, nat>, isHorizontal: bool)
    ensures |ViewportUpdates(es, root)| + |ItemResizes(es, root, mounted, isHorizontal)|
            + DroppedCount(es, root, mounted) == |es|
    decreases |es|
  {
    if es != [] {
      PartitionCount(es[..|es| - 1], root, mounted, isHorizontal);
    }
  }

  /** Each item-size pair comes from an entry of a mounted item, with that item's index. */
  lemma {:induction false} ItemResizesSound(es: seq<ResizeEntry>, root: Element, mounted: map<Element, nat>, isHorizontal: bool, r: ItemResize)
    requires r in ItemResizes(es, root, mounted, isHorizontal)
    ensures exists k :: 0 <= k < |es| && es[k].target != root && es[k].target in mounted
                        && r == ItemResize(mounted[es[k].target], AxisSize(es[k], isHorizontal))
    decreases |es|
  {
    var init := es[..|es| - 1];
    if r in ItemResizes(init, root, mounted, isHorizontal) {
      ItemResizesSound(init, root, mounted, isHorizontal, r);
      var k :| 0 <= k < |init| && init[k].target != root && init[k].target in mounted
               && r == ItemResize(mounted[init[k].target], AxisSize(init[k], isHorizontal));
      assert es[k] == init[k];
    } else {
      assert es[|es| - 1].target != root && es[|es| - 1].target in mounted;
    }
  }

  /** Each entry of a mounted item (other than the root) yields its `[index, size]` pair. */
  lemma {:induction false} ItemResizesComplete(es: seq<ResizeEntry>, root: Element, mounted: map<Element, nat>, isHorizontal: bool, k: nat)
    requires k < |es| && es[k].target != root && es[k].target in mounted
    ensures ItemResize(mounted[es[k].target], AxisSize(es[k], isHorizontal)) in ItemResizes(es, root, mounted, isHorizontal)
    decreases |es|
  {
    if k < |es| - 1 {
      var init := es[..|es| - 1];
      assert init[k] == es[k];
      ItemResizesComplete(init, root, mounted, isHorizontal, k);
    }
  }

  /** A batch of entries for elements nobody tracks changes nothing in the store. */
  lemma {:induction false} UnknownEntriesDropped(es: seq<ResizeEntry>, root: Element, mounted: map<Element, nat>, isHorizontal: bool)
    requires forall k :: 0 <= k < |es| ==> es[k].target != root && es[k].target !in mounted
    ensures BatchActions(es, root, mounted, isHorizontal) == []
    ensures DroppedCount(es, root, mounted) == |es|
    decreases |es|
  {
    if es != [] {
      var init := es[..|es| - 1];
      assert forall k :: 0 <= k < |init| ==> init[k] == es[k];
      UnknownEntriesDropped(init, root, mounted, isHorizontal);
    }
  }

  /** After `_observe(el, i)` an entry for `el` reports index `i`; after its cleanup it is dropped. */
  lemma ObserveThenUnobserve(root: Element, mounted: map<Element, nat>, el: Element, i: nat, w: int, h: int, isHorizontal: bool)
    requires el != root
    ensures ItemResizes([ResizeEntry(el, w, h)], root, mounted[el := i], isHorizontal)
            == [ItemResize(i, if isHorizontal then w else h)]
    ensures BatchActions([ResizeEntry(el, w, h)], root, mounted - {el}, isHorizontal) == []
  {
    var es := [ResizeEntry(el, w, h)];
    assert es[..0] == [];
  }

  /** However many items resize in one batch, they reach the store as at most one item-size update. */
  lemma {:induction false} OneItemUpdatePerBatch(es: seq<ResizeEntry>, root: Element, mounted: map<Element, nat>, isHorizontal: bool)
    ensures |set k | 0 <= k < |BatchActions(es, root, mounted, isHorizontal)|
                     && BatchActions(es, root, mounted, isHorizontal)[k].UpdateItemSizes?| <= 1
  {
    var acts := BatchActions(es, root, mounted, isHorizontal);
    var vs := ViewportUpdates(es, root);
    var idx := set k | 0 <= k < |acts| && acts[k].UpdateItemSizes?;
    forall k | 0 <= k < |vs| ensures !acts[k].UpdateItemSizes? {
      assert acts[k] == vs[k];
      assert vs[k] in vs;
    }
    assert idx <= {|vs|};
    assert |{|vs|}| == 1;
    SubsetCard(idx, {|vs|});
  }

  lemma SubsetCard(a: set<int>, b: set<int>)
    requires a <= b
    ensures |a| <= |b|
  {
    assert b == a + (b - a);
  }
}
