/** First-fit placement with two-way guillotine splits (the minimal engine): layers are
    scanned oldest first, free rectangles in list order, and the item goes at the min corner
    of the first rectangle big enough; that rectangle is replaced in place by its bottom and
    right residuals. With no room in any layer, a new layer opens at the stack top. */
module Guillotine {
  import opened Pallet
  import opened Ledger

  /** Index of the first rectangle at position ri or later that holds a w×d footprint. */
  function FirstFitIn(rects: seq<FreeRect>, w: int, d: int, ri: nat): (k: Option<nat>)
    ensures k.Some? ==> ri <= k.value < |rects| && Fits(rects[k.value], w, d)
    decreases |rects| - ri
  {
    if ri >= |rects| then None
    else if Fits(rects[ri], w, d) then Some(ri)
    else FirstFitIn(rects, w, d, ri + 1)
  }

  /** Layer and rectangle index of the first fitting rectangle from layer li on. */
  function FirstFit(ls: seq<Layer>, w: int, d: int, li: nat): (p: Option<(nat, nat)>)
    ensures p.Some? ==> li <= p.value.0 < |ls| && p.value.1 < |ls[p.value.0].freeRects|
    ensures p.Some? ==> Fits(ls[p.value.0].freeRects[p.value.1], w, d)
    decreases |ls| - li
  {
    if li >= |ls| then None
    else match FirstFitIn(ls[li].freeRects, w, d, 0)
      case Some(ri) => Some((li, ri))
      case None => FirstFit(ls, w, d, li + 1)
  }

  /** No rectangle of any layer holds a w×d footprint. */
  ghost predicate NoFit(ls: seq<Layer>, w: int, d: int)
  {
    forall l, k :: 0 <= l < |ls| && 0 <= k < |ls[l].freeRects| ==> !Fits(ls[l].freeRects[k], w, d)
  }

  /** Rectangle ri of layer li holds the footprint and is the first that does in scan order:
      every rectangle of an older layer, and every earlier rectangle of layer li, is too small. */
  ghost predicate IsFirstFit(ls: seq<Layer>, w: int, d: int, li: nat, ri: nat)
  {
    && li < |ls| && ri < |ls[li].freeRects| && Fits(ls[li].freeRects[ri], w, d)
    && (forall l, k :: 0 <= l < li && 0 <= k < |ls[l].freeRects| ==> !Fits(ls[l].freeRects[k], w, d))
    && (forall k :: 0 <= k < ri ==> !Fits(ls[li].freeRects[k], w, d))
  }

  lemma {:induction false} FirstFitInSpec(rects: seq<FreeRect>, w: int, d: int, ri: nat)
    ensures FirstFitIn(rects, w, d, ri).None? <==> forall k :: ri <= k < |rects| ==> !Fits(rects[k], w, d)
    ensures FirstFitIn(rects, w, d, ri).Some? ==>
      forall k :: ri <= k < FirstFitIn(rects, w, d, ri).value ==> !Fits(rects[k], w, d)
    decreases |rects| - ri
  {
    if ri < |rects| && !Fits(rects[ri], w, d) {
      FirstFitInSpec(rects, w, d, ri + 1);
    }
  }

  lemma {:induction false} FirstFitFromSpec(ls: seq<Layer>, w: int, d: int, li: nat)
    ensures FirstFit(ls, w, d, li).None? <==>
      forall l, k :: li <= l < |ls| && 0 <= k < |ls[l].freeRects| ==> !Fits(ls[l].freeRects[k], w, d)
    ensures FirstFit(ls, w, d, li).Some? ==>
      var p := FirstFit(ls, w, d, li).value;
      && (forall l, k :: li <= l < p.0 && 0 <= k < |ls[l].freeRects| ==> !Fits(ls[l].freeRects[k], w, d))
      && (forall k :: 0 <= k < p.1 ==> !Fits(ls[p.0].freeRects[k], w, d))
    decreases |ls| - li
  {
    if li < |ls| {
      FirstFitInSpec(ls[li].freeRects, w, d, 0);
      if FirstFitIn(ls[li].freeRects, w, d, 0).None? {
        FirstFitFromSpec(ls, w, d, li + 1);
      }
    }
  }

  /** The scan finds nothing exactly when no rectangle fits, and otherwise finds exactly the
      first fitting rectangle in scan order. */
  lemma FirstFitSpec(ls: seq<Layer>, w: int, d: int)
    ensures FirstFit(ls, w, d, 0).None? <==> NoFit(ls, w, d)
    ensures forall li: nat, ri: nat :: FirstFit(ls, w, d, 0) == Some((li, ri)) <==> IsFirstFit(ls, w, d, li, ri)
  {
    FirstFitFromSpec(ls, w, d, 0);
    forall li: nat, ri: nat | IsFirstFit(ls, w, d, li, ri)
      ensures FirstFit(ls, w, d, 0) == Some((li, ri))
    {
      assert !NoFit(ls, w, d) by {
        assert Fits(ls[li].freeRects[ri], w, d);
      }
    }
  }

  /** Layer l after its rectangle ri took a w×d×h item at its min corner: the rectangle is
      replaced, at the same index, by its guillotine residuals, and the layer height grows to
      at least h. */
  function Consume(l: Layer, ri: nat, w: int, d: int, h: int): Layer
    requires ri < |l.freeRects|
  {
    Layer(l.baseY, Max(l.height, Qt(h)),
          l.freeRects[..ri] + GuillotineSplit(l.freeRects[ri], w, d) + l.freeRects[ri + 1..])
  }

  /** One placement attempt of a w×d×h item on the layer list ls. */
  function Place(ls: seq<Layer>, w: int, d: int, h: int): Outcome
  {
    match FirstFit(ls, w, d, 0)
    case Some((li, ri)) =>
      var r := ls[li].freeRects[ri];
      Outcome(Some(Placement(r.minX + Qt(w) / 2, ls[li].baseY, r.minZ + Qt(d) / 2, li)),
              ls[li := Consume(ls[li], ri, w, d, h)])
    case None => OpenLayer(ls, w, d, h)
  }

  /** When rectangle ri of layer li is the first fit, the item goes at that rectangle's min
      corner on that layer's base, only that layer changes, its free list has the rectangle
      replaced by its residuals, and its height becomes max(height, h). */
  lemma PlaceFirstFit(ls: seq<Layer>, w: int, d: int, h: int, li: nat, ri: nat)
    requires IsFirstFit(ls, w, d, li, ri)
    ensures var r := ls[li].freeRects[ri];
      var o := Place(ls, w, d, h);
      && o.pos == Some(Placement(r.minX + Qt(w) / 2, ls[li].baseY, r.minZ + Qt(d) / 2, li))
      && |o.layers| == |ls|
      && (forall l :: 0 <= l < |ls| && l != li ==> o.layers[l] == ls[l])
      && o.layers[li].baseY == ls[li].baseY
      && o.layers[li].height == Max(ls[li].height, Qt(h))
      && o.layers[li].freeRects ==
           ls[li].freeRects[..ri] + GuillotineSplit(r, w, d) + ls[li].freeRects[ri + 1..]
  {
    FirstFitSpec(ls, w, d);
  }

  /** When no rectangle fits, the attempt is exactly the new-layer fallback. */
  lemma PlaceNoFit(ls: seq<Layer>, w: int, d: int, h: int)
    requires NoFit(ls, w, d)
    ensures Place(ls, w, d, h) == OpenLayer(ls, w, d, h)
  {
    FirstFitSpec(ls, w, d);
  }

  /** An attempt fails exactly when no rectangle fits and the item is too tall to open a new
      layer at the stack top; a failed attempt leaves the layers unchanged. */
  lemma PlaceFails(ls: seq<Layer>, w: int, d: int, h: int)
    ensures Place(ls, w, d, h).pos.None? <==> NoFit(ls, w, d) && CurrentTop(ls) + Qt(h) > PaletteMaxTop
    ensures Place(ls, w, d, h).pos.None? ==> Place(ls, w, d, h).layers == ls
  {
    FirstFitSpec(ls, w, d);
  }

  /** A placement keeps every layer's free space on the pallet and free of overlaps, for an
      item of non-negative extents that lies within the pallet or is too tall to open a
      layer. */
  lemma PlaceSound(ls: seq<Layer>, w: int, d: int, h: int)
    requires LedgerSound(ls)
    requires 0 <= w && 0 <= d
    requires (w <= PALETTE_WIDTH && d <= PALETTE_DEPTH) || CurrentTop(ls) + Qt(h) > PaletteMaxTop
    ensures LedgerSound(Place(ls, w, d, h).layers)
  {
    match FirstFit(ls, w, d, 0)
    case Some((li, ri)) =>
      var r := ls[li].freeRects[ri];
      GuillotineSplitTiles(r, w, d);
      ReplaceSound(ls[li].freeRects, ri, GuillotineSplit(r, w, d));
      assert FreeOnPallet(Consume(ls[li], ri, w, d, h));
    case None =>
      OpenLayerSound(ls, w, d, h);
  }

  /** The in-place splice of the minimal engine: remove rectangle ri, insert the bottom
      residual at ri, then the right residual after it. */
  method SpliceResiduals(rects: seq<FreeRect>, ri: nat, w: int, d: int) returns (res: seq<FreeRect>)
    requires ri < |rects|
    ensures res == rects[..ri] + GuillotineSplit(rects[ri], w, d) + rects[ri + 1..]
  {
    var r := rects[ri];
    var rightW := r.w - Qt(w);
    var bottomD := r.d - Qt(d);
    ghost var pre, post := rects[..ri], rects[ri + 1..];
    res := rects[..ri] + rects[ri + 1..];
    assert res[..ri] == pre && res[ri..] == post;
    ghost var bs: seq<FreeRect> := [];
    if bottomD > 0 {
      var bottomRect := FreeRect(r.minX, r.minZ + Qt(d), r.w, bottomD);
      bs := [bottomRect];
      res := res[..ri] + [bottomRect] + res[ri..];
    }
    assert res == pre + bs + post;
    if rightW > 0 {
      var at := ri + if bottomD > 0 then 1 else 0;
      assert res[..at] == pre + bs && res[at..] == post;
      res := res[..at] + [FreeRect(r.minX + Qt(w), r.minZ, rightW, Qt(d))] + res[at..];
    }
  }

  /** findPlacementInLayers of the minimal engine, in place on stack. */
  method FindPlacementInLayers(stack: LayerStack, w: int, d: int, h: int) returns (pos: Option<Placement>)
    modifies stack
    ensures pos == Place(old(stack.layers), w, d, h).pos
    ensures stack.layers == Place(old(stack.layers), w, d, h).layers
  {
    ghost var ls := stack.layers;
    var li := 0;
    while li < |stack.layers|
      invariant 0 <= li <= |stack.layers|
      invariant stack.layers == ls
      invariant FirstFit(ls, w, d, 0) == FirstFit(ls, w, d, li)
    {
      var layer := stack.layers[li];
      var ri := 0;
      while ri < |layer.freeRects|
        invariant 0 <= ri <= |layer.freeRects|
        invariant FirstFitIn(layer.freeRects, w, d, 0) == FirstFitIn(layer.freeRects, w, d, ri)
      {
        var r := layer.freeRects[ri];
        if r.w >= Qt(w) && r.d >= Qt(d) {
          var x := r.minX + Qt(w) / 2;
          var z := r.minZ + Qt(d) / 2;
          var y := layer.baseY;
          var rects := SpliceResiduals(layer.freeRects, ri, w, d);
          stack.layers := stack.layers[li := Layer(layer.baseY, Max(layer.height, Qt(h)), rects)];
          return Some(Placement(x, y, z, li));
        }
        ri := ri + 1;
      }
      li := li + 1;
    }
    pos := OpenNewLayer(stack, w, d, h);
  }
}
