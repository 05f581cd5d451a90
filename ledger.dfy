/** The layer ledger both engines share: layers with their free rectangles, the stack top,
    the two-way guillotine split and the new-layer fallback. */
module Ledger {
  import opened Pallet

  /** A stacking tier: base elevation, tallest item height so far, free plan rectangles. */
  datatype Layer = Layer(baseY: int, height: int, freeRects: seq<FreeRect>)

  /** Where a placement search put an item: centre x and z, elevation of the layer base, layer. */
  datatype Placement = Placement(x: int, y: int, z: int, layerIndex: nat)

  /** Result of one placement attempt on a layer list: the position, and the layer list after. */
  datatype Outcome = Outcome(pos: Option<Placement>, layers: seq<Layer>)

  /** The whole pallet surface, centred on the origin. */
  const PalletRect: FreeRect := FreeRect(-HalfW, -HalfD, HalfW * 2, HalfD * 2)

  /** A fresh layer: one free rectangle covering the whole pallet. */
  function CreateNewLayer(baseY: int, initialHeight: int): (l: Layer)
    ensures l.baseY == baseY && l.height == initialHeight
    ensures |l.freeRects| == 1
    ensures forall x, z :: Cell(l.freeRects[0], x, z) <==> -HalfW <= x < HalfW && -HalfD <= z < HalfD
    ensures l.freeRects[0].w == Qt(PALETTE_WIDTH) && l.freeRects[0].d == Qt(PALETTE_DEPTH)
  {
    Layer(baseY, initialHeight, [PalletRect])
  }

  function LayerTop(l: Layer): int { l.baseY + l.height }

  /** The current stack top: the highest layer top, and never below the pallet top. */
  function CurrentTop(ls: seq<Layer>): (t: int)
    ensures t >= PaletteTop
    ensures forall i :: 0 <= i < |ls| ==> LayerTop(ls[i]) <= t
    ensures t == PaletteTop || exists i :: 0 <= i < |ls| && t == LayerTop(ls[i])
  {
    if ls == [] then PaletteTop
    else
      var t := Max(CurrentTop(ls[..|ls| - 1]), LayerTop(ls[|ls| - 1]));
      assert forall i :: 0 <= i < |ls| - 1 ==> ls[..|ls| - 1][i] == ls[i];
      t
  }

  /** A free rectangle holds a w×d footprint (w, d in centimetres). */
  predicate Fits(r: FreeRect, w: int, d: int)
  {
    r.w >= Qt(w) && r.d >= Qt(d)
  }

  /** Two-way guillotine residuals of placing a w×d footprint at the min corner of r:
      the bottom strip beyond the footprint's depth, then the right strip beside it;
      a strip of zero extent is dropped. */
  function GuillotineSplit(r: FreeRect, w: int, d: int): seq<FreeRect>
  {
    var rightW := r.w - Qt(w);
    var bottomD := r.d - Qt(d);
    (if bottomD > 0 then [FreeRect(r.minX, r.minZ + Qt(d), r.w, bottomD)] else [])
    + (if rightW > 0 then [FreeRect(r.minX + Qt(w), r.minZ, rightW, Qt(d))] else [])
  }

  /** The corner footprint and the two residuals tile r, are disjoint, and the bottom strip
      spans all of r's width while the right strip spans only the footprint's depth. */
  lemma GuillotineSplitTiles(r: FreeRect, w: int, d: int)
    requires 0 <= Qt(w) <= r.w && 0 <= Qt(d) <= r.d
    ensures Tiles(r, FreeRect(r.minX, r.minZ, Qt(w), Qt(d)), GuillotineSplit(r, w, d))
    ensures forall i :: 0 <= i < |GuillotineSplit(r, w, d)| ==> Within(GuillotineSplit(r, w, d)[i], r)
    ensures |GuillotineSplit(r, w, d)| <= 2
    ensures 0 < Qt(d) && 0 < r.w ==> NonEmpty(GuillotineSplit(r, w, d))
  {
    var fp := FreeRect(r.minX, r.minZ, Qt(w), Qt(d));
    var bottom := FreeRect(r.minX, r.minZ + Qt(d), r.w, r.d - Qt(d));
    var right := FreeRect(r.minX + Qt(w), r.minZ, r.w - Qt(w), Qt(d));
    var bs := if r.d - Qt(d) > 0 then [bottom] else [];
    var rs := if r.w - Qt(w) > 0 then [right] else [];
    var split := GuillotineSplit(r, w, d);
    assert split == bs + rs;
    assert OverlapD(bottom, fp) == 0 && OverlapW(right, fp) == 0;
    assert OverlapD(bottom, right) == 0;
    forall i | 0 <= i < |split|
      ensures !Overlap(split[i], fp) && Within(split[i], r)
      ensures 0 < Qt(d) && 0 < r.w ==> split[i].w > 0 && split[i].d > 0
    {
      if i < |bs| {
        assert split[i] == bottom;
      } else {
        assert split[i] == right;
      }
    }
    forall x, z
      ensures Cell(r, x, z) <==> Cell(fp, x, z) || Covered(split, x, z)
    {
      GuillotineSplitCovers(r, w, d, x, z);
    }
  }

  /** A cell of r lies in the corner footprint or in one of the two residuals, and only then. */
  lemma GuillotineSplitCovers(r: FreeRect, w: int, d: int, x: int, z: int)
    requires 0 <= Qt(w) <= r.w && 0 <= Qt(d) <= r.d
    ensures Cell(r, x, z) <==> Cell(FreeRect(r.minX, r.minZ, Qt(w), Qt(d)), x, z) || Covered(GuillotineSplit(r, w, d), x, z)
  {
    var fp := FreeRect(r.minX, r.minZ, Qt(w), Qt(d));
    var bottom := FreeRect(r.minX, r.minZ + Qt(d), r.w, r.d - Qt(d));
    var right := FreeRect(r.minX + Qt(w), r.minZ, r.w - Qt(w), Qt(d));
    var bs := if r.d - Qt(d) > 0 then [bottom] else [];
    var rs := if r.w - Qt(w) > 0 then [right] else [];
    assert GuillotineSplit(r, w, d) == bs + rs;
    CoveredConcat(bs, rs, x, z);
    if Cell(r, x, z) && !Cell(fp, x, z) {
      if z >= r.minZ + Qt(d) {
        assert Cell(bs[0], x, z);
      } else {
        assert Cell(rs[0], x, z);
      }
    }
    if Covered(bs, x, z) {
      assert Cell(bottom, x, z);
    }
    if Covered(rs, x, z) {
      assert Cell(right, x, z);
    }
  }

  /** The new-layer fallback: open a layer at the current stack top if the item's height fits
      under the absolute top, and put the item at the pallet's min corner in it. */
  function OpenLayer(ls: seq<Layer>, w: int, d: int, h: int): Outcome
  {
    var top := CurrentTop(ls);
    if top + Qt(h) > PaletteMaxTop then Outcome(None, ls)
    else
      var r := PalletRect;
      Outcome(Some(Placement(r.minX + Qt(w) / 2, top, r.minZ + Qt(d) / 2, |ls|)),
              ls + [Layer(top, Qt(h), GuillotineSplit(r, w, d))])
  }

  /** What the fallback does, stated against the stack top: it fails exactly when the item's
      height does not fit above the highest layer top, and then changes nothing; otherwise it
      appends exactly one layer, based at that top, of the item's height, whose free space is
      the pallet minus the corner footprint, and reports the new layer's index. */
  lemma OpenLayerSpec(ls: seq<Layer>, w: int, d: int, h: int, top: int)
    requires top >= PaletteTop
    requires forall i :: 0 <= i < |ls| ==> LayerTop(ls[i]) <= top
    requires top == PaletteTop || exists i :: 0 <= i < |ls| && top == LayerTop(ls[i])
    ensures OpenLayer(ls, w, d, h).pos.None? <==> top + Qt(h) > PaletteMaxTop
    ensures OpenLayer(ls, w, d, h).pos.None? ==> OpenLayer(ls, w, d, h).layers == ls
    ensures OpenLayer(ls, w, d, h).pos.Some? ==>
      var o := OpenLayer(ls, w, d, h);
      && o.layers[..|ls|] == ls
      && |o.layers| == |ls| + 1
      && o.layers[|ls|].baseY == top && o.layers[|ls|].height == Qt(h)
      && o.layers[|ls|].freeRects == GuillotineSplit(PalletRect, w, d)
      && o.pos.value == Placement(2 * w - HalfW, top, 2 * d - HalfD, |ls|)
  {
    assert CurrentTop(ls) == top;
    var o := OpenLayer(ls, w, d, h);
    if o.pos.Some? {
      assert o.layers == ls + [Layer(top, Qt(h), GuillotineSplit(PalletRect, w, d))];
      assert o.layers[..|ls|] == ls;
    }
  }

  /** The free rectangles of a layer all lie on the pallet and no two of them overlap. */
  ghost predicate FreeOnPallet(l: Layer)
  {
    (forall k :: 0 <= k < |l.freeRects| ==> Within(l.freeRects[k], PalletRect)) && PairwiseDisjoint(l.freeRects)
  }

  /** Every layer's free space is sound. */
  ghost predicate LedgerSound(ls: seq<Layer>)
  {
    forall i :: 0 <= i < |ls| ==> FreeOnPallet(ls[i])
  }

  lemma OverlapSymmetric(a: FreeRect, b: FreeRect)
    ensures Overlap(a, b) <==> Overlap(b, a)
  {
    assert OverlapW(a, b) == OverlapW(b, a) && OverlapD(a, b) == OverlapD(b, a);
  }

  /** A rectangle inside r overlaps nothing that r does not overlap. */
  lemma WithinOverlap(a: FreeRect, r: FreeRect, b: FreeRect)
    requires Within(a, r) && !Overlap(r, b)
    ensures !Overlap(a, b) && !Overlap(b, a)
  {
    OverlapSymmetric(a, b);
    assert OverlapW(a, b) <= OverlapW(r, b) && OverlapD(a, b) <= OverlapD(r, b);
  }

  /** Replacing rectangle ri of a sound free list, in place, by pieces that lie inside it and
      do not overlap one another keeps the list sound. */
  lemma ReplaceSound(rects: seq<FreeRect>, ri: nat, pieces: seq<FreeRect>)
    requires ri < |rects|
    requires FreeOnPallet(Layer(0, 0, rects))
    requires forall k :: 0 <= k < |pieces| ==> Within(pieces[k], rects[ri])
    requires PairwiseDisjoint(pieces)
    ensures FreeOnPallet(Layer(0, 0, rects[..ri] + pieces + rects[ri + 1..]))
  {
    var r := rects[ri];
    var res := rects[..ri] + pieces + rects[ri + 1..];
    var n := |pieces|;
    assert forall k :: 0 <= k < |res| ==> res[k] == if k < ri then rects[k] else if k < ri + n then pieces[k - ri] else rects[k - n + 1];
    forall i, j | 0 <= i < j < |res|
      ensures !Overlap(res[i], res[j])
    {
      if i < ri && j < ri + n {
        if j >= ri {
          WithinOverlap(pieces[j - ri], r, rects[i]) by { OverlapSymmetric(rects[i], r); }
        }
      } else if ri <= i < ri + n && j >= ri + n {
        WithinOverlap(pieces[i - ri], r, rects[j - n + 1]);
      }
    }
  }

  /** The start-up ledger, one empty layer on the pallet top, is sound: its one free
      rectangle is the whole pallet. */
  lemma StartSound()
    ensures LedgerSound([CreateNewLayer(PaletteTop, 0)])
  {
  }

  /** The free rectangles of a split pallet are sound. */
  lemma SplitPalletSound(top: int, w: int, d: int, h: int)
    requires 0 <= w <= PALETTE_WIDTH && 0 <= d <= PALETTE_DEPTH
    ensures FreeOnPallet(Layer(top, Qt(h), GuillotineSplit(PalletRect, w, d)))
  {
    GuillotineSplitTiles(PalletRect, w, d);
  }

  /** The new-layer fallback keeps the free space sound, for an item that lies within the
      pallet's extents or that is too tall to open a layer at all. */
  lemma OpenLayerSound(ls: seq<Layer>, w: int, d: int, h: int)
    requires LedgerSound(ls)
    requires (0 <= w <= PALETTE_WIDTH && 0 <= d <= PALETTE_DEPTH) || CurrentTop(ls) + Qt(h) > PaletteMaxTop
    ensures LedgerSound(OpenLayer(ls, w, d, h).layers)
  {
    var top := CurrentTop(ls);
    if top + Qt(h) <= PaletteMaxTop {
      SplitPalletSound(top, w, d, h);
      var o := OpenLayer(ls, w, d, h);
      assert forall i :: 0 <= i < |ls| ==> o.layers[i] == ls[i];
    }
  }

  /** The mutable layer list of an engine, or a disposable copy of it. */
  class LayerStack {
    var layers: seq<Layer>

    constructor (ls: seq<Layer>)
      ensures layers == ls
    {
      layers := ls;
    }
  }

  /** The new-layer fallback, in place on stack. */
  method OpenNewLayer(stack: LayerStack, w: int, d: int, h: int) returns (pos: Option<Placement>)
    modifies stack
    ensures pos == OpenLayer(old(stack.layers), w, d, h).pos
    ensures stack.layers == OpenLayer(old(stack.layers), w, d, h).layers
  {
    var currentTop := CurrentTop(stack.layers);
    if currentTop + Qt(h) > PaletteMaxTop {
      return None;
    }
    var newLayer := CreateNewLayer(currentTop, Qt(h));
    var r := newLayer.freeRects[0];
    var x := r.minX + Qt(w) / 2;
    var z := r.minZ + Qt(d) / 2;
    var y := newLayer.baseY;
    var rightW := r.w - Qt(w);
    var bottomD := r.d - Qt(d);
    var rects: seq<FreeRect> := [];
    if bottomD > 0 {
      rects := rects + [FreeRect(r.minX, r.minZ + Qt(d), r.w, bottomD)];
    }
    if rightW > 0 {
      rects := rects + [FreeRect(r.minX + Qt(w), r.minZ, rightW, Qt(d))];
    }
    assert r == PalletRect && rects == GuillotineSplit(r, w, d);
    newLayer := newLayer.(freeRects := rects);
    stack.layers := stack.layers + [newLayer];
    pos := Some(Placement(x, y, z, |stack.layers| - 1));
  }
}
