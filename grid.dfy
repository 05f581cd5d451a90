/** Support-aware placement (the main engine): inside every free rectangle big enough for the
    item, candidate min corners are scanned on a grid, x-major, and the first one whose support
    sits exactly at the layer base, covers at least the threshold fraction of the footprint and
    holds the footprint's centre is taken. The rectangle is replaced in place by up to four
    strips around the footprint. With no accepted anchor anywhere, a new layer opens at the
    stack top exactly as in the minimal engine. */
module Grid {
  import opened Pallet
  import opened Ledger
  import opened Support

  /** Grid step for an item extent of e centimetres: the larger of e/4 and 2 cm, in
      quarter-centimetres. */
  function StepFor(e: int): (s: int)
    ensures s >= 8 && s >= e
  {
    Max(e, 8)
  }

  /** The i-th anchor along x and the j-th along z of rectangle r: the min corner advanced by
      i (resp. j) grid steps. */
  function AnchorX(r: FreeRect, w: int, i: nat): (a: int)
    ensures a >= r.minX
  {
    if i == 0 then r.minX else AnchorX(r, w, i - 1) + StepFor(w)
  }

  function AnchorZ(r: FreeRect, d: int, j: nat): (a: int)
    ensures a >= r.minZ
  {
    if j == 0 then r.minZ else AnchorZ(r, d, j - 1) + StepFor(d)
  }

  /** The anchor still leaves room for the footprint before the rectangle's far edge. */
  predicate InRangeX(r: FreeRect, w: int, i: nat) { AnchorX(r, w, i) <= r.minX + r.w - Qt(w) }
  predicate InRangeZ(r: FreeRect, d: int, j: nat) { AnchorZ(r, d, j) <= r.minZ + r.d - Qt(d) }

  /** Anchors advance strictly, by at least 2 cm a step. */
  lemma {:induction false} AnchorXMono(r: FreeRect, w: int, i0: nat, i: nat)
    requires i0 <= i
    ensures AnchorX(r, w, i0) + 8 * (i - i0) <= AnchorX(r, w, i)
    decreases i - i0
  {
    if i0 < i {
      AnchorXMono(r, w, i0, i - 1);
    }
  }

  lemma {:induction false} AnchorZMono(r: FreeRect, d: int, j0: nat, j: nat)
    requires j0 <= j
    ensures AnchorZ(r, d, j0) + 8 * (j - j0) <= AnchorZ(r, d, j)
    decreases j - j0
  {
    if j0 < j {
      AnchorZMono(r, d, j0, j - 1);
    }
  }

  /** The anchor (px, pz), as min corner of a w×d footprint on a layer based at baseY, is
      accepted: support exactly at the base, fraction at least the threshold, and the centre
      inside a support rectangle. */
  predicate Accepts(objs: seq<Box>, threshold: real, baseY: int, px: int, pz: int, w: int, d: int)
  {
    var cx := px + Qt(w) / 2;
    var cz := pz + Qt(d) / 2;
    var s := SupportUnder(objs, cx, cz, w, d);
    s.supportY == baseY && s.supportFraction >= threshold && CenterInsideSupport(s.supportRects, cx, cz)
  }

  /** The acceptance test as a value: layer base, then anchor. The scans below take it as a
      parameter, which keeps their proofs apart from the support geometry. */
  function Acceptor(objs: seq<Box>, threshold: real, w: int, d: int): (int, int, int) -> bool
  {
    (baseY: int, px: int, pz: int) => Accepts(objs, threshold, baseY, px, pz, w, d)
  }

  predicate AcceptsAt(acc: (int, int, int) -> bool, baseY: int, r: FreeRect, w: int, d: int, i: nat, j: nat)
  {
    acc(baseY, AnchorX(r, w, i), AnchorZ(r, d, j))
  }

  /** First accepted z-index from j on, along the column of x-index i. */
  function ScanZ(acc: (int, int, int) -> bool, baseY: int, r: FreeRect, w: int, d: int, i: nat, j: nat): (k: Option<nat>)
    ensures k.Some? ==> j <= k.value && InRangeZ(r, d, k.value) && AcceptsAt(acc, baseY, r, w, d, i, k.value)
    decreases r.minZ + r.d - Qt(d) - AnchorZ(r, d, j)
  {
    if !InRangeZ(r, d, j) then None
    else if AcceptsAt(acc, baseY, r, w, d, i, j) then Some(j)
    else ScanZ(acc, baseY, r, w, d, i, j + 1)
  }

  /** First accepted anchor (x-index, z-index) from x-index i on, x-major. */
  function ScanX(acc: (int, int, int) -> bool, baseY: int, r: FreeRect, w: int, d: int, i: nat): (a: Option<(nat, nat)>)
    ensures a.Some? ==> i <= a.value.0 && InRangeX(r, w, a.value.0) && InRangeZ(r, d, a.value.1)
    ensures a.Some? ==> AcceptsAt(acc, baseY, r, w, d, a.value.0, a.value.1)
    decreases r.minX + r.w - Qt(w) - AnchorX(r, w, i)
  {
    if !InRangeX(r, w, i) then None
    else match ScanZ(acc, baseY, r, w, d, i, 0)
      case Some(j) => Some((i, j))
      case None => ScanX(acc, baseY, r, w, d, i + 1)
  }

  /** Rectangle ri of rects holds the footprint and (i, j) is an accepted in-range anchor in it. */
  predicate RectCandidate(acc: (int, int, int) -> bool, baseY: int, rects: seq<FreeRect>, w: int, d: int,
                          ri: nat, i: nat, j: nat)
  {
    && ri < |rects| && Fits(rects[ri], w, d) && InRangeX(rects[ri], w, i) && InRangeZ(rects[ri], d, j)
    && AcceptsAt(acc, baseY, rects[ri], w, d, i, j)
  }

  /** First candidate (rectangle, x-index, z-index) of one layer from rectangle ri on. */
  function ScanRects(acc: (int, int, int) -> bool, baseY: int, rects: seq<FreeRect>, w: int, d: int, ri: nat)
    : (c: Option<(nat, nat, nat)>)
    ensures c.Some? ==> ri <= c.value.0 && RectCandidate(acc, baseY, rects, w, d, c.value.0, c.value.1, c.value.2)
    decreases |rects| - ri
  {
    if ri >= |rects| then None
    else if Fits(rects[ri], w, d) then
      match ScanX(acc, baseY, rects[ri], w, d, 0)
      case Some((i, j)) => Some((ri, i, j))
      case None => ScanRects(acc, baseY, rects, w, d, ri + 1)
    else ScanRects(acc, baseY, rects, w, d, ri + 1)
  }

  /** (i, j) is an accepted anchor of rectangle ri of layer li. */
  predicate Candidate(acc: (int, int, int) -> bool, ls: seq<Layer>, w: int, d: int, li: nat, ri: nat, i: nat, j: nat)
  {
    li < |ls| && RectCandidate(acc, ls[li].baseY, ls[li].freeRects, w, d, ri, i, j)
  }

  /** First candidate (layer, rectangle, x-index, z-index) from layer li on. */
  function ScanLayers(acc: (int, int, int) -> bool, ls: seq<Layer>, w: int, d: int, li: nat)
    : (c: Option<(nat, nat, nat, nat)>)
    ensures c.Some? ==> li <= c.value.0 && Candidate(acc, ls, w, d, c.value.0, c.value.1, c.value.2, c.value.3)
    decreases |ls| - li
  {
    if li >= |ls| then None
    else match ScanRects(acc, ls[li].baseY, ls[li].freeRects, w, d, 0)
      case Some((ri, i, j)) => Some((li, ri, i, j))
      case None => ScanLayers(acc, ls, w, d, li + 1)
  }

  /** Lexicographic scan order: layer, then rectangle, then x-index, then z-index. */
  predicate Before(li': nat, ri': nat, i': nat, j': nat, li: nat, ri: nat, i: nat, j: nat)
  {
    li' < li || (li' == li && (ri' < ri || (ri' == ri && (i' < i || (i' == i && j' < j)))))
  }

  /** No anchor of any rectangle of any layer is accepted. */
  ghost predicate NoCandidate(acc: (int, int, int) -> bool, ls: seq<Layer>, w: int, d: int)
  {
    forall li: nat, ri: nat, i: nat, j: nat :: !Candidate(acc, ls, w, d, li, ri, i, j)
  }

  /** (li, ri, i, j) is accepted and no accepted anchor precedes it in scan order. */
  ghost predicate IsFirstCandidate(acc: (int, int, int) -> bool, ls: seq<Layer>, w: int, d: int,
                                   li: nat, ri: nat, i: nat, j: nat)
  {
    && Candidate(acc, ls, w, d, li, ri, i, j)
    && forall li': nat, ri': nat, i': nat, j': nat ::
         Candidate(acc, ls, w, d, li', ri', i', j') ==> !Before(li', ri', i', j', li, ri, i, j)
  }

  lemma {:induction false} ScanZSpec(acc: (int, int, int) -> bool, baseY: int, r: FreeRect, w: int, d: int, i: nat, j0: nat)
    ensures ScanZ(acc, baseY, r, w, d, i, j0).None? ==>
      forall j: nat :: j0 <= j && InRangeZ(r, d, j) ==> !AcceptsAt(acc, baseY, r, w, d, i, j)
    ensures ScanZ(acc, baseY, r, w, d, i, j0).Some? ==>
      forall j: nat :: j0 <= j < ScanZ(acc, baseY, r, w, d, i, j0).value ==> !AcceptsAt(acc, baseY, r, w, d, i, j)
    decreases r.minZ + r.d - Qt(d) - AnchorZ(r, d, j0)
  {
    if !InRangeZ(r, d, j0) {
      forall j: nat | j0 <= j
        ensures !InRangeZ(r, d, j)
      {
        AnchorZMono(r, d, j0, j);
      }
    } else if !AcceptsAt(acc, baseY, r, w, d, i, j0) {
      ScanZSpec(acc, baseY, r, w, d, i, j0 + 1);
    }
  }

  lemma {:induction false} ScanXSpec(acc: (int, int, int) -> bool, baseY: int, r: FreeRect, w: int, d: int, i0: nat)
    ensures ScanX(acc, baseY, r, w, d, i0).None? ==>
      forall i: nat, j: nat :: i0 <= i && InRangeX(r, w, i) && InRangeZ(r, d, j) ==> !AcceptsAt(acc, baseY, r, w, d, i, j)
    ensures ScanX(acc, baseY, r, w, d, i0).Some? ==>
      var a := ScanX(acc, baseY, r, w, d, i0).value;
      && (forall i: nat, j: nat :: i0 <= i < a.0 && InRangeZ(r, d, j) ==> !AcceptsAt(acc, baseY, r, w, d, i, j))
      && (forall j: nat :: j < a.1 ==> !AcceptsAt(acc, baseY, r, w, d, a.0, j))
    decreases r.minX + r.w - Qt(w) - AnchorX(r, w, i0)
  {
    if !InRangeX(r, w, i0) {
      forall i: nat | i0 <= i
        ensures !InRangeX(r, w, i)
      {
        AnchorXMono(r, w, i0, i);
      }
    } else {
      ScanZSpec(acc, baseY, r, w, d, i0, 0);
      if ScanZ(acc, baseY, r, w, d, i0, 0).None? {
        ScanXSpec(acc, baseY, r, w, d, i0 + 1);
      }
    }
  }

  lemma {:induction false} ScanRectsSpec(acc: (int, int, int) -> bool, baseY: int, rects: seq<FreeRect>, w: int, d: int, ri0: nat)
    ensures ScanRects(acc, baseY, rects, w, d, ri0).None? ==>
      forall ri: nat, i: nat, j: nat :: ri0 <= ri ==> !RectCandidate(acc, baseY, rects, w, d, ri, i, j)
    ensures ScanRects(acc, baseY, rects, w, d, ri0).Some? ==>
      var c := ScanRects(acc, baseY, rects, w, d, ri0).value;
      forall ri: nat, i: nat, j: nat :: ri0 <= ri && RectCandidate(acc, baseY, rects, w, d, ri, i, j) ==>
        !Before(0, ri, i, j, 0, c.0, c.1, c.2)
    decreases |rects| - ri0
  {
    if ri0 < |rects| {
      if Fits(rects[ri0], w, d) {
        ScanXSpec(acc, baseY, rects[ri0], w, d, 0);
        if ScanX(acc, baseY, rects[ri0], w, d, 0).None? {
          ScanRectsSpec(acc, baseY, rects, w, d, ri0 + 1);
        }
      } else {
        ScanRectsSpec(acc, baseY, rects, w, d, ri0 + 1);
      }
    }
  }

  lemma {:induction false} ScanLayersSpec(acc: (int, int, int) -> bool, ls: seq<Layer>, w: int, d: int, li0: nat)
    ensures ScanLayers(acc, ls, w, d, li0).None? ==>
      forall li: nat, ri: nat, i: nat, j: nat :: li0 <= li ==> !Candidate(acc, ls, w, d, li, ri, i, j)
    ensures ScanLayers(acc, ls, w, d, li0).Some? ==>
      var c := ScanLayers(acc, ls, w, d, li0).value;
      forall li: nat, ri: nat, i: nat, j: nat :: li0 <= li && Candidate(acc, ls, w, d, li, ri, i, j) ==>
        !Before(li, ri, i, j, c.0, c.1, c.2, c.3)
    decreases |ls| - li0
  {
    if li0 < |ls| {
      ScanRectsSpec(acc, ls[li0].baseY, ls[li0].freeRects, w, d, 0);
      if ScanRects(acc, ls[li0].baseY, ls[li0].freeRects, w, d, 0).None? {
        ScanLayersSpec(acc, ls, w, d, li0 + 1);
      }
    }
  }

  /** The scan finds nothing exactly when no anchor is accepted anywhere, and otherwise finds
      exactly the first accepted anchor in scan order. */
  lemma ScanSpec(acc: (int, int, int) -> bool, ls: seq<Layer>, w: int, d: int)
    ensures ScanLayers(acc, ls, w, d, 0).None? <==> NoCandidate(acc, ls, w, d)
    ensures forall li: nat, ri: nat, i: nat, j: nat ::
      ScanLayers(acc, ls, w, d, 0) == Some((li, ri, i, j)) <==> IsFirstCandidate(acc, ls, w, d, li, ri, i, j)
  {
    ScanLayersSpec(acc, ls, w, d, 0);
    forall li: nat, ri: nat, i: nat, j: nat | IsFirstCandidate(acc, ls, w, d, li, ri, i, j)
      ensures ScanLayers(acc, ls, w, d, 0) == Some((li, ri, i, j))
    {
      assert !NoCandidate(acc, ls, w, d) by {
        assert Candidate(acc, ls, w, d, li, ri, i, j);
      }
    }
  }

  lemma FirstCandidateFound(acc: (int, int, int) -> bool, ls: seq<Layer>, w: int, d: int, li: nat, ri: nat, i: nat, j: nat)
    requires IsFirstCandidate(acc, ls, w, d, li, ri, i, j)
    ensures ScanLayers(acc, ls, w, d, 0) == Some((li, ri, i, j))
  {
    ScanSpec(acc, ls, w, d);
  }

  /** An in-range anchor keeps the footprint inside the rectangle. */
  lemma AnchorInside(r: FreeRect, w: int, d: int, i: nat, j: nat)
    requires InRangeX(r, w, i) && InRangeZ(r, d, j)
    ensures Within(FreeRect(AnchorX(r, w, i), AnchorZ(r, d, j), Qt(w), Qt(d)), r)
  {
  }

  /** Four-way residuals of placing a w×d footprint with min corner (px, pz) in r: the left and
      right strips over the whole depth of r, then the top and bottom strips over the
      footprint's x-range; a strip of zero extent is dropped. */
  function FourWaySplit(r: FreeRect, px: int, pz: int, w: int, d: int): seq<FreeRect>
  {
    var pMaxX := px + Qt(w);
    var pMaxZ := pz + Qt(d);
    var rXmax := r.minX + r.w;
    var rZmax := r.minZ + r.d;
    var spanMinX := Max(r.minX, px);
    var spanMaxX := Min(rXmax, pMaxX);
    var span := spanMaxX - spanMinX;
    (if px - r.minX > 0 then [FreeRect(r.minX, r.minZ, px - r.minX, r.d)] else [])
    + (if rXmax - pMaxX > 0 then [FreeRect(pMaxX, r.minZ, rXmax - pMaxX, r.d)] else [])
    + (if pz - r.minZ > 0 && span > 0 then [FreeRect(spanMinX, r.minZ, span, pz - r.minZ)] else [])
    + (if rZmax - pMaxZ > 0 && span > 0 then [FreeRect(spanMinX, pMaxZ, span, rZmax - pMaxZ)] else [])
  }

  /** The four strips, each with its presence test. */
  function LeftStrips(r: FreeRect, px: int): seq<FreeRect>
  {
    if px - r.minX > 0 then [FreeRect(r.minX, r.minZ, px - r.minX, r.d)] else []
  }

  function RightStrips(r: FreeRect, px: int, w: int): seq<FreeRect>
  {
    var pMaxX := px + Qt(w);
    if r.minX + r.w - pMaxX > 0 then [FreeRect(pMaxX, r.minZ, r.minX + r.w - pMaxX, r.d)] else []
  }

  function TopStrips(r: FreeRect, px: int, pz: int, w: int): seq<FreeRect>
  {
    if pz - r.minZ > 0 && Qt(w) > 0 then [FreeRect(px, r.minZ, Qt(w), pz - r.minZ)] else []
  }

  function BottomStrips(r: FreeRect, px: int, pz: int, w: int, d: int): seq<FreeRect>
  {
    var pMaxZ := pz + Qt(d);
    if r.minZ + r.d - pMaxZ > 0 && Qt(w) > 0 then [FreeRect(px, pMaxZ, Qt(w), r.minZ + r.d - pMaxZ)] else []
  }

  lemma FourWaySplitParts(r: FreeRect, px: int, pz: int, w: int, d: int)
    requires 0 <= w && Within(FreeRect(px, pz, Qt(w), Qt(d)), r)
    ensures FourWaySplit(r, px, pz, w, d) ==
      LeftStrips(r, px) + RightStrips(r, px, w) + TopStrips(r, px, pz, w) + BottomStrips(r, px, pz, w, d)
  {
  }

  /** No two strips overlap, none overlaps the footprint, all lie in r, and all have positive
      extent when r has positive depth. */
  lemma FourWaySplitDisjoint(r: FreeRect, px: int, pz: int, w: int, d: int)
    requires 0 <= w && 0 <= d
    requires Within(FreeRect(px, pz, Qt(w), Qt(d)), r)
    ensures var split := FourWaySplit(r, px, pz, w, d);
      && PairwiseDisjoint(split)
      && (forall k :: 0 <= k < |split| ==> !Overlap(split[k], FreeRect(px, pz, Qt(w), Qt(d))) && Within(split[k], r))
      && (r.d > 0 ==> NonEmpty(split))
  {
    FourWaySplitPairwise(r, px, pz, w, d);
    FourWaySplitPieces(r, px, pz, w, d);
  }

  /** No two strips overlap. */
  lemma FourWaySplitPairwise(r: FreeRect, px: int, pz: int, w: int, d: int)
    requires 0 <= w && 0 <= d
    requires Within(FreeRect(px, pz, Qt(w), Qt(d)), r)
    ensures PairwiseDisjoint(FourWaySplit(r, px, pz, w, d))
  {
    var pMaxX := px + Qt(w);
    var pMaxZ := pz + Qt(d);
    var left := FreeRect(r.minX, r.minZ, px - r.minX, r.d);
    var right := FreeRect(pMaxX, r.minZ, r.minX + r.w - pMaxX, r.d);
    var top := FreeRect(px, r.minZ, Qt(w), pz - r.minZ);
    var bottom := FreeRect(px, pMaxZ, Qt(w), r.minZ + r.d - pMaxZ);
    var ls, rs, ts, bs := LeftStrips(r, px), RightStrips(r, px, w), TopStrips(r, px, pz, w), BottomStrips(r, px, pz, w, d);
    FourWaySplitParts(r, px, pz, w, d);
    assert OverlapW(left, right) == 0 && OverlapW(left, top) == 0 && OverlapW(left, bottom) == 0;
    assert OverlapW(right, top) == 0 && OverlapW(right, bottom) == 0 && OverlapD(top, bottom) == 0;
    DisjointConcat(ls, rs);
    DisjointConcat(ls + rs, ts);
    DisjointConcat(ls + rs + ts, bs);
  }

  /** No strip overlaps the footprint, every strip lies in r, and every strip has positive
      extent when r has positive depth. */
  lemma FourWaySplitPieces(r: FreeRect, px: int, pz: int, w: int, d: int)
    requires 0 <= w && 0 <= d
    requires Within(FreeRect(px, pz, Qt(w), Qt(d)), r)
    ensures var split := FourWaySplit(r, px, pz, w, d);
      && (forall k :: 0 <= k < |split| ==> !Overlap(split[k], FreeRect(px, pz, Qt(w), Qt(d))) && Within(split[k], r))
      && (r.d > 0 ==> NonEmpty(split))
  {
    var fp := FreeRect(px, pz, Qt(w), Qt(d));
    var pMaxX := px + Qt(w);
    var pMaxZ := pz + Qt(d);
    var left := FreeRect(r.minX, r.minZ, px - r.minX, r.d);
    var right := FreeRect(pMaxX, r.minZ, r.minX + r.w - pMaxX, r.d);
    var top := FreeRect(px, r.minZ, Qt(w), pz - r.minZ);
    var bottom := FreeRect(px, pMaxZ, Qt(w), r.minZ + r.d - pMaxZ);
    var ls, rs, ts, bs := LeftStrips(r, px), RightStrips(r, px, w), TopStrips(r, px, pz, w), BottomStrips(r, px, pz, w, d);
    FourWaySplitParts(r, px, pz, w, d);
    var split := ls + rs + ts + bs;
    assert OverlapW(left, fp) == 0 && OverlapW(right, fp) == 0 && OverlapD(top, fp) == 0 && OverlapD(bottom, fp) == 0;
    forall k | 0 <= k < |split|
      ensures !Overlap(split[k], fp) && Within(split[k], r)
      ensures r.d > 0 ==> split[k].w > 0 && split[k].d > 0
    {
      if k < |ls| {
        assert split[k] == left;
      } else if k < |ls| + |rs| {
        assert split[k] == right;
      } else if k < |ls| + |rs| + |ts| {
        assert split[k] == top;
      } else {
        assert split[k] == bottom;
      }
    }
  }

  /** The footprint and the strips together cover exactly the cells of r. */
  lemma FourWaySplitCovers(r: FreeRect, px: int, pz: int, w: int, d: int)
    requires 0 <= w && 0 <= d
    requires Within(FreeRect(px, pz, Qt(w), Qt(d)), r)
    ensures forall x, z :: Cell(r, x, z) <==> Cell(FreeRect(px, pz, Qt(w), Qt(d)), x, z) || Covered(FourWaySplit(r, px, pz, w, d), x, z)
  {
    var fp := FreeRect(px, pz, Qt(w), Qt(d));
    var ls, rs, ts, bs := LeftStrips(r, px), RightStrips(r, px, w), TopStrips(r, px, pz, w), BottomStrips(r, px, pz, w, d);
    FourWaySplitParts(r, px, pz, w, d);
    forall x, z
      ensures Cell(r, x, z) <==> Cell(fp, x, z) || Covered(ls + rs + ts + bs, x, z)
    {
      CoveredConcat(ls, rs, x, z);
      CoveredConcat(ls + rs, ts, x, z);
      CoveredConcat(ls + rs + ts, bs, x, z);
      if Cell(r, x, z) && !Cell(fp, x, z) {
        if x < px {
          assert Cell(ls[0], x, z);
        } else if x >= px + Qt(w) {
          assert Cell(rs[0], x, z);
        } else if z < pz {
          assert Cell(ts[0], x, z);
        } else {
          assert Cell(bs[0], x, z);
        }
      }
      if Covered(ls, x, z) { assert Cell(ls[0], x, z); }
      if Covered(rs, x, z) { assert Cell(rs[0], x, z); }
      if Covered(ts, x, z) { assert Cell(ts[0], x, z); }
      if Covered(bs, x, z) { assert Cell(bs[0], x, z); }
    }
  }

  /** With the footprint inside r, the footprint and the strips tile r, every strip lies in r,
      there are at most four, and each has positive extent when r has positive depth. */
  lemma FourWaySplitTiles(r: FreeRect, px: int, pz: int, w: int, d: int)
    requires 0 <= w && 0 <= d
    requires Within(FreeRect(px, pz, Qt(w), Qt(d)), r)
    ensures Tiles(r, FreeRect(px, pz, Qt(w), Qt(d)), FourWaySplit(r, px, pz, w, d))
    ensures forall k :: 0 <= k < |FourWaySplit(r, px, pz, w, d)| ==> Within(FourWaySplit(r, px, pz, w, d)[k], r)
    ensures |FourWaySplit(r, px, pz, w, d)| <= 4
    ensures r.d > 0 ==> NonEmpty(FourWaySplit(r, px, pz, w, d))
  {
    FourWaySplitDisjoint(r, px, pz, w, d);
    FourWaySplitCovers(r, px, pz, w, d);
  }

  /** The item at anchor (i, j) of rectangle ri of layer li: centred over the anchor's footprint
      on the layer base, the rectangle replaced in place by the four-way strips, the layer
      height raised to the item's. */
  function PlaceAt(ls: seq<Layer>, w: int, d: int, h: int, li: nat, ri: nat, i: nat, j: nat): Outcome
    requires li < |ls| && ri < |ls[li].freeRects|
  {
    var r := ls[li].freeRects[ri];
    var px := AnchorX(r, w, i);
    var pz := AnchorZ(r, d, j);
    Outcome(Some(Placement(px + Qt(w) / 2, ls[li].baseY, pz + Qt(d) / 2, li)),
            ls[li := Layer(ls[li].baseY, Max(ls[li].height, Qt(h)),
                           ls[li].freeRects[..ri] + FourWaySplit(r, px, pz, w, d) + ls[li].freeRects[ri + 1..])])
  }

  /** One placement attempt of a w×d×h item on the layer list ls with the acceptance test acc:
      the first accepted anchor, else a new layer. */
  function PlaceBy(acc: (int, int, int) -> bool, ls: seq<Layer>, w: int, d: int, h: int): Outcome
  {
    var c := ScanLayers(acc, ls, w, d, 0);
    if c.None? then OpenLayer(ls, w, d, h)
    else PlaceAt(ls, w, d, h, c.value.0, c.value.1, c.value.2, c.value.3)
  }

  /** One placement attempt of a w×d×h item on the layer list ls, with objs the boxes already
      placed and threshold the required supported fraction. */
  function Place(objs: seq<Box>, threshold: real, ls: seq<Layer>, w: int, d: int, h: int): Outcome
  {
    PlaceBy(Acceptor(objs, threshold, w, d), ls, w, d, h)
  }

  /** Whatever the acceptance test acc (the engine's is Acceptor, see Place): when anchor
      (i, j) of rectangle ri of layer li is the first accepted one, the item is centred over
      that anchor's footprint on the layer base; only that layer changes: the rectangle is
      replaced in place by the four-way strips and the layer height becomes max(height, h). */
  lemma PlaceAccepted(acc: (int, int, int) -> bool, ls: seq<Layer>, w: int, d: int, h: int,
                      li: nat, ri: nat, i: nat, j: nat)
    requires IsFirstCandidate(acc, ls, w, d, li, ri, i, j)
    ensures li < |ls| && ri < |ls[li].freeRects|
    ensures var r := ls[li].freeRects[ri];
      var px := AnchorX(r, w, i);
      var pz := AnchorZ(r, d, j);
      var o := PlaceBy(acc, ls, w, d, h);
      && o.pos == Some(Placement(px + Qt(w) / 2, ls[li].baseY, pz + Qt(d) / 2, li))
      && |o.layers| == |ls|
      && (forall l :: 0 <= l < |ls| && l != li ==> o.layers[l] == ls[l])
      && o.layers[li] == Layer(ls[li].baseY, Max(ls[li].height, Qt(h)),
                               ls[li].freeRects[..ri] + FourWaySplit(r, px, pz, w, d) + ls[li].freeRects[ri + 1..])
  {
    FirstCandidateFound(acc, ls, w, d, li, ri, i, j);
    PlaceByFound(acc, ls, w, d, h, li, ri, i, j);
    PlaceAtLayers(ls, w, d, h, li, ri, i, j);
  }

  /** An accepted anchor keeps the footprint inside its rectangle, with its support exactly at
      the layer base, at least the threshold fraction supported, and its centre over support. */
  lemma CandidateAccepted(objs: seq<Box>, threshold: real, ls: seq<Layer>, w: int, d: int,
                          li: nat, ri: nat, i: nat, j: nat)
    requires Candidate(Acceptor(objs, threshold, w, d), ls, w, d, li, ri, i, j)
    ensures li < |ls| && ri < |ls[li].freeRects|
    ensures var r := ls[li].freeRects[ri];
      var cx := AnchorX(r, w, i) + Qt(w) / 2;
      var cz := AnchorZ(r, d, j) + Qt(d) / 2;
      var s := SupportUnder(objs, cx, cz, w, d);
      && Within(FootprintAt(cx, cz, w, d), r)
      && s.supportY == ls[li].baseY && s.supportFraction >= threshold && CenterInsideSupport(s.supportRects, cx, cz)
  {
    var r := ls[li].freeRects[ri];
    AnchorInside(r, w, d, i, j);
    assert Acceptor(objs, threshold, w, d)(ls[li].baseY, AnchorX(r, w, i), AnchorZ(r, d, j));
  }

  /** The attempt is placement at the anchor the scan finds. */
  lemma PlaceByFound(acc: (int, int, int) -> bool, ls: seq<Layer>, w: int, d: int, h: int,
                     li: nat, ri: nat, i: nat, j: nat)
    requires ScanLayers(acc, ls, w, d, 0) == Some((li, ri, i, j))
    ensures li < |ls| && ri < |ls[li].freeRects|
    ensures PlaceBy(acc, ls, w, d, h) == PlaceAt(ls, w, d, h, li, ri, i, j)
  {
  }

  /** Placing at an anchor changes only its layer. */
  lemma PlaceAtLayers(ls: seq<Layer>, w: int, d: int, h: int, li: nat, ri: nat, i: nat, j: nat)
    requires li < |ls| && ri < |ls[li].freeRects|
    ensures var o := PlaceAt(ls, w, d, h, li, ri, i, j);
      && |o.layers| == |ls|
      && (forall l :: 0 <= l < |ls| && l != li ==> o.layers[l] == ls[l])
  {
  }

  /** With no accepted anchor anywhere, the attempt is exactly the new-layer fallback. */
  lemma PlaceNoCandidate(objs: seq<Box>, threshold: real, ls: seq<Layer>, w: int, d: int, h: int)
    requires NoCandidate(Acceptor(objs, threshold, w, d), ls, w, d)
    ensures Place(objs, threshold, ls, w, d, h) == OpenLayer(ls, w, d, h)
  {
    ScanSpec(Acceptor(objs, threshold, w, d), ls, w, d);
  }

  /** An attempt fails exactly when no anchor is accepted and the item is too tall for a new
      layer at the stack top; a failed attempt leaves the layers unchanged. */
  lemma PlaceFails(objs: seq<Box>, threshold: real, ls: seq<Layer>, w: int, d: int, h: int)
    ensures Place(objs, threshold, ls, w, d, h).pos.None? <==>
      NoCandidate(Acceptor(objs, threshold, w, d), ls, w, d) && CurrentTop(ls) + Qt(h) > PaletteMaxTop
    ensures Place(objs, threshold, ls, w, d, h).pos.None? ==> Place(objs, threshold, ls, w, d, h).layers == ls
  {
    ScanSpec(Acceptor(objs, threshold, w, d), ls, w, d);
  }

  /** A placement keeps every layer's free space on the pallet and free of overlaps, for an
      item of non-negative extents that lies within the pallet or is too tall to open a
      layer. */
  lemma PlaceSound(objs: seq<Box>, threshold: real, ls: seq<Layer>, w: int, d: int, h: int)
    requires LedgerSound(ls)
    requires 0 <= w && 0 <= d
    requires (w <= PALETTE_WIDTH && d <= PALETTE_DEPTH) || CurrentTop(ls) + Qt(h) > PaletteMaxTop
    ensures LedgerSound(Place(objs, threshold, ls, w, d, h).layers)
  {
    var acc := Acceptor(objs, threshold, w, d);
    var c := ScanLayers(acc, ls, w, d, 0);
    if c.Some? {
      var (li, ri, i, j) := c.value;
      var r := ls[li].freeRects[ri];
      var px, pz := AnchorX(r, w, i), AnchorZ(r, d, j);
      AnchorInside(r, w, d, i, j);
      FourWaySplitTiles(r, px, pz, w, d);
      ReplaceSound(ls[li].freeRects, ri, FourWaySplit(r, px, pz, w, d));
    } else {
      OpenLayerSound(ls, w, d, h);
    }
  }

  /** The acceptance test of one anchor, through the support evaluator. */
  method AnchorAccepted(objects: seq<Box>, threshold: real, baseY: int, px: int, pz: int, w: int, d: int)
    returns (ok: bool)
    ensures ok == Accepts(objects, threshold, baseY, px, pz, w, d)
  {
    var cx := px + Qt(w) / 2;
    var cz := pz + Qt(d) / 2;
    var info := FindSupportYUnder(objects, cx, cz, w, d);
    ok := info.supportY == baseY && info.supportFraction >= threshold && CenterInsideSupport(info.supportRects, cx, cz);
  }

  /** The anchors of one column (x-index i, at px), in z order: the first accepted one. */
  method ScanColumn(objects: seq<Box>, threshold: real, baseY: int, r: FreeRect, w: int, d: int, px: int, ghost i: nat)
    returns (found: bool, pz: int)
    requires px == AnchorX(r, w, i)
    ensures found <==> ScanZ(Acceptor(objects, threshold, w, d), baseY, r, w, d, i, 0).Some?
    ensures found ==> pz == AnchorZ(r, d, ScanZ(Acceptor(objects, threshold, w, d), baseY, r, w, d, i, 0).value)
  {
    ghost var acc := Acceptor(objects, threshold, w, d);
    var stepZ := StepFor(d);
    ghost var j: nat := 0;
    pz := r.minZ;
    while pz <= r.minZ + r.d - Qt(d)
      invariant pz == AnchorZ(r, d, j)
      invariant ScanZ(acc, baseY, r, w, d, i, 0) == ScanZ(acc, baseY, r, w, d, i, j)
      decreases r.minZ + r.d - Qt(d) - pz
    {
      var ok := AnchorAccepted(objects, threshold, baseY, px, pz, w, d);
      assert ok == acc(baseY, px, pz);
      if ok {
        return true, pz;
      }
      pz := pz + stepZ;
      j := j + 1;
    }
    found := false;
  }

  /** The anchor grid of one free rectangle, x-major (the px loop around the pz loop): the
      first accepted anchor, if any. */
  method ScanAnchors(objects: seq<Box>, threshold: real, baseY: int, r: FreeRect, w: int, d: int)
    returns (found: bool, px: int, pz: int)
    ensures found <==> ScanX(Acceptor(objects, threshold, w, d), baseY, r, w, d, 0).Some?
    ensures found ==> var a := ScanX(Acceptor(objects, threshold, w, d), baseY, r, w, d, 0).value;
      px == AnchorX(r, w, a.0) && pz == AnchorZ(r, d, a.1)
  {
    ghost var acc := Acceptor(objects, threshold, w, d);
    var stepX := StepFor(w);
    ghost var i: nat := 0;
    px := r.minX;
    pz := r.minZ;
    while px <= r.minX + r.w - Qt(w)
      invariant px == AnchorX(r, w, i)
      invariant ScanX(acc, baseY, r, w, d, 0) == ScanX(acc, baseY, r, w, d, i)
      decreases r.minX + r.w - Qt(w) - px
    {
      var ok;
      ok, pz := ScanColumn(objects, threshold, baseY, r, w, d, px, i);
      if ok {
        return true, px, pz;
      }
      px := px + stepX;
      i := i + 1;
    }
    found := false;
  }

  /** The free rectangles of one layer in list order, each big enough one scanned for an
      accepted anchor: the first rectangle that has one, and that anchor. */
  method ScanLayerRects(objects: seq<Box>, threshold: real, layer: Layer, w: int, d: int)
    returns (found: bool, ri: nat, px: int, pz: int)
    ensures found <==> ScanRects(Acceptor(objects, threshold, w, d), layer.baseY, layer.freeRects, w, d, 0).Some?
    ensures found ==> var c := ScanRects(Acceptor(objects, threshold, w, d), layer.baseY, layer.freeRects, w, d, 0).value;
      && ri == c.0 && ri < |layer.freeRects|
      && px == AnchorX(layer.freeRects[ri], w, c.1) && pz == AnchorZ(layer.freeRects[ri], d, c.2)
  {
    ghost var acc := Acceptor(objects, threshold, w, d);
    ri := 0;
    px, pz := 0, 0;
    while ri < |layer.freeRects|
      invariant 0 <= ri <= |layer.freeRects|
      invariant ScanRects(acc, layer.baseY, layer.freeRects, w, d, 0) == ScanRects(acc, layer.baseY, layer.freeRects, w, d, ri)
    {
      var r := layer.freeRects[ri];
      if r.w >= Qt(w) && r.d >= Qt(d) {
        var ok;
        ok, px, pz := ScanAnchors(objects, threshold, layer.baseY, r, w, d);
        if ok {
          return true, ri, px, pz;
        }
      }
      ri := ri + 1;
    }
    found := false;
  }

  /** The in-place splice of the main engine: the strips around the footprint centred at
      (cx, cz) replace rectangle ri. */
  method SpliceStrips(rects: seq<FreeRect>, ri: nat, cx: int, cz: int, w: int, d: int) returns (res: seq<FreeRect>)
    requires ri < |rects|
    ensures res == rects[..ri] + FourWaySplit(rects[ri], cx - Qt(w) / 2, cz - Qt(d) / 2, w, d) + rects[ri + 1..]
  {
    var r := rects[ri];
    var rXmin := r.minX;
    var rZmin := r.minZ;
    var rXmax := r.minX + r.w;
    var rZmax := r.minZ + r.d;
    var pMinX := cx - Qt(w) / 2;
    var pMinZ := cz - Qt(d) / 2;
    var pMaxX := pMinX + Qt(w);
    var pMaxZ := pMinZ + Qt(d);
    var newRects: seq<FreeRect> := [];
    if pMinX - rXmin > 0 {
      newRects := newRects + [FreeRect(rXmin, rZmin, pMinX - rXmin, r.d)];
    }
    if rXmax - pMaxX > 0 {
      newRects := newRects + [FreeRect(pMaxX, rZmin, rXmax - pMaxX, r.d)];
    }
    var spanMinX := Max(rXmin, pMinX);
    var spanMaxX := Min(rXmax, pMaxX);
    if pMinZ - rZmin > 0 && spanMaxX - spanMinX > 0 {
      newRects := newRects + [FreeRect(spanMinX, rZmin, spanMaxX - spanMinX, pMinZ - rZmin)];
    }
    if rZmax - pMaxZ > 0 && spanMaxX - spanMinX > 0 {
      newRects := newRects + [FreeRect(spanMinX, pMaxZ, spanMaxX - spanMinX, rZmax - pMaxZ)];
    }
    assert newRects == FourWaySplit(r, pMinX, pMinZ, w, d);
    ghost var pre, post := rects[..ri], rects[ri + 1..];
    res := rects[..ri] + rects[ri + 1..];
    assert res[..ri] == pre && res[ri..] == post;
    if |newRects| > 0 {
      res := res[..ri] + newRects + res[ri..];
    }
  }

  /** findPlacementInLayers of the main engine, in place on stack; objects are the boxes
      already placed and threshold the required supported fraction. */
  method FindPlacementInLayers(stack: LayerStack, objects: seq<Box>, threshold: real, w: int, d: int, h: int)
    returns (pos: Option<Placement>)
    modifies stack
    ensures pos == Place(objects, threshold, old(stack.layers), w, d, h).pos
    ensures stack.layers == Place(objects, threshold, old(stack.layers), w, d, h).layers
  {
    ghost var ls := stack.layers;
    ghost var acc := Acceptor(objects, threshold, w, d);
    var li: nat := 0;
    while li < |stack.layers|
      invariant li <= |stack.layers|
      invariant stack.layers == ls
      invariant ScanLayers(acc, ls, w, d, 0) == ScanLayers(acc, ls, w, d, li)
    {
      var layer := stack.layers[li];
      var found, ri, px, pz := ScanLayerRects(objects, threshold, layer, w, d);
      if found {
        var cx := px + Qt(w) / 2;
        var cz := pz + Qt(d) / 2;
        var rects := SpliceStrips(layer.freeRects, ri, cx, cz, w, d);
        assert cx - Qt(w) / 2 == px && cz - Qt(d) / 2 == pz;
        ghost var c := ScanRects(acc, layer.baseY, layer.freeRects, w, d, 0).value;
        assert ScanLayers(acc, ls, w, d, li) == Some((li, c.0, c.1, c.2));
        PlaceByFound(acc, ls, w, d, h, li, c.0, c.1, c.2);
        stack.layers := stack.layers[li := Layer(layer.baseY, Max(layer.height, Qt(h)), rects)];
        return Some(Placement(cx, layer.baseY, cz, li));
      }
      li := li + 1;
    }
    pos := OpenNewLayer(stack, w, d, h);
  }
}
