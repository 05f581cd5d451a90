/** The support evaluator of the support-aware engine: how high, and how well, a candidate
    footprint is held up by the pallet and the boxes already placed. */
module Support {
  import opened Pallet

  /** Elevation of the support, supported fraction of the footprint, and the pieces of the
      footprint that rest on the supporting boxes. */
  datatype SupportInfo = SupportInfo(supportY: int, supportFraction: real, supportRects: seq<FreeRect>)

  /** Floor on the footprint area in the fraction's denominator: 1e-12 square metres,
      written in square quarter-centimetres. */
  const MinFootprintArea: real := 0.00000016

  function RMin(a: real, b: real): real { if a <= b then a else b }
  function RMax(a: real, b: real): real { if a >= b then a else b }

  /** The box's plan footprint overlaps fp with positive extent on both axes. */
  predicate Overlaps(fp: FreeRect, o: Box)
  {
    Overlap(fp, Footprint(o))
  }

  /** The part of fp that lies over the box's footprint. */
  function Intersection(fp: FreeRect, o: Box): FreeRect
  {
    var of := Footprint(o);
    FreeRect(Max(fp.minX, of.minX), Max(fp.minZ, of.minZ), OverlapW(fp, of), OverlapD(fp, of))
  }

  /** The highest of the pallet top and the tops of the boxes overlapping fp. */
  function HighestTop(objs: seq<Box>, fp: FreeRect): (t: int)
    ensures t >= PaletteTop
  {
    if objs == [] then PaletteTop
    else
      var o := objs[|objs| - 1];
      var t0 := HighestTop(objs[..|objs| - 1], fp);
      if Overlaps(fp, o) && Top(o) > t0 then Top(o) else t0
  }

  /** The highest top is the maximum: no overlapping box rises above it, and it is the pallet
      top or the top of an overlapping box. */
  lemma {:induction false} HighestTopSpec(objs: seq<Box>, fp: FreeRect)
    ensures forall i :: 0 <= i < |objs| && Overlaps(fp, objs[i]) ==> Top(objs[i]) <= HighestTop(objs, fp)
    ensures HighestTop(objs, fp) == PaletteTop ||
      exists i :: 0 <= i < |objs| && Overlaps(fp, objs[i]) && Top(objs[i]) == HighestTop(objs, fp)
  {
    if objs != [] {
      var prev := objs[..|objs| - 1];
      HighestTopSpec(prev, fp);
      assert forall i :: 0 <= i < |prev| ==> prev[i] == objs[i];
    }
  }

  /** The area of a w×d overlap of positive extents. */
  function AreaOf(w: int, d: int): (a: int)
    requires w > 0 && d > 0
    ensures a > 0
  {
    w * d
  }

  /** Summed overlap area of fp with the boxes whose top is exactly y. */
  function SupportArea(objs: seq<Box>, fp: FreeRect, y: int): (a: int)
    ensures a >= 0
  {
    if objs == [] then 0
    else
      var o := objs[|objs| - 1];
      var of := Footprint(o);
      SupportArea(objs[..|objs| - 1], fp, y)
        + if Top(o) == y && Overlaps(fp, o) then AreaOf(OverlapW(fp, of), OverlapD(fp, of)) else 0
  }

  /** The intersections of fp with the boxes whose top is exactly y, in box order. */
  function SupportRectsOf(objs: seq<Box>, fp: FreeRect, y: int): seq<FreeRect>
  {
    if objs == [] then []
    else
      var o := objs[|objs| - 1];
      SupportRectsOf(objs[..|objs| - 1], fp, y)
        + if Top(o) == y && Overlaps(fp, o) then [Intersection(fp, o)] else []
  }

  /** Support under the footprint of a w×d item centred at (x, z): on the bare pallet it is
      full; otherwise the overlap with the boxes at the highest top, over the footprint area,
      clamped at 1. */
  function SupportUnder(objs: seq<Box>, x: int, z: int, w: int, d: int): SupportInfo
  {
    var fp := FootprintAt(x, z, w, d);
    var top := HighestTop(objs, fp);
    if top == PaletteTop then SupportInfo(top, 1.0, [fp])
    else
      var area := RMax(MinFootprintArea, (Qt(w) * Qt(d)) as real);
      SupportInfo(top, RMin(1.0, SupportArea(objs, fp, top) as real / area), SupportRectsOf(objs, fp, top))
  }

  /** Sum of the areas of rs. */
  function AreaSum(rs: seq<FreeRect>): int
  {
    if rs == [] then 0 else AreaSum(rs[..|rs| - 1]) + rs[|rs| - 1].w * rs[|rs| - 1].d
  }

  /** The support elevation is the pallet top or the top of an overlapping box, and no
      overlapping box rises above it. */
  lemma SupportYIsHighest(objs: seq<Box>, x: int, z: int, w: int, d: int)
    ensures var s := SupportUnder(objs, x, z, w, d);
      && s.supportY >= PaletteTop
      && (forall i :: 0 <= i < |objs| && Overlaps(FootprintAt(x, z, w, d), objs[i]) ==> Top(objs[i]) <= s.supportY)
      && (s.supportY == PaletteTop ||
          exists i :: 0 <= i < |objs| && Overlaps(FootprintAt(x, z, w, d), objs[i]) && Top(objs[i]) == s.supportY)
  {
    HighestTopSpec(objs, FootprintAt(x, z, w, d));
  }

  /** Bare pallet: with no box overlapping the footprint, support is full and the one support
      rectangle is the footprint itself. */
  lemma BarePallet(objs: seq<Box>, x: int, z: int, w: int, d: int)
    requires forall i :: 0 <= i < |objs| ==> !Overlaps(FootprintAt(x, z, w, d), objs[i])
    ensures SupportUnder(objs, x, z, w, d) == SupportInfo(PaletteTop, 1.0, [FootprintAt(x, z, w, d)])
  {
    HighestTopSpec(objs, FootprintAt(x, z, w, d));
  }

  lemma {:induction false} SupportAreaIsArea(objs: seq<Box>, fp: FreeRect, y: int)
    ensures SupportArea(objs, fp, y) == AreaSum(SupportRectsOf(objs, fp, y))
  {
    if objs != [] {
      var prev := objs[..|objs| - 1];
      var o := objs[|objs| - 1];
      SupportAreaIsArea(prev, fp, y);
      var rs := SupportRectsOf(prev, fp, y);
      if Top(o) == y && Overlaps(fp, o) {
        var rs' := rs + [Intersection(fp, o)];
        assert rs'[..|rs'| - 1] == rs;
      } else {
        assert SupportRectsOf(objs, fp, y) == rs;
      }
    }
  }

  lemma {:induction false} SupportRectsOfSpec(objs: seq<Box>, fp: FreeRect, y: int)
    ensures forall k :: 0 <= k < |SupportRectsOf(objs, fp, y)| ==>
      var r := SupportRectsOf(objs, fp, y)[k];
      && Within(r, fp) && r.w > 0 && r.d > 0
      && exists i :: 0 <= i < |objs| && Top(objs[i]) == y && Overlaps(fp, objs[i]) && r == Intersection(fp, objs[i])
  {
    if objs != [] {
      var prev := objs[..|objs| - 1];
      var o := objs[|objs| - 1];
      SupportRectsOfSpec(prev, fp, y);
      var rs := SupportRectsOf(prev, fp, y);
      forall k | 0 <= k < |SupportRectsOf(objs, fp, y)|
        ensures var r := SupportRectsOf(objs, fp, y)[k];
          && Within(r, fp) && r.w > 0 && r.d > 0
          && exists i :: 0 <= i < |objs| && Top(objs[i]) == y && Overlaps(fp, objs[i]) && r == Intersection(fp, objs[i])
      {
        if k < |rs| {
          var i :| 0 <= i < |prev| && Top(prev[i]) == y && Overlaps(fp, prev[i]) && rs[k] == Intersection(fp, prev[i]);
          assert prev[i] == objs[i];
        } else {
          assert SupportRectsOf(objs, fp, y)[k] == Intersection(fp, o);
          assert objs[|objs| - 1] == o;
        }
      }
    }
  }

  /** The supported fraction lies in [0, 1]. */
  lemma SupportFractionBounds(objs: seq<Box>, x: int, z: int, w: int, d: int)
    ensures 0.0 <= SupportUnder(objs, x, z, w, d).supportFraction <= 1.0
  {
    var fp := FootprintAt(x, z, w, d);
    var top := HighestTop(objs, fp);
    if top != PaletteTop {
      var a := SupportArea(objs, fp, top) as real;
      var den := RMax(MinFootprintArea, (Qt(w) * Qt(d)) as real);
      assert a / den >= 0.0 by {
        assert a >= 0.0 && den > 0.0;
      }
    }
  }

  /** Off the bare pallet the fraction is the summed area of the support rectangles over the
      footprint area, clamped at 1. */
  lemma SupportFractionIsArea(objs: seq<Box>, x: int, z: int, w: int, d: int)
    requires SupportUnder(objs, x, z, w, d).supportY != PaletteTop
    ensures var s := SupportUnder(objs, x, z, w, d);
      s.supportFraction == RMin(1.0, AreaSum(s.supportRects) as real / RMax(MinFootprintArea, (Qt(w) * Qt(d)) as real))
  {
    var fp := FootprintAt(x, z, w, d);
    SupportAreaIsArea(objs, fp, HighestTop(objs, fp));
  }

  /** Every support rectangle lies inside the footprint; off the bare pallet each one is the
      intersection of the footprint with a box whose top is the support elevation. */
  lemma SupportRectsInFootprint(objs: seq<Box>, x: int, z: int, w: int, d: int)
    ensures var s := SupportUnder(objs, x, z, w, d);
      && (forall k :: 0 <= k < |s.supportRects| ==> Within(s.supportRects[k], FootprintAt(x, z, w, d)))
      && (s.supportY != PaletteTop ==> forall k :: 0 <= k < |s.supportRects| ==>
            exists i :: 0 <= i < |objs| && Top(objs[i]) == s.supportY && Overlaps(FootprintAt(x, z, w, d), objs[i])
                        && s.supportRects[k] == Intersection(FootprintAt(x, z, w, d), objs[i]))
  {
    var fp := FootprintAt(x, z, w, d);
    var top := HighestTop(objs, fp);
    if top != PaletteTop {
      SupportRectsOfSpec(objs, fp, top);
    }
  }

  /** The point (x, z) lies in r, bounds included. */
  predicate InClosed(r: FreeRect, x: int, z: int)
  {
    r.minX <= x <= r.minX + r.w && r.minZ <= z <= r.minZ + r.d
  }

  /** The candidate's centre lies in one of the support rectangles (false for none). */
  function CenterInsideSupport(rects: seq<FreeRect>, x: int, z: int): (b: bool)
    ensures b <==> exists i :: 0 <= i < |rects| && InClosed(rects[i], x, z)
    ensures rects == [] ==> !b
  {
    if rects == [] then false
    else
      assert forall i :: 1 <= i < |rects| ==> rects[1..][i - 1] == rects[i];
      InClosed(rects[0], x, z) || CenterInsideSupport(rects[1..], x, z)
  }

  /** Overlap extents of the footprint [fMinX, fMaxX]×[fMinZ, fMaxZ] with box o, and o's
      min corner. */
  method BoxOverlap(fMinX: int, fMaxX: int, fMinZ: int, fMaxZ: int, o: Box)
    returns (overlapW: int, overlapD: int, oMinX: int, oMinZ: int)
    ensures var fp := FreeRect(fMinX, fMinZ, fMaxX - fMinX, fMaxZ - fMinZ);
      && overlapW == OverlapW(fp, Footprint(o)) && overlapD == OverlapD(fp, Footprint(o))
      && oMinX == Footprint(o).minX && oMinZ == Footprint(o).minZ
  {
    var ow := Qt(o.width);
    var od := Qt(o.depth);
    oMinX := o.x - ow / 2;
    var oMaxX := o.x + ow / 2;
    oMinZ := o.z - od / 2;
    var oMaxZ := o.z + od / 2;
    assert Footprint(o) == FreeRect(oMinX, oMinZ, ow, od);
    overlapW := Max(0, Min(fMaxX, oMaxX) - Max(fMinX, oMinX));
    overlapD := Max(0, Min(fMaxZ, oMaxZ) - Max(fMinZ, oMinZ));
  }

  /** First pass: the highest top among the pallet and the boxes overlapping fp. */
  method ScanHighestTop(objects: seq<Box>, fp: FreeRect) returns (highestTop: int)
    ensures highestTop == HighestTop(objects, fp)
  {
    highestTop := PaletteTop;
    var i := 0;
    while i < |objects|
      invariant 0 <= i <= |objects|
      invariant highestTop == HighestTop(objects[..i], fp)
    {
      var o := objects[i];
      var overlapW, overlapD, _, _ := BoxOverlap(fp.minX, fp.minX + fp.w, fp.minZ, fp.minZ + fp.d, o);
      if overlapW > 0 && overlapD > 0 {
        var top := o.y + Qt(o.height) / 2;
        if top > highestTop {
          highestTop := top;
        }
      }
      assert objects[..i + 1][..i] == objects[..i];
      i := i + 1;
    }
    assert objects[..i] == objects;
  }

  /** Second pass: overlap area and intersection rectangles of fp with the boxes whose top is
      exactly highestTop. */
  method CollectSupport(objects: seq<Box>, fp: FreeRect, highestTop: int)
    returns (overlapArea: int, supportRects: seq<FreeRect>)
    ensures overlapArea == SupportArea(objects, fp, highestTop)
    ensures supportRects == SupportRectsOf(objects, fp, highestTop)
  {
    overlapArea := 0;
    supportRects := [];
    var i := 0;
    while i < |objects|
      invariant 0 <= i <= |objects|
      invariant overlapArea == SupportArea(objects[..i], fp, highestTop)
      invariant supportRects == SupportRectsOf(objects[..i], fp, highestTop)
    {
      var o := objects[i];
      var top := o.y + Qt(o.height) / 2;
      assert objects[..i + 1][..i] == objects[..i];
      if top == highestTop {
        var overlapW, overlapD, oMinX, oMinZ := BoxOverlap(fp.minX, fp.minX + fp.w, fp.minZ, fp.minZ + fp.d, o);
        if overlapW > 0 && overlapD > 0 {
          overlapArea := overlapArea + overlapW * overlapD;
          supportRects := supportRects + [FreeRect(Max(fp.minX, oMinX), Max(fp.minZ, oMinZ), overlapW, overlapD)];
        }
      }
      i := i + 1;
    }
    assert objects[..i] == objects;
  }

  /** findSupportYUnder: the footprint of a w×d item centred at (x, z), then the two passes. */
  method FindSupportYUnder(objects: seq<Box>, x: int, z: int, w: int, d: int) returns (info: SupportInfo)
    ensures info == SupportUnder(objects, x, z, w, d)
  {
    var halfW := Qt(w) / 2;
    var halfD := Qt(d) / 2;
    var fMinX := x - halfW;
    var fMinZ := z - halfD;
    var footprintArea := RMax(MinFootprintArea, (Qt(w) * Qt(d)) as real);
    var fp := FreeRect(fMinX, fMinZ, Qt(w), Qt(d));
    assert fp == FootprintAt(x, z, w, d);
    var highestTop := ScanHighestTop(objects, fp);
    if highestTop == PaletteTop {
      return SupportInfo(highestTop, 1.0, [fp]);
    }
    var overlapArea, supportRects := CollectSupport(objects, fp, highestTop);
    var supportFraction := RMin(1.0, overlapArea as real / footprintArea);
    info := SupportInfo(highestTop, supportFraction, supportRects);
  }
}
