/** Pallet bounds, units and plan-view rectangle geometry shared by both packing engines.

    Units. Item extents are whole centimetres, the integers a request list carries.
    Every coordinate, elevation and free-rectangle extent is an integer number of
    quarter-centimetres: with that unit a centre `min + w/2` and a grid step `w/4` of a
    whole-centimetre extent are exact, so no tolerance is needed anywhere. */
module Pallet {

  datatype Option<T> = None | Some(value: T)

  /** Pallet extents in centimetres. */
  const PALETTE_WIDTH: int := 80
  const PALETTE_DEPTH: int := 120
  const PALETTE_HEIGHT: int := 180
  /** Thickness of the pallet board, in centimetres. */
  const PALETTE_THICKNESS: int := 5

  /** Centimetres to quarter-centimetres (the unit conversion of the engine). */
  function Qt(cm: int): int { 4 * cm }

  /** Half extents of the pallet, its top face and the absolute top, in quarter-centimetres. */
  const HalfW: int := Qt(PALETTE_WIDTH) / 2
  const HalfD: int := Qt(PALETTE_DEPTH) / 2
  const PaletteTop: int := Qt(PALETTE_THICKNESS)
  const PaletteMaxTop: int := Qt(PALETTE_HEIGHT)

  function Max(a: int, b: int): int { if a >= b then a else b }
  function Min(a: int, b: int): int { if a <= b then a else b }

  /** An axis-aligned rectangle of the pallet plane: min corner and extents along x and z. */
  datatype FreeRect = FreeRect(minX: int, minZ: int, w: int, d: int)

  /** The unit cell whose min corner is (x, z) lies in r. Rectangles with integer corners
      tile, nest and intersect exactly as the sets of cells they contain do. */
  predicate Cell(r: FreeRect, x: int, z: int)
  {
    r.minX <= x < r.minX + r.w && r.minZ <= z < r.minZ + r.d
  }

  /** Overlap of a and b along x, clamped at zero. */
  function OverlapW(a: FreeRect, b: FreeRect): int
  {
    Max(0, Min(a.minX + a.w, b.minX + b.w) - Max(a.minX, b.minX))
  }

  /** Overlap of a and b along z, clamped at zero. */
  function OverlapD(a: FreeRect, b: FreeRect): int
  {
    Max(0, Min(a.minZ + a.d, b.minZ + b.d) - Max(a.minZ, b.minZ))
  }

  /** a and b overlap with positive extent on both axes. */
  predicate Overlap(a: FreeRect, b: FreeRect)
  {
    OverlapW(a, b) > 0 && OverlapD(a, b) > 0
  }

  /** a lies inside b (closed bounds). */
  predicate Within(a: FreeRect, b: FreeRect)
  {
    b.minX <= a.minX && a.minX + a.w <= b.minX + b.w &&
    b.minZ <= a.minZ && a.minZ + a.d <= b.minZ + b.d
  }

  /** Some rectangle of rs holds the cell (x, z). */
  predicate Covered(rs: seq<FreeRect>, x: int, z: int)
  {
    exists i :: 0 <= i < |rs| && Cell(rs[i], x, z)
  }

  /** The residuals rs and the footprint fp tile r: together they cover exactly the cells of r,
      and no two of them (nor a residual and fp) overlap. */
  ghost predicate Tiles(r: FreeRect, fp: FreeRect, rs: seq<FreeRect>)
  {
    && (forall x, z :: Cell(r, x, z) <==> Cell(fp, x, z) || Covered(rs, x, z))
    && (forall i :: 0 <= i < |rs| ==> !Overlap(rs[i], fp))
    && PairwiseDisjoint(rs)
  }

  /** No two rectangles of rs overlap. */
  ghost predicate PairwiseDisjoint(rs: seq<FreeRect>)
  {
    forall i, j :: 0 <= i < j < |rs| ==> !Overlap(rs[i], rs[j])
  }

  /** No rectangle of a overlaps a rectangle of b. */
  ghost predicate CrossDisjoint(a: seq<FreeRect>, b: seq<FreeRect>)
  {
    forall i, j :: 0 <= i < |a| && 0 <= j < |b| ==> !Overlap(a[i], b[j])
  }

  lemma DisjointConcat(a: seq<FreeRect>, b: seq<FreeRect>)
    requires PairwiseDisjoint(a) && PairwiseDisjoint(b) && CrossDisjoint(a, b)
    ensures PairwiseDisjoint(a + b)
  {
    forall i, j | 0 <= i < j < |a + b|
      ensures !Overlap((a + b)[i], (a + b)[j])
    {
      if j < |a| {
        assert (a + b)[i] == a[i] && (a + b)[j] == a[j];
      } else if i < |a| {
        assert (a + b)[i] == a[i] && (a + b)[j] == b[j - |a|];
      } else {
        assert (a + b)[i] == b[i - |a|] && (a + b)[j] == b[j - |a|];
      }
    }
  }

  /** Every rectangle of rs has positive extent on both axes. */
  ghost predicate NonEmpty(rs: seq<FreeRect>)
  {
    forall i :: 0 <= i < |rs| ==> rs[i].w > 0 && rs[i].d > 0
  }

  lemma CoveredConcat(a: seq<FreeRect>, b: seq<FreeRect>, x: int, z: int)
    ensures Covered(a + b, x, z) <==> Covered(a, x, z) || Covered(b, x, z)
  {
    if Covered(a + b, x, z) {
      var i :| 0 <= i < |a + b| && Cell((a + b)[i], x, z);
      if i < |a| {
        assert Cell(a[i], x, z);
      } else {
        assert Cell(b[i - |a|], x, z);
      }
    }
    if Covered(a, x, z) {
      var i :| 0 <= i < |a| && Cell(a[i], x, z);
      assert (a + b)[i] == a[i];
    }
    if Covered(b, x, z) {
      var i :| 0 <= i < |b| && Cell(b[i], x, z);
      assert (a + b)[|a| + i] == b[i];
    }
  }

  /** A placed box: centre (x, y, z) in quarter-centimetres, extents in centimetres. */
  datatype Box = Box(x: int, y: int, z: int, width: int, depth: int, height: int)

  /** Plan footprint of a w×d item centred at (x, z). */
  function FootprintAt(x: int, z: int, w: int, d: int): FreeRect
  {
    FreeRect(x - Qt(w) / 2, z - Qt(d) / 2, Qt(w), Qt(d))
  }

  function Footprint(b: Box): FreeRect
  {
    FootprintAt(b.x, b.z, b.width, b.depth)
  }

  function Top(b: Box): int { b.y + Qt(b.height) / 2 }
  function Bottom(b: Box): int { b.y - Qt(b.height) / 2 }
}
