/** The batch loop both engines share: each item is tried as given, then turned a quarter;
    a placed item becomes a box, an unplaced one a no-room failure. The engine enters only
    through its placement attempt and the way it makes the box of a placed item. */
module Driver {
  import opened Pallet
  import opened Ledger
  import opened Batch

  /** An engine's placement attempt: layers and boxes before, item w×d×h, outcome. */
  type Placer = (seq<Layer>, seq<Box>, int, int, int) -> Outcome

  /** An engine's box for a w×d×h item placed at p, given the boxes already placed. */
  type Committer = (seq<Box>, Placement, int, int, int) -> Box

  /** One item tried in both orientations: where it went, whether it was turned, the layers after. */
  datatype Attempt = Attempt(pos: Option<Placement>, rotated: bool, layers: seq<Layer>)

  /** Try the item as given; if that fails, try it with width and depth swapped. */
  function TryBoth(place: Placer, ls: seq<Layer>, objs: seq<Box>, it: Item): Attempt
  {
    var o1 := place(ls, objs, it.w, it.d, it.h);
    if o1.pos.Some? then Attempt(o1.pos, false, o1.layers)
    else
      var o2 := place(o1.layers, objs, it.d, it.w, it.h);
      Attempt(o2.pos, o2.pos.Some?, o2.layers)
  }

  /** The plan extents an item is placed with. */
  function Oriented(it: Item, rotated: bool): (int, int)
  {
    if rotated then (it.d, it.w) else (it.w, it.d)
  }

  /** State threaded through a batch: layers, boxes, placement failures. */
  datatype BatchState = BatchState(layers: seq<Layer>, objects: seq<Box>, failures: seq<Failure>)

  /** One item of a batch: a box is appended, or a no-room failure is recorded. */
  function Step(place: Placer, commit: Committer, s: BatchState, it: Item): BatchState
  {
    var a := TryBoth(place, s.layers, s.objects, it);
    match a.pos
    case None => BatchState(a.layers, s.objects, s.failures + [Failure(it.origIndex, NoRoom)])
    case Some(p) =>
      var (ww, dd) := Oriented(it, a.rotated);
      BatchState(a.layers, s.objects + [commit(s.objects, p, ww, dd, it.h)], s.failures)
  }

  /** A step, given the attempt it makes. */
  lemma StepBy(place: Placer, commit: Committer, s: BatchState, it: Item, a: Attempt)
    requires a == TryBoth(place, s.layers, s.objects, it)
    ensures a.pos.None? ==>
      Step(place, commit, s, it) == BatchState(a.layers, s.objects, s.failures + [Failure(it.origIndex, NoRoom)])
    ensures a.pos.Some? ==>
      Step(place, commit, s, it) ==
      BatchState(a.layers, s.objects + [commit(s.objects, a.pos.value, Oriented(it, a.rotated).0, Oriented(it, a.rotated).1, it.h)], s.failures)
  {
  }

  /** The items of order placed one after another. */
  function Run(place: Placer, commit: Committer, s: BatchState, order: seq<Item>): BatchState
  {
    if order == [] then s else Step(place, commit, Run(place, commit, s, order[..|order| - 1]), order[|order| - 1])
  }

  /** Running one more item of order is one more step. */
  lemma RunSnoc(place: Placer, commit: Committer, s: BatchState, order: seq<Item>, k: nat)
    requires k < |order|
    ensures Run(place, commit, s, order[..k + 1]) == Step(place, commit, Run(place, commit, s, order[..k]), order[k])
  {
    assert order[..k + 1][..k] == order[..k];
  }

  /** A batch keeps the boxes and failures it started with and adds exactly one box or
      one failure per item. */
  lemma {:induction false} RunKeeps(place: Placer, commit: Committer, s: BatchState, order: seq<Item>)
    ensures var r := Run(place, commit, s, order);
      && |r.objects| >= |s.objects| && |r.failures| >= |s.failures|
      && |r.objects| + |r.failures| == |s.objects| + |s.failures| + |order|
      && r.objects[..|s.objects|] == s.objects
      && r.failures[..|s.failures|] == s.failures
  {
    if order != [] {
      var n := |order| - 1;
      RunKeeps(place, commit, s, order[..n]);
      var r0 := Run(place, commit, s, order[..n]);
      var r := Run(place, commit, s, order);
      assert r.objects[..|r0.objects|] == r0.objects;
      assert r.failures[..|r0.failures|] == r0.failures;
      assert r.objects[..|s.objects|] == r0.objects[..|s.objects|];
      assert r.failures[..|s.failures|] == r0.failures[..|s.failures|];
    }
  }

  /** Every failure a batch adds is a no-room failure naming an item of the order. */
  lemma {:induction false} RunFailures(place: Placer, commit: Committer, s: BatchState, order: seq<Item>)
    ensures forall k :: 0 <= k < |Run(place, commit, s, order).failures| ==>
      var f := Run(place, commit, s, order).failures[k];
      f in s.failures || (f.reason == NoRoom && exists m :: 0 <= m < |order| && order[m].origIndex == f.index)
  {
    if order != [] {
      var n := |order| - 1;
      var pre := order[..n];
      RunFailures(place, commit, s, pre);
      var r0 := Run(place, commit, s, pre);
      var r := Run(place, commit, s, order);
      forall k | 0 <= k < |r.failures|
        ensures r.failures[k] in s.failures ||
          (r.failures[k].reason == NoRoom && exists m :: 0 <= m < |order| && order[m].origIndex == r.failures[k].index)
      {
        if k < |r0.failures| {
          assert r.failures[k] == r0.failures[k];
          if r0.failures[k] !in s.failures {
            var m :| 0 <= m < |pre| && pre[m].origIndex == r0.failures[k].index;
            assert order[m] == pre[m];
          }
        } else {
          assert order[n].origIndex == r.failures[k].index;
        }
      }
    }
  }

  /** The extents of a box. */
  function Extents(b: Box): (int, int, int)
  {
    (b.width, b.depth, b.height)
  }

  /** The box has the item's extents, its plan extents possibly swapped. */
  predicate OfItem(b: Box, it: Item)
  {
    Extents(b) == (it.w, it.d, it.h) || Extents(b) == (it.d, it.w, it.h)
  }

  /** With an engine whose box keeps the extents it is given, every box a batch adds has its
      item's height and its item's plan extents, possibly swapped. */
  lemma {:induction false} RunBoxes(place: Placer, commit: Committer, s: BatchState, order: seq<Item>)
    requires forall os, p, w, d, h :: Extents(commit(os, p, w, d, h)) == (w, d, h)
    ensures forall k :: 0 <= k < |Run(place, commit, s, order).objects| ==>
      var b := Run(place, commit, s, order).objects[k];
      b in s.objects || exists m :: 0 <= m < |order| && OfItem(b, order[m])
  {
    if order != [] {
      var n := |order| - 1;
      var pre := order[..n];
      RunBoxes(place, commit, s, pre);
      var r0 := Run(place, commit, s, pre);
      var r := Run(place, commit, s, order);
      forall k | 0 <= k < |r.objects|
        ensures r.objects[k] in s.objects || exists m :: 0 <= m < |order| && OfItem(r.objects[k], order[m])
      {
        if k < |r0.objects| {
          assert r.objects[k] == r0.objects[k];
          if r0.objects[k] !in s.objects {
            var m :| 0 <= m < |pre| && OfItem(r0.objects[k], pre[m]);
            assert order[m] == pre[m];
          }
        } else {
          assert OfItem(r.objects[k], order[n]);
        }
      }
    }
  }

  /** addObjects from the layers ls and the boxes objs: validate, and unless nothing is
      valid, place the items full-width first, then by plan area. */
  function AddAll(place: Placer, commit: Committer, ls: seq<Layer>, objs: seq<Box>, list: seq<RawItem>): BatchState
  {
    var items := ValidItems(list);
    if items == [] then BatchState(ls, objs, [])
    else Run(place, commit, BatchState(ls, objs, []), SortItems(items, true))
  }

  /** Every request entry ends up as exactly one of: a new box, a placement failure, or an
      input failure; the boxes already on the pallet stay, in order; every placement
      failure names a valid entry. */
  lemma AddAllAccounting(place: Placer, commit: Committer, ls: seq<Layer>, objs: seq<Box>, list: seq<RawItem>)
    ensures var r := AddAll(place, commit, ls, objs, list);
      && |r.objects| >= |objs|
      && |r.objects| - |objs| + |r.failures| + |InputFailures(list)| == |list|
      && r.objects[..|objs|] == objs
      && forall k :: 0 <= k < |r.failures| ==>
           (r.failures[k].reason == NoRoom && r.failures[k].index < |list| &&
            Validate(list[r.failures[k].index], r.failures[k].index).Accepted?)
  {
    var items := ValidItems(list);
    ValidationCount(list);
    ValidItemsSpec(list);
    SortItemsMembers(items, true);
    var order := SortItems(items, true);
    RunKeeps(place, commit, BatchState(ls, objs, []), order);
    RunFailures(place, commit, BatchState(ls, objs, []), order);
    forall m | 0 <= m < |order|
      ensures order[m].origIndex < |list| && Validate(list[order[m].origIndex], order[m].origIndex).Accepted?
    {
      assert order[m] in multiset(items);
    }
  }

  /** The same list added twice in a row: the boxes of the first pass stay, in order, under
      those of the second, and every entry of the list is counted twice over the two passes
      (a box, a placement failure or an input failure each time). */
  lemma AddAllTwice(place: Placer, commit: Committer, ls: seq<Layer>, objs: seq<Box>, list: seq<RawItem>)
    ensures var r1 := AddAll(place, commit, ls, objs, list);
      var r2 := AddAll(place, commit, r1.layers, r1.objects, list);
      && |objs| <= |r1.objects| <= |r2.objects|
      && r2.objects[..|objs|] == objs
      && r2.objects[..|r1.objects|] == r1.objects
      && |r2.objects| - |objs| + |r1.failures| + |r2.failures| + 2 * |InputFailures(list)| == 2 * |list|
  {
    var r1 := AddAll(place, commit, ls, objs, list);
    AddAllAccounting(place, commit, ls, objs, list);
    AddAllAccounting(place, commit, r1.layers, r1.objects, list);
    var r2 := AddAll(place, commit, r1.layers, r1.objects, list);
    assert r2.objects[..|objs|] == r2.objects[..|r1.objects|][..|objs|];
  }

  /** An item whose plan extents are non-negative and within the pallet's. */
  predicate Placeable(it: Item)
  {
    0 <= it.w <= PALETTE_WIDTH && 0 <= it.d <= PALETTE_DEPTH
  }

  /** A request entry whose parsed plan extents are non-negative (validation does not check
      this). */
  predicate PlanNonNegative(raw: RawItem)
  {
    (raw.width.Some? ==> raw.width.value >= 0) && (raw.depth.Some? ==> raw.depth.value >= 0)
  }

  /** The engine's two-orientation attempt keeps the free space sound for every placeable item. */
  ghost predicate KeepsSound(place: Placer)
  {
    forall ls, objs, it :: LedgerSound(ls) && Placeable(it) ==> LedgerSound(TryBoth(place, ls, objs, it).layers)
  }

  /** A batch of placeable items on such an engine keeps the free space sound. */
  lemma {:induction false} RunSound(place: Placer, commit: Committer, s: BatchState, order: seq<Item>)
    requires KeepsSound(place) && LedgerSound(s.layers)
    requires forall k :: 0 <= k < |order| ==> Placeable(order[k])
    ensures LedgerSound(Run(place, commit, s, order).layers)
  {
    if order != [] {
      var n := |order| - 1;
      RunSound(place, commit, s, order[..n]);
      var r0 := Run(place, commit, s, order[..n]);
      assert LedgerSound(TryBoth(place, r0.layers, r0.objects, order[n]).layers);
    }
  }

  /** On such an engine, addObjects with non-negative plan extents keeps every layer's free
      rectangles on the pallet and free of overlaps. */
  lemma AddAllSound(place: Placer, commit: Committer, ls: seq<Layer>, objs: seq<Box>, list: seq<RawItem>)
    requires KeepsSound(place) && LedgerSound(ls)
    requires forall i :: 0 <= i < |list| ==> PlanNonNegative(list[i])
    ensures LedgerSound(AddAll(place, commit, ls, objs, list).layers)
  {
    var items := ValidItems(list);
    ValidItemsSpec(list);
    SortItemsMembers(items, true);
    var order := SortItems(items, true);
    forall k | 0 <= k < |order|
      ensures Placeable(order[k])
    {
      assert order[k] in multiset(items);
      var it := order[k];
      assert Validate(list[it.origIndex], it.origIndex) == Accepted(it);
      assert PlanNonNegative(list[it.origIndex]);
    }
    RunSound(place, commit, BatchState(ls, objs, []), order);
  }

  /** From start-up (one empty layer, no boxes), addObjects on such an engine with
      non-negative plan extents leaves every layer's free space sound. */
  lemma AddAllSoundFromStart(place: Placer, commit: Committer, list: seq<RawItem>)
    requires KeepsSound(place)
    requires forall i :: 0 <= i < |list| ==> PlanNonNegative(list[i])
    ensures LedgerSound(AddAll(place, commit, [CreateNewLayer(PaletteTop, 0)], [], list).layers)
  {
    StartSound();
    AddAllSound(place, commit, [CreateNewLayer(PaletteTop, 0)], [], list);
  }
}
