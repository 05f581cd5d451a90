/** The batch driver and the interactive operations of the support-aware engine: placement
    on the anchor grid with a support check, and every created box snapped down onto the
    highest support beneath its footprint. Snapping is what keeps boxes from floating or
    sinking into one another, whatever the layer ledger says. */
module Stacking {
  import opened Pallet
  import opened Ledger
  import opened Batch
  import opened Driver
  import opened Support
  import Grid

  /** The support-aware engine's attempt with the given support threshold. */
  function SupportPlace(threshold: real): Placer
  {
    (ls: seq<Layer>, objs: seq<Box>, w: int, d: int, h: int) => Grid.Place(objs, threshold, ls, w, d, h)
  }

  /** The turned orientation is used only when the given one fails and the turned one
      succeeds; the item fails only when no anchor accepts it either way and it is too tall
      for a new layer, and then the layers are unchanged. */
  lemma TryBothSpec(threshold: real, ls: seq<Layer>, objs: seq<Box>, it: Item)
    ensures var a := TryBoth(SupportPlace(threshold), ls, objs, it);
      && (!a.rotated && a.pos.Some? ==> Outcome(a.pos, a.layers) == Grid.Place(objs, threshold, ls, it.w, it.d, it.h))
      && (a.rotated ==> Grid.Place(objs, threshold, ls, it.w, it.d, it.h).pos.None?
                        && Outcome(a.pos, a.layers) == Grid.Place(objs, threshold, ls, it.d, it.w, it.h))
      && (a.pos.None? <==>
            Grid.NoCandidate(Grid.Acceptor(objs, threshold, it.w, it.d), ls, it.w, it.d) &&
            Grid.NoCandidate(Grid.Acceptor(objs, threshold, it.d, it.w), ls, it.d, it.w) &&
            CurrentTop(ls) + Qt(it.h) > PaletteMaxTop)
      && (a.pos.None? ==> a.layers == ls && !a.rotated)
  {
    Grid.PlaceFails(objs, threshold, ls, it.w, it.d, it.h);
    Grid.PlaceFails(objs, threshold, ls, it.d, it.w, it.h);
  }

  /** Both orientations of a placeable item keep the free space sound: the turned one is
      tried only after the given one failed, and then the item is too tall for a new layer. */
  lemma TryBothSound(threshold: real, ls: seq<Layer>, objs: seq<Box>, it: Item)
    requires LedgerSound(ls) && Placeable(it)
    ensures LedgerSound(TryBoth(SupportPlace(threshold), ls, objs, it).layers)
  {
    Grid.PlaceFails(objs, threshold, ls, it.w, it.d, it.h);
    Grid.PlaceSound(objs, threshold, ls, it.w, it.d, it.h);
    if Grid.Place(objs, threshold, ls, it.w, it.d, it.h).pos.None? {
      Grid.PlaceSound(objs, threshold, ls, it.d, it.w, it.h);
    }
  }

  /** The support-aware engine keeps the free space sound, whatever the threshold. */
  lemma SupportKeepsSound(threshold: real)
    ensures KeepsSound(SupportPlace(threshold))
  {
    forall ls, objs, it | LedgerSound(ls) && Placeable(it)
      ensures LedgerSound(TryBoth(SupportPlace(threshold), ls, objs, it).layers)
    {
      TryBothSound(threshold, ls, objs, it);
    }
  }

  /** The support-aware engine's box for a w×d×h item placed at p: centred at p in plan, its
      base on the support elevation under its footprint among the boxes objs, not on p's
      layer base. */
  function Snapped(objs: seq<Box>, p: Placement, w: int, d: int, h: int): (b: Box)
    ensures Bottom(b) == SupportUnder(objs, p.x, p.z, w, d).supportY
    ensures Top(b) == Bottom(b) + Qt(h)
    ensures Footprint(b) == FootprintAt(p.x, p.z, w, d)
    ensures Extents(b) == (w, d, h)
  {
    assert Qt(h) / 2 == 2 * h;
    Box(p.x, SupportUnder(objs, p.x, p.z, w, d).supportY + Qt(h) / 2, p.z, w, d, h)
  }

  /** The box rests on the support beneath its footprint among the boxes below: the highest
      top under the footprint, which is the support elevation. */
  ghost predicate RestsOn(b: Box, below: seq<Box>)
  {
    Bottom(b) == HighestTop(below, Footprint(b))
  }

  /** Every box rests on the support beneath its footprint among the boxes placed before it. */
  ghost predicate Rests(objs: seq<Box>)
  {
    objs == [] || (Rests(objs[..|objs| - 1]) && RestsOn(objs[|objs| - 1], objs[..|objs| - 1]))
  }

  /** Rests, for one box. */
  lemma {:induction false} RestsAt(objs: seq<Box>, k: nat)
    requires Rests(objs) && k < |objs|
    ensures RestsOn(objs[k], objs[..k])
    decreases |objs|
  {
    var n := |objs| - 1;
    if k < n {
      var pre := objs[..n];
      RestsAt(pre, k);
      assert pre[k] == objs[k] && pre[..k] == objs[..k];
    }
  }

  /** Rests, box by box. */
  lemma RestsEach(objs: seq<Box>)
    requires Rests(objs)
    ensures forall k :: 0 <= k < |objs| ==> RestsOn(objs[k], objs[..k])
  {
    forall k | 0 <= k < |objs|
      ensures RestsOn(objs[k], objs[..k])
    {
      RestsAt(objs, k);
    }
  }

  /** Appending a snapped box keeps every box resting. */
  lemma RestsSnoc(objs: seq<Box>, p: Placement, w: int, d: int, h: int)
    requires Rests(objs)
    ensures Rests(objs + [Snapped(objs, p, w, d, h)])
  {
    assert (objs + [Snapped(objs, p, w, d, h)])[..|objs|] == objs;
  }

  /** Whatever the placement attempt, a batch step with snapped boxes keeps every box resting. */
  lemma StepRests(place: Placer, s: BatchState, it: Item)
    requires Rests(s.objects)
    ensures Rests(Step(place, Snapped, s, it).objects)
  {
    var a := TryBoth(place, s.layers, s.objects, it);
    if a.pos.Some? {
      var (ww, dd) := Oriented(it, a.rotated);
      RestsSnoc(s.objects, a.pos.value, ww, dd, it.h);
    }
  }

  /** Whatever the placement attempt, a batch of snapped boxes keeps every box resting. */
  lemma {:induction false} RunRests(place: Placer, s: BatchState, order: seq<Item>)
    requires Rests(s.objects)
    ensures Rests(Run(place, Snapped, s, order).objects)
  {
    if order != [] {
      var n := |order| - 1;
      RunRests(place, s, order[..n]);
      StepRests(place, Run(place, Snapped, s, order[..n]), order[n]);
    }
  }

  /** Grounded, from the resting condition stated box by box. */
  lemma GroundedEach(objs: seq<Box>)
    requires forall k :: 0 <= k < |objs| ==> RestsOn(objs[k], objs[..k])
    ensures forall m :: 0 <= m < |objs| ==>
      Bottom(objs[m]) == PaletteTop ||
      exists k :: 0 <= k < m && Overlap(Footprint(objs[m]), Footprint(objs[k])) && Top(objs[k]) == Bottom(objs[m])
    ensures forall k, m :: 0 <= k < m < |objs| && Overlap(Footprint(objs[k]), Footprint(objs[m])) ==>
      Top(objs[k]) <= Bottom(objs[m])
  {
    forall m | 0 <= m < |objs|
      ensures Bottom(objs[m]) == PaletteTop ||
        exists k :: 0 <= k < m && Overlap(Footprint(objs[m]), Footprint(objs[k])) && Top(objs[k]) == Bottom(objs[m])
      ensures forall k :: 0 <= k < m && Overlap(Footprint(objs[k]), Footprint(objs[m])) ==> Top(objs[k]) <= Bottom(objs[m])
    {
      var o := objs[m];
      var pre := objs[..m];
      HighestTopSpec(pre, Footprint(o));
      assert forall k :: 0 <= k < m ==> pre[k] == objs[k];
    }
  }

  /** No box floats: each rests on the pallet top or exactly on the top of an earlier box
      under its footprint; and none sinks: a box never starts below the top of an earlier
      box whose footprint overlaps its own. */
  lemma Grounded(objs: seq<Box>)
    requires Rests(objs)
    ensures forall m :: 0 <= m < |objs| ==>
      Bottom(objs[m]) == PaletteTop ||
      exists k :: 0 <= k < m && Overlap(Footprint(objs[m]), Footprint(objs[k])) && Top(objs[k]) == Bottom(objs[m])
    ensures forall k, m :: 0 <= k < m < |objs| && Overlap(Footprint(objs[k]), Footprint(objs[m])) ==>
      Top(objs[k]) <= Bottom(objs[m])
  {
    RestsEach(objs);
    GroundedEach(objs);
  }

  /** The input and placement failures a batch reports. */
  datatype Report = Report(inputFailures: seq<Failure>, failures: seq<Failure>)

  /** Both orientations tried on stack, in place, against the boxes objs. */
  method TryPlace(stack: LayerStack, objs: seq<Box>, threshold: real, it: Item) returns (pos: Option<Placement>, rotated: bool)
    modifies stack
    ensures Attempt(pos, rotated, stack.layers) == TryBoth(SupportPlace(threshold), old(stack.layers), objs, it)
  {
    pos := Grid.FindPlacementInLayers(stack, objs, threshold, it.w, it.d, it.h);
    rotated := false;
    if pos.None? {
      pos := Grid.FindPlacementInLayers(stack, objs, threshold, it.d, it.w, it.h);
      if pos.Some? {
        rotated := true;
      }
    }
  }

  /** The support threshold a slider reading sets: an unreadable or zero reading counts
      as 75 percent. A reading on the slider's percent scale gives a fraction the support
      test can meet; one above 100 gives a fraction no support reaches. */
  function ThresholdOf(reading: Option<int>): (t: real)
    ensures reading.None? || reading.value == 0 ==> t == 0.75
    ensures reading.Some? && 1 <= reading.value <= 100 ==> 0.01 <= t <= 1.0
    ensures reading.Some? && reading.value > 100 ==> t > 1.0
    ensures reading.Some? && reading.value != 0 ==> t * 100.0 == reading.value as real
  {
    var v := if reading.None? || reading.value == 0 then 75 else reading.value;
    v as real / 100.0
  }

  /** Every slider setting from 0 to 100 admits a box over a stretch of pallet no box
      covers: the support there is full, and the threshold is at most one. */
  lemma SliderAdmitsBarePallet(reading: Option<int>, objs: seq<Box>, x: int, z: int, w: int, d: int)
    requires reading.None? || 0 <= reading.value <= 100
    requires forall i :: 0 <= i < |objs| ==> !Overlaps(FootprintAt(x, z, w, d), objs[i])
    ensures SupportUnder(objs, x, z, w, d).supportFraction >= ThresholdOf(reading)
    ensures SupportUnder(objs, x, z, w, d).supportY == PaletteTop
  {
    BarePallet(objs, x, z, w, d);
  }

  /** A reading above 100 asks for more support than any footprint gets: the support test
      refuses every anchor, so every attempt opens a new layer. */
  lemma OverfullThresholdOpensLayer(reading: Option<int>, objs: seq<Box>, ls: seq<Layer>, w: int, d: int, h: int)
    requires reading.Some? && reading.value > 100
    ensures Grid.Place(objs, ThresholdOf(reading), ls, w, d, h) == OpenLayer(ls, w, d, h)
  {
    var acc := Grid.Acceptor(objs, ThresholdOf(reading), w, d);
    forall li: nat, ri: nat, i: nat, j: nat
      ensures !Grid.Candidate(acc, ls, w, d, li, ri, i, j)
    {
      if li < |ls| && ri < |ls[li].freeRects| {
        var r := ls[li].freeRects[ri];
        var px, pz := Grid.AnchorX(r, w, i), Grid.AnchorZ(r, d, j);
        SupportFractionBounds(objs, px + Qt(w) / 2, pz + Qt(d) / 2, w, d);
        assert !Grid.Accepts(objs, ThresholdOf(reading), ls[li].baseY, px, pz, w, d);
      }
    }
    Grid.PlaceNoCandidate(objs, ThresholdOf(reading), ls, w, d, h);
  }

  /** The support-aware engine's state: the boxes on the pallet, the layer list, the queue,
      and the support threshold. */
  class Palette {
    var objects: seq<Box>
    const stack: LayerStack
    var queue: seq<Item>
    var threshold: real

    /** The invariant the engine keeps: every box rests on the support beneath it. */
    ghost predicate Valid()
      reads this
    {
      Rests(objects)
    }

    /** Start-up: no boxes, one empty layer on the pallet top, an empty queue, 75 percent. */
    constructor ()
      ensures Valid() && fresh(stack)
      ensures objects == [] && queue == [] && threshold == 0.75
      ensures stack.layers == [CreateNewLayer(PaletteTop, 0)]
    {
      objects := [];
      queue := [];
      threshold := 0.75;
      stack := new LayerStack([CreateNewLayer(PaletteTop, 0)]);
    }

    /** The threshold slider moved to reading. */
    method SetThreshold(reading: Option<int>)
      modifies this
      ensures threshold == ThresholdOf(reading)
      ensures objects == old(objects) && queue == old(queue)
    {
      var nv := if reading.None? || reading.value == 0 then 75 else reading.value;
      threshold := nv as real / 100.0;
    }

    /** addObject: one w×d×h item, not rotated; on success its box, snapped onto its
        support, is appended. */
    method AddObject(w: int, d: int, h: int) returns (box: Option<Box>)
      requires Valid()
      modifies this, stack
      ensures Valid()
      ensures var o := Grid.Place(old(objects), threshold, old(stack.layers), w, d, h);
        && stack.layers == o.layers
        && box == (if o.pos.Some? then Some(Snapped(old(objects), o.pos.value, w, d, h)) else None)
        && objects == old(objects) + (if box.Some? then [box.value] else [])
      ensures queue == old(queue) && threshold == old(threshold)
    {
      var pos := Grid.FindPlacementInLayers(stack, objects, threshold, w, d, h);
      if pos.None? {
        return None;
      }
      var p := pos.value;
      var info := FindSupportYUnder(objects, p.x, p.z, w, d);
      var b := Box(p.x, info.supportY + Qt(h) / 2, p.z, w, d, h);
      assert b == Snapped(objects, p, w, d, h);
      RestsSnoc(objects, p, w, d, h);
      objects := objects + [b];
      box := Some(b);
    }

    /** The single-item form: an extent above the pallet's is refused and nothing changes;
        otherwise the item goes to addObject. */
    method AddObjectButton(w: int, d: int, h: int) returns (box: Option<Box>)
      requires Valid()
      modifies this, stack
      ensures Valid()
      ensures w > PALETTE_WIDTH || d > PALETTE_DEPTH || h > PALETTE_HEIGHT ==>
        box.None? && objects == old(objects) && stack.layers == old(stack.layers)
      ensures !(w > PALETTE_WIDTH || d > PALETTE_DEPTH || h > PALETTE_HEIGHT) ==>
        var o := Grid.Place(old(objects), threshold, old(stack.layers), w, d, h);
        && stack.layers == o.layers
        && box == (if o.pos.Some? then Some(Snapped(old(objects), o.pos.value, w, d, h)) else None)
        && objects == old(objects) + (if box.Some? then [box.value] else [])
      ensures queue == old(queue) && threshold == old(threshold)
    {
      if w > PALETTE_WIDTH || d > PALETTE_DEPTH || h > PALETTE_HEIGHT {
        return None;
      }
      box := AddObject(w, d, h);
    }

    /** One item of addObjects: tried both ways; its snapped box appended, or a no-room failure. */
    method PlaceItem(it: Item, failures: seq<Failure>) returns (failures': seq<Failure>)
      requires Valid()
      modifies this, stack
      ensures Valid()
      ensures BatchState(stack.layers, objects, failures') ==
              Step(SupportPlace(threshold), Snapped, BatchState(old(stack.layers), old(objects), failures), it)
      ensures queue == old(queue) && threshold == old(threshold)
    {
      ghost var s := BatchState(stack.layers, objects, failures);
      StepRests(SupportPlace(threshold), s, it);
      failures' := failures;
      var pos, rotated := TryPlace(stack, objects, threshold, it);
      StepBy(SupportPlace(threshold), Snapped, s, it, Attempt(pos, rotated, stack.layers));
      if pos.None? {
        failures' := failures + [Failure(it.origIndex, NoRoom)];
      } else {
        var ww := if rotated then it.d else it.w;
        var dd := if rotated then it.w else it.d;
        var hh := it.h;
        var p := pos.value;
        var info := FindSupportYUnder(objects, p.x, p.z, ww, dd);
        var b := Box(p.x, info.supportY + Qt(hh) / 2, p.z, ww, dd, hh);
        assert b == Snapped(objects, p, ww, dd, hh);
        objects := objects + [b];
      }
    }

    /** addObjects: validate the list, place the valid items in order, report failures. */
    method AddObjects(list: seq<RawItem>) returns (report: Report)
      requires Valid()
      modifies this, stack
      ensures Valid()
      ensures var r := AddAll(SupportPlace(threshold), Snapped, old(stack.layers), old(objects), list);
        stack.layers == r.layers && objects == r.objects && report == Report(InputFailures(list), r.failures)
      ensures queue == old(queue) && threshold == old(threshold)
    {
      var items, inputFailures := ValidateList(list);
      if items == [] {
        return Report(inputFailures, []);
      }
      var areaOrder := SortItems(items, true);
      ghost var s0 := BatchState(stack.layers, objects, []);
      var failures: seq<Failure> := [];
      var k := 0;
      while k < |areaOrder|
        invariant 0 <= k <= |areaOrder|
        invariant BatchState(stack.layers, objects, failures) == Run(SupportPlace(threshold), Snapped, s0, areaOrder[..k])
        invariant queue == old(queue) && threshold == old(threshold)
        invariant Valid()
      {
        RunSnoc(SupportPlace(threshold), Snapped, s0, areaOrder, k);
        failures := PlaceItem(areaOrder[k], failures);
        k := k + 1;
      }
      assert areaOrder[..k] == areaOrder;
      report := Report(inputFailures, failures);
    }

    /** The list button: it carries two click handlers, and each parses the text and calls
        addObjects, so one click places the same list twice in a row. */
    method AddObjectsButton(list: seq<RawItem>) returns (first: Report, second: Report)
      requires Valid()
      modifies this, stack
      ensures Valid()
      ensures var r1 := AddAll(SupportPlace(threshold), Snapped, old(stack.layers), old(objects), list);
        var r2 := AddAll(SupportPlace(threshold), Snapped, r1.layers, r1.objects, list);
        && stack.layers == r2.layers && objects == r2.objects
        && first == Report(InputFailures(list), r1.failures)
        && second == Report(InputFailures(list), r2.failures)
      ensures queue == old(queue) && threshold == old(threshold)
    {
      first := AddObjects(list);
      second := AddObjects(list);
    }

    /** removeObject: out of range, nothing changes; otherwise the pallet is emptied to one
        fresh layer and the other boxes are placed again as a batch. */
    method RemoveObject(index: int)
      requires Valid()
      modifies this, stack
      ensures Valid()
      ensures !(0 <= index < |old(objects)|) ==> objects == old(objects) && stack.layers == old(stack.layers)
      ensures 0 <= index < |old(objects)| ==>
        var r := AddAll(SupportPlace(threshold), Snapped, [CreateNewLayer(PaletteTop, 0)], [], Remaining(old(objects), index));
        objects == r.objects && stack.layers == r.layers
      ensures queue == old(queue) && threshold == old(threshold)
    {
      if index < 0 || index >= |objects| {
        return;
      }
      var remaining := RemainingRequests(objects, index);
      objects := [];
      stack.layers := [CreateNewLayer(PaletteTop, 0)];
      if |remaining| > 0 {
        var _ := AddObjects(remaining);
      }
    }

    /** clearAll: no boxes, one fresh layer; the queue stays. */
    method ClearAll()
      modifies this, stack
      ensures Valid()
      ensures objects == [] && stack.layers == [CreateNewLayer(PaletteTop, 0)]
      ensures queue == old(queue) && threshold == old(threshold)
    {
      objects := [];
      stack.layers := [CreateNewLayer(PaletteTop, 0)];
    }

    /** The clear button: both of its handlers run, so besides clearAll the queue is emptied. */
    method ClearButton()
      modifies this, stack
      ensures Valid()
      ensures objects == [] && stack.layers == [CreateNewLayer(PaletteTop, 0)] && queue == []
      ensures threshold == old(threshold)
    {
      ClearAll();
      objects := [];
      stack.layers := [CreateNewLayer(PaletteTop, 0)];
      queue := [];
    }

    /** The queue-load handler: the queue becomes the valid entries, in list order. */
    method LoadQueue(list: seq<RawItem>)
      modifies this
      ensures queue == ValidItems(list)
      ensures objects == old(objects) && threshold == old(threshold)
    {
      var items := NormalizeListToItems(list);
      queue := items;
    }

    /** placeNextFromQueue: an empty queue changes nothing; otherwise the head leaves the
        queue and is placed as one batch step would place it. */
    method PlaceNextFromQueue() returns (placed: bool)
      requires Valid()
      modifies this, stack
      ensures Valid()
      ensures old(queue) == [] ==> !placed && queue == [] && objects == old(objects) && stack.layers == old(stack.layers)
      ensures old(queue) != [] ==>
        var s := Step(SupportPlace(threshold), Snapped, BatchState(old(stack.layers), old(objects), []), old(queue)[0]);
        && queue == old(queue)[1..]
        && stack.layers == s.layers && objects == s.objects
        && placed == (s.failures == [])
      ensures threshold == old(threshold)
    {
      if |queue| == 0 {
        return false;
      }
      var it := queue[0];
      queue := queue[1..];
      var failures := PlaceItem(it, []);
      placed := failures == [];
    }
  }
}
