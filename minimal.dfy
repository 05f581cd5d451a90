/** The batch driver and the interactive operations of the minimal engine: placement by
    first fit with guillotine splits, a placed box resting on its layer's base; removal
    replays the remaining boxes from an empty pallet; the simulation runs a batch on a copy
    of the layers. */
module Minimal {
  import opened Pallet
  import opened Ledger
  import opened Batch
  import opened Driver
  import Guillotine

  /** The minimal engine's attempt: first fit on the layers; the boxes are not consulted. */
  function MinimalPlace(ls: seq<Layer>, objs: seq<Box>, w: int, d: int, h: int): Outcome
  {
    Guillotine.Place(ls, w, d, h)
  }

  /** The minimal engine's box for a w×d×h item placed at p: centred at p in plan, its base
      on p's elevation (the layer base), whatever lies below. */
  function OnLayerBase(objs: seq<Box>, p: Placement, w: int, d: int, h: int): (b: Box)
    ensures Bottom(b) == p.y && Top(b) == p.y + Qt(h)
    ensures Footprint(b) == FootprintAt(p.x, p.z, w, d)
    ensures Extents(b) == (w, d, h)
  {
    assert Qt(h) / 2 == 2 * h;
    Box(p.x, p.y + Qt(h) / 2, p.z, w, d, h)
  }

  /** The turned orientation is used only when the given one fails and the turned one
      succeeds; the item fails only when no rectangle holds it either way and it is too tall
      for a new layer, and then the layers are unchanged. */
  lemma TryBothSpec(ls: seq<Layer>, objs: seq<Box>, it: Item)
    ensures var a := TryBoth(MinimalPlace, ls, objs, it);
      && (!a.rotated && a.pos.Some? ==> Outcome(a.pos, a.layers) == Guillotine.Place(ls, it.w, it.d, it.h))
      && (a.rotated ==> Guillotine.Place(ls, it.w, it.d, it.h).pos.None?
                        && Outcome(a.pos, a.layers) == Guillotine.Place(ls, it.d, it.w, it.h))
      && (a.pos.None? <==> Guillotine.NoFit(ls, it.w, it.d) && Guillotine.NoFit(ls, it.d, it.w)
                           && CurrentTop(ls) + Qt(it.h) > PaletteMaxTop)
      && (a.pos.None? ==> a.layers == ls && !a.rotated)
  {
    Guillotine.PlaceFails(ls, it.w, it.d, it.h);
    Guillotine.PlaceFails(ls, it.d, it.w, it.h);
  }

  /** Both orientations of a placeable item keep the free space sound: the turned one is
      tried only after the given one failed, and then the item is too tall for a new layer. */
  lemma TryBothSound(ls: seq<Layer>, objs: seq<Box>, it: Item)
    requires LedgerSound(ls) && Placeable(it)
    ensures LedgerSound(TryBoth(MinimalPlace, ls, objs, it).layers)
  {
    Guillotine.PlaceFails(ls, it.w, it.d, it.h);
    Guillotine.PlaceSound(ls, it.w, it.d, it.h);
    if Guillotine.Place(ls, it.w, it.d, it.h).pos.None? {
      Guillotine.PlaceSound(ls, it.d, it.w, it.h);
    }
  }

  /** The minimal engine keeps the free space sound. */
  lemma MinimalKeepsSound()
    ensures KeepsSound(MinimalPlace)
  {
    forall ls, objs, it | LedgerSound(ls) && Placeable(it)
      ensures LedgerSound(TryBoth(MinimalPlace, ls, objs, it).layers)
    {
      TryBothSound(ls, objs, it);
    }
  }

  /** Every box a minimal-engine batch adds has its item's extents, plan extents possibly
      swapped. */
  lemma MinimalBoxes(s: BatchState, order: seq<Item>)
    ensures forall k :: 0 <= k < |Run(MinimalPlace, OnLayerBase, s, order).objects| ==>
      var b := Run(MinimalPlace, OnLayerBase, s, order).objects[k];
      b in s.objects || exists m :: 0 <= m < |order| && OfItem(b, order[m])
  {
    RunBoxes(MinimalPlace, OnLayerBase, s, order);
  }

  /** What the simulation reports for one item. */
  datatype SimStep = SimStep(index: nat, placed: bool, rotated: bool, pos: Option<Placement>)

  /** The steps of placing order one after another with the attempt place on a copy of ls
      (no boxes: the copy has layers only), and the copy after. */
  function Simulate(place: Placer, ls: seq<Layer>, order: seq<Item>): (seq<Layer>, seq<SimStep>)
  {
    if order == [] then (ls, [])
    else
      var (ls0, steps) := Simulate(place, ls, order[..|order| - 1]);
      var it := order[|order| - 1];
      var a := TryBoth(place, ls0, [], it);
      (a.layers, steps + [SimStep(it.origIndex, a.pos.Some?, a.rotated, a.pos)])
  }

  /** The no-room failures that a list of steps predicts. */
  function FailedSteps(steps: seq<SimStep>): seq<Failure>
  {
    if steps == [] then []
    else FailedSteps(steps[..|steps| - 1])
         + (if steps[|steps| - 1].placed then [] else [Failure(steps[|steps| - 1].index, NoRoom)])
  }

  /** An attempt that does not consult the boxes. */
  ghost predicate IgnoresBoxes(place: Placer)
  {
    forall ls, os, w, d, h :: place(ls, os, w, d, h) == place(ls, [], w, d, h)
  }

  /** The simulation gives one step per item, in order, naming the item. */
  lemma {:induction false} SimulateSteps(place: Placer, ls: seq<Layer>, order: seq<Item>)
    ensures |Simulate(place, ls, order).1| == |order|
    ensures forall k :: 0 <= k < |order| ==> Simulate(place, ls, order).1[k].index == order[k].origIndex
  {
    if order != [] {
      var n := |order| - 1;
      SimulateSteps(place, ls, order[..n]);
      assert forall k :: 0 <= k < n ==> Simulate(place, ls, order).1[k] == Simulate(place, ls, order[..n]).1[k];
    }
  }

  /** For an attempt that does not consult the boxes, the simulation predicts the batch: run
      on the same order it ends on the same layers, and its unplaced steps are exactly the
      failures the batch would record. */
  lemma {:induction false} SimulateRun(place: Placer, commit: Committer, s: BatchState, order: seq<Item>)
    requires IgnoresBoxes(place)
    ensures var (ls, steps) := Simulate(place, s.layers, order);
      && ls == Run(place, commit, s, order).layers
      && Run(place, commit, s, order).failures == s.failures + FailedSteps(steps)
  {
    if order != [] {
      var n := |order| - 1;
      var pre, it := order[..n], order[n];
      SimulateRun(place, commit, s, pre);
      var r0 := Run(place, commit, s, pre);
      var sim0 := Simulate(place, s.layers, pre);
      var a := TryBoth(place, sim0.0, [], it);
      assert a == TryBoth(place, r0.layers, r0.objects, it);
      var steps := sim0.1 + [SimStep(it.origIndex, a.pos.Some?, a.rotated, a.pos)];
      assert steps[..|sim0.1|] == sim0.1;
      assert FailedSteps(steps) == FailedSteps(sim0.1) + (if a.pos.Some? then [] else [Failure(it.origIndex, NoRoom)]);
    }
  }

  /** The minimal engine's simulation predicts its batch. */
  lemma SimulateAgrees(s: BatchState, order: seq<Item>)
    ensures var (ls, steps) := Simulate(MinimalPlace, s.layers, order);
      && ls == Run(MinimalPlace, OnLayerBase, s, order).layers
      && |steps| == |order|
      && (forall k :: 0 <= k < |order| ==> steps[k].index == order[k].origIndex)
      && Run(MinimalPlace, OnLayerBase, s, order).failures == s.failures + FailedSteps(steps)
  {
    assert IgnoresBoxes(MinimalPlace);
    SimulateRun(MinimalPlace, OnLayerBase, s, order);
    SimulateSteps(MinimalPlace, s.layers, order);
  }

  /** simulatePlacement: the validated entries by plan area alone, on a copy of ls. */
  function SimulatePlacementSpec(ls: seq<Layer>, list: seq<RawItem>): seq<SimStep>
  {
    Simulate(MinimalPlace, ls, SortItems(ValidItems(list), false)).1
  }

  /** Both orientations tried on stack, in place (objs: the boxes the attempt is for). */
  method TryPlace(stack: LayerStack, it: Item, ghost objs: seq<Box>) returns (pos: Option<Placement>, rotated: bool)
    modifies stack
    ensures Attempt(pos, rotated, stack.layers) == TryBoth(MinimalPlace, old(stack.layers), objs, it)
  {
    pos := Guillotine.FindPlacementInLayers(stack, it.w, it.d, it.h);
    rotated := false;
    if pos.None? {
      pos := Guillotine.FindPlacementInLayers(stack, it.d, it.w, it.h);
      if pos.Some? {
        rotated := true;
      }
    }
  }

  /** cloneLayers: a new layer list with the same contents. */
  method CloneLayers(src: LayerStack) returns (copy: LayerStack)
    ensures fresh(copy)
    ensures copy.layers == src.layers
  {
    copy := new LayerStack(src.layers);
  }

  /** The input and placement failures a batch reports. */
  datatype Report = Report(inputFailures: seq<Failure>, failures: seq<Failure>)

  /** The minimal engine's state: the boxes on the pallet, the layer list, the queue. */
  class Palette {
    var objects: seq<Box>
    const stack: LayerStack
    var queue: seq<Item>

    /** Start-up: no boxes, one empty layer on the pallet top, an empty queue. */
    constructor ()
      ensures fresh(stack)
      ensures objects == [] && queue == []
      ensures stack.layers == [CreateNewLayer(PaletteTop, 0)]
    {
      objects := [];
      queue := [];
      stack := new LayerStack([CreateNewLayer(PaletteTop, 0)]);
    }

    /** addObject: one w×d×h item, not rotated; on success its box is appended. */
    method AddObject(w: int, d: int, h: int) returns (box: Option<Box>)
      modifies this, stack
      ensures var o := Guillotine.Place(old(stack.layers), w, d, h);
        && stack.layers == o.layers
        && box == (if o.pos.Some? then Some(OnLayerBase(old(objects), o.pos.value, w, d, h)) else None)
        && objects == old(objects) + (if box.Some? then [box.value] else [])
      ensures queue == old(queue)
    {
      var pos := Guillotine.FindPlacementInLayers(stack, w, d, h);
      if pos.None? {
        return None;
      }
      var p := pos.value;
      var b := Box(p.x, p.y + Qt(h) / 2, p.z, w, d, h);
      objects := objects + [b];
      box := Some(b);
    }

    /** addObjects: validate the list, place the valid items in order, report failures. */
    method AddObjects(list: seq<RawItem>) returns (report: Report)
      modifies this, stack
      ensures var r := AddAll(MinimalPlace, OnLayerBase, old(stack.layers), old(objects), list);
        stack.layers == r.layers && objects == r.objects && report == Report(InputFailures(list), r.failures)
      ensures queue == old(queue)
    {
      var items, inputFailures := ValidateList(list);
      if items == [] {
        return Report(inputFailures, []);
      }
      var areaOrder := SortItems(items, true);
      var failures: seq<Failure> := [];
      var k := 0;
      while k < |areaOrder|
        invariant 0 <= k <= |areaOrder|
        invariant BatchState(stack.layers, objects, failures) ==
                  Run(MinimalPlace, OnLayerBase, BatchState(old(stack.layers), old(objects), []), areaOrder[..k])
        invariant queue == old(queue)
      {
        RunSnoc(MinimalPlace, OnLayerBase, BatchState(old(stack.layers), old(objects), []), areaOrder, k);
        failures := PlaceItem(areaOrder[k], failures);
        k := k + 1;
      }
      assert areaOrder[..k] == areaOrder;
      report := Report(inputFailures, failures);
    }

    /** One item of addObjects: tried both ways; its box appended, or a no-room failure. */
    method PlaceItem(it: Item, failures: seq<Failure>) returns (failures': seq<Failure>)
      modifies this, stack
      ensures BatchState(stack.layers, objects, failures') ==
              Step(MinimalPlace, OnLayerBase, BatchState(old(stack.layers), old(objects), failures), it)
      ensures queue == old(queue)
    {
      failures' := failures;
      var pos, rotated := TryPlace(stack, it, objects);
      if pos.None? {
        failures' := failures + [Failure(it.origIndex, NoRoom)];
      } else {
        var ww := if rotated then it.d else it.w;
        var dd := if rotated then it.w else it.d;
        var hh := it.h;
        var p := pos.value;
        objects := objects + [Box(p.x, p.y + Qt(hh) / 2, p.z, ww, dd, hh)];
      }
    }

    /** simulatePlacement: what the batch would do, by plan area alone, on a copy of the
        layers; nothing of the palette changes. */
    method SimulatePlacement(list: seq<RawItem>) returns (steps: seq<SimStep>)
      ensures steps == SimulatePlacementSpec(stack.layers, list)
    {
      var items := NormalizeListToItems(list);
      var order := SortItems(items, false);
      var layersCopy := CloneLayers(stack);
      steps := [];
      var k := 0;
      while k < |order|
        invariant 0 <= k <= |order|
        invariant (layersCopy.layers, steps) == Simulate(MinimalPlace, stack.layers, order[..k])
      {
        var it := order[k];
        assert order[..k + 1][..k] == order[..k];
        var pos, rotated := TryPlace(layersCopy, it, []);
        steps := steps + [SimStep(it.origIndex, pos.Some?, rotated, pos)];
        k := k + 1;
      }
      assert order[..k] == order;
    }

    /** removeObject: out of range, nothing changes; otherwise the pallet is emptied to one
        fresh layer and the other boxes are placed again as a batch. */
    method RemoveObject(index: int)
      modifies this, stack
      ensures !(0 <= index < |old(objects)|) ==> objects == old(objects) && stack.layers == old(stack.layers)
      ensures 0 <= index < |old(objects)| ==>
        var r := AddAll(MinimalPlace, OnLayerBase, [CreateNewLayer(PaletteTop, 0)], [], Remaining(old(objects), index));
        objects == r.objects && stack.layers == r.layers
      ensures queue == old(queue)
    {
      if index < 0 || index >= |objects| {
        return;
      }
      var remaining := RemainingRequests(objects, index);
      objects := [];
      stack.layers := [CreateNewLayer(PaletteTop, 0)];
      if |remaining| > 0 {
        var _ := AddObjects(remaining);
      }
    }

    /** clearAll: no boxes, one fresh layer; the queue stays. */
    method ClearAll()
      modifies this, stack
      ensures objects == [] && stack.layers == [CreateNewLayer(PaletteTop, 0)]
      ensures queue == old(queue)
    {
      objects := [];
      stack.layers := [CreateNewLayer(PaletteTop, 0)];
    }

    /** loadQueueFromTextarea: the queue becomes the valid entries, in list order. */
    method LoadQueue(list: seq<RawItem>)
      modifies this
      ensures queue == ValidItems(list)
      ensures objects == old(objects)
    {
      var items := NormalizeListToItems(list);
      queue := items;
    }

    /** placeNextFromQueue: an empty queue changes nothing; otherwise the head leaves the
        queue and is placed as one batch step would place it. */
    method PlaceNextFromQueue() returns (placed: bool)
      modifies this, stack
      ensures old(queue) == [] ==> !placed && queue == [] && objects == old(objects) && stack.layers == old(stack.layers)
      ensures old(queue) != [] ==>
        var s := Step(MinimalPlace, OnLayerBase, BatchState(old(stack.layers), old(objects), []), old(queue)[0]);
        && queue == old(queue)[1..]
        && stack.layers == s.layers && objects == s.objects
        && placed == (s.failures == [])
    {
      if |queue| == 0 {
        return false;
      }
      var it := queue[0];
      queue := queue[1..];
      var failures := PlaceItem(it, []);
      placed := failures == [];
    }
  }
}
