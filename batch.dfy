/** The batch driver's input side, shared by both engines: validation of raw requests, the
    normalised item records, and the placement order (a stable sort, pallet-width-matching
    items first and then plan area descending, or plan area alone). */
module Batch {
  import opened Pallet

  /** A raw request as parsed: each extent in whole centimetres, None where it was not a number. */
  datatype RawItem = RawItem(width: Option<int>, depth: Option<int>, height: Option<int>)

  /** Why an entry was not placed. */
  datatype Reason = InvalidDimensions | TooLarge | NoRoom

  /** A failure record: index of the entry in the request list, and the reason. */
  datatype Failure = Failure(index: nat, reason: Reason)

  /** A validated item: its index in the request list, extents in centimetres, and plan area. */
  datatype Item = Item(origIndex: nat, w: int, d: int, h: int, area: int)

  /** Outcome of validating one entry. */
  datatype Checked = Accepted(item: Item) | Rejected(reason: Reason)

  /** Validation of entry i: an unparseable extent rejects it as invalid, whatever the others
      are; otherwise an extent above the pallet's rejects it as too large; otherwise it is
      accepted with its own index, extents and plan area. Negative extents pass. */
  function Validate(raw: RawItem, i: nat): (c: Checked)
    ensures c == Rejected(InvalidDimensions) <==> raw.width.None? || raw.depth.None? || raw.height.None?
    ensures c == Rejected(TooLarge) <==>
      && raw.width.Some? && raw.depth.Some? && raw.height.Some?
      && (raw.width.value > PALETTE_WIDTH || raw.depth.value > PALETTE_DEPTH || raw.height.value > PALETTE_HEIGHT)
    ensures c.Accepted? ==>
      && raw.width.Some? && raw.depth.Some? && raw.height.Some?
      && c.item == Item(i, raw.width.value, raw.depth.value, raw.height.value, raw.width.value * raw.depth.value)
      && c.item.w <= PALETTE_WIDTH && c.item.d <= PALETTE_DEPTH && c.item.h <= PALETTE_HEIGHT
  {
    if raw.width.None? || raw.depth.None? || raw.height.None? then Rejected(InvalidDimensions)
    else
      var w, d, h := raw.width.value, raw.depth.value, raw.height.value;
      if w > PALETTE_WIDTH || d > PALETTE_DEPTH || h > PALETTE_HEIGHT then Rejected(TooLarge)
      else Accepted(Item(i, w, d, h, w * d))
  }

  /** The accepted items of a request list, in list order. */
  function ValidItems(list: seq<RawItem>): seq<Item>
  {
    if list == [] then []
    else
      var n := |list| - 1;
      ValidItems(list[..n]) + match Validate(list[n], n) { case Accepted(it) => [it] case Rejected(_) => [] }
  }

  /** The validation failures of a request list, in list order. */
  function InputFailures(list: seq<RawItem>): seq<Failure>
  {
    if list == [] then []
    else
      var n := |list| - 1;
      InputFailures(list[..n]) + match Validate(list[n], n) { case Accepted(_) => [] case Rejected(why) => [Failure(n, why)] }
  }

  lemma {:induction false} ValidItemsSpec(list: seq<RawItem>)
    ensures forall k :: 0 <= k < |ValidItems(list)| ==>
      var it := ValidItems(list)[k];
      it.origIndex < |list| && Validate(list[it.origIndex], it.origIndex) == Accepted(it)
    ensures forall k, m :: 0 <= k < m < |ValidItems(list)| ==> ValidItems(list)[k].origIndex < ValidItems(list)[m].origIndex
    ensures forall i :: 0 <= i < |list| && Validate(list[i], i).Accepted? ==>
      exists k :: 0 <= k < |ValidItems(list)| && ValidItems(list)[k].origIndex == i
  {
    if list != [] {
      var n := |list| - 1;
      var pre := list[..n];
      ValidItemsSpec(pre);
      var vs := ValidItems(pre);
      var all := ValidItems(list);
      assert all[..|vs|] == vs;
      forall k | 0 <= k < |all|
        ensures all[k].origIndex < |list| && Validate(list[all[k].origIndex], all[k].origIndex) == Accepted(all[k])
      {
        if k < |vs| {
          assert all[k] == vs[k] && list[vs[k].origIndex] == pre[vs[k].origIndex];
        }
      }
      forall i | 0 <= i < |list| && Validate(list[i], i).Accepted?
        ensures exists k :: 0 <= k < |all| && all[k].origIndex == i
      {
        if i < n {
          assert list[i] == pre[i];
          var k :| 0 <= k < |vs| && vs[k].origIndex == i;
          assert all[k] == vs[k];
        } else {
          assert all[|vs|].origIndex == i;
        }
      }
    }
  }

  lemma {:induction false} InputFailuresSpec(list: seq<RawItem>)
    ensures forall k :: 0 <= k < |InputFailures(list)| ==>
      var f := InputFailures(list)[k];
      f.index < |list| && Validate(list[f.index], f.index) == Rejected(f.reason)
    ensures forall k, m :: 0 <= k < m < |InputFailures(list)| ==> InputFailures(list)[k].index < InputFailures(list)[m].index
    ensures forall i :: 0 <= i < |list| && Validate(list[i], i).Rejected? ==>
      exists k :: 0 <= k < |InputFailures(list)| && InputFailures(list)[k].index == i
  {
    if list != [] {
      var n := |list| - 1;
      var pre := list[..n];
      InputFailuresSpec(pre);
      var fs := InputFailures(pre);
      var all := InputFailures(list);
      assert all[..|fs|] == fs;
      forall k | 0 <= k < |all|
        ensures all[k].index < |list| && Validate(list[all[k].index], all[k].index) == Rejected(all[k].reason)
      {
        if k < |fs| {
          assert all[k] == fs[k] && list[fs[k].index] == pre[fs[k].index];
        }
      }
      forall i | 0 <= i < |list| && Validate(list[i], i).Rejected?
        ensures exists k :: 0 <= k < |all| && all[k].index == i
      {
        if i < n {
          assert list[i] == pre[i];
          var k :| 0 <= k < |fs| && fs[k].index == i;
          assert all[k] == fs[k];
        } else {
          assert all[|fs|].index == i;
        }
      }
    }
  }

  lemma {:induction false} ValidationCount(list: seq<RawItem>)
    ensures |ValidItems(list)| + |InputFailures(list)| == |list|
  {
    if list != [] {
      ValidationCount(list[..|list| - 1]);
    }
  }

  /** Validation splits the list: each entry is either an item (carrying its own index, as
      validated, in increasing index order) or a failure (with its own reason), never both. */
  lemma ValidationPartition(list: seq<RawItem>)
    ensures |ValidItems(list)| + |InputFailures(list)| == |list|
    ensures forall k :: 0 <= k < |ValidItems(list)| ==>
      var it := ValidItems(list)[k];
      it.origIndex < |list| && Validate(list[it.origIndex], it.origIndex) == Accepted(it)
    ensures forall k :: 0 <= k < |InputFailures(list)| ==>
      var f := InputFailures(list)[k];
      f.index < |list| && Validate(list[f.index], f.index) == Rejected(f.reason)
    ensures forall k, m :: 0 <= k < m < |ValidItems(list)| ==> ValidItems(list)[k].origIndex < ValidItems(list)[m].origIndex
    ensures forall k, m :: 0 <= k < m < |InputFailures(list)| ==> InputFailures(list)[k].index < InputFailures(list)[m].index
    ensures forall i :: 0 <= i < |list| && Validate(list[i], i).Accepted? ==>
      exists k :: 0 <= k < |ValidItems(list)| && ValidItems(list)[k].origIndex == i
    ensures forall i :: 0 <= i < |list| && Validate(list[i], i).Rejected? ==>
      exists k :: 0 <= k < |InputFailures(list)| && InputFailures(list)[k].index == i
  {
    ValidationCount(list);
    ValidItemsSpec(list);
    InputFailuresSpec(list);
  }

  /** The validation loop of addObjects: items and failures, both in list order. */
  method ValidateList(list: seq<RawItem>) returns (items: seq<Item>, inputFailures: seq<Failure>)
    ensures items == ValidItems(list)
    ensures inputFailures == InputFailures(list)
  {
    items, inputFailures := [], [];
    var i := 0;
    while i < |list|
      invariant 0 <= i <= |list|
      invariant items == ValidItems(list[..i])
      invariant inputFailures == InputFailures(list[..i])
    {
      var it := list[i];
      assert list[..i + 1][..i] == list[..i];
      if it.width.None? || it.depth.None? || it.height.None? {
        inputFailures := inputFailures + [Failure(i, InvalidDimensions)];
      } else if it.width.value > PALETTE_WIDTH || it.depth.value > PALETTE_DEPTH || it.height.value > PALETTE_HEIGHT {
        inputFailures := inputFailures + [Failure(i, TooLarge)];
      } else {
        var w, d, h := it.width.value, it.depth.value, it.height.value;
        items := items + [Item(i, w, d, h, w * d)];
      }
      i := i + 1;
    }
    assert list[..i] == list;
  }

  /** normalizeListToItems: the accepted items alone, in list order. */
  method NormalizeListToItems(list: seq<RawItem>) returns (items: seq<Item>)
    ensures items == ValidItems(list)
  {
    items := [];
    var i := 0;
    while i < |list|
      invariant 0 <= i <= |list|
      invariant items == ValidItems(list[..i])
    {
      var it := list[i];
      assert list[..i + 1][..i] == list[..i];
      if it.width.Some? && it.depth.Some? && it.height.Some?
         && !(it.width.value > PALETTE_WIDTH || it.depth.value > PALETTE_DEPTH || it.height.value > PALETTE_HEIGHT)
      {
        var w, d, h := it.width.value, it.depth.value, it.height.value;
        items := items + [Item(i, w, d, h, w * d)];
      }
      i := i + 1;
    }
    assert list[..i] == list;
  }

  /** The item has a side equal to the pallet width. */
  predicate FullWidth(it: Item)
  {
    Max(it.w, it.d) == PALETTE_WIDTH || Min(it.w, it.d) == PALETTE_WIDTH
  }

  /** a goes strictly before b under the sort comparator: with fullWidthFirst, a full-width
      item before one that is not; otherwise (and within each class) larger plan area first. */
  predicate Precedes(a: Item, b: Item, fullWidthFirst: bool)
  {
    if fullWidthFirst && FullWidth(a) != FullWidth(b) then FullWidth(a) else a.area > b.area
  }

  /** Neither of a and b goes before the other. */
  predicate SameRank(a: Item, b: Item, fullWidthFirst: bool)
  {
    !Precedes(a, b, fullWidthFirst) && !Precedes(b, a, fullWidthFirst)
  }

  /** No item goes strictly before an earlier one. */
  ghost predicate Sorted(s: seq<Item>, f: bool)
  {
    forall i, j :: 0 <= i < j < |s| ==> !Precedes(s[j], s[i], f)
  }

  /** Items of the same rank appear in increasing request-list order. */
  ghost predicate Stable(s: seq<Item>, f: bool)
  {
    forall i, j :: 0 <= i < j < |s| && SameRank(s[i], s[j], f) ==> s[i].origIndex < s[j].origIndex
  }

  /** Insert x into s just before the first item x strictly precedes. */
  function Insert(x: Item, s: seq<Item>, f: bool): seq<Item>
  {
    if s == [] then [x]
    else if Precedes(x, s[0], f) then [x] + s
    else [s[0]] + Insert(x, s[1..], f)
  }

  /** The stable sort of s under the comparator (the order the engine's sort produces). */
  function SortItems(s: seq<Item>, f: bool): seq<Item>
  {
    if s == [] then [] else Insert(s[|s| - 1], SortItems(s[..|s| - 1], f), f)
  }

  /** Insert adds exactly x: every element of the result is x or an element of s. */
  lemma {:induction false} InsertMembers(x: Item, s: seq<Item>, f: bool)
    ensures multiset(Insert(x, s, f)) == multiset(s) + multiset{x}
    ensures |Insert(x, s, f)| == |s| + 1
    ensures forall j :: 0 <= j < |Insert(x, s, f)| ==>
      Insert(x, s, f)[j] == x || exists k :: 0 <= k < |s| && s[k] == Insert(x, s, f)[j]
  {
    if s != [] && !Precedes(x, s[0], f) {
      InsertMembers(x, s[1..], f);
      assert s == [s[0]] + s[1..];
      var t := Insert(x, s, f);
      forall j | 0 < j < |t| && t[j] != x
        ensures exists k :: 0 <= k < |s| && s[k] == t[j]
      {
        var k :| 0 <= k < |s[1..]| && s[1..][k] == t[j];
        assert s[k + 1] == t[j];
      }
    }
  }

  /** Prepending an item that no later one goes before keeps a sequence sorted. */
  lemma SortedCons(a: Item, u: seq<Item>, f: bool)
    requires Sorted(u, f)
    requires forall j :: 0 <= j < |u| ==> !Precedes(u[j], a, f)
    ensures Sorted([a] + u, f)
  {
    var t := [a] + u;
    forall i, j | 0 <= i < j < |t|
      ensures !Precedes(t[j], t[i], f)
    {
      assert t[j] == u[j - 1];
      if i > 0 {
        assert t[i] == u[i - 1];
      }
    }
  }

  /** Prepending an item whose same-rank successors all come later in the request list keeps
      a sequence stable. */
  lemma StableCons(a: Item, u: seq<Item>, f: bool)
    requires Stable(u, f)
    requires forall j :: 0 <= j < |u| && SameRank(a, u[j], f) ==> a.origIndex < u[j].origIndex
    ensures Stable([a] + u, f)
  {
    var t := [a] + u;
    forall i, j | 0 <= i < j < |t| && SameRank(t[i], t[j], f)
      ensures t[i].origIndex < t[j].origIndex
    {
      assert t[j] == u[j - 1];
      if i > 0 {
        assert t[i] == u[i - 1];
      }
    }
  }

  lemma {:induction false} InsertSorted(x: Item, s: seq<Item>, f: bool)
    requires Sorted(s, f)
    ensures Sorted(Insert(x, s, f), f)
  {
    if s == [] {
    } else if Precedes(x, s[0], f) {
      forall j | 0 <= j < |s|
        ensures !Precedes(s[j], x, f)
      {
        if j > 0 {
          assert !Precedes(s[j], s[0], f);
        }
      }
      SortedCons(x, s, f);
    } else {
      var tail := s[1..];
      assert forall i, j :: 0 <= i < j < |tail| ==> tail[i] == s[i + 1] && tail[j] == s[j + 1];
      InsertSorted(x, tail, f);
      InsertMembers(x, tail, f);
      var u := Insert(x, tail, f);
      forall j | 0 <= j < |u|
        ensures !Precedes(u[j], s[0], f)
      {
        if u[j] != x {
          var k :| 0 <= k < |tail| && tail[k] == u[j];
          assert u[j] == s[k + 1];
        }
      }
      SortedCons(s[0], u, f);
    }
  }

  lemma {:induction false} InsertStable(x: Item, s: seq<Item>, f: bool)
    requires Sorted(s, f) && Stable(s, f)
    requires forall k :: 0 <= k < |s| ==> s[k].origIndex < x.origIndex
    ensures Stable(Insert(x, s, f), f)
  {
    if s == [] {
    } else if Precedes(x, s[0], f) {
      forall j | 0 <= j < |s|
        ensures !SameRank(x, s[j], f)
      {
        if j > 0 {
          assert !Precedes(s[j], s[0], f);
        }
      }
      StableCons(x, s, f);
    } else {
      var tail := s[1..];
      assert forall i, j :: 0 <= i < j < |tail| ==> tail[i] == s[i + 1] && tail[j] == s[j + 1];
      InsertStable(x, tail, f);
      InsertMembers(x, tail, f);
      var u := Insert(x, tail, f);
      forall j | 0 <= j < |u| && SameRank(s[0], u[j], f)
        ensures s[0].origIndex < u[j].origIndex
      {
        if u[j] != x {
          var k :| 0 <= k < |tail| && tail[k] == u[j];
          assert u[j] == s[k + 1];
        }
      }
      StableCons(s[0], u, f);
    }
  }

  lemma {:induction false} SortItemsMembers(s: seq<Item>, f: bool)
    ensures multiset(SortItems(s, f)) == multiset(s)
    ensures |SortItems(s, f)| == |s|
  {
    if s != [] {
      var n := |s| - 1;
      assert s == s[..n] + [s[n]];
      SortItemsMembers(s[..n], f);
      InsertMembers(s[n], SortItems(s[..n], f), f);
    }
  }

  lemma {:induction false} SortItemsSorted(s: seq<Item>, f: bool)
    ensures Sorted(SortItems(s, f), f)
  {
    if s != [] {
      var n := |s| - 1;
      SortItemsSorted(s[..n], f);
      InsertSorted(s[n], SortItems(s[..n], f), f);
    }
  }

  lemma {:induction false} SortItemsStable(s: seq<Item>, f: bool)
    requires forall i, j :: 0 <= i < j < |s| ==> s[i].origIndex < s[j].origIndex
    ensures Stable(SortItems(s, f), f)
  {
    if s != [] {
      var n := |s| - 1;
      var pre := s[..n];
      assert forall i, j :: 0 <= i < j < |pre| ==> pre[i] == s[i] && pre[j] == s[j];
      SortItemsStable(pre, f);
      SortItemsSorted(pre, f);
      SortItemsBelow(pre, f, s[n].origIndex);
      InsertStable(s[n], SortItems(pre, f), f);
    }
  }

  /** A bound on the request-list indices of the input bounds those of the sorted output. */
  lemma SortItemsBelow(s: seq<Item>, f: bool, bound: int)
    requires forall k :: 0 <= k < |s| ==> s[k].origIndex < bound
    ensures forall k :: 0 <= k < |SortItems(s, f)| ==> SortItems(s, f)[k].origIndex < bound
  {
    SortItemsMembers(s, f);
    var r := SortItems(s, f);
    forall k | 0 <= k < |r|
      ensures r[k].origIndex < bound
    {
      assert r[k] in multiset(s);
    }
  }

  /** The sort returns a permutation of its input, ordered by the comparator, and when the
      input is in request-list order it keeps items of the same rank in that order. */
  lemma SortItemsSpec(s: seq<Item>, f: bool)
    ensures multiset(SortItems(s, f)) == multiset(s)
    ensures |SortItems(s, f)| == |s|
    ensures Sorted(SortItems(s, f), f)
    ensures (forall i, j :: 0 <= i < j < |s| ==> s[i].origIndex < s[j].origIndex) ==> Stable(SortItems(s, f), f)
  {
    SortItemsMembers(s, f);
    SortItemsSorted(s, f);
    if forall i, j :: 0 <= i < j < |s| ==> s[i].origIndex < s[j].origIndex {
      SortItemsStable(s, f);
    }
  }

  /** With fullWidthFirst, the full-width items come first, and within each class plan area
      never increases; with area alone, plan area never increases. */
  lemma SortOrder(s: seq<Item>, f: bool)
    ensures var r := SortItems(s, f);
      && (f ==> forall i, j :: 0 <= i < j < |r| && FullWidth(r[j]) ==> FullWidth(r[i]))
      && (forall i, j :: 0 <= i < j < |r| && (!f || FullWidth(r[i]) == FullWidth(r[j])) ==> r[i].area >= r[j].area)
  {
    SortItemsSpec(s, f);
  }

  /** The request a placed box is replayed as: its placed extents, all parseable. */
  function RawOf(b: Box): RawItem
  {
    RawItem(Some(b.width), Some(b.depth), Some(b.height))
  }

  /** The replay list after removing object index: every other box, in order. */
  function Remaining(objs: seq<Box>, index: nat): (rs: seq<RawItem>)
    requires index < |objs|
    ensures |rs| == |objs| - 1
    ensures forall k :: 0 <= k < |rs| ==> rs[k] == RawOf(objs[if k < index then k else k + 1])
  {
    var others := objs[..index] + objs[index + 1..];
    seq(|others|, k requires 0 <= k < |others| => RawOf(others[k]))
  }

  /** The loop of removeObject that lists the boxes other than index as requests. */
  method RemainingRequests(objs: seq<Box>, index: nat) returns (remaining: seq<RawItem>)
    requires index < |objs|
    ensures remaining == Remaining(objs, index)
  {
    remaining := [];
    var i := 0;
    while i < |objs|
      invariant 0 <= i <= |objs|
      invariant |remaining| == if i <= index then i else i - 1
      invariant forall k :: 0 <= k < |remaining| ==> remaining[k] == RawOf(objs[if k < index then k else k + 1])
    {
      if i != index {
        remaining := remaining + [RawOf(objs[i])];
      }
      i := i + 1;
    }
  }
}
