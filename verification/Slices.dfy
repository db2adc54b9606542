/**
  Cutting the elements of the selected lists of a vector into slices of vector capacity
  (expression_evaluator/list_slice_info.cpp) and the loop that works through them
  (expression_evaluator/lambda_evaluator.cpp).
 */
module Slices {
  const DEFAULT_VECTOR_CAPACITY: nat := 2048
  const INVALID_OFFSET: nat := 0xFFFF_FFFF_FFFF_FFFF

  /** A row of a list vector; a NULL row still holds some offset and size. */
  datatype Row = Row(offset: nat, size: nat, isNull: bool)

  /** An element of a list: the row of the list and its place in the data vector. */
  datatype Item = Item(listEntryPos: nat, dataOffset: nat)

  predicate InBounds(rows: seq<Row>, order: seq<nat>) {
    forall i :: 0 <= i < |order| ==> order[i] < |rows|
  }

  /* ----- what is to be worked through ----- */

  /** The elements of one list from its `from`-th on. */
  function ItemsFrom(rows: seq<Row>, pos: nat, from: nat): (r: seq<Item>)
    requires pos < |rows|
    ensures |r| == if rows[pos].isNull || from >= rows[pos].size then 0 else rows[pos].size - from
    ensures forall i :: 0 <= i < |r| ==> r[i] == Item(pos, rows[pos].offset + from + i)
    decreases rows[pos].size - from
  {
    if rows[pos].isNull || from >= rows[pos].size then []
    else [Item(pos, rows[pos].offset + from)] + ItemsFrom(rows, pos, from + 1)
  }

  /** The elements of the lists of the given rows, list by list. */
  function Items(rows: seq<Row>, order: seq<nat>): seq<Item>
    requires InBounds(rows, order)
  {
    if order == [] then [] else ItemsFrom(rows, order[0], 0) + Items(rows, order[1..])
  }

  /* ----- rows in the order of their offsets ----- */

  predicate Sorted(rows: seq<Row>, order: seq<nat>)
    requires InBounds(rows, order)
  {
    forall i, j :: 0 <= i < j < |order| ==> rows[order[i]].offset <= rows[order[j]].offset
  }

  /** Any arrangement of `order` that is sorted by offset. */
  ghost predicate SortedBy(rows: seq<Row>, order: seq<nat>, sorted: seq<nat>) {
    InBounds(rows, sorted) && multiset(sorted) == multiset(order) && Sorted(rows, sorted)
  }

  function Insert(rows: seq<Row>, pos: nat, order: seq<nat>): (r: seq<nat>)
    requires pos < |rows| && InBounds(rows, order) && Sorted(rows, order)
    ensures SortedBy(rows, [pos] + order, r)
    ensures |r| == |order| + 1
    ensures r[0] == pos || (order != [] && r[0] == order[0])
  {
    if order == [] || rows[pos].offset <= rows[order[0]].offset then
      assert multiset([pos] + order) == multiset{pos} + multiset(order);
      [pos] + order
    else
      var rest := Insert(rows, pos, order[1..]);
      InsertSorted(rows, pos, order, rest);
      [order[0]] + rest
  }

  lemma {:induction false} InsertSorted(rows: seq<Row>, pos: nat, order: seq<nat>, rest: seq<nat>)
    requires pos < |rows| && InBounds(rows, order) && Sorted(rows, order) && order != []
    requires rows[pos].offset > rows[order[0]].offset && SortedBy(rows, [pos] + order[1..], rest)
    ensures SortedBy(rows, [pos] + order, [order[0]] + rest)
  {
    var r := [order[0]] + rest;
    assert order == [order[0]] + order[1..];
    assert multiset(r) == multiset{order[0]} + multiset(rest);
    forall i | 0 <= i < |rest| ensures rows[order[0]].offset <= rows[rest[i]].offset {
      assert rest[i] in multiset(rest);
      assert rest[i] in [pos] + order[1..];
    }
  }

  function Sort(rows: seq<Row>, order: seq<nat>): (r: seq<nat>)
    requires InBounds(rows, order)
    ensures SortedBy(rows, order, r)
  {
    if order == [] then []
    else
      var rest := Sort(rows, order[1..]);
      assert order == [order[0]] + order[1..];
      assert multiset([order[0]] + rest) == multiset{order[0]} + multiset(rest);
      Insert(rows, order[0], rest)
  }

  /* ----- the tracker ----- */

  class ListEntryTracker {
    const rows: seq<Row>
    const listEntries: seq<nat>
    var listEntryIdx: nat
    var offsetInList: nat

    ghost predicate Valid()
      reads this
    {
      && InBounds(rows, listEntries) && listEntryIdx <= |listEntries|
      && (listEntryIdx < |listEntries| ==>
            && !rows[listEntries[listEntryIdx]].isNull
            && offsetInList < rows[listEntries[listEntryIdx]].size)
    }

    /** The elements that have not been handed out. */
    ghost function Left(): seq<Item>
      requires Valid()
      reads this
    {
      LeftFrom(rows, listEntries, listEntryIdx, offsetInList)
    }

    constructor (rows: seq<Row>, selection: seq<nat>)
      requires InBounds(rows, selection)
      ensures Valid() && this.rows == rows && SortedBy(rows, selection, listEntries)
      ensures Left() == Items(rows, listEntries)
    {
      this.rows := rows;
      listEntries := Sort(rows, selection);
      listEntryIdx, offsetInList := 0, 0;
      new;
      UpdateListEntry();
      WholeList(rows, listEntries, 0);
    }

    predicate Done()
      reads this
    {
      listEntryIdx >= |listEntries|
    }

    /** Moves on to a list with an element, if there is one. */
    method UpdateListEntry()
      requires InBounds(rows, listEntries) && listEntryIdx <= |listEntries| && offsetInList == 0
      modifies this`listEntryIdx
      ensures Valid() && LeftFrom(rows, listEntries, listEntryIdx, 0) == old(LeftFrom(rows, listEntries, listEntryIdx, 0))
    {
      while true
        invariant listEntryIdx <= |listEntries|
        invariant LeftFrom(rows, listEntries, listEntryIdx, 0) == old(LeftFrom(rows, listEntries, listEntryIdx, 0))
        decreases |listEntries| - listEntryIdx
      {
        if listEntryIdx >= |listEntries| {
          break;
        }
        var row := rows[listEntries[listEntryIdx]];
        if !row.isNull && row.size > 0 {
          break;
        }
        NextList(rows, listEntries, listEntryIdx, 0);
        listEntryIdx := listEntryIdx + 1;
      }
    }

    /** Moves on by one element and tells where it is in the data vector. */
    method GetNextDataOffset() returns (dataOffset: nat)
      requires Valid() && !Done()
      modifies this
      ensures Valid() && Left() == old(Left())[1..]
      ensures dataOffset == if Left() == [] then INVALID_OFFSET else Left()[0].dataOffset
    {
      FirstLeft(rows, listEntries, listEntryIdx, offsetInList);
      offsetInList := offsetInList + 1;
      if offsetInList >= rows[listEntries[listEntryIdx]].size {
        NextList(rows, listEntries, listEntryIdx, offsetInList);
        listEntryIdx := listEntryIdx + 1;
        offsetInList := 0;
        UpdateListEntry();
        if Done() {
          return INVALID_OFFSET;
        }
      }
      FirstLeft(rows, listEntries, listEntryIdx, offsetInList);
      return rows[listEntries[listEntryIdx]].offset + offsetInList;
    }
  }

  /** The elements from the `from`-th one of list `idx` on. */
  ghost function LeftFrom(rows: seq<Row>, order: seq<nat>, idx: nat, from: nat): seq<Item>
    requires InBounds(rows, order)
  {
    if idx >= |order| then [] else ItemsFrom(rows, order[idx], from) + Items(rows, order[idx + 1..])
  }

  lemma {:induction false} WholeList(rows: seq<Row>, order: seq<nat>, idx: nat)
    requires InBounds(rows, order) && idx <= |order|
    ensures LeftFrom(rows, order, idx, 0) == Items(rows, order[idx..])
  {
    if idx < |order| { assert order[idx..][1..] == order[idx + 1..]; }
  }

  lemma {:induction false} NextList(rows: seq<Row>, order: seq<nat>, idx: nat, from: nat)
    requires InBounds(rows, order) && idx < |order| && (rows[order[idx]].isNull || from >= rows[order[idx]].size)
    ensures LeftFrom(rows, order, idx, from) == LeftFrom(rows, order, idx + 1, 0)
  {
    WholeList(rows, order, idx + 1);
    assert [] + Items(rows, order[idx + 1..]) == Items(rows, order[idx + 1..]);
  }

  lemma {:induction false} FirstLeft(rows: seq<Row>, order: seq<nat>, idx: nat, from: nat)
    requires InBounds(rows, order) && idx < |order| && !rows[order[idx]].isNull && from < rows[order[idx]].size
    ensures var left := LeftFrom(rows, order, idx, from);
            && left != [] && left[0] == Item(order[idx], rows[order[idx]].offset + from)
            && left[1..] == LeftFrom(rows, order, idx, from + 1)
  {
    var now := ItemsFrom(rows, order[idx], from);
    assert now[1..] == ItemsFrom(rows, order[idx], from + 1);
    assert (now + Items(rows, order[idx + 1..]))[1..] == now[1..] + Items(rows, order[idx + 1..]);
  }

  /* ----- slices ----- */

  class ListSliceInfo {
    const listEntryTracker: ListEntryTracker
    var dataSel: seq<nat>
    var listEntrySel: seq<nat>

    ghost predicate Valid()
      reads this, listEntryTracker
    {
      listEntryTracker.Valid() && |dataSel| == |listEntrySel|
    }

    constructor (rows: seq<Row>, selection: seq<nat>)
      requires InBounds(rows, selection)
      ensures Valid() && fresh(listEntryTracker) && listEntryTracker.rows == rows
      ensures SortedBy(rows, selection, listEntryTracker.listEntries)
      ensures listEntryTracker.Left() == Items(rows, listEntryTracker.listEntries)
    {
      listEntryTracker := new ListEntryTracker(rows, selection);
      dataSel, listEntrySel := [], [];
    }

    ghost function Slice(): seq<Item>
      requires |dataSel| == |listEntrySel|
      reads this
    {
      Pairs(listEntrySel, dataSel)
    }

    /** Fills the selections with the next elements, as many as fit. */
    method NextSlice()
      requires Valid()
      modifies this, listEntryTracker
      ensures Valid() && Slice() + listEntryTracker.Left() == old(listEntryTracker.Left())
      ensures |Slice()| <= DEFAULT_VECTOR_CAPACITY
      ensures listEntryTracker.Left() != [] ==> |Slice()| == DEFAULT_VECTOR_CAPACITY
      ensures old(listEntryTracker.Left()) != [] ==> Slice() != []
    {
      dataSel, listEntrySel := [], [];
      ghost var left := listEntryTracker.Left();
      assert [] + left == left;
      while !listEntryTracker.Done() && |dataSel| < DEFAULT_VECTOR_CAPACITY
        invariant Valid() && |Slice()| == |dataSel| <= DEFAULT_VECTOR_CAPACITY
        invariant Slice() + listEntryTracker.Left() == left
        decreases DEFAULT_VECTOR_CAPACITY - |dataSel|
      {
        AddElement();
      }
      var t := listEntryTracker;
      LeftEmpty(t.rows, t.listEntries, t.listEntryIdx, t.offsetInList);
    }

    /** Moves one element from what is left to the slice. */
    method AddElement()
      requires Valid() && !listEntryTracker.Done()
      modifies this, listEntryTracker
      ensures Valid() && |dataSel| == old(|dataSel|) + 1
      ensures Slice() + listEntryTracker.Left() == old(Slice() + listEntryTracker.Left())
    {
      var t := listEntryTracker;
      FirstLeft(t.rows, t.listEntries, t.listEntryIdx, t.offsetInList);
      var pos := t.listEntries[t.listEntryIdx];
      var offset := t.rows[pos].offset + t.offsetInList;
      ghost var slice, left := Slice(), t.Left();
      PairsSnoc(listEntrySel, dataSel, pos, offset);
      dataSel := dataSel + [offset];
      listEntrySel := listEntrySel + [pos];
      var _ := t.GetNextDataOffset();
      Regroup(slice, left);
    }
  }

  lemma {:induction false} Regroup(a: seq<Item>, b: seq<Item>)
    requires b != []
    ensures a + [b[0]] + b[1..] == a + b
  {
  }

  ghost function Pairs(a: seq<nat>, b: seq<nat>): (r: seq<Item>)
    requires |a| == |b|
    ensures |r| == |a|
  {
    if a == [] then [] else Pairs(a[..|a| - 1], b[..|a| - 1]) + [Item(a[|a| - 1], b[|a| - 1])]
  }

  lemma {:induction false} PairsSnoc(a: seq<nat>, b: seq<nat>, x: nat, y: nat)
    requires |a| == |b|
    ensures Pairs(a + [x], b + [y]) == Pairs(a, b) + [Item(x, y)]
  {
    assert (a + [x])[..|a|] == a && (b + [y])[..|a|] == b;
  }

  function Concat(slices: seq<seq<Item>>): seq<Item> {
    if slices == [] then [] else Concat(slices[..|slices| - 1]) + slices[|slices| - 1]
  }

  /**
    The slices worked through: put together they are all elements of all selected lists that are
    not NULL, list by list in the order of their offsets; none exceeds the capacity and only the
    last may fall short of it.
   */
  method EvaluateSlices(rows: seq<Row>, selection: seq<nat>) returns (slices: seq<seq<Item>>, ghost order: seq<nat>)
    requires InBounds(rows, selection)
    ensures SortedBy(rows, selection, order) && Concat(slices) == Items(rows, order)
    ensures AllFull(slices, true)
  {
    var info := new ListSliceInfo(rows, selection);
    var t := info.listEntryTracker;
    order := t.listEntries;
    var slice := TakeNext(info);
    slices := [slice];
    assert Concat(slices) == slice by { assert slices[..0] == []; }
    while !t.Done()
      invariant fresh(info) && fresh(t) && t == info.listEntryTracker && info.Valid()
      invariant Concat(slices) + t.Left() == Items(rows, order)
      invariant AllFull(slices, t.Left() == [])
      invariant t.Done() <==> t.Left() == []
      decreases |t.Left()|
    {
      slice := TakeNext(info);
      ConcatSnoc(slices, slice, t.Left());
      FullSnoc(slices, slice, t.Left() == []);
      slices := slices + [slice];
    }
  }

  /** One turn of the loop. */
  method TakeNext(info: ListSliceInfo) returns (slice: seq<Item>)
    requires info.Valid()
    modifies info, info.listEntryTracker
    ensures var t := info.listEntryTracker;
            && info.Valid() && slice + t.Left() == old(t.Left()) && (t.Done() <==> t.Left() == [])
            && |slice| <= DEFAULT_VECTOR_CAPACITY && (t.Left() != [] ==> |slice| == DEFAULT_VECTOR_CAPACITY)
            && (old(t.Left()) != [] ==> slice != [])
  {
    info.NextSlice();
    slice := TakeSlice(info);
    var t := info.listEntryTracker;
    LeftEmpty(t.rows, t.listEntries, t.listEntryIdx, t.offsetInList);
  }

  /** All slices are full, the last one perhaps not when it ends the run. */
  ghost predicate AllFull(slices: seq<seq<Item>>, ended: bool) {
    && slices != []
    && (forall i :: 0 <= i < |slices| - 1 ==> |slices[i]| == DEFAULT_VECTOR_CAPACITY)
    && |slices[|slices| - 1]| <= DEFAULT_VECTOR_CAPACITY
    && (!ended ==> |slices[|slices| - 1]| == DEFAULT_VECTOR_CAPACITY)
  }

  lemma {:induction false} FullSnoc(slices: seq<seq<Item>>, slice: seq<Item>, ended: bool)
    requires AllFull(slices, false) && |slice| <= DEFAULT_VECTOR_CAPACITY && (!ended ==> |slice| == DEFAULT_VECTOR_CAPACITY)
    ensures AllFull(slices + [slice], ended)
  {
  }

  lemma {:induction false} ConcatSnoc(slices: seq<seq<Item>>, slice: seq<Item>, rest: seq<Item>)
    ensures Concat(slices + [slice]) + rest == Concat(slices) + (slice + rest)
  {
    assert (slices + [slice])[..|slices|] == slices;
  }

  lemma {:induction false} LeftEmpty(rows: seq<Row>, order: seq<nat>, idx: nat, from: nat)
    requires InBounds(rows, order) && (idx < |order| ==> !rows[order[idx]].isNull && from < rows[order[idx]].size)
    ensures LeftFrom(rows, order, idx, from) == [] <==> idx >= |order|
  {
    if idx < |order| { FirstLeft(rows, order, idx, from); }
  }

  /** What a lambda function sees of a slice. */
  method TakeSlice(info: ListSliceInfo) returns (slice: seq<Item>)
    requires |info.dataSel| == |info.listEntrySel|
    ensures slice == info.Slice()
  {
    slice := [];
    for i := 0 to |info.dataSel|
      invariant slice == Pairs(info.listEntrySel[..i], info.dataSel[..i])
    {
      PairsSnoc(info.listEntrySel[..i], info.dataSel[..i], info.listEntrySel[i], info.dataSel[i]);
      assert info.listEntrySel[..i] + [info.listEntrySel[i]] == info.listEntrySel[..i + 1];
      assert info.dataSel[..i] + [info.dataSel[i]] == info.dataSel[..i + 1];
      slice := slice + [Item(info.listEntrySel[i], info.dataSel[i])];
    }
    assert info.listEntrySel[..|info.dataSel|] == info.listEntrySel && info.dataSel[..|info.dataSel|] == info.dataSel;
  }

  /* ----- each element once ----- */

  predicate Selected(rows: seq<Row>, selection: seq<nat>, item: Item)
    requires InBounds(rows, selection)
  {
    && item.listEntryPos in selection
    && var row := rows[item.listEntryPos];
    !row.isNull && row.offset <= item.dataOffset < row.offset + row.size
  }

  /** Exactly the elements of the selected lists occur, ... */
  lemma {:induction false} ItemsAreSelected(rows: seq<Row>, order: seq<nat>, item: Item)
    requires InBounds(rows, order)
    ensures item in Items(rows, order) <==> Selected(rows, order, item)
  {
    if order != [] {
      ItemsAreSelected(rows, order[1..], item);
      var first := ItemsFrom(rows, order[0], 0);
      if item.listEntryPos == order[0] && Selected(rows, order, item) {
        assert first[item.dataOffset - rows[order[0]].offset] == item;
      }
      assert item in first ==> item.listEntryPos == order[0] && Selected(rows, order, item);
    }
  }

  /** ... and each once, if no row is selected twice. */
  lemma {:induction false} ItemsOnce(rows: seq<Row>, order: seq<nat>)
    requires InBounds(rows, order) && forall i, j :: 0 <= i < j < |order| ==> order[i] != order[j]
    ensures forall i, j :: 0 <= i < j < |Items(rows, order)| ==> Items(rows, order)[i] != Items(rows, order)[j]
  {
    if order != [] {
      var first, rest := ItemsFrom(rows, order[0], 0), Items(rows, order[1..]);
      ItemsOnce(rows, order[1..]);
      forall i, j | 0 <= i < |first| && 0 <= j < |rest| ensures first[i] != rest[j] {
        ItemsAreSelected(rows, order[1..], rest[j]);
        assert rest[j] in rest;
      }
      assert Items(rows, order) == first + rest;
    }
  }

  /* ----- in the order of the data vector ----- */

  ghost predicate Increasing(items: seq<Item>) {
    forall i, j :: 0 <= i < j < |items| ==> items[i].dataOffset < items[j].dataOffset
  }

  ghost predicate AllBefore(a: seq<Item>, b: seq<Item>) {
    forall i, j :: 0 <= i < |a| && 0 <= j < |b| ==> a[i].dataOffset < b[j].dataOffset
  }

  lemma {:induction false} IncreasingConcat(a: seq<Item>, b: seq<Item>)
    ensures Increasing(a + b) <==> Increasing(a) && Increasing(b) && AllBefore(a, b)
  {
    var all := a + b;
    if Increasing(all) {
      assert forall i :: 0 <= i < |a| ==> all[i] == a[i];
      assert forall j :: 0 <= j < |b| ==> all[|a| + j] == b[j];
    }
  }

  predicate HasItems(row: Row) { !row.isNull && row.size > 0 }

  predicate Overlap(a: Row, b: Row) {
    HasItems(a) && HasItems(b) && a.offset < b.offset + b.size && b.offset < a.offset + a.size
  }

  /** No two of the lists share an element of the data vector. */
  predicate Apart(rows: seq<Row>, order: seq<nat>)
    requires InBounds(rows, order)
  {
    forall i, j :: 0 <= i < j < |order| ==> !Overlap(rows[order[i]], rows[order[j]])
  }

  /** A list comes before all later ones exactly when it overlaps none of them. */
  lemma {:induction false} FirstBefore(rows: seq<Row>, order: seq<nat>)
    requires order != [] && InBounds(rows, order) && Sorted(rows, order)
    ensures AllBefore(ItemsFrom(rows, order[0], 0), Items(rows, order[1..]))
       <==> forall j :: 0 < j < |order| ==> !Overlap(rows[order[0]], rows[order[j]])
  {
    var first, rest := ItemsFrom(rows, order[0], 0), Items(rows, order[1..]);
    var row := rows[order[0]];
    if j :| 0 < j < |order| && Overlap(row, rows[order[j]]) {
      var item := Item(order[j], rows[order[j]].offset);
      assert order[1..][j - 1] == order[j];
      ItemsAreSelected(rows, order[1..], item);
      var k :| 0 <= k < |rest| && rest[k] == item;
      assert first[|first| - 1].dataOffset >= rest[k].dataOffset;
    } else {
      forall i, k | 0 <= i < |first| && 0 <= k < |rest| ensures first[i].dataOffset < rest[k].dataOffset {
        ItemsAreSelected(rows, order[1..], rest[k]);
        var j :| 0 <= j < |order[1..]| && order[1..][j] == rest[k].listEntryPos;
        assert order[j + 1] == rest[k].listEntryPos;
      }
    }
  }

  /** Over the whole run the data offsets increase if and only if no two selected lists overlap. */
  lemma {:induction false} OffsetsIncrease(rows: seq<Row>, order: seq<nat>)
    requires InBounds(rows, order) && Sorted(rows, order)
    ensures Increasing(Items(rows, order)) <==> Apart(rows, order)
  {
    if order != [] {
      OffsetsIncrease(rows, order[1..]);
      IncreasingConcat(ItemsFrom(rows, order[0], 0), Items(rows, order[1..]));
      FirstBefore(rows, order);
      ApartCons(rows, order);
    }
  }

  lemma {:induction false} ApartCons(rows: seq<Row>, order: seq<nat>)
    requires order != [] && InBounds(rows, order)
    ensures Apart(rows, order) <==>
            Apart(rows, order[1..]) && forall j :: 0 < j < |order| ==> !Overlap(rows[order[0]], rows[order[j]])
  {
    if Apart(rows, order[1..]) {
      forall i, j | 0 < i < j < |order| ensures !Overlap(rows[order[i]], rows[order[j]]) {
        assert order[i] == order[1..][i - 1] && order[j] == order[1..][j - 1];
      }
    }
  }
}
