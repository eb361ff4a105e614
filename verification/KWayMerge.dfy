/**
 The compaction merge: a hand-built binary heap over the current record of every input.
 It emits one record per key, in key order, always the newest version, and refuses exactly
 those inputs that disagree about one (key, sequence number).
 */
module KWayMerge {
  import opened RaftTypes
  import opened LsmTypes

  datatype Item = Item(entry: Version, input: nat)

  predicate ItemLess(a: Item, b: Item) {
    if a.entry.key != b.entry.key then KeyLess(a.entry.key, b.entry.key)
    else if a.entry.seq_ != b.entry.seq_ then a.entry.seq_ > b.entry.seq_
    else a.input < b.input
  }

  lemma ItemTotal(a: Item, b: Item)
    ensures
      || ItemLess(a, b) || ItemLess(b, a)
      || (a.entry.key == b.entry.key && a.entry.seq_ == b.entry.seq_ && a.input == b.input)
    ensures !(ItemLess(a, b) && ItemLess(b, a))
  {
    hide KeyLess;
    KeyTotal(a.entry.key, b.entry.key);
  }

  /** The complement of the strict order is transitive. */
  lemma NotLessTransitive(a: Item, b: Item, c: Item)
    requires !ItemLess(b, a) && !ItemLess(c, b)
    ensures !ItemLess(c, a)
  {
    hide KeyLess;
    KeyTotal(a.entry.key, b.entry.key);
    KeyTotal(b.entry.key, c.entry.key);
    KeyTotal(a.entry.key, c.entry.key);
    if KeyLess(a.entry.key, b.entry.key) && KeyLess(b.entry.key, c.entry.key) {
      KeyTransitive(a.entry.key, b.entry.key, c.entry.key);
    }
  }

  // ----- The heap -----

  function Parent(i: nat): nat
    requires i > 0
  {
    (i - 1) / 2
  }

  /** The item at i is no smaller than its parent. */
  predicate Ordered(heap: seq<Item>, i: nat)
    requires i < |heap|
  {
    i > 0 ==> !ItemLess(heap[i], heap[Parent(i)])
  }

  /** Every item except possibly the one at `hole` is in order with its parent. */
  ghost predicate HeapBut(heap: seq<Item>, hole: int) {
    forall i: nat :: i < |heap| && i != hole ==> Ordered(heap, i)
  }

  ghost predicate IsHeap(heap: seq<Item>) { HeapBut(heap, -1) }

  lemma {:induction false} RootIsLeast(heap: seq<Item>, i: nat)
    requires IsHeap(heap) && i < |heap|
    ensures !ItemLess(heap[i], heap[0])
    decreases i
  {
    hide ItemLess;
    if i == 0 {
      ItemTotal(heap[0], heap[0]);
    } else {
      RootIsLeast(heap, Parent(i));
      assert Ordered(heap, i);
      NotLessTransitive(heap[0], heap[Parent(i)], heap[i]);
    }
  }

  /** The item at i is no smaller than the parent of the hole, its own parent. */
  predicate OverHole(heap: seq<Item>, hole: nat, i: nat)
    requires i < |heap| && 0 < hole < |heap|
  {
    i > 0 && Parent(i) == hole ==> !ItemLess(heap[i], heap[Parent(hole)])
  }

  /** While sifting up, the children of the hole are no smaller than the hole's parent. */
  ghost predicate UpOk(heap: seq<Item>, hole: nat) {
    0 < hole < |heap| ==> forall i: nat :: i < |heap| ==> OverHole(heap, hole, i)
  }

  function Swap(heap: seq<Item>, i: nat, j: nat): (r: seq<Item>)
    requires i < |heap| && j < |heap|
    ensures |r| == |heap| && multiset(r) == multiset(heap)
    ensures r[i] == heap[j] && r[j] == heap[i] && forall k :: 0 <= k < |heap| && k != i && k != j ==> r[k] == heap[k]
  {
    heap[i := heap[j]][j := heap[i]]
  }

  lemma SwapUp(heap: seq<Item>, index: nat)
    requires 0 < index < |heap| && HeapBut(heap, index) && UpOk(heap, index)
    requires ItemLess(heap[index], heap[Parent(index)])
    ensures var p := Parent(index); HeapBut(Swap(heap, index, p), p) && UpOk(Swap(heap, index, p), p)
  {
    hide ItemLess;
    var p := Parent(index);
    var next := Swap(heap, index, p);
    hide Swap;
    ItemTotal(heap[p], heap[index]);
    forall i: nat | i < |next| && i != p ensures Ordered(next, i) {
      assert i != index ==> Ordered(heap, i);
      assert OverHole(heap, index, i);
      if i > 0 && i != index && Parent(i) == p { NotLessTransitive(heap[index], heap[p], heap[i]); }
    }
    if p > 0 {
      forall i: nat | i < |next| ensures OverHole(next, p, i) {
        assert i != index ==> Ordered(heap, i);
        assert Ordered(heap, p);
        if i > 0 && i != index && Parent(i) == p { NotLessTransitive(heap[Parent(p)], heap[p], heap[i]); }
      }
    }
  }

  method Push(start: seq<Item>, item: Item) returns (heap: seq<Item>)
    requires IsHeap(start)
    ensures IsHeap(heap) && multiset(heap) == multiset(start) + multiset{item}
  {
    heap := start + [item];
    var index := |heap| - 1;
    assert HeapBut(heap, index) by {
      forall i: nat | i < |heap| && i != index ensures Ordered(heap, i) { assert Ordered(start, i); }
    }
    hide ItemLess, Swap;
    while index != 0
      invariant 0 <= index < |heap|
      invariant HeapBut(heap, index) && UpOk(heap, index)
      invariant multiset(heap) == multiset(start) + multiset{item}
      decreases index
    {
      var parent := Parent(index);
      if !ItemLess(heap[index], heap[parent]) { break; }
      SwapUp(heap, index);
      heap := Swap(heap, index, parent);
      index := parent;
    }
    assert Ordered(heap, index);
  }

  /** Every item whose parent is not the hole is in order. */
  ghost predicate HeapUnder(heap: seq<Item>, hole: nat) {
    forall i: nat :: i < |heap| && (i > 0 ==> Parent(i) != hole) ==> Ordered(heap, i)
  }

  /** The smaller child of the hole, or none. */
  function SmallerChild(heap: seq<Item>, hole: nat): (c: Option<nat>)
    requires hole < |heap|
    ensures c.Some? ==> hole < c.value < |heap| && Parent(c.value) == hole
  {
    var left := 2 * hole + 1;
    if left >= |heap| then None
    else if left + 1 < |heap| && ItemLess(heap[left + 1], heap[left]) then Some(left + 1)
    else Some(left)
  }

  lemma SmallerChildIs(heap: seq<Item>, hole: nat, i: nat)
    requires hole < |heap| && 0 < i < |heap| && Parent(i) == hole
    ensures var c := SmallerChild(heap, hole); c.Some? && !ItemLess(heap[i], heap[c.value])
  {
    hide ItemLess;
    var left := 2 * hole + 1;
    assert i == left || i == left + 1;
    ItemTotal(heap[left], heap[left]);
    if left + 1 < |heap| {
      ItemTotal(heap[left], heap[left + 1]);
      ItemTotal(heap[left + 1], heap[left + 1]);
    }
  }

  lemma SwapDown(heap: seq<Item>, hole: nat)
    requires hole < |heap| && HeapUnder(heap, hole) && UpOk(heap, hole) && SmallerChild(heap, hole).Some?
    requires ItemLess(heap[SmallerChild(heap, hole).value], heap[hole])
    ensures var c := SmallerChild(heap, hole).value; HeapUnder(Swap(heap, hole, c), c) && UpOk(Swap(heap, hole, c), c)
  {
    var c := SmallerChild(heap, hole).value;
    hide ItemLess, SmallerChild;
    var next := Swap(heap, hole, c);
    hide Swap;
    ItemTotal(heap[c], heap[hole]);
    forall i: nat | i < |next| && (i > 0 ==> Parent(i) != c) ensures Ordered(next, i) {
      if i > 0 {
        if Parent(i) == hole {
          if i != c { SmallerChildIs(heap, hole, i); }
        } else {
          assert Ordered(heap, i);
          if i == hole { assert OverHole(heap, hole, c); }
        }
      }
    }
    forall i: nat | i < |next| ensures OverHole(next, c, i) {
      if i > 0 && Parent(i) == c { assert Ordered(heap, i); }
    }
  }

  lemma SettledDown(heap: seq<Item>, hole: nat)
    requires hole < |heap| && HeapUnder(heap, hole)
    requires var c := SmallerChild(heap, hole); c.None? || !ItemLess(heap[c.value], heap[hole])
    ensures IsHeap(heap)
  {
    hide ItemLess, SmallerChild;
    forall i: nat | i < |heap| ensures Ordered(heap, i) {
      if i > 0 && Parent(i) == hole {
        SmallerChildIs(heap, hole, i);
        NotLessTransitive(heap[hole], heap[SmallerChild(heap, hole).value], heap[i]);
      }
    }
  }

  method Pop(start: seq<Item>) returns (item: Item, heap: seq<Item>)
    requires IsHeap(start) && start != []
    ensures item == start[0] && IsHeap(heap) && multiset(heap) + multiset{item} == multiset(start)
    ensures forall other :: other in start ==> !ItemLess(other, item)
  {
    hide ItemLess;
    item := start[0];
    var last := |start| - 1;
    forall other | other in start ensures !ItemLess(other, item) {
      var i :| 0 <= i < |start| && start[i] == other;
      RootIsLeast(start, i);
    }
    heap := start[0 := start[last]][..last];
    DropLast(start);
    if last == 0 { return; }
    var index := 0;
    assert HeapUnder(heap, 0) by {
      forall i: nat | i < |heap| && (i > 0 ==> Parent(i) != 0) ensures Ordered(heap, i) { assert Ordered(start, i); }
    }
    hide Swap, SmallerChild;
    while true
      invariant 0 <= index < |heap| == last
      invariant HeapUnder(heap, index) && UpOk(heap, index)
      invariant multiset(heap) + multiset{item} == multiset(start)
      decreases |heap| - index
    {
      var smallest := SmallerChild(heap, index);
      if smallest == None || !ItemLess(heap[smallest.value], heap[index]) {
        SettledDown(heap, index);
        return;
      }
      SwapDown(heap, index);
      heap := Swap(heap, index, smallest.value);
      index := smallest.value;
    }
  }

  lemma DropLast(start: seq<Item>)
    requires start != []
    ensures multiset(start[0 := start[|start| - 1]][..|start| - 1]) + multiset{start[0]} == multiset(start)
  {
    var last := |start| - 1;
    var moved := start[0 := start[last]];
    assert moved == moved[..last] + [moved[last]];
    assert start == start[..last] + [start[last]];
    if last > 0 {
      assert moved[..last] == start[..last][0 := start[last]];
    }
  }

  // ----- The merge state -----

  /** Every record not yet emitted: the heap's and those still to be read from the inputs. */
  ghost function Rest(heap: seq<Item>, inputs: seq<seq<Version>>): set<Version> {
    (set item | item in heap :: item.entry) + (set i, v | 0 <= i < |inputs| && v in inputs[i] :: v)
  }

  function Unread(inputs: seq<seq<Version>>): nat {
    if inputs == [] then 0 else Unread(inputs[..|inputs| - 1]) + |inputs[|inputs| - 1]|
  }

  /** The record precedes everything its input still holds. */
  ghost predicate Leads(item: Item, inputs: seq<seq<Version>>) {
    item.input < |inputs| && forall v :: v in inputs[item.input] ==> Before(item.entry, v)
  }

  ghost predicate HeapHolds(heap: seq<Item>, input: nat) { exists item :: item in heap && item.input == input }

  /** The heap holds at most one item of each input. */
  ghost predicate OnePerInput(items: multiset<Item>) {
    && (forall a, b :: a in items && b in items && a.input == b.input ==> a == b)
    && (forall a :: a in items ==> items[a] == 1)
  }

  ghost predicate Merging(heap: seq<Item>, inputs: seq<seq<Version>>) {
    && IsHeap(heap)
    && (forall i :: 0 <= i < |inputs| ==> SortedTable(inputs[i]))
    && (forall item :: item in heap ==> Leads(item, inputs))
    && OnePerInput(multiset(heap))
    && (forall i: nat :: i < |inputs| && inputs[i] != [] ==> HeapHolds(heap, i))
  }

  /** No record still to come has a smaller key than the one at the root. */
  lemma RootHasLeastKey(heap: seq<Item>, inputs: seq<seq<Version>>, v: Version)
    requires Merging(heap, inputs) && v in Rest(heap, inputs)
    ensures heap != [] && !KeyLess(v.key, heap[0].entry.key)
  {
    hide KeyLess, IsHeap, SortedTable;
    if item :| item in heap && item.entry == v {
      var i :| 0 <= i < |heap| && heap[i] == item;
      RootIsLeast(heap, i);
      KeyTotal(v.key, heap[0].entry.key);
    } else {
      var i: nat :| i < |inputs| && v in inputs[i];
      assert HeapHolds(heap, i);
      var item :| item in heap && item.input == i;
      var j :| 0 <= j < |heap| && heap[j] == item;
      RootIsLeast(heap, j);
      assert Before(item.entry, v);
      var a, b, c := heap[0].entry.key, item.entry.key, v.key;
      KeyTotal(a, b);
      KeyTotal(b, c);
      KeyTotal(a, c);
      if KeyLess(c, a) && KeyLess(b, c) { KeyTransitive(b, c, a); }
    }
  }

  /** What is left once the root has been popped and before its input is read again. */
  ghost predicate Popped(heap: seq<Item>, inputs: seq<seq<Version>>, item: Item) {
    && IsHeap(heap) && item.input < |inputs| && Leads(item, inputs)
    && (forall i :: 0 <= i < |inputs| ==> SortedTable(inputs[i]))
    && (forall other :: other in heap ==> Leads(other, inputs) && other.input != item.input)
    && OnePerInput(multiset(heap))
    && (forall i: nat :: i < |inputs| && inputs[i] != [] && i != item.input ==> HeapHolds(heap, i))
  }

  lemma PopLeaves(heap: seq<Item>, inputs: seq<seq<Version>>, item: Item, next: seq<Item>)
    requires Merging(heap, inputs) && item in heap && IsHeap(next) && multiset(next) + multiset{item} == multiset(heap)
    ensures Popped(next, inputs, item) && Rest(next, inputs) + {item.entry} == Rest(heap, inputs)
  {
    hide IsHeap, SortedTable, Before;
    SameItems(heap, next, item);
    assert item !in next by { assert multiset(heap)[item] == 1; }
    assert forall other :: other in next ==> other in heap;
    forall i: nat | i < |inputs| && inputs[i] != [] && i != item.input ensures HeapHolds(next, i) {
      var other :| other in heap && other.input == i;
      assert other in next;
    }
  }

  lemma SameItems(heap: seq<Item>, next: seq<Item>, item: Item)
    requires multiset(next) + multiset{item} == multiset(heap)
    ensures forall x :: x in heap <==> x in next || x == item
    ensures forall x :: multiset(next)[x] <= multiset(heap)[x]
  {
    forall x ensures x in heap <==> x in next || x == item {
      assert x in heap <==> x in multiset(heap);
      assert x in next <==> x in multiset(next);
    }
  }

  /** An exhausted input leaves the merge. */
  lemma InputDone(heap: seq<Item>, inputs: seq<seq<Version>>, item: Item)
    requires Popped(heap, inputs, item) && inputs[item.input] == []
    ensures Merging(heap, inputs)
  {
    hide IsHeap, SortedTable;
  }

  /** The next record of the popped item's input takes its place. */
  lemma InputAdvances(heap: seq<Item>, inputs: seq<seq<Version>>, item: Item, next: seq<Item>)
    requires Popped(heap, inputs, item) && inputs[item.input] != [] && IsHeap(next)
    requires multiset(next) == multiset(heap) + multiset{Item(inputs[item.input][0], item.input)}
    ensures var inputs' := inputs[item.input := inputs[item.input][1..]];
      Merging(next, inputs') && Rest(next, inputs') == Rest(heap, inputs)
  {
    var i := item.input;
    var incoming := Item(inputs[i][0], i);
    var inputs' := inputs[i := inputs[i][1..]];
    hide IsHeap, Before;
    SameItems(next, heap, incoming);
    assert inputs[i] == [inputs[i][0]] + inputs'[i];
    forall other | other in next ensures Leads(other, inputs') {
      if other == incoming {
        forall v | v in inputs'[i] ensures Before(incoming.entry, v) {
          var k :| 0 <= k < |inputs'[i]| && inputs'[i][k] == v;
          assert inputs[i][k + 1] == v;
        }
      }
    }
    forall j | 0 <= j < |inputs'| ensures SortedTable(inputs'[j]) { assert SortedTable(inputs[j]); }
    hide SortedTable;
    assert incoming in next;
    forall j: nat | j < |inputs'| && inputs'[j] != [] ensures HeapHolds(next, j) {
      if j != i {
        assert HeapHolds(heap, j);
        var other :| other in heap && other.input == j;
        assert other in next;
      }
    }
    RestMoves(heap, inputs, next, inputs', incoming);
  }

  lemma RestMoves(heap: seq<Item>, inputs: seq<seq<Version>>, next: seq<Item>, inputs': seq<seq<Version>>,
                  incoming: Item)
    requires incoming.input < |inputs| && inputs[incoming.input] != [] && inputs[incoming.input][0] == incoming.entry
    requires inputs' == inputs[incoming.input := inputs[incoming.input][1..]]
    requires forall x :: x in next <==> x in heap || x == incoming
    ensures Rest(next, inputs') == Rest(heap, inputs)
  {
    var i := incoming.input;
    assert inputs[i] == [incoming.entry] + inputs'[i];
    forall v ensures v in Rest(next, inputs') <==> v in Rest(heap, inputs) {
      if v in Rest(heap, inputs) {
        if j :| 0 <= j < |inputs| && v in inputs[j] {
          if j == i && v !in inputs'[i] { assert v == incoming.entry && incoming in next; }
          else { assert v in inputs'[j]; }
        }
      }
      if v in Rest(next, inputs') {
        if j :| 0 <= j < |inputs'| && v in inputs'[j] {
          assert v in inputs[j];
        } else {
          var x :| x in next && x.entry == v;
          if x == incoming { assert v in inputs[i]; }
        }
      }
    }
  }

  lemma {:induction false} UnreadDrops(inputs: seq<seq<Version>>, i: nat)
    requires i < |inputs| && inputs[i] != []
    ensures Unread(inputs[i := inputs[i][1..]]) == Unread(inputs) - 1
    decreases |inputs|
  {
    var next := inputs[i := inputs[i][1..]];
    if i == |inputs| - 1 {
      assert next[..i] == inputs[..i];
    } else {
      assert next[..|inputs| - 1] == inputs[..|inputs| - 1][i := inputs[i][1..]];
      UnreadDrops(inputs[..|inputs| - 1], i);
    }
  }

  // ----- The iterator -----

  datatype Outcome = Exhausted | Emit(record: Version) | Clash

  class Merger {
    var inputs: seq<seq<Version>>
    var heap: seq<Item>

    ghost predicate Valid()
      reads this
    {
      Merging(heap, inputs)
    }

    ghost function Remaining(): set<Version>
      reads this
    {
      Rest(heap, inputs)
    }

    constructor (tables: seq<seq<Version>>)
      requires forall i :: 0 <= i < |tables| ==> SortedTable(tables[i])
      ensures Valid() && Remaining() == Rest([], tables)
    {
      inputs, heap := tables, [];
      new;
      for k := 0 to |tables|
        invariant |inputs| == |tables| && forall i :: k <= i < |tables| ==> inputs[i] == tables[i]
        invariant StartedUpTo(heap, inputs, k) && Remaining() == Rest([], tables)
      {
        if |inputs[k]| > 0 {
          var item := Item(inputs[k][0], k);
          var next := Push(heap, item);
          Started(heap, inputs, k, next);
          heap, inputs := next, inputs[k := inputs[k][1..]];
        }
      }
    }

    ghost function Left(): nat
      reads this
    {
      |heap| + Unread(inputs)
    }

    /** Pops the least record and lets its input hand over the next one. */
    method TakeLeast() returns (v: Version)
      requires Valid() && heap != []
      modifies this
      ensures Valid() && v == old(heap[0].entry) && Left() < old(Left())
      ensures Remaining() + {v} == old(Remaining())
    {
      hide Merging, Rest, Popped, Unread;
      assert IsHeap(heap) by { MergingHeap(heap, inputs); }
      var item, popped := Pop(heap);
      PopLeaves(heap, inputs, item, popped);
      assert |heap| == |popped| + 1 by { assert |multiset(heap)| == |multiset(popped)| + 1; }
      PoppedInput(popped, inputs, item);
      v := item.entry;
      if |inputs[item.input]| > 0 {
        var next := Push(popped, Item(inputs[item.input][0], item.input));
        assert |next| == |popped| + 1 by { assert |multiset(next)| == |multiset(popped)| + 1; }
        InputAdvances(popped, inputs, item, next);
        UnreadDrops(inputs, item.input);
        heap, inputs := next, inputs[item.input := inputs[item.input][1..]];
      } else {
        InputDone(popped, inputs, item);
        heap := popped;
      }
    }

    /** Drains every version of the least key and emits its newest. */
    method Next() returns (out: Outcome)
      requires Valid()
      modifies this
      ensures Valid() && Left() <= old(Left())
      ensures out == Exhausted <==> old(Remaining()) == {}
      ensures out.Emit? ==>
        && Left() < old(Left())
        && Newest(old(Remaining()), out.record)
        && LeastKey(old(Remaining()), out.record.key) && Agreed(old(Remaining()), out.record.key)
        && Remaining() == Others(old(Remaining()), out.record.key)
      ensures out == Clash ==> exists k :: !Agreed(old(Remaining()), k)
    {
      hide Merging, Rest, Newest, LeastKey, Agreed, Others, Grouped, Unread;
      ghost var all := Remaining();
      if |heap| == 0 {
        EmptyRest(inputs);
        return Exhausted;
      }
      var key := heap[0].entry.key;
      var winner, haveWinner := heap[0].entry, false;
      var versions: map<nat, Version> := map[];
      ghost var group: set<Version> := {};
      LeastAtRoot(heap, inputs);
      RootRemains(heap, inputs);
      NothingGrouped(key, winner);
      while |heap| != 0 && heap[0].entry.key == key
        invariant Valid() && Left() <= old(Left()) && (haveWinner ==> Left() < old(Left()))
        invariant Remaining() + group == all
        invariant !haveWinner ==> heap != [] && heap[0].entry.key == key
        invariant Grouped(group, key, versions, winner) && haveWinner == (group != {})
        decreases Left()
      {
        var candidate := TakeLeast();
        if candidate.seq_ in versions && versions[candidate.seq_].value != candidate.value {
          ClashFound(all, group, key, versions, winner, candidate);
          return Clash;
        }
        GroupGrows(group, key, versions, winner, candidate);
        versions := versions[candidate.seq_ := candidate];
        if !haveWinner || candidate.seq_ > winner.seq_ {
          winner, haveWinner := candidate, true;
        }
        group := group + {candidate};
      }
      Emitted(heap, inputs, all, group, key, versions, winner);
      return Emit(winner);
    }
  }

  lemma MergingHeap(heap: seq<Item>, inputs: seq<seq<Version>>)
    requires Merging(heap, inputs)
    ensures IsHeap(heap)
  {}

  lemma NothingGrouped(key: Key, winner: Version)
    ensures Grouped({}, key, map[], winner)
  {}

  lemma ClashFound(all: set<Version>, group: set<Version>, key: Key, versions: map<nat, Version>, winner: Version,
                   v: Version)
    requires Grouped(group, key, versions, winner) && v in all && group <= all && v.key == key
    requires v.seq_ in versions && versions[v.seq_].value != v.value
    ensures !Agreed(all, key)
  {
    assert Conflicts(v, versions[v.seq_]);
  }

  lemma GroupGrows(group: set<Version>, key: Key, versions: map<nat, Version>, winner: Version, v: Version)
    requires Grouped(group, key, versions, winner) && v.key == key
    requires v.seq_ in versions ==> versions[v.seq_].value == v.value
    ensures var next := if group == {} || v.seq_ > winner.seq_ then v else winner;
      Grouped(group + {v}, key, versions[v.seq_ := v], next)
  {}

  lemma Emitted(heap: seq<Item>, inputs: seq<seq<Version>>, all: set<Version>, group: set<Version>, key: Key,
                versions: map<nat, Version>, winner: Version)
    requires Merging(heap, inputs) && LeastKey(all, key) && Rest(heap, inputs) + group == all
    requires heap == [] || heap[0].entry.key != key
    requires Grouped(group, key, versions, winner) && group != {}
    ensures winner.key == key && Newest(all, winner) && Agreed(all, key) && Rest(heap, inputs) == Others(all, key)
  {
    hide Merging, Rest;
    Drained(heap, inputs, all, group, key);
    forall a, b | a in all && b in all && a.key == key ensures !Conflicts(a, b) {
      if b.key == key { assert a in group && b in group; }
    }
  }

  lemma PoppedInput(heap: seq<Item>, inputs: seq<seq<Version>>, item: Item)
    requires Popped(heap, inputs, item)
    ensures item.input < |inputs| && IsHeap(heap)
  {}

  ghost predicate LeastKey(s: set<Version>, key: Key) { forall v :: v in s ==> !KeyLess(v.key, key) }

  /** All records of the key that share a sequence number have the same contents. */
  ghost predicate Agreed(s: set<Version>, key: Key) {
    forall a, b :: a in s && b in s && a.key == key ==> !Conflicts(a, b)
  }

  ghost function Others(s: set<Version>, key: Key): set<Version> { set v | v in s && v.key != key }

  /** What has been drained of one key: its versions agree and the winner is the newest. */
  ghost predicate Grouped(group: set<Version>, key: Key, versions: map<nat, Version>, winner: Version) {
    && (forall v :: v in group ==>
         v.key == key && v.seq_ in versions && versions[v.seq_].value == v.value && v.seq_ <= winner.seq_)
    && (forall s :: s in versions ==> versions[s] in group && versions[s].seq_ == s)
    && (group != {} ==> winner in group)
  }

  lemma EmptyRest(inputs: seq<seq<Version>>)
    requires Merging([], inputs)
    ensures Rest([], inputs) == {}
  {
    forall i: nat | i < |inputs| ensures inputs[i] == [] {
      assert inputs[i] != [] ==> HeapHolds([], i);
    }
  }

  lemma LeastAtRoot(heap: seq<Item>, inputs: seq<seq<Version>>)
    requires Merging(heap, inputs) && heap != []
    ensures LeastKey(Rest(heap, inputs), heap[0].entry.key)
  {
    hide Merging, Rest;
    forall v | v in Rest(heap, inputs) ensures !KeyLess(v.key, heap[0].entry.key) { RootHasLeastKey(heap, inputs, v); }
  }

  lemma RootRemains(heap: seq<Item>, inputs: seq<seq<Version>>)
    requires heap != []
    ensures heap[0].entry in Rest(heap, inputs)
  {}

  /** Once the root has another key, nothing of the drained key is left. */
  lemma Drained(heap: seq<Item>, inputs: seq<seq<Version>>, all: set<Version>, group: set<Version>, key: Key)
    requires Merging(heap, inputs) && LeastKey(all, key) && Rest(heap, inputs) + group == all
    requires heap == [] || heap[0].entry.key != key
    requires forall v :: v in group ==> v.key == key
    ensures Rest(heap, inputs) == Others(all, key) && forall v :: v in all && v.key == key ==> v in group
  {
    if heap == [] {
      EmptyRest(inputs);
    } else {
      LeastAtRoot(heap, inputs);
      RootRemains(heap, inputs);
      hide Merging, Rest, KeyLess;
      KeyTotal(key, heap[0].entry.key);
    }
  }

  /** The first k inputs have handed their first record to the heap. */
  ghost predicate StartedUpTo(heap: seq<Item>, inputs: seq<seq<Version>>, k: nat) {
    && IsHeap(heap)
    && (forall i :: 0 <= i < |inputs| ==> SortedTable(inputs[i]))
    && (forall item :: item in heap ==> Leads(item, inputs) && item.input < k)
    && OnePerInput(multiset(heap))
    && (forall i: nat :: i < k && i < |inputs| && inputs[i] != [] ==> HeapHolds(heap, i))
  }

  lemma Started(heap: seq<Item>, inputs: seq<seq<Version>>, k: nat, next: seq<Item>)
    requires StartedUpTo(heap, inputs, k) && k < |inputs| && inputs[k] != [] && IsHeap(next)
    requires multiset(next) == multiset(heap) + multiset{Item(inputs[k][0], k)}
    ensures var inputs' := inputs[k := inputs[k][1..]];
      StartedUpTo(next, inputs', k + 1) && Rest(next, inputs') == Rest(heap, inputs)
  {
    var incoming := Item(inputs[k][0], k);
    var inputs' := inputs[k := inputs[k][1..]];
    hide IsHeap, Before;
    SameItems(next, heap, incoming);
    assert inputs[k] == [inputs[k][0]] + inputs'[k];
    forall v | v in inputs'[k] ensures Before(incoming.entry, v) {
      var i :| 0 <= i < |inputs'[k]| && inputs'[k][i] == v;
      assert inputs[k][i + 1] == v;
    }
    forall j | 0 <= j < |inputs'| ensures SortedTable(inputs'[j]) { assert SortedTable(inputs[j]); }
    hide SortedTable;
    assert incoming in next;
    forall j: nat | j < k + 1 && j < |inputs'| && inputs'[j] != [] ensures HeapHolds(next, j) {
      if j < k {
        assert HeapHolds(heap, j);
        var other :| other in heap && other.input == j;
        assert other in next;
      }
    }
    RestMoves(heap, inputs, next, inputs', incoming);
  }

  // ----- The whole merge -----

  ghost predicate HasKey(out: seq<Version>, key: Key) { exists w :: w in out && w.key == key }

  /** out is the merge of the records: one per key, in key order, each the newest of its key. */
  ghost predicate Merged(all: set<Version>, out: seq<Version>) {
    && Ascends(out)
    && (forall v :: v in out ==> Newest(all, v))
    && (forall v :: v in all ==> HasKey(out, v.key))
  }

  ghost predicate NoClash(all: set<Version>) { forall a, b :: a in all && b in all ==> !Conflicts(a, b) }

  /** What has been emitted so far, against what remains. */
  ghost predicate Progress(all: set<Version>, out: seq<Version>, rest: set<Version>) {
    && Ascends(out) && rest <= all
    && (forall v :: v in out ==> Newest(all, v) && Agreed(all, v.key))
    && (forall v, w :: v in out && w in rest ==> KeyLess(v.key, w.key))
    && (forall v :: v in all && v !in rest ==> HasKey(out, v.key))
  }

  /** Nothing of a key that remains has been emitted. */
  lemma KeyRemains(all: set<Version>, out: seq<Version>, rest: set<Version>, v: Version, w: Version)
    requires Progress(all, out, rest) && v in rest && w in all && w.key == v.key
    ensures w in rest
  {
    hide KeyLess, Newest, Agreed, Ascends;
    if w !in rest {
      var e :| e in out && e.key == w.key;
      KeyTotal(e.key, v.key);
      assert false;
    }
  }

  lemma AscendsMore(out: seq<Version>, v: Version)
    requires Ascends(out) && forall e :: e in out ==> KeyLess(e.key, v.key)
    ensures Ascends(out + [v])
  {
    hide KeyLess;
    var next := out + [v];
    forall i, j | 0 <= i < j < |next| ensures KeyLess(next[i].key, next[j].key) {
      if j == |out| { assert next[i] in out; }
    }
  }

  lemma ProgressStep(all: set<Version>, out: seq<Version>, rest: set<Version>, v: Version)
    requires Progress(all, out, rest) && Newest(rest, v) && LeastKey(rest, v.key) && Agreed(rest, v.key)
    ensures Progress(all, out + [v], Others(rest, v.key))
  {
    hide KeyLess, Ascends;
    var next := out + [v];
    AscendsMore(out, v);
    forall w | w in all && w.key == v.key ensures w in rest { KeyRemains(all, out, rest, v, w); }
    forall w | w in Others(rest, v.key) ensures KeyLess(v.key, w.key) { KeyTotal(v.key, w.key); }
    forall w | w in all && w !in Others(rest, v.key) ensures HasKey(next, w.key) {
      if w in rest {
        assert v in next;
      } else {
        var e :| e in out && e.key == w.key;
        assert e in next;
      }
    }
    assert Newest(all, v) && Agreed(all, v.key);
  }

  lemma ProgressDone(all: set<Version>, out: seq<Version>)
    requires Progress(all, out, {})
    ensures Merged(all, out) && NoClash(all)
  {
    forall a, b | a in all && b in all ensures !Conflicts(a, b) {
      var w :| w in out && w.key == a.key;
      assert Agreed(all, w.key);
    }
  }

  lemma StuckClash(all: set<Version>, out: seq<Version>, rest: set<Version>, k: Key)
    requires Progress(all, out, rest) && !Agreed(rest, k)
    ensures !NoClash(all)
  {
    var a, b :| a in rest && b in rest && a.key == k && Conflicts(a, b);
  }

  /** Merges any number of sorted tables; fails exactly when two records clash. */
  method MergeTables(tables: seq<seq<Version>>) returns (ok: bool, out: seq<Version>)
    requires forall i :: 0 <= i < |tables| ==> SortedTable(tables[i])
    ensures ok <==> NoClash(Rest([], tables))
    ensures ok ==> Merged(Rest([], tables), out)
  {
    hide Merging, Rest, Progress, Unread;
    var merger := new Merger(tables);
    ghost var all := Rest([], tables);
    out := [];
    NoProgress(all);
    while true
      invariant merger.Valid() && Progress(all, out, merger.Remaining())
      decreases merger.Left()
    {
      ghost var rest := merger.Remaining();
      var next := merger.Next();
      match next {
        case Exhausted =>
          ProgressDone(all, out);
          return true, out;
        case Clash =>
          ghost var k :| !Agreed(rest, k);
          StuckClash(all, out, rest, k);
          return false, [];
        case Emit(v) =>
          ProgressStep(all, out, rest, v);
          out := out + [v];
      }
    }
  }

  lemma NoProgress(all: set<Version>)
    ensures Progress(all, [], all)
  {}
}
