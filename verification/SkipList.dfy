/**
 The memtable's skip list: towers of forward pointers spliced in place. For every stream of
 tower heights it is the ordered list of its records: `Put` is `Memtable.Insert`, `Get` is
 `Memtable.Find`, and a walk of the lowest level visits every key once in ascending order.
 */
module SkipList {
  import opened RaftTypes
  import opened LsmTypes
  import opened Memtable

  const MAX_HEIGHT: nat := 16

  /** One more level for each leading zero draw, up to the cap. */
  method RandomHeight(draws: nat -> nat, maxHeight: nat) returns (height: nat)
    requires maxHeight >= 1
    ensures 1 <= height <= maxHeight
    ensures (forall i :: 0 <= i < height - 1 ==> draws(i) == 0) && (height < maxHeight ==> draws(height - 1) != 0)
  {
    height := 1;
    while height < maxHeight && draws(height - 1) == 0
      invariant 1 <= height <= maxHeight
      invariant forall i :: 0 <= i < height - 1 ==> draws(i) == 0
    {
      height := height + 1;
    }
  }

  class Node {
    const key: Key
    const height: nat
    var record: Version
    var forward: seq<Node?>

    constructor (record: Version, height: nat)
      ensures this.record == record && key == record.key && this.height == height
      ensures |forward| == height && forall l :: 0 <= l < height ==> forward[l] == null
    {
      this.key, this.height, this.record := record.key, height, record;
      forward := seq(height, _ => null);
    }
  }

  /** The next position after i whose tower reaches level l, or the end. */
  ghost function Succ(order: seq<Node>, i: nat, l: nat): (r: nat)
    requires i < |order|
    ensures i < r <= |order|
    ensures forall j :: i < j < r ==> order[j].height <= l
    ensures r < |order| ==> order[r].height > l
    decreases |order| - i
  {
    if i + 1 == |order| || order[i + 1].height > l then i + 1 else Succ(order, i + 1, l)
  }

  ghost function At(order: seq<Node>, i: nat): Node? { if i < |order| then order[i] else null }

  lemma {:induction false} SuccIs(order: seq<Node>, i: nat, l: nat, r: nat)
    requires i < r <= |order| && (forall j :: i < j < r ==> order[j].height <= l)
    requires (r < |order| ==> order[r].height > l)
    ensures Succ(order, i, l) == r
    decreases r - i
  {
    if i + 1 < r { SuccIs(order, i + 1, l, r); }
  }

  ghost predicate KeysAscend(order: seq<Node>) {
    forall i, j :: 0 < i < j < |order| ==> KeyLess(order[i].key, order[j].key)
  }

  ghost predicate Distinct(order: seq<Node>) { forall i, j :: 0 <= i < j < |order| ==> order[i] != order[j] }

  /** Every level is the sublist of the towers that reach it. */
  ghost predicate Linked(order: seq<Node>)
    reads order`forward
  {
    && (forall i :: 0 <= i < |order| ==> |order[i].forward| == order[i].height)
    && forall i, l :: 0 <= i < |order| && 0 <= l < order[i].height ==>
         order[i].forward[l] == At(order, Succ(order, i, l))
  }

  /** Heights are within the level in use, and records sit under their keys. */
  ghost predicate Towers(order: seq<Node>, level: nat)
    reads order`record
  {
    forall i :: 0 < i < |order| ==> 1 <= order[i].height <= level && order[i].record.key == order[i].key
  }

  function Records(order: seq<Node>): (rs: seq<Version>)
    requires order != []
    reads order`record
    ensures |rs| == |order| - 1 && forall i :: 0 < i < |order| ==> rs[i - 1] == order[i].record
  {
    if |order| == 1 then [] else Records(order[..|order| - 1]) + [order[|order| - 1].record]
  }

  class SkipList {
    const head: Node
    var level: nat
    ghost var order: seq<Node>

    ghost predicate Valid()
      reads this, order
    {
      && |order| > 0 && order[0] == head && head.height == MAX_HEIGHT && 1 <= level <= MAX_HEIGHT
      && Distinct(order) && KeysAscend(order) && Linked(order) && Towers(order, level)
    }

    ghost function Contents(): seq<Version>
      requires order != []
      reads this, order
    {
      Records(order)
    }

    constructor ()
      ensures Valid() && Contents() == [] && fresh(order)
    {
      head := new Node(Version([], 0, None), MAX_HEIGHT);
      level := 1;
      new;
      order := [head];
    }

    /** Descends from the top level to the last tower before the key, noting where each level was left. */
    method Search(key: Key) returns (x: Node, update: seq<Node>, ghost p: nat, ghost left: seq<nat>)
      requires Valid()
      ensures p < |order| && Precedes(order, p, key) && Stops(order, p + 1, key) && x == order[p] && x.height > 0
      ensures |update| == level && LeftTowers(order, update, left, p)
    {
      hide KeyLess, Distinct, KeysAscend, Linked, LeftAt;
      x, p := head, 0;
      update, left := seq(level, _ => head), seq(level, _ => 0);
      var i := level;
      while i > 0
        invariant 0 <= i <= level && Precedes(order, p, key) && x == order[p] && x.height >= i
        invariant |update| == |left| == level
        invariant forall l :: i <= l < level ==>
          LeftAt(order, left[l], l, p, key) && left[l] < |order| && update[l] == order[left[l]]
        invariant i == 0 ==> Stops(order, Succ(order, p, 0), key)
      {
        i := i - 1;
        ghost var from := p;
        x, p := Advance(x, i, key, p);
        forall l | i < l < level
          ensures LeftAt(order, left[l], l, p, key)
        {
          LeftLater(order, left[l], l, from, p, key);
        }
        LeftNow(order, p, i, key);
        update, left := update[i := x], left[i := p];
      }
      NextIs(order, p, level);
      forall l | 0 <= l < level
        ensures Spans(order, left[l], l, p) && left[l] <= p
      {
        LeftSpans(order, left[l], l, p, key);
      }
    }

    /** Follows one level to the last tower before the key. */
    method Advance(start: Node, i: nat, key: Key, ghost from: nat) returns (x: Node, ghost p: nat)
      requires Valid() && i < level && Precedes(order, from, key) && start == order[from] && start.height > i
      ensures Precedes(order, p, key) && x == order[p] && x.height > i && p >= from
      ensures Stops(order, Succ(order, p, i), key)
    {
      hide KeyLess, Distinct, KeysAscend;
      x, p := start, from;
      while x.forward[i] != null && KeyLess(x.forward[i].key, key)
        invariant Precedes(order, p, key) && x == order[p] && x.height > i && p >= from
        decreases |order| - p
      {
        assert x.forward[i] == At(order, Succ(order, p, i));
        x := x.forward[i];
        p := Succ(order, p, i);
      }
      assert x.forward[i] == At(order, Succ(order, p, i));
    }

    method Get(key: Key) returns (r: Option<Version>)
      requires Valid()
      ensures r == Find(Contents(), key)
    {
      hide KeyLess, Distinct, Find;
      var x, _, p, _ := Search(key);
      assert x.forward[0] == At(order, Succ(order, p, 0));
      NextIs(order, p, level);
      FoundAt(order, p, key, level);
      var next := x.forward[0];
      if next != null && next.key == key { return Some(next.record); }
      return None;
    }

    /** Adds the record unless the key is present at the same or a newer sequence number. */
    method Put(v: Version, draws: nat -> nat) returns (applied: bool)
      requires Valid()
      modifies this, order
      ensures Valid() && Contents() == Insert(old(Contents()), v)
      ensures applied == (old(Find(Contents(), v.key)).None? || v.seq_ > old(Find(Contents(), v.key)).value.seq_)
      ensures forall n :: n in order && n !in old(order) ==> fresh(n)
    {
      hide KeyLess, Find, Insert, KeysAscend, Distinct, Position, Spans, Precedes, Stops, Towers;
      var x, update, p, left := Search(v.key);
      assert x.forward[0] == At(order, Succ(order, p, 0));
      NextIs(order, p, level);
      FoundAt(order, p, v.key, level);
      InsertAt(order, p, v, level);
      var next := x.forward[0];
      if next != null && next.key == v.key {
        if v.seq_ <= next.record.seq_ { return false; }
        Replace(next, v, p);
        return true;
      }
      applied := true;
      var height := RandomHeight(draws, MAX_HEIGHT);
      InsertNew(v, height, update, p, left);
    }

    method Replace(node: Node, v: Version, ghost p: nat)
      requires Valid() && p + 1 < |order| && order[p + 1] == node && node.key == v.key
      modifies node`record
      ensures Valid() && Contents() == old(Contents())[p := v]
    {
      hide KeyLess, KeysAscend, Succ, At, Records;
      node.record := v;
      forall i | 0 <= i < |order| - 1 ensures Contents()[i] == old(Contents())[p := v][i] {
        assert Contents()[i] == order[i + 1].record;
        if i != p { assert order[i + 1] != order[p + 1]; }
        assert old(Contents())[i] == old(order[i + 1].record);
      }
      assert Contents() == old(Contents())[p := v];
    }

    /** Splices a new tower in after position p on every level it reaches. */
    method InsertNew(v: Version, height: nat, update: seq<Node>, ghost p: nat, ghost left: seq<nat>)
      requires Valid() && 1 <= height <= MAX_HEIGHT && |update| == level
      requires LeftTowers(order, update, left, p)
      requires p < |order| && Precedes(order, p, v.key) && Stops(order, p + 1, v.key)
      requires (p + 1 < |order| ==> order[p + 1].key != v.key)
      modifies this, order
      ensures Valid() && Contents() == old(Contents())[..p] + [v] + old(Contents())[p..]
      ensures forall n :: n in order && n !in old(order) ==> fresh(n)
    {
      hide KeyLess, Spans, KeysAscend, Linked, Distinct, Inserted, Precedes, Stops, LeftTowers, Towers, Records, Succ,
        At;
      var towers, spans := HeadTowers(height, update, p, left);
      var node := new Node(v, height);
      InsertedShape(order, p, node);
      Splice(node, towers, p, spans);
      assert Records(order) == old(Records(order)) && Towers(order, level);
      Adopt(node, p);
    }

    /** Records the spliced tower's place and raises the level to its height. */
    method Adopt(node: Node, ghost p: nat)
      requires p < |order| && order[0] == head && head.height == MAX_HEIGHT
      requires 1 <= level <= MAX_HEIGHT && Towers(order, level)
      requires 1 <= node.height <= MAX_HEIGHT && node.record.key == node.key
      requires Distinct(Inserted(order, p, node)) && KeysAscend(Inserted(order, p, node))
      requires Linked(Inserted(order, p, node))
      modifies this
      ensures Valid() && order == Inserted(old(order), p, node)
      ensures (forall n :: n in order <==> n in old(order) || n == node)
      ensures Contents() == old(Records(order))[..p] + [node.record] + old(Records(order))[p..]
    {
      hide KeyLess, KeysAscend, Linked, Distinct, Inserted, Towers, Records, Succ, At;
      InsertedRecords(order, p, node, level, if node.height > level then node.height else level);
      if node.height > level {
        level := node.height;
      }
      order := Inserted(order, p, node);
    }

    /** Levels above the one in use start at the head. */
    method HeadTowers(height: nat, update: seq<Node>, ghost p: nat, ghost left: seq<nat>)
      returns (towers: seq<Node>, ghost spans: seq<nat>)
      requires Valid() && height <= MAX_HEIGHT && p < |order| && |update| == level && LeftTowers(order, update, left, p)
      ensures |towers| >= height && LeftTowers(order, towers, spans, p)
    {
      hide KeyLess, Spans, KeysAscend, Linked, Distinct;
      towers, spans := update, left;
      while |towers| < height
        invariant |towers| >= level && LeftTowers(order, towers, spans, p)
        decreases height - |towers|
      {
        HeadSpans(order, |towers|, level, p);
        towers, spans := towers + [head], spans + [0];
      }
    }

    method Splice(node: Node, towers: seq<Node>, ghost p: nat, ghost spans: seq<nat>)
      requires Distinct(order) && Linked(order) && node !in order && p < |order|
      requires |node.forward| == node.height <= |towers| && LeftTowers(order, towers, spans, p)
      modifies node`forward, order`forward
      ensures Linked(Inserted(order, p, node))
    {
      hide Spans, Succ, At, Spliced, Linked, Distinct, Forwards;
      NothingSpliced(order, node, spans);
      for i := 0 to node.height
        invariant |node.forward| == node.height && Spliced(order, node, spans, i, Forwards(order), node.forward)
      {
        Reaches(order, spans[i], i, p);
        SpliceStep(order, node, spans, i, Forwards(order), node.forward);
        LinkLevel(node, towers[i], i, spans[i]);
      }
      SplicedLinks(order, node, towers, p, spans);
    }

    /** Points the new tower past the old one on one level, and the old one at the new. */
    method LinkLevel(node: Node, tower: Node, i: nat, ghost u: nat)
      requires Distinct(order) && node !in order && u < |order|
      requires tower == order[u] && i < |node.forward| && i < |tower.forward|
      modifies node`forward, tower`forward
      ensures node.forward == old(node.forward)[i := old(Forwards(order))[u][i]]
      ensures Forwards(order) == old(Forwards(order))[u := old(Forwards(order))[u][i := node]]
    {
      assert tower in order;
      node.forward := node.forward[i := tower.forward[i]];
      tower.forward := tower.forward[i := node];
      assert forall a :: 0 <= a < |order| && a != u ==> order[a] != tower;
      assert forall a :: 0 <= a < |order| ==> order[a] in order;
    }

    /** Walks the lowest level: every record once, in strictly ascending key order. */
    method ForEach() returns (out: seq<Version>)
      requires Valid()
      ensures out == Contents() && Ascends(out)
    {
      hide KeyLess, Records;
      RecordsAscend(order, level);
      out := [];
      var x := head.forward[0];
      ghost var p := 0;
      NextIs(order, 0, level);
      while x != null
        invariant 0 <= p < |order| && x == At(order, p + 1)
        invariant out == Contents()[..p]
        decreases |order| - p
      {
        assert x == order[p + 1];
        out := out + [x.record];
        p := p + 1;
        NextIs(order, p, level);
        x := x.forward[0];
      }
      assert Contents()[..p] == Contents();
    }
  }

  ghost function Inserted(order: seq<Node>, p: nat, node: Node): seq<Node>
    requires p < |order|
  {
    order[..p + 1] + [node] + order[p + 1..]
  }

  lemma InsertedRecords(order: seq<Node>, p: nat, node: Node, level: nat, level': nat)
    requires p < |order| && Towers(order, level) && level <= level'
    requires 1 <= node.height <= level' && node.record.key == node.key
    ensures var next := Inserted(order, p, node);
      && |next| > 0 && next[0] == order[0] && Towers(next, level')
      && Records(next) == Records(order)[..p] + [node.record] + Records(order)[p..]
      && (forall n :: n in next <==> n in order || n == node)
  {
    hide Records;
    var next := Inserted(order, p, node);
    forall n | n in order ensures n in next {
      var i :| 0 <= i < |order| && order[i] == n;
      assert next[if i <= p then i else i + 1] == n;
    }
    assert next[p + 1] == node;
    var was, now := Records(order), Records(next);
    forall i | 0 <= i < |now| ensures now[i] == (was[..p] + [node.record] + was[p..])[i] {
      assert now[i] == next[i + 1].record;
      if i > p { assert was[i - 1] == order[i].record; }
    }
  }

  ghost function Forwards(order: seq<Node>): (fw: seq<seq<Node?>>)
    reads order`forward
    ensures |fw| == |order| && forall a :: 0 <= a < |order| ==> fw[a] == order[a].forward
  {
    if order == [] then [] else Forwards(order[..|order| - 1]) + [order[|order| - 1].forward]
  }

  /** The first i levels of the new tower have been linked in; `forwards` and `mine` are the pointers now. */
  ghost predicate Spliced(order: seq<Node>, node: Node, spans: seq<nat>, i: nat, forwards: seq<seq<Node?>>,
                          mine: seq<Node?>)
    requires i <= |spans| && forall l :: 0 <= l < i ==> spans[l] < |order|
  {
    && |forwards| == |order| && |mine| == node.height && i <= node.height
    && (forall l :: 0 <= l < i ==> mine[l] == At(order, Succ(order, spans[l], l)))
    && (forall a :: 0 <= a < |order| ==> |forwards[a]| == order[a].height)
    && forall a, l :: 0 <= a < |order| && 0 <= l < order[a].height ==>
         forwards[a][l] == if l < i && a == spans[l] then node else At(order, Succ(order, a, l))
  }

  lemma NothingSpliced(order: seq<Node>, node: Node, spans: seq<nat>)
    requires Linked(order) && |node.forward| == node.height
    ensures Spliced(order, node, spans, 0, Forwards(order), node.forward)
  {
    hide Succ, At;
  }

  /** Linking one more level. */
  lemma SpliceStep(order: seq<Node>, node: Node, spans: seq<nat>, i: nat, forwards: seq<seq<Node?>>, mine: seq<Node?>)
    requires i < node.height <= |spans| && (forall l :: 0 <= l <= i ==> spans[l] < |order|)
    requires Spliced(order, node, spans, i, forwards, mine) && order[spans[i]].height > i
    ensures var u := spans[i];
      && |forwards| == |order| && |forwards[u]| == order[u].height && |mine| == node.height
      && Spliced(order, node, spans, i + 1, forwards[u := forwards[u][i := node]], mine[i := forwards[u][i]])
  {
    hide Succ, At;
    var u := spans[i];
    var next := forwards[u := forwards[u][i := node]];
    forall a, l | 0 <= a < |order| && 0 <= l < order[a].height
      ensures |next[a]| == order[a].height
      ensures next[a][l] == if l < i + 1 && a == spans[l] then node else At(order, Succ(order, a, l))
    {
      assert forwards[a][l] == if l < i && a == spans[l] then node else At(order, Succ(order, a, l));
    }
  }

  /** The new tower sits after p, in key order. */
  lemma InsertedShape(order: seq<Node>, p: nat, node: Node)
    requires p < |order| && Distinct(order) && KeysAscend(order) && node !in order
    requires Precedes(order, p, node.key) && Stops(order, p + 1, node.key)
    requires (p + 1 < |order| ==> order[p + 1].key != node.key)
    ensures Distinct(Inserted(order, p, node)) && KeysAscend(Inserted(order, p, node))
  {
    hide KeyLess;
    var next := Inserted(order, p, node);
    forall i, j | 0 < i < j < |next| ensures KeyLess(next[i].key, next[j].key) {
      if i == p + 1 {
        KeyTotal(node.key, order[p + 1].key);
        if p + 1 < j - 1 { KeyTransitive(node.key, order[p + 1].key, order[j - 1].key); }
      } else if j == p + 1 {
        if i < p { KeyTransitive(order[i].key, order[p].key, node.key); }
      }
    }
  }

  lemma Reaches(order: seq<Node>, u: nat, l: nat, p: nat)
    requires Spans(order, u, l, p)
    ensures u < |order| && order[u].height > l && order[u] in order
  {}

  /** The head reaches levels no other tower does. */
  lemma HeadSpans(order: seq<Node>, l: nat, level: nat, p: nat)
    requires p < |order| && order[0].height > l >= level && Towers(order, level)
    ensures Spans(order, 0, l, p)
  {
    SuccIs(order, 0, l, |order|);
  }

  /** How successors move when a tower is inserted after p. */
  lemma SuccInserted(order: seq<Node>, p: nat, node: Node, a: nat, l: nat)
    requires p < |order| && a < |order|
    ensures var next := Inserted(order, p, node);
      var s := Succ(order, a, l);
      if a > p then Succ(next, a + 1, l) == s + 1
      else Succ(next, a, l) == if s <= p then s else if l < node.height then p + 1 else s + 1
  {
    var next := Inserted(order, p, node);
    var s := Succ(order, a, l);
    if a > p { SuccIs(next, a + 1, l, s + 1); }
    else if s <= p { SuccIs(next, a, l, s); }
    else if l < node.height { SuccIs(next, a, l, p + 1); }
    else { SuccIs(next, a, l, s + 1); }
  }

  lemma SuccOfNew(order: seq<Node>, p: nat, node: Node, u: nat, l: nat)
    requires Spans(order, u, l, p)
    ensures Succ(Inserted(order, p, node), p + 1, l) == Succ(order, u, l) + 1 && Succ(order, u, l) > p
  {
    SuccIs(Inserted(order, p, node), p + 1, l, Succ(order, u, l) + 1);
  }

  /** Only one tower spans p on a level it reaches. */
  lemma SpanUnique(order: seq<Node>, p: nat, u: nat, a: nat, l: nat)
    requires Spans(order, u, l, p) && a <= p && a < |order| && order[a].height > l && Succ(order, a, l) > p
    ensures a == u
  {}

  /** The new tower points where the old one it follows pointed. */
  lemma LinkOfNew(order: seq<Node>, node: Node, p: nat, u: nat, l: nat)
    requires Spans(order, u, l, p)
    ensures At(Inserted(order, p, node), Succ(Inserted(order, p, node), p + 1, l)) == At(order, Succ(order, u, l))
  {
    SuccOfNew(order, p, node, u, l);
  }

  /** Every other tower points where it did, except the one the new tower follows. */
  lemma SpanBeyond(order: seq<Node>, p: nat, u: nat, l: nat)
    requires Spans(order, u, l, p)
    ensures u <= p && Succ(order, u, l) > p
  {}

  lemma AtNew(order: seq<Node>, p: nat, node: Node)
    requires p < |order|
    ensures At(Inserted(order, p, node), p + 1) == node
  {}

  /** An old tower, or the end, at its place in the new order. */
  lemma AtOld(order: seq<Node>, p: nat, node: Node, s: nat)
    requires p < |order| && s <= |order|
    ensures At(Inserted(order, p, node), if s <= p then s else s + 1) == At(order, s)
  {}

  lemma LinkOfOld(order: seq<Node>, node: Node, p: nat, u: nat, a: nat, l: nat)
    requires p < |order| && a < |order| && order[a].height > l && (l < node.height ==> Spans(order, u, l, p))
    ensures var next, i := Inserted(order, p, node), if a <= p then a else a + 1;
      At(next, Succ(next, i, l)) == if l < node.height && a == u then node else At(order, Succ(order, a, l))
  {
    hide Succ, At;
    SuccInserted(order, p, node, a, l);
    var s := Succ(order, a, l);
    if a <= p && s > p && l < node.height {
      SpanUnique(order, p, u, a, l);
      AtNew(order, p, node);
    } else {
      if l < node.height && a == u { SpanBeyond(order, p, u, l); }
      AtOld(order, p, node, s);
    }
  }

  lemma MyLink(order: seq<Node>, node: Node, spans: seq<nat>, forwards: seq<seq<Node?>>, mine: seq<Node?>, l: nat)
    requires node.height <= |spans| && forall k :: 0 <= k < node.height ==> spans[k] < |order|
    requires Spliced(order, node, spans, node.height, forwards, mine) && l < node.height
    ensures |mine| == node.height && mine[l] == At(order, Succ(order, spans[l], l))
  {
    hide Succ, At;
  }

  lemma OldLink(order: seq<Node>, node: Node, spans: seq<nat>, forwards: seq<seq<Node?>>, mine: seq<Node?>, a: nat,
                l: nat)
    requires node.height <= |spans| && forall k :: 0 <= k < node.height ==> spans[k] < |order|
    requires Spliced(order, node, spans, node.height, forwards, mine) && a < |order| && l < order[a].height
    ensures |forwards| == |order| && |forwards[a]| == order[a].height
    ensures forwards[a][l] == if l < node.height && a == spans[l] then node else At(order, Succ(order, a, l))
  {
    hide Succ, At;
  }

  lemma SplicedLink(order: seq<Node>, node: Node, towers: seq<Node>, p: nat, spans: seq<nat>, i: nat, l: nat)
    requires node.height <= |towers| && LeftTowers(order, towers, spans, p)
    requires Spliced(order, node, spans, node.height, Forwards(order), node.forward)
    requires i <= |order| && l < Inserted(order, p, node)[i].height
    ensures var next := Inserted(order, p, node);
      |next[i].forward| == next[i].height && next[i].forward[l] == At(next, Succ(next, i, l))
  {
    hide Spans, Succ, At, Forwards, Spliced;
    var next := Inserted(order, p, node);
    if i == p + 1 {
      MyLink(order, node, spans, Forwards(order), node.forward, l);
      LinkOfNew(order, node, p, spans[l], l);
    } else {
      var a := if i <= p then i else i - 1;
      assert next[i] == order[a];
      assert order[a].forward == Forwards(order)[a];
      OldLink(order, node, spans, Forwards(order), node.forward, a, l);
      LinkOfOld(order, node, p, if l < node.height then spans[l] else 0, a, l);
    }
  }

  lemma SplicedLinks(order: seq<Node>, node: Node, towers: seq<Node>, p: nat, spans: seq<nat>)
    requires node.height <= |towers| && LeftTowers(order, towers, spans, p)
    requires Spliced(order, node, spans, node.height, Forwards(order), node.forward)
    ensures Linked(Inserted(order, p, node))
  {
    hide Spans, Succ, At, Forwards;
    var next := Inserted(order, p, node);
    forall i | 0 <= i < |next| ensures |next[i].forward| == next[i].height {
      if i != p + 1 { assert next[i] == order[if i <= p then i else i - 1]; }
    }
    forall i, l | 0 <= i < |next| && 0 <= l < next[i].height ensures next[i].forward[l] == At(next, Succ(next, i, l)) {
      SplicedLink(order, node, towers, p, spans, i, l);
    }
  }

  lemma RecordsAscend(order: seq<Node>, level: nat)
    requires order != [] && KeysAscend(order) && Towers(order, level)
    ensures Ascends(Records(order))
  {
    hide KeyLess, Records;
    var rs := Records(order);
    forall i, j | 0 <= i < j < |rs| ensures KeyLess(rs[i].key, rs[j].key) {
      assert rs[i] == order[i + 1].record && rs[j] == order[j + 1].record;
    }
  }

  /** What the records say about the key, given its place. */
  lemma FoundAt(order: seq<Node>, p: nat, key: Key, level: nat)
    requires order != [] && KeysAscend(order) && Precedes(order, p, key)
    requires Stops(order, p + 1, key) && Towers(order, level)
    ensures Position(Records(order), key) == p
    ensures Find(Records(order), key) ==
      if p + 1 < |order| && order[p + 1].key == key then Some(order[p + 1].record) else None
  {
    hide KeyLess, Records;
    var rs := Records(order);
    forall i | 0 <= i < p ensures KeyLess(rs[i].key, key) {
      if i + 1 < p { KeyTransitive(order[i + 1].key, order[p].key, key); }
    }
    PositionIs(rs, key, p);
  }

  lemma {:induction false} PositionIs(list: seq<Version>, key: Key, p: nat)
    requires p <= |list| && (forall i :: 0 <= i < p ==> KeyLess(list[i].key, key))
    requires (p < |list| ==> !KeyLess(list[p].key, key))
    ensures Position(list, key) == p
    decreases |list|
  {
    if p > 0 { PositionIs(list[1..], key, p - 1); }
  }

  lemma InsertAt(order: seq<Node>, p: nat, v: Version, level: nat)
    requires order != [] && p < |order| && Position(Records(order), v.key) == p && Towers(order, level)
    ensures var rs := Records(order);
      Insert(rs, v) == if p + 1 < |order| && order[p + 1].key == v.key
                       then if v.seq_ <= order[p + 1].record.seq_ then rs else rs[p := v]
                       else rs[..p] + [v] + rs[p..]
  {
    hide KeyLess, Position, Records, Insert;
    var rs := Records(order);
    assert p < |rs| ==> rs[p] == order[p + 1].record && order[p + 1].record.key == order[p + 1].key;
    InsertHere(rs, p, v);
  }

  lemma InsertHere(list: seq<Version>, p: nat, v: Version)
    requires Position(list, v.key) == p <= |list|
    ensures Insert(list, v) ==
      if p < |list| && list[p].key == v.key then (if v.seq_ <= list[p].seq_ then list else list[p := v])
      else list[..p] + [v] + list[p..]
  {
    hide KeyLess, Position;
  }

  /** At level l, u is the last tower not past p that reaches it: the next one is past p. */
  ghost predicate Spans(order: seq<Node>, u: nat, l: nat, p: nat) {
    u <= p < |order| && order[u].height > l && Succ(order, u, l) > p
  }

  /** On each level, the tower the new one will follow. */
  ghost predicate LeftTowers(order: seq<Node>, towers: seq<Node>, spans: seq<nat>, p: nat) {
    && |towers| == |spans| && p < |order|
    && forall l :: 0 <= l < |towers| ==> spans[l] <= p && Spans(order, spans[l], l, p) && towers[l] == order[spans[l]]
  }

  /** p is the last position before the key. */
  ghost predicate Precedes(order: seq<Node>, p: nat, key: Key) {
    p < |order| && (p > 0 ==> KeyLess(order[p].key, key))
  }

  ghost predicate Stops(order: seq<Node>, i: nat, key: Key) { i < |order| ==> !KeyLess(order[i].key, key) }

  /** Level l was left at u: its next tower is not before the key. */
  ghost predicate LeftAt(order: seq<Node>, u: nat, l: nat, p: nat, key: Key) {
    u <= p < |order| && order[u].height > l && Stops(order, Succ(order, u, l), key)
  }

  lemma LeftLater(order: seq<Node>, u: nat, l: nat, p: nat, p': nat, key: Key)
    requires LeftAt(order, u, l, p, key) && p <= p' < |order|
    ensures LeftAt(order, u, l, p', key)
  {}

  lemma LeftNow(order: seq<Node>, p: nat, l: nat, key: Key)
    requires p < |order| && order[p].height > l && Stops(order, Succ(order, p, l), key)
    ensures LeftAt(order, p, l, p, key)
  {}

  lemma LeftSpans(order: seq<Node>, u: nat, l: nat, p: nat, key: Key)
    requires KeysAscend(order) && Precedes(order, p, key) && LeftAt(order, u, l, p, key)
    ensures Spans(order, u, l, p)
  {
    StopsPast(order, Succ(order, u, l), p, key);
  }

  /** A tower that is not before the key lies past every one that is. */
  lemma StopsPast(order: seq<Node>, i: nat, p: nat, key: Key)
    requires KeysAscend(order) && Precedes(order, p, key) && 0 < i <= |order| && Stops(order, i, key)
    ensures i > p
  {
    hide KeyLess;
    if i <= p {
      if i < p { KeyTransitive(order[i].key, order[p].key, key); }
      assert false;
    }
  }

  /** Every tower reaches the lowest level. */
  lemma NextIs(order: seq<Node>, p: nat, level: nat)
    requires p < |order| && Towers(order, level)
    ensures Succ(order, p, 0) == p + 1
  {
    SuccIs(order, p, 0, p + 1);
  }
}
