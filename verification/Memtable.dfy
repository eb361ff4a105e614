/** A memtable or table as the ascending sequence of its versions, one per key. */
module Memtable {
  import opened RaftTypes
  import opened LsmTypes

  /** Number of leading entries with a smaller key. */
  function Position(list: seq<Version>, key: Key): (p: nat)
    ensures p <= |list|
    ensures forall i :: 0 <= i < p ==> KeyLess(list[i].key, key)
    ensures p < |list| ==> !KeyLess(list[p].key, key)
  {
    if list == [] || !KeyLess(list[0].key, key) then 0 else 1 + Position(list[1..], key)
  }

  function Find(list: seq<Version>, key: Key): (r: Option<Version>)
    ensures r.Some? ==> r.value in list && r.value.key == key
  {
    var p := Position(list, key);
    if p < |list| && list[p].key == key then Some(list[p]) else None
  }

  /** Adds v unless the list already holds that key at the same or a newer sequence number. */
  function Insert(list: seq<Version>, v: Version): seq<Version> {
    var p := Position(list, v.key);
    if p < |list| && list[p].key == v.key then
      if v.seq_ <= list[p].seq_ then list else list[p := v]
    else list[..p] + [v] + list[p..]
  }

  /** From the position on, every other key is greater. */
  lemma AfterPosition(list: seq<Version>, key: Key, i: nat)
    requires Ascends(list) && Position(list, key) <= i < |list|
    ensures i > Position(list, key) || list[i].key != key ==> KeyLess(key, list[i].key)
  {
    hide KeyLess;
    var p := Position(list, key);
    KeyTotal(key, list[p].key);
    if i > p && KeyLess(key, list[p].key) { KeyTransitive(key, list[p].key, list[i].key); }
  }

  /** Find is lookup in the list as a set. */
  lemma FindIs(list: seq<Version>, key: Key)
    requires Ascends(list)
    ensures Find(list, key).None? <==> forall v :: v in list ==> v.key != key
    ensures forall v :: v in list && v.key == key ==> Find(list, key) == Some(v)
  {
    hide KeyLess;
    var p := Position(list, key);
    forall v | v in list && v.key == key ensures Find(list, key) == Some(v) {
      var i :| 0 <= i < |list| && list[i] == v;
      KeyTotal(key, key);
      if i >= p { AfterPosition(list, key, i); }
    }
  }

  lemma InsertAscends(list: seq<Version>, v: Version)
    requires Ascends(list)
    ensures Ascends(Insert(list, v))
  {
    hide KeyLess;
    var p, r := Position(list, v.key), Insert(list, v);
    if p < |list| && list[p].key == v.key {
    } else {
      forall i, j | 0 <= i < j < |r| ensures KeyLess(r[i].key, r[j].key) {
        if i == p { AfterPosition(list, v.key, j - 1); }
        else if i < p && j > p { assert r[j] == list[j - 1]; }
      }
    }
  }

  /** What an insertion keeps, adds and drops. */
  lemma InsertIs(list: seq<Version>, v: Version)
    requires Ascends(list)
    ensures forall w :: w in Insert(list, v) ==> w in list || w == v
    ensures forall w :: w in list && w.key != v.key ==> w in Insert(list, v)
    ensures exists w :: w in Insert(list, v) && w.key == v.key && w.seq_ >= v.seq_
    ensures forall w :: w in list && w.key == v.key ==>
      exists x :: x in Insert(list, v) && x.key == v.key && x.seq_ >= w.seq_
  {
    hide KeyLess, Position;
    var p, r := Position(list, v.key), Insert(list, v);
    FindIs(list, v.key);
    if p < |list| && list[p].key == v.key {
      if v.seq_ > list[p].seq_ {
        assert r[p] == v;
        forall w | w in list && w.key != v.key ensures w in r {
          var i :| 0 <= i < |list| && list[i] == w;
          assert r[i] == w;
        }
      } else {
        assert r[p] == list[p];
      }
    } else {
      assert r[p] == v;
      forall w | w in list ensures w in r {
        var i :| 0 <= i < |list| && list[i] == w;
        assert if i < p then r[i] == w else r[i + 1] == w;
      }
    }
  }
}
