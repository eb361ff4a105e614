/**
 When the formats have room: every table that some writes can be in fits the table format, and
 every edit about such a table fits the manifest's frame.
 */
module FormatRoom {
  import opened RaftTypes
  import opened LsmTypes
  import opened Bytes
  import opened EngineModel
  import opened LsmDisk
  import M = Manifest
  import Store = LsmStore
  import SSTable
  import TableFormat

  /** The numbers of an edit are those its fields can hold; it adds at most one table and drops four. */
  ghost predicate SmallEdit(e: M.Edit) {
    && |e.added| <= 1 && |e.removed| <= 4 && e.flushed <= MAX_UINT64
    && (forall f :: f in e.removed ==> f <= MAX_UINT64)
    && forall a :: a in e.added ==> a.file <= MAX_UINT64 && a.meta.tier <= MAX_UINT32 && a.meta.count <= MAX_UINT64
  }

  ghost predicate KeysOf(m: M.Meta, writes: set<Version>) {
    exists v, w :: v in writes && w in writes && m.minKey == v.key && m.maxKey == w.key
  }

  /** An edit that adds a table of some of these writes, if any. */
  ghost predicate EditOf(e: M.Edit, writes: set<Version>) {
    SmallEdit(e) && forall a :: a in e.added ==> KeysOf(a.meta, writes) && a.meta.count <= |writes|
  }

  /** The formats have room for every table of these writes and for every edit about one. */
  ghost predicate Roomy(fm: Formats, writes: set<Version>) {
    && |writes| <= MAX_UINT64
    && (forall content: seq<Version> :: Ascends(content) && ListSet(content) <= writes ==>
         !SSTable.TooBig(fm.crc, content))
    && forall e: M.Edit :: EditOf(e, writes) ==> Fits(|fm.edits.marshal(e)|, 4)
  }

  /** Keys differ, so the first record is not met again. */
  lemma RestWithin(content: seq<Version>, writes: set<Version>)
    requires Ascends(content) && ListSet(content) <= writes && content != []
    ensures content[0] in writes && Ascends(content[1..]) && ListSet(content[1..]) <= writes - {content[0]}
    ensures |writes - {content[0]}| == |writes| - 1
  {
    var v, rest := content[0], content[1..];
    assert v in ListSet(content);
    forall w | w in ListSet(rest) ensures w in writes - {v} {
      var i :| 0 <= i < |rest| && rest[i] == w;
      assert content[i + 1] == w && KeyLess(v.key, w.key);
      KeyIrreflexive(v.key);
      assert w in ListSet(content);
    }
  }

  lemma {:induction false} CountWithin(content: seq<Version>, writes: set<Version>)
    requires Ascends(content) && ListSet(content) <= writes
    ensures |content| <= |writes|
    decreases |content|
  {
    hide Ascends, ListSet;
    if content != [] {
      RestWithin(content, writes);
      CountWithin(content[1..], writes - {content[0]});
    }
  }

  lemma {:induction false} PayloadWithin(content: seq<Version>, writes: set<Version>, size: nat)
    requires Ascends(content) && ListSet(content) <= writes
    requires forall v :: v in writes ==> |TableFormat.RecordBytes(v)| <= size
    ensures |TableFormat.Payload(content)| <= |writes| * size
    decreases |content|
  {
    hide TableFormat.RecordBytes, Ascends, ListSet;
    if content != [] {
      RestWithin(content, writes);
      PayloadWithin(content[1..], writes - {content[0]}, size);
      assert |writes| * size == (|writes| - 1) * size + size;
    }
  }

  function KeyBytes(added: seq<M.Added>): nat {
    if added == [] then 0 else |added[0].meta.minKey| + |added[0].meta.maxKey| + KeyBytes(added[1..])
  }

  /** An edit's payload takes at most twice its keys and a bounded number of bytes besides. */
  ghost predicate Frugal(codec: M.Codec, overhead: nat) {
    forall e: M.Edit :: SmallEdit(e) ==> |codec.marshal(e)| <= overhead + 2 * KeyBytes(e.added)
  }

  /**
   Room is no luxury: any writes that take 64 MiB together have it, with any codec whose edits
   take at most 2 GiB besides their keys.
   */
  lemma SmallIsRoomy(fm: Formats, writes: set<Version>, size: nat, overhead: nat)
    requires forall v :: v in writes ==> v.seq_ <= MAX_UINT64 && |TableFormat.RecordBytes(v)| <= size
    requires |writes| * size <= SSTable.SMALL && Frugal(fm.edits, overhead) && overhead <= 0x8000_0000
    ensures Roomy(fm, writes)
  {
    hide SSTable.TooBig, TableFormat.RecordBytes, TableFormat.Payload, Ascends, KeyBytes;
    forall content: seq<Version> | Ascends(content) && ListSet(content) <= writes
      ensures !SSTable.TooBig(fm.crc, content)
    {
      PayloadWithin(content, writes, size);
      assert forall v :: v in content ==> v in ListSet(content);
      SSTable.SmallTableFits(fm.crc, content);
    }
    FewWrites(writes, size);
    forall e: M.Edit | EditOf(e, writes) ensures Fits(|fm.edits.marshal(e)|, 4) {
      KeysFit(e, writes, size);
      FourBytes();
    }
  }

  lemma FourBytes()
    ensures Pow256(4) == MAX_UINT32 + 1
  {}

  lemma FewWrites(writes: set<Version>, size: nat)
    requires |writes| * size <= SSTable.SMALL && forall v :: v in writes ==> |TableFormat.RecordBytes(v)| <= size
    ensures |writes| <= SSTable.SMALL && (writes != {} ==> size <= SSTable.SMALL)
  {
    hide TableFormat.RecordBytes;
    if writes != {} {
      var v :| v in writes;
      assert size >= 1 && |writes| >= 1;
      assert |writes| * size >= |writes| && |writes| * size >= size;
    }
  }

  /** The keys of an edit about small writes are small. */
  lemma KeysFit(e: M.Edit, writes: set<Version>, size: nat)
    requires EditOf(e, writes) && forall v :: v in writes ==> |TableFormat.RecordBytes(v)| <= size
    requires writes != {} ==> size <= SSTable.SMALL
    ensures KeyBytes(e.added) <= 2 * SSTable.SMALL
  {
    hide TableFormat.RecordBytes;
    if e.added != [] {
      var a := e.added[0];
      assert a in e.added && e.added[1..] == [] && KeyBytes([]) == 0;
      var v, w :| v in writes && w in writes && a.meta.minKey == v.key && a.meta.maxKey == w.key;
      SSTable.RecordSize(v);
      SSTable.RecordSize(w);
    }
  }

  lemma RoomyLess(fm: Formats, a: set<Version>, b: set<Version>)
    requires Roomy(fm, b) && a <= b
    ensures Roomy(fm, a)
  {
    hide SSTable.TooBig, SmallEdit;
    assert |b - a| + |a| == |b| by { assert (b - a) + a == b; }
    forall e: M.Edit | EditOf(e, a) ensures Fits(|fm.edits.marshal(e)|, 4) {
      forall m: M.Meta | KeysOf(m, a) ensures KeysOf(m, b) {
        var v, w :| v in a && w in a && m.minKey == v.key && m.maxKey == w.key;
        assert v in b && w in b;
      }
      assert EditOf(e, b);
    }
  }

  lemma RoomyTable(fm: Formats, writes: set<Version>, content: seq<Version>, n: nat, tier: nat, removed: seq<nat>,
                   flushed: nat)
    requires Roomy(fm, writes) && Ascends(content) && content != [] && ListSet(content) <= writes
    requires n <= MAX_UINT64 && tier <= MAX_UINT32 && flushed <= MAX_UINT64
    requires |removed| <= 4 && forall f :: f in removed ==> f <= MAX_UINT64
    ensures !SSTable.TooBig(fm.crc, content)
    ensures Fits(|fm.edits.marshal(M.Edit([M.Added(n, Store.MetaOf(content, tier))], removed, flushed))|, 4)
  {
    hide SSTable.TooBig;
    var e := M.Edit([M.Added(n, Store.MetaOf(content, tier))], removed, flushed);
    var first, last := content[0], content[|content| - 1];
    assert first in ListSet(content) && last in ListSet(content);
    CountWithin(content, writes);
    assert KeysOf(Store.MetaOf(content, tier), writes) by { assert first in writes && last in writes; }
    assert EditOf(e, writes);
  }

  lemma RoomyMark(fm: Formats, writes: set<Version>, index: nat)
    requires Roomy(fm, writes) && index <= MAX_UINT64
    ensures Fits(|fm.edits.marshal(M.Edit([], [], index))|, 4)
  {
    hide SSTable.TooBig;
    assert EditOf(M.Edit([], [], index), writes);
  }
}
