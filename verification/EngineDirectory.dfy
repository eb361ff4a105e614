/**
 The engine's lists and its directory, as values. Between operations the manifest names exactly
 the engine's tables; each flush, compaction or moved mark changes both sides by one edit, so
 whichever version a crash leaves is one the engine had.
 */
module EngineDirectory {
  import opened RaftTypes
  import opened LsmTypes
  import opened SizeTiers
  import opened EngineModel
  import opened EngineState
  import opened SimFs
  import opened LsmDisk
  import KWayMerge
  import M = Manifest
  import Store = LsmStore

  /** The manifest's version names exactly the tables of x. */
  ghost predicate Reflects(v: M.VersionState, book: Book, x: Snapshot) {
    && v.flushed == x.flushed && v.files.Keys == Numbers(x.tables)
    && forall t :: t in x.tables ==>
         && t.number in book && book[t.number].content == t.content
         && t.number in v.files && v.files[t.number].tier == t.tier
  }

  /** Every number in use is below the next one. */
  ghost predicate Below(fs: Fs, book: Book, next: nat) {
    (forall f :: f in Names(fs) ==> f < next) && forall f :: f in book ==> f < next
  }

  /** Files waiting to be removed are not named. */
  ghost predicate Unnamed(v: M.VersionState, obsolete: seq<nat>, next: nat) {
    forall f :: f in obsolete ==> f != 0 && f < next && f !in v.files
  }

  /** The directory is at the version of x. */
  ghost predicate Tied(fm: Formats, fs: Fs, v: M.VersionState, edits: seq<M.Edit>, book: Book, x: Snapshot,
                       obsolete: seq<nat>) {
    && LsmDisk.Settled(fm, fs, edits, book) && v == M.Replay(edits).value
    && Reflects(v, book, x) && Below(fs, book, x.nextFile) && Unnamed(v, obsolete, x.nextFile)
  }

  /** The version after the edit, if its tables exist, names the tables of y. */
  ghost predicate LeadsTo(edits: seq<M.Edit>, e: M.Edit, book: Book, y: Snapshot) {
    match M.Replay(edits + [e])
    case None => true
    case Some(v) => (forall f :: f in v.files ==> f in book) ==> Reflects(v, book, y)
  }

  /** The directory may be at the version of x or, one edit later, at that of y. */
  ghost predicate Unsure(fm: Formats, fs: Fs, v: M.VersionState, edits: seq<M.Edit>, book: Book, x: Snapshot,
                         e: M.Edit, y: Snapshot) {
    && Store.Recoverable(fm, fs, edits, e, book) && M.Replay(edits) == Some(v)
    && Reflects(v, book, x) && SnapshotOk(y) && LeadsTo(edits, e, book, y) && y.history == x.history
  }

  /** A frozen memtable holds writes that were made. */
  lemma FrozenWritten(x: Snapshot)
    requires SnapshotOk(x) && x.frozen != []
    ensures ListSet(x.frozen[0].list) <= x.history
  {
    hide FrozenOk, MarksAscend, TablesOk, KWayMerge.NoClash;
    var sources := ListSet(x.active) + FrozenSet(x.frozen) + TableSet(x.tables);
    forall v | v in ListSet(x.frozen[0].list)
      ensures v in x.history
    {
      assert v in FrozenSet(x.frozen) && v in sources;
    }
  }

  /** So does a compaction's output. */
  lemma MergedWritten(x: Snapshot, tier: nat, inputs: seq<Table>, content: seq<Version>)
    requires SnapshotOk(x) && Compacts(x, tier, inputs, content)
    ensures ListSet(content) <= x.history
  {
    hide FrozenOk, MarksAscend, TablesOk, KWayMerge.NoClash;
    var sources := ListSet(x.active) + FrozenSet(x.frozen) + TableSet(x.tables);
    forall v | v in ListSet(content) ensures v in x.history {
      assert Newest(TableSet(inputs), v);
      var i :| 0 <= i < |inputs| && v in inputs[i].content;
      assert inputs[i] in inputs;
      InTables(x.tables, inputs[i], v);
      assert v in sources;
    }
  }

  /** A compaction's numbers and its output's tier are within the formats' fields. */
  lemma InputsFit(x: Snapshot, tier: nat, inputs: seq<Table>)
    requires SnapshotOk(x) && FourOf(x.tables, tier, inputs)
    ensures tier < 58 && |NumberList(inputs)| == 4 && forall f :: f in NumberList(inputs) ==> f <= MAX_UINT64
  {
    hide FrozenOk, MarksAscend, Represents, KWayMerge.NoClash, Light, Weight;
    TablesBelow(x.tables, x.flushed, x.nextFile);
    assert inputs[0] in inputs && UpTo(x.tables, x.nextFile);
    TierFits(x.tables, inputs[0], x.nextFile);
    forall f | f in NumberList(inputs) ensures f <= MAX_UINT64 {
      var i :| 0 <= i < |inputs| && NumberList(inputs)[i] == f;
      assert inputs[i] in inputs;
    }
  }

  lemma OutputFits(x: Snapshot, tier: nat, inputs: seq<Table>, content: seq<Version>)
    requires SnapshotOk(x) && Compacts(x, tier, inputs, content)
    ensures tier < 58 && |NumberList(inputs)| == 4 && forall f :: f in NumberList(inputs) ==> f <= MAX_UINT64
  {
    hide SnapshotOk, FourOf, KWayMerge.Merged, NumberList;
    InputsFit(x, tier, inputs);
  }

  // ----- Lemmas about the parts -----

  lemma OneAdded(files: map<nat, M.Meta>, a: M.Added)
    ensures M.AddFiles(files, [a]) == files[a.file := a.meta]
  {
    assert [a][..0] == [];
  }

  lemma NumbersLess(tables: seq<Table>, gone: set<nat>)
    ensures Numbers(Without(tables, gone)) == Numbers(tables) - gone
  {
    forall n | n in Numbers(tables) - gone ensures n in Numbers(Without(tables, gone)) {
      var t :| t in tables && t.number == n;
      assert t in Without(tables, gone);
    }
  }

  lemma SortedNumbers(tables: seq<Table>)
    ensures Numbers(SortByName(tables)) == Numbers(tables)
  {
    hide SortByName;
    SortKeeps(tables);
  }

  lemma Unused(tables: seq<Table>, flushed: nat, nextFile: nat)
    requires TablesOk(tables, flushed, nextFile)
    ensures forall t :: t in tables ==> t.number < nextFile
  {}

  lemma ReplaySome(fm: Formats, fs: Fs, edits: seq<M.Edit>, book: Book)
    requires LsmDisk.Settled(fm, fs, edits, book)
    ensures M.Replay(edits).Some? && forall f :: f in M.Replay(edits).value.files ==> f > 0 && f in book
  {
    hide M.Replay, Sound, TableOk, MetaOk, NoDirty;
  }

  lemma NamedBelow(v: M.VersionState, book: Book, x: Snapshot)
    requires SnapshotOk(x) && Reflects(v, book, x)
    ensures forall f :: f in v.files ==> f < x.nextFile
  {
    hide FrozenOk, MarksAscend, Represents, KWayMerge.NoClash;
    forall f | f in v.files ensures f < x.nextFile {
      assert f in Numbers(x.tables);
      var t :| t in x.tables && t.number == f;
      var i :| 0 <= i < |x.tables| && x.tables[i] == t;
    }
  }

  // ----- In memory -----

  /** Writes and freezes touch neither the tables nor the directory. */
  lemma TiedMemory(fm: Formats, fs: Fs, v: M.VersionState, edits: seq<M.Edit>, book: Book, x: Snapshot,
                   obsolete: seq<nat>, y: Snapshot)
    requires Tied(fm, fs, v, edits, book, x, obsolete) && y.tables == x.tables
    requires y.flushed == x.flushed && y.nextFile == x.nextFile
    ensures Tied(fm, fs, v, edits, book, y, obsolete)
  {
    hide LsmDisk.Settled, M.Replay;
  }

  // ----- A publication that changed nothing -----

  lemma TiedRefused(fm: Formats, fs: Fs, fs': Fs, v: M.VersionState, edits: seq<M.Edit>, book: Book, book': Book,
                    x: Snapshot, obsolete: seq<nat>, file: TableFile)
    requires SnapshotOk(x) && Tied(fm, fs, v, edits, book, x, obsolete) && LsmDisk.Settled(fm, fs', edits, book')
    requires Names(fs') <= Names(fs) + {x.nextFile} && (book' == book || book' == book[x.nextFile := file])
    ensures Tied(fm, fs', v, edits, book', x.(nextFile := x.nextFile + 1), obsolete)
  {
    hide LsmDisk.Settled, M.Replay, Names, FrozenOk, MarksAscend, Represents, KWayMerge.NoClash, TablesOk, Numbers;
    Unused(x.tables, x.flushed, x.nextFile);
  }

  /** The output of a compaction that was not published is to be removed. */
  lemma TiedDropped(fm: Formats, fs: Fs, v: M.VersionState, edits: seq<M.Edit>, book: Book, x: Snapshot,
                    obsolete: seq<nat>, n: nat)
    requires SnapshotOk(x) && Tied(fm, fs, v, edits, book, x, obsolete) && 0 < n < x.nextFile && n !in v.files
    ensures Tied(fm, fs, v, edits, book, x, obsolete + [n])
  {
    hide LsmDisk.Settled, M.Replay, Names, Reflects, SnapshotOk;
  }

  /** Removing unnamed files. */
  lemma TiedCleaned(fm: Formats, fs: Fs, fs': Fs, v: M.VersionState, edits: seq<M.Edit>, book: Book, x: Snapshot,
                    obsolete: seq<nat>, pending: seq<nat>)
    requires Tied(fm, fs, v, edits, book, x, obsolete) && LsmDisk.Settled(fm, fs', edits, book)
    requires Names(fs') <= Names(fs)
    requires forall f :: f in pending ==> f in obsolete
    ensures Tied(fm, fs', v, edits, book, x, pending)
  {
    hide LsmDisk.Settled, M.Replay, Names;
  }

  // ----- Flush -----

  ghost function FlushEdit(x: Snapshot, tier: nat): M.Edit
    requires x.frozen != [] && x.frozen[0].list != []
  {
    M.Edit([M.Added(x.nextFile, Store.MetaOf(x.frozen[0].list, tier))], [], x.frozen[0].watermark)
  }

  lemma FlushReflects(v: M.VersionState, book: Book, x: Snapshot, tier: nat, file: TableFile)
    requires SnapshotOk(x) && Reflects(v, book, x) && x.frozen != [] && x.frozen[0].list != []
    requires M.Apply(v, FlushEdit(x, tier)).Some? && file.content == x.frozen[0].list
    ensures Reflects(M.Apply(v, FlushEdit(x, tier)).value, book[x.nextFile := file], FlushNext(x, tier))
  {
    hide FrozenOk, MarksAscend, TablesOk, Represents, KWayMerge.NoClash, M.Acceptable, Numbers, M.AddFiles;
    var e := FlushEdit(x, tier);
    OneAdded(v.files - M.SetOf(e.removed), e.added[0]);
    assert v.files - M.SetOf(e.removed) == v.files;
    NumbersSplit(x.tables, Table(x.nextFile, tier, x.frozen[0].list));
    Unused(x.tables, x.flushed, x.nextFile);
  }

  /** The manifest accepts the edit of a flush. */
  lemma FlushAcceptable(v: M.VersionState, book: Book, x: Snapshot, tier: nat)
    requires SnapshotOk(x) && Reflects(v, book, x) && x.frozen != []
    ensures x.frozen[0].list != [] && M.Apply(v, FlushEdit(x, tier)).Some?
    ensures Ascends(x.frozen[0].list) && forall w :: w in x.frozen[0].list ==> w.seq_ <= x.frozen[0].watermark
  {
    hide TablesOk, Represents, KWayMerge.NoClash, M.AddFiles, Numbers, KeyLess;
    NamedBelow(v, book, x);
    var list := x.frozen[0].list;
    FirstNotAfterLast(list);
    var e := FlushEdit(x, tier);
    assert forall a :: a in e.added ==> a == e.added[0];
  }

  lemma FirstNotAfterLast(list: seq<Version>)
    requires Ascends(list) && list != []
    ensures !KeyLess(list[|list| - 1].key, list[0].key)
  {
    hide KeyLess;
    KeyTotal(list[0].key, list[|list| - 1].key);
  }

  lemma TiedFlushed(fm: Formats, fs: Fs, fs': Fs, v: M.VersionState, edits: seq<M.Edit>, book: Book, x: Snapshot,
                    obsolete: seq<nat>, tier: nat, file: TableFile)
    requires SnapshotOk(x) && Tied(fm, fs, v, edits, book, x, obsolete) && x.frozen != [] && x.frozen[0].list != []
    requires var e, book' := FlushEdit(x, tier), book[x.nextFile := file];
      M.Apply(v, e).Some? && file.content == x.frozen[0].list && LsmDisk.Settled(fm, fs', edits + [e], book')
    requires Names(fs') <= Names(fs) + {x.nextFile}
    ensures var e := FlushEdit(x, tier);
      Tied(fm, fs', M.Apply(v, e).value, edits + [e], book[x.nextFile := file], FlushNext(x, tier), obsolete)
  {
    hide LsmDisk.Settled, M.Replay, M.Apply, Names, Reflects, SnapshotOk;
    var e := FlushEdit(x, tier);
    FlushReflects(v, book, x, tier, file);
    ReplaySome(fm, fs, edits, book);
    M.ReplayMore(edits, e);
    EditFiles(v, e);
  }

  /** Which files an edit leaves named. */
  lemma EditFiles(v: M.VersionState, e: M.Edit)
    requires M.Apply(v, e).Some?
    ensures M.Apply(v, e).value.files.Keys == v.files.Keys - M.SetOf(e.removed) + (set a | a in e.added :: a.file)
  {
    hide M.Acceptable;
  }

  // ----- An edit whose fate is unknown -----

  lemma UnsureAfter(fm: Formats, fs: Fs, fs': Fs, v: M.VersionState, edits: seq<M.Edit>, book: Book, book': Book,
                    x: Snapshot, obsolete: seq<nat>, e: M.Edit, y: Snapshot, n: nat, file: TableFile)
    requires SnapshotOk(x) && Tied(fm, fs, v, edits, book, x, obsolete) && SnapshotOk(y) && y.history == x.history
    requires book' == book || (n == x.nextFile && book' == book[n := file])
    requires Store.Recoverable(fm, fs', edits, e, book') && M.Apply(v, e).Some?
    requires Reflects(M.Apply(v, e).value, book', y)
    ensures Unsure(fm, fs', v, edits, book', x, e, y)
    ensures Unsure(fm, fs', v, edits, book', x.(nextFile := x.nextFile + 1), e, y)
  {
    hide Store.Recoverable, LsmDisk.Settled, M.Replay, M.Apply, FrozenOk, MarksAscend, TablesOk, Represents,
      KWayMerge.NoClash, Numbers;
    ReplaySome(fm, fs, edits, book);
    M.ReplayMore(edits, e);
    Unused(x.tables, x.flushed, x.nextFile);
  }

  // ----- Compaction -----

  ghost predicate Compacts(x: Snapshot, tier: nat, inputs: seq<Table>, content: seq<Version>) {
    FourOf(x.tables, tier, inputs) && KWayMerge.Merged(TableSet(inputs), content)
  }

  function NumberList(inputs: seq<Table>): (ns: seq<nat>)
    ensures |ns| == |inputs| && forall i :: 0 <= i < |inputs| ==> ns[i] == inputs[i].number
  {
    seq(|inputs|, i requires 0 <= i < |inputs| => inputs[i].number)
  }

  ghost function CompactEdit(x: Snapshot, tier: nat, inputs: seq<Table>, content: seq<Version>): M.Edit
    requires content != []
  {
    M.Edit([M.Added(x.nextFile, Store.MetaOf(content, tier + 1))], NumberList(inputs), x.flushed)
  }

  lemma InputNumbers(inputs: seq<Table>)
    ensures M.SetOf(NumberList(inputs)) == Numbers(inputs)
  {
    var ns := NumberList(inputs);
    forall f | f in Numbers(inputs) ensures f in M.SetOf(ns) {
      var t :| t in inputs && t.number == f;
      var i :| 0 <= i < |inputs| && inputs[i] == t;
      assert ns[i] == f;
    }
  }

  lemma CompactReflects(v: M.VersionState, book: Book, x: Snapshot, tier: nat, inputs: seq<Table>,
                        content: seq<Version>, file: TableFile)
    requires SnapshotOk(x) && Reflects(v, book, x) && content != [] && file.content == content
    requires M.Apply(v, CompactEdit(x, tier, inputs, content)).Some?
    ensures Reflects(M.Apply(v, CompactEdit(x, tier, inputs, content)).value, book[x.nextFile := file],
                     CompactNext(x, tier, inputs, content))
  {
    hide FrozenOk, MarksAscend, TablesOk, Represents, KWayMerge.NoClash, M.Acceptable, Without, Numbers, M.AddFiles,
      SortByName, NumberList;
    var e, output := CompactEdit(x, tier, inputs, content), Table(x.nextFile, tier + 1, content);
    var gone := Numbers(inputs);
    InputNumbers(inputs);
    OneAdded(v.files - gone, e.added[0]);
    NumbersLess(x.tables, gone);
    NumbersSplit(Without(x.tables, gone), output);
    SortedNumbers(Without(x.tables, gone) + [output]);
    SortKeeps(Without(x.tables, gone) + [output]);
    Unused(x.tables, x.flushed, x.nextFile);
    StillNamed(x.tables, gone);
  }

  lemma StillNamed(tables: seq<Table>, gone: set<nat>)
    ensures forall t :: t in Without(tables, gone) ==> t in tables && t.number !in gone
  {}

  /** The inputs' merge is a table, and the manifest accepts the compaction's edit. */
  lemma CompactAcceptable(v: M.VersionState, book: Book, x: Snapshot, tier: nat, inputs: seq<Table>,
                          content: seq<Version>)
    requires SnapshotOk(x) && Reflects(v, book, x) && Compacts(x, tier, inputs, content)
    ensures content != [] && M.Apply(v, CompactEdit(x, tier, inputs, content)).Some?
    ensures Ascends(content) && |inputs| == 4
    ensures (forall w :: w in content ==> w.seq_ <= x.flushed)
    ensures forall f :: f in NumberList(inputs) ==> f in v.files && f != x.nextFile
  {
    hide FrozenOk, MarksAscend, Represents, KWayMerge.NoClash, M.AddFiles, KeyLess, TableSet, KWayMerge.Merged,
      TablesOk;
    MergedContent(x.tables, x.flushed, x.nextFile, tier, inputs, content);
    NamedBelow(v, book, x);
    FirstNotAfterLast(content);
    InputsNamed(v, book, x, tier, inputs);
    var e := CompactEdit(x, tier, inputs, content);
    assert forall a :: a in e.added ==> a == e.added[0];
  }

  lemma InputsNamed(v: M.VersionState, book: Book, x: Snapshot, tier: nat, inputs: seq<Table>)
    requires Reflects(v, book, x) && FourOf(x.tables, tier, inputs)
    ensures M.Unique(NumberList(inputs)) && forall f :: f in NumberList(inputs) ==> f in v.files
  {
    var ns := NumberList(inputs);
    forall f | f in ns ensures f in v.files {
      var i :| 0 <= i < |ns| && ns[i] == f;
      assert inputs[i] in inputs;
    }
  }

  lemma TiedCompacted(fm: Formats, fs: Fs, fs': Fs, v: M.VersionState, edits: seq<M.Edit>, book: Book, x: Snapshot,
                      obsolete: seq<nat>, tier: nat, inputs: seq<Table>, content: seq<Version>, file: TableFile)
    requires SnapshotOk(x) && Tied(fm, fs, v, edits, book, x, obsolete) && Compacts(x, tier, inputs, content)
    requires content != [] && file.content == content && Names(fs') <= Names(fs) + {x.nextFile}
    requires var e := CompactEdit(x, tier, inputs, content);
      M.Apply(v, e).Some? && LsmDisk.Settled(fm, fs', edits + [e], book[x.nextFile := file])
    ensures var e := CompactEdit(x, tier, inputs, content);
      Tied(fm, fs', M.Apply(v, e).value, edits + [e], book[x.nextFile := file], CompactNext(x, tier, inputs, content),
           obsolete + NumberList(inputs))
  {
    hide LsmDisk.Settled, M.Replay, M.Apply, Names, Reflects, SnapshotOk, Compacts, CompactNext, NumberList;
    var e := CompactEdit(x, tier, inputs, content);
    CompactReflects(v, book, x, tier, inputs, content, file);
    CompactAcceptable(v, book, x, tier, inputs, content);
    ReplaySome(fm, fs, edits, book);
    NamedBelow(v, book, x);
    M.ReplayMore(edits, e);
    EditFiles(v, e);
    CompactNumber(x, tier, inputs, content);
    assert forall f :: f in NumberList(inputs) ==> f in M.SetOf(e.removed) && f > 0;
  }

  lemma CompactNumber(x: Snapshot, tier: nat, inputs: seq<Table>, content: seq<Version>)
    ensures CompactNext(x, tier, inputs, content).nextFile == x.nextFile + 1
  {}

  lemma CompactNextIs(x: Snapshot, tier: nat, inputs: seq<Table>, content: seq<Version>)
    ensures var tables := SortByName(Without(x.tables, Numbers(inputs)) + [Table(x.nextFile, tier + 1, content)]);
      CompactNext(x, tier, inputs, content) == x.(tables := tables, nextFile := x.nextFile + 1)
  {
    hide SortByName, Without, Numbers;
  }

  /** Four tables of a tier have given way to their merge, one tier up, and nothing else has changed. */
  ghost predicate Merges(before: seq<Table>, after: seq<Table>, tier: nat, inputs: seq<Table>, number: nat) {
    exists content ::
      KWayMerge.Merged(TableSet(inputs), content) && Exchanged(before, after, tier, inputs, number, content)
  }

  ghost predicate Exchanged(before: seq<Table>, after: seq<Table>, tier: nat, inputs: seq<Table>, number: nat,
                            content: seq<Version>) {
    forall t :: t in after <==> (t in before && t !in inputs) || t == Table(number, tier + 1, content)
  }

  lemma CompactMerges(x: Snapshot, tier: nat, inputs: seq<Table>, content: seq<Version>)
    requires Compacts(x, tier, inputs, content) && NumbersDiffer(x.tables)
    ensures Merges(x.tables, CompactNext(x, tier, inputs, content).tables, tier, inputs, x.nextFile)
  {
    hide KWayMerge.Merged, TableSet, SortByName, Without;
    CompactNextIs(x, tier, inputs, content);
    var added := Table(x.nextFile, tier + 1, content);
    var kept := Without(x.tables, Numbers(inputs));
    var after := CompactNext(x, tier, inputs, content).tables;
    forall t ensures t in after <==> (t in x.tables && t !in inputs) || t == added {
      assert t in after <==> t in multiset(kept + [added]);
      if t in x.tables { GoneIff(x.tables, inputs, t); }
    }
    assert Exchanged(x.tables, after, tier, inputs, x.nextFile, content);
  }

  lemma GoneIff(tables: seq<Table>, inputs: seq<Table>, t: Table)
    requires NumbersDiffer(tables) && t in tables && forall u :: u in inputs ==> u in tables
    ensures t.number in Numbers(inputs) <==> t in inputs
  {
    if t.number in Numbers(inputs) {
      var u :| u in inputs && u.number == t.number;
      assert u == t;
    }
  }

  lemma CompactedSnapshot(x: Snapshot, tier: nat, inputs: seq<Table>, content: seq<Version>)
    requires SnapshotOk(x) && Compacts(x, tier, inputs, content) && x.nextFile < MAX_UINT64
    ensures var y := CompactNext(x, tier, inputs, content);
      && SnapshotOk(y) && (Promised(x) ==> Promised(y)) && y.history == x.history
      && Weight(y.tables) == Weight(x.tables) && |y.tables| == |x.tables| - 3
  {
    hide SnapshotOk, Promised, Weight, KWayMerge.Merged, TableSet, Replaced;
    CompactSnapshot(x, tier, inputs, content);
  }

  /** The inputs of a compaction can be merged. */
  lemma InputsOf(x: Snapshot, tier: nat, inputs: seq<Table>)
    requires SnapshotOk(x) && FourOf(x.tables, tier, inputs)
    ensures forall i :: 0 <= i < |inputs| ==> SortedTable(Contents(inputs)[i])
    ensures KWayMerge.NoClash(KWayMerge.Rest([], Contents(inputs)))
    ensures KWayMerge.Rest([], Contents(inputs)) == TableSet(inputs)
  {
    hide FrozenOk, MarksAscend, KWayMerge.NoClash, FourOf, KWayMerge.Rest, SortedTable, Represents, TableSet, ListSet,
      FrozenSet, TablesOk;
    var sources := ListSet(x.active) + FrozenSet(x.frozen) + TableSet(x.tables);
    InputsMerge(x.tables, x.flushed, x.nextFile, tier, inputs, sources, x.history);
  }

  /** The next number is no file's. */
  lemma NewNumber(fm: Formats, fs: Fs, v: M.VersionState, edits: seq<M.Edit>, book: Book, x: Snapshot,
                  obsolete: seq<nat>)
    requires SnapshotOk(x) && Tied(fm, fs, v, edits, book, x, obsolete)
    ensures x.nextFile !in v.files && x.nextFile !in fs.live && v == M.Replay(edits).value && v.flushed == x.flushed
    ensures LsmDisk.Settled(fm, fs, edits, book)
  {
    hide SnapshotOk, LsmDisk.Settled, M.Replay;
    NamedBelow(v, book, x);
    assert x.nextFile !in Names(fs);
  }

  // ----- A moved mark -----

  ghost function MarkEdit(index: nat): M.Edit { M.Edit([], [], index) }

  lemma MarkReflects(v: M.VersionState, book: Book, x: Snapshot, index: nat)
    requires Reflects(v, book, x) && index > x.flushed
    ensures M.Apply(v, MarkEdit(index)).Some? && Reflects(M.Apply(v, MarkEdit(index)).value, book, MarkNext(x, index))
    ensures M.Apply(v, MarkEdit(index)).value.files == v.files
  {
    assert v.files - M.SetOf([]) == v.files;
  }

  /** Raising the mark keeps every table in place. */
  lemma MarkPlaced(fm: Formats, fs: Fs, v: M.VersionState, edits: seq<M.Edit>, book: Book, x: Snapshot,
                   obsolete: seq<nat>, index: nat)
    requires Tied(fm, fs, v, edits, book, x, obsolete) && index > x.flushed
    ensures M.Apply(v, MarkEdit(index)).Some? && AllPlaced(fm, fs, book, M.Apply(v, MarkEdit(index)).value)
  {
    hide M.Replay, Sound, TableOk, NoDirty, Named, M.Apply;
    MarkReflects(v, book, x, index);
    var v' := M.Apply(v, MarkEdit(index)).value;
    forall f | f in v'.files
      ensures f > 0 && Placed(fm, fs, book, f) && MetaOk(v'.files[f], book[f].content, v'.flushed)
    {
      assert MetaOk(v.files[f], book[f].content, v.flushed);
    }
  }

  lemma MarkEnds(status: Store.CommitStatus, fm: Formats, fs: Fs, fs': Fs, v: M.VersionState, v': M.VersionState,
                 edits: seq<M.Edit>, edits': seq<M.Edit>, book: Book, x: Snapshot, obsolete: seq<nat>, index: nat)
    requires SnapshotOk(x) && Tied(fm, fs, v, edits, book, x, obsolete) && index > x.flushed
    requires x.active == [] && x.frozen == []
    requires Names(fs') <= Names(fs)
    requires match status
             case Refused => v' == v && edits' == edits && LsmDisk.Settled(fm, fs', edits, book)
             case Uncertain => v' == v && edits' == edits && Store.Recoverable(fm, fs', edits, MarkEdit(index), book)
             case Committed =>
               && edits' == edits + [MarkEdit(index)] && LsmDisk.Settled(fm, fs', edits', book)
               && M.Apply(v, MarkEdit(index)) == Some(v')
    ensures match status
            case Refused => Tied(fm, fs', v', edits', book, x, obsolete)
            case Uncertain => Unsure(fm, fs', v', edits', book, x, MarkEdit(index), MarkNext(x, index))
            case Committed => Tied(fm, fs', v', edits', book, MarkNext(x, index), obsolete)
  {
    hide SnapshotOk, LsmDisk.Settled, M.Replay, M.Apply, Names, Reflects, Store.Recoverable, Tied, Unsure, Promised;
    match status
    case Refused => TiedCleaned(fm, fs, fs', v, edits, book, x, obsolete, obsolete);
    case Uncertain =>
      TiedReflects(fm, fs, v, edits, book, x, obsolete);
      MarkReflects(v, book, x, index);
      MarkSnapshot(x, index);
      UnsureAfter(fm, fs, fs', v, edits, book, book, x, obsolete, MarkEdit(index), MarkNext(x, index), 0,
                  TableFile([], []));
    case Committed => TiedMarked(fm, fs, fs', v, edits, book, x, obsolete, index);
  }

  lemma TiedMarked(fm: Formats, fs: Fs, fs': Fs, v: M.VersionState, edits: seq<M.Edit>, book: Book, x: Snapshot,
                   obsolete: seq<nat>, index: nat)
    requires Tied(fm, fs, v, edits, book, x, obsolete) && index > x.flushed && Names(fs') <= Names(fs)
    requires LsmDisk.Settled(fm, fs', edits + [MarkEdit(index)], book)
    ensures M.Apply(v, MarkEdit(index)).Some?
    ensures var e := MarkEdit(index);
      Tied(fm, fs', M.Apply(v, e).value, edits + [e], book, MarkNext(x, index), obsolete)
  {
    hide LsmDisk.Settled, M.Replay, M.Apply, Names, Reflects;
    MarkReflects(v, book, x, index);
    ReplaySome(fm, fs, edits, book);
    M.ReplayMore(edits, MarkEdit(index));
  }

  // ----- What a publication leaves -----

  /** What writing table n and committing the edit did to the directory. */
  ghost predicate Attempted(status: Store.CommitStatus, fm: Formats, fs: Fs, fs': Fs, v: M.VersionState,
                            v': M.VersionState,
                          edits: seq<M.Edit>, edits': seq<M.Edit>, e: M.Edit, book: Book, book': Book, n: nat,
                          t: TableFile) {
    && Names(fs') <= Names(fs) + {n}
    && match status
       case Refused =>
         && v' == v && edits' == edits && LsmDisk.Settled(fm, fs', edits, book')
         && (book' == book || book' == book[n := t])
       case Uncertain =>
         && v' == v && edits' == edits && Store.Recoverable(fm, fs', edits, e, book')
         && M.Apply(v, e).Some? && book' == book[n := t]
       case Committed =>
         && edits' == edits + [e] && LsmDisk.Settled(fm, fs', edits', book')
         && M.Apply(v, e) == Some(v') && book' == book[n := t]
  }

  /** After a publication the directory is at the state before, at the state after, or between the two. */
  ghost predicate Ends(status: Store.CommitStatus, fm: Formats, fs: Fs, v: M.VersionState, edits: seq<M.Edit>,
                       e: M.Edit, book: Book,
                       x: Snapshot, y: Snapshot, refused: seq<nat>, committed: seq<nat>) {
    match status
    case Refused => Tied(fm, fs, v, edits, book, x.(nextFile := x.nextFile + 1), refused)
    case Uncertain => Unsure(fm, fs, v, edits, book, x.(nextFile := x.nextFile + 1), e, y)
    case Committed => Tied(fm, fs, v, edits, book, y, committed)
  }

  lemma CompactEnds(status: Store.CommitStatus, fm: Formats, fs: Fs, fs': Fs, v: M.VersionState, v': M.VersionState,
                    edits: seq<M.Edit>, edits': seq<M.Edit>, book: Book, book': Book, x: Snapshot, obsolete: seq<nat>,
                    tier: nat, inputs: seq<Table>, content: seq<Version>, t: TableFile)
    requires SnapshotOk(x) && 0 < x.nextFile < MAX_UINT64 && Tied(fm, fs, v, edits, book, x, obsolete)
    requires Compacts(x, tier, inputs, content) && content != [] && t.content == content
    requires Attempted(status, fm, fs, fs', v, v', edits, edits', CompactEdit(x, tier, inputs, content), book, book',
                       x.nextFile, t)
    ensures Ends(status, fm, fs', v', edits', CompactEdit(x, tier, inputs, content), book', x,
                 CompactNext(x, tier, inputs, content), obsolete + [x.nextFile], obsolete + NumberList(inputs))
  {
    hide SnapshotOk, LsmDisk.Settled, M.Replay, M.Apply, Names, Reflects, Compacts, Store.Recoverable, CompactNext,
      NumberList, Tied, Unsure, Promised, Weight;
    var e, y := CompactEdit(x, tier, inputs, content), CompactNext(x, tier, inputs, content);
    CompactedSnapshot(x, tier, inputs, content);
    NumberSnapshot(x);
    match status
    case Refused =>
      TiedRefused(fm, fs, fs', v, edits, book, book', x, obsolete, t);
      NewNumber(fm, fs, v, edits, book, x, obsolete);
      TiedDropped(fm, fs', v, edits, book', x.(nextFile := x.nextFile + 1), obsolete, x.nextFile);
    case Uncertain =>
      TiedReflects(fm, fs, v, edits, book, x, obsolete);
      CompactReflects(v, book, x, tier, inputs, content, t);
      UnsureAfter(fm, fs, fs', v, edits, book, book', x, obsolete, e, y, x.nextFile, t);
    case Committed =>
      TiedCompacted(fm, fs, fs', v, edits, book, x, obsolete, tier, inputs, content, t);
  }

  lemma TiedReflects(fm: Formats, fs: Fs, v: M.VersionState, edits: seq<M.Edit>, book: Book, x: Snapshot,
                     obsolete: seq<nat>)
    requires Tied(fm, fs, v, edits, book, x, obsolete)
    ensures Reflects(v, book, x)
  {
    hide LsmDisk.Settled, M.Replay, Reflects;
  }

  lemma FlushEnds(status: Store.CommitStatus, fm: Formats, fs: Fs, fs': Fs, v: M.VersionState, v': M.VersionState,
                  edits: seq<M.Edit>, edits': seq<M.Edit>, book: Book, book': Book, x: Snapshot, obsolete: seq<nat>,
                  tier: nat, t: TableFile)
    requires SnapshotOk(x) && x.nextFile < MAX_UINT64 && tier <= MAX_CLASS && Tied(fm, fs, v, edits, book, x, obsolete)
    requires x.frozen != [] && x.frozen[0].list != [] && t.content == x.frozen[0].list
    requires Attempted(status, fm, fs, fs', v, v', edits, edits', FlushEdit(x, tier), book, book', x.nextFile, t)
    ensures Ends(status, fm, fs', v', edits', FlushEdit(x, tier), book', x, FlushNext(x, tier), obsolete, obsolete)
  {
    hide SnapshotOk, LsmDisk.Settled, M.Replay, M.Apply, Names, Reflects, Store.Recoverable, Tied, Unsure, Promised,
      Weight;
    FlushSnapshot(x, tier);
    match status
    case Refused => TiedRefused(fm, fs, fs', v, edits, book, book', x, obsolete, t);
    case Uncertain =>
      TiedReflects(fm, fs, v, edits, book, x, obsolete);
      FlushReflects(v, book, x, tier, t);
      UnsureAfter(fm, fs, fs', v, edits, book, book', x, obsolete, FlushEdit(x, tier), FlushNext(x, tier), x.nextFile,
                  t);
    case Committed => TiedFlushed(fm, fs, fs', v, edits, book, x, obsolete, tier, t);
  }

  // ----- Reopening -----

  /** What a process that stops leaves: the edits, the one that may follow, and the states before and after it. */
  datatype Image = Image(edits: seq<M.Edit>, tried: M.Edit, book: Book, before: Snapshot, after: Snapshot)

  ghost predicate Kept(x: Snapshot) { SnapshotOk(x) && Promised(x) && x.flushed <= MAX_UINT64 }

  /** A directory that a new process can be started on. */
  ghost predicate Restartable(fm: Formats, fs: Fs, im: Image) {
    && FormatsOk(fm) && Store.Recoverable(fm, fs, im.edits, im.tried, im.book)
    && M.Replay(im.edits).Some? && Reflects(M.Replay(im.edits).value, im.book, im.before)
    && LeadsTo(im.edits, im.tried, im.book, im.after)
    && Kept(im.before) && Kept(im.after) && im.after.history == im.before.history
  }

  lemma CrashRestartable(fm: Formats, fs: Fs, im: Image, budget: Option<nat>)
    requires Restartable(fm, fs, im)
    ensures Restartable(fm, Crashed(fs, budget), im)
  {
    hide Store.Recoverable, M.Replay, Reflects, LeadsTo, Kept, FormatsOk, Crashed;
    Store.CrashRecoverable(fm, fs, im.edits, im.tried, im.book, budget);
  }

  /** An engine that knows its version leaves that version. */
  lemma TiedRestarts(fm: Formats, fs: Fs, v: M.VersionState, edits: seq<M.Edit>, book: Book, x: Snapshot,
                     obsolete: seq<nat>)
    requires FormatsOk(fm) && Tied(fm, fs, v, edits, book, x, obsolete) && Kept(x)
    ensures Restartable(fm, fs, Image(edits, MarkEdit(x.flushed), book, x, x))
  {
    hide LsmDisk.Settled, Kept, FormatsOk, M.Replay;
    ReplaySome(fm, fs, edits, book);
    Store.SettledRecoverable(fm, fs, edits, MarkEdit(x.flushed), book);
    M.ReplayMore(edits, MarkEdit(x.flushed));
  }

  /** Either side of the uncertainty, recovery finds a version the engine had. */
  lemma RecoveredReflects(fm: Formats, fs: Fs, im: Image, recovered: seq<M.Edit>, book: Book)
    requires LsmDisk.Settled(fm, fs, recovered, book) && (recovered == im.edits || recovered == im.edits + [im.tried])
    requires M.Replay(im.edits).Some? && Reflects(M.Replay(im.edits).value, im.book, im.before)
    requires LeadsTo(im.edits, im.tried, im.book, im.after)
    requires book == Store.Pruned(im.book, M.Replay(recovered).value.files.Keys)
    ensures Reflects(M.Replay(recovered).value, book, if recovered == im.edits then im.before else im.after)
  {
    hide LsmDisk.Settled, M.Replay;
    ReplaySome(fm, fs, recovered, book);
    var kept := if recovered == im.edits then im.before else im.after;
    assert Reflects(M.Replay(recovered).value, im.book, kept);
  }

  /** The rebuilt list of tables is named as the one it was rebuilt from. */
  lemma ReflectsSame(v: M.VersionState, book: Book, x: Snapshot, y: Snapshot)
    requires Reflects(v, book, x) && y.flushed == x.flushed && forall t :: t in y.tables <==> t in x.tables
    ensures Reflects(v, book, y)
  {
    assert Numbers(y.tables) == Numbers(x.tables);
  }

  /** Every named table, in name order. */
  method ListTables(files: map<nat, M.Meta>, contents: map<nat, seq<Version>>) returns (tables: seq<Table>)
    requires files.Keys == contents.Keys
    ensures NumbersDiffer(tables) && SortedByName(tables)
    ensures forall t :: t in tables <==>
      t.number in files && t == Table(t.number, files[t.number].tier, contents[t.number])
  {
    hide SortByName;
    var found: seq<Table> := [];
    var left := files.Keys;
    while left != {}
      invariant left <= files.Keys && NumbersDiffer(found)
      invariant forall t :: t in found <==>
        t.number in files && t.number !in left && t == Table(t.number, files[t.number].tier, contents[t.number])
      decreases |left|
    {
      var f :| f in left;
      assert forall i :: 0 <= i < |found| ==> found[i] in found;
      found := found + [Table(f, files[f].tier, contents[f])];
      left := left - {f};
    }
    SortKeeps(found);
    SortSorts(found);
    SortDiffers(found);
    return SortByName(found);
  }

  /** One past the highest file number in use; the very last number is skipped. */
  method NextFileNumber(files: set<nat>) returns (next: nat)
    ensures next >= 1 && forall f :: f in files && f != MAX_UINT64 ==> f < next
    ensures next == 1 || (next - 1 in files && next - 1 != MAX_UINT64)
  {
    next := 1;
    var left := files;
    while left != {}
      invariant left <= files && next >= 1 && forall f :: f in files && f !in left && f != MAX_UINT64 ==> f < next
      invariant next == 1 || (next - 1 in files && next - 1 != MAX_UINT64)
      decreases |left|
    {
      var f :| f in left;
      if f >= next && f != MAX_UINT64 {
        next := f + 1;
      }
      left := left - {f};
    }
  }

  /** Tables rebuilt from a version that reflects x hold exactly the writes at or below its flushed index. */
  lemma RebuiltTables(v: M.VersionState, book: Book, x: Snapshot, tables: seq<Table>, next: nat)
    requires SnapshotOk(x) && Promised(x) && Reflects(v, book, x) && NumbersDiffer(tables)
    requires forall t :: t in tables <==>
      t.number in v.files && t.number in book && t == Table(t.number, v.files[t.number].tier, book[t.number].content)
    requires forall f :: f in v.files ==> f < next
    ensures TablesOk(tables, x.flushed, next) && Represents(TableSet(tables), FlushedPart(x.history, x.flushed))
    ensures KWayMerge.NoClash(FlushedPart(x.history, x.flushed)) && forall t :: t in tables <==> t in x.tables
  {
    hide FrozenOk, MarksAscend, Represents, Promises, TableSet, ListSet, FrozenSet, Ascends;
    SameTableLists(v, book, x, tables);
    SameTables(tables, x.tables);
    FlushedSurvives(x.tables, x.frozen, x.flushed, x.nextFile,
                    ListSet(x.active) + FrozenSet(x.frozen) + TableSet(x.tables), x.history);
    assert forall i :: 0 <= i < |tables| ==> tables[i] in x.tables by {
      assert forall i :: 0 <= i < |tables| ==> tables[i] in tables;
    }
  }

  /** All that a new engine needs of a recovered version. */
  lemma Rebuilt(v: M.VersionState, book: Book, x: Snapshot, tables: seq<Table>, next: nat, fs: Fs)
    requires SnapshotOk(x) && Promised(x) && Reflects(v, book, x) && NumbersDiffer(tables)
    requires forall t :: t in tables <==>
      t.number in v.files && t.number in book && t == Table(t.number, v.files[t.number].tier, book[t.number].content)
    requires next >= 1 && (forall f :: f in v.files && f != MAX_UINT64 ==> f < next)
    requires (next == 1 || next - 1 in v.files)
    requires Names(fs) == v.files.Keys + {0} && forall f :: f in book ==> f in v.files
    ensures next <= x.nextFile <= MAX_UINT64 && v.flushed == x.flushed && Below(fs, book, next)
    ensures Light(tables) && |tables| == |x.tables|
    ensures TablesOk(tables, x.flushed, next) && Represents(TableSet(tables), FlushedPart(x.history, x.flushed))
    ensures KWayMerge.NoClash(FlushedPart(x.history, x.flushed))
    ensures Reflects(v, book, Snapshot([], [], tables, x.flushed, next, FlushedPart(x.history, x.flushed)))
  {
    hide SnapshotOk, Promised, Names, TablesOk, Represents, KWayMerge.NoClash, TableSet, FlushedPart, NumbersDiffer,
      Light;
    NamedBelow(v, book, x);
    NextFits(x);
    RebuiltTables(v, book, x, tables, next);
    SameLight(x, tables);
    ReflectsSame(v, book, x, Snapshot([], [], tables, x.flushed, next, FlushedPart(x.history, x.flushed)));
  }

  /** Listing the same tables again changes neither their weight nor their number. */
  lemma SameLight(x: Snapshot, tables: seq<Table>)
    requires SnapshotOk(x) && NumbersDiffer(tables) && forall t :: t in tables <==> t in x.tables
    ensures Light(tables) && |tables| == |x.tables|
  {
    hide FrozenOk, MarksAscend, Represents, KWayMerge.NoClash, Light, Weight;
    SameWeight(x.tables, tables);
    LightCarry(x.tables, tables);
  }

  lemma NextFits(x: Snapshot)
    requires SnapshotOk(x)
    ensures 1 <= x.nextFile <= MAX_UINT64
  {}

  /** With nothing in memory the tables represent everything they were told to. */
  lemma ReopenedSnapshot(tables: seq<Table>, flushed: nat, next: nat, past: set<Version>)
    requires TablesOk(tables, flushed, next) && Represents(TableSet(tables), past)
    requires KWayMerge.NoClash(past) && 1 <= next <= MAX_UINT64 && Light(tables)
    ensures var x := Snapshot([], [], tables, flushed, next, past); SnapshotOk(x) && Promised(x)
    ensures ActiveOk([], 0)
  {
    hide Light, TablesOk, TableSet, Covered, KWayMerge.NoClash;
    NoList();
    NoFrozen();
    EmptyAscends();
    assert ListSet([]) + FrozenSet([]) + TableSet(tables) == TableSet(tables);
  }

  lemma SameTableLists(v: M.VersionState, book: Book, x: Snapshot, tables: seq<Table>)
    requires Reflects(v, book, x)
    requires forall t :: t in tables <==>
      t.number in v.files && t.number in book && t == Table(t.number, v.files[t.number].tier, book[t.number].content)
    ensures forall t :: t in tables <==> t in x.tables
  {
    forall t | t in tables ensures t in x.tables {
      assert t.number in Numbers(x.tables);
      var u :| u in x.tables && u.number == t.number;
    }
  }
}
