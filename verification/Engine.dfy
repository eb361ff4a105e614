/**
 The LSM engine over its directory: an active memtable, frozen memtables waiting to be flushed,
 and tables that compaction merges. Whatever the interleaving of writes, freezes, flushes,
 compactions, failures and crashes, a lookup finds the newest write of its key, the manifest
 names the engine's tables or is one known edit away, and nothing fails without a cause.
 */
module Engine {
  import opened RaftTypes
  import opened LsmTypes
  import opened Bloom
  import opened Memtable
  import opened SizeTiers
  import opened KWayMerge
  import opened EngineModel
  import opened EngineState
  import opened FormatRoom
  import opened EngineDirectory
  import opened SimFs
  import opened LsmDisk
  import M = Manifest
  import Store = LsmStore
  import SSTable
  import TablePublish

  /** The weight of the tables flushed with these tiers. */
  ghost function TierWeight(tiers: seq<nat>): nat {
    if tiers == [] then 0 else TierWeight(tiers[..|tiers| - 1]) + Pow4(tiers[|tiers| - 1])
  }

  lemma TierWeightMore(tiers: seq<nat>, tier: nat)
    ensures TierWeight(tiers + [tier]) == TierWeight(tiers) + Pow4(tier)
  {
    assert (tiers + [tier])[..|tiers|] == tiers;
  }

  /** No watermark is above what was applied or flushed. */
  ghost predicate MarksApplied(frozen: seq<Immutable>, applied: nat, flushed: nat) {
    forall i :: 0 <= i < |frozen| ==> frozen[i].watermark <= Max(applied, flushed)
  }

  /** What the lists owe to each other, to the applied index and to the tables flushed so far. */
  ghost predicate ShapeOk(x: Snapshot, maxSeq: nat, applied: nat, base: nat, flushes: seq<nat>) {
    && SnapshotOk(x) && ActiveOk(x.active, maxSeq) && maxSeq <= applied && MarksApplied(x.frozen, applied, x.flushed)
    && applied <= MAX_UINT64 && x.flushed <= MAX_UINT64
    && Weight(x.tables) == base + TierWeight(flushes)
  }

  lemma NumberShape(x: Snapshot, maxSeq: nat, applied: nat, base: nat, flushes: seq<nat>)
    requires ShapeOk(x, maxSeq, applied, base, flushes) && x.nextFile < MAX_UINT64
    ensures var y := x.(nextFile := x.nextFile + 1);
      ShapeOk(y, maxSeq, applied, base, flushes) && (Promised(x) ==> Promised(y))
  {
    hide SnapshotOk, ActiveOk, MarksApplied, Weight, TierWeight, Promised;
    NumberSnapshot(x);
  }

  lemma CompactShape(x: Snapshot, maxSeq: nat, applied: nat, base: nat, flushes: seq<nat>, tier: nat,
                     inputs: seq<Table>, content: seq<Version>)
    requires ShapeOk(x, maxSeq, applied, base, flushes) && x.nextFile < MAX_UINT64 && Compacts(x, tier, inputs, content)
    ensures var y := CompactNext(x, tier, inputs, content);
      && ShapeOk(y, maxSeq, applied, base, flushes) && (Promised(x) ==> Promised(y))
      && |y.tables| == |x.tables| - 3 && y.flushed == x.flushed
  {
    hide SnapshotOk, ActiveOk, MarksApplied, Weight, TierWeight, Promised, Compacts, Replaced;
    CompactedSnapshot(x, tier, inputs, content);
  }

  lemma FlushShape(x: Snapshot, maxSeq: nat, applied: nat, base: nat, flushes: seq<nat>, tier: nat)
    requires ShapeOk(x, maxSeq, applied, base, flushes) && x.nextFile < MAX_UINT64 && x.frozen != []
    requires tier <= MAX_CLASS
    ensures ShapeOk(FlushNext(x, tier), maxSeq, applied, base, flushes + [tier])
    ensures (Promised(x) ==> Promised(FlushNext(x, tier)))
    ensures FlushNext(x, tier).flushed <= Max(applied, x.flushed)
    ensures FlushNext(x, tier).nextFile + |FlushNext(x, tier).tables| == x.nextFile + |x.tables| + 2
  {
    hide SnapshotOk, ActiveOk, Weight, TierWeight, Promised, Pow4;
    FlushSnapshot(x, tier);
    FirstMark(x);
    TierWeightMore(flushes, tier);
  }

  lemma MarkShape(x: Snapshot, maxSeq: nat, applied: nat, base: nat, flushes: seq<nat>, index: nat)
    requires ShapeOk(x, maxSeq, applied, base, flushes) && x.active == []
    requires x.frozen == [] && x.flushed <= index <= MAX_UINT64
    ensures ShapeOk(MarkNext(x, index), maxSeq, applied, base, flushes) && Promised(MarkNext(x, index))
  {
    hide SnapshotOk, ActiveOk, Weight, TierWeight, Promised;
    MarkSnapshot(x, index);
  }

  lemma FreezeShape(x: Snapshot, maxSeq: nat, applied: nat, base: nat, flushes: seq<nat>, watermark: nat)
    requires ShapeOk(x, maxSeq, applied, base, flushes) && x.active != [] && maxSeq <= watermark
    requires x.flushed <= watermark <= Max(applied, x.flushed) && forall m :: m in x.frozen ==> m.watermark <= watermark
    ensures var y := x.(active := [], frozen := x.frozen + [Immutable(x.active, maxSeq, watermark)]);
      ShapeOk(y, 0, applied, base, flushes) && (Promised(x) ==> Promised(y))
  {
    hide SnapshotOk, ActiveOk, Weight, TierWeight, Promised;
    FreezeSnapshot(x, Immutable(x.active, maxSeq, watermark));
    NothingActive();
  }

  lemma WriteShape(x: Snapshot, maxSeq: nat, applied: nat, base: nat, flushes: seq<nat>, v: Version)
    requires ShapeOk(x, maxSeq, applied, base, flushes) && NoClash(x.history + {v}) && v.seq_ <= MAX_UINT64
    ensures var y := x.(active := Insert(x.active, v), history := x.history + {v});
      && ShapeOk(y, Max(maxSeq, v.seq_), Max(applied, v.seq_), base, flushes)
      && (Promised(x) && Fresh(v, x.history, x.flushed, x.frozen) ==> Promised(y))
      && var prior := Find(x.active, v.key);
      prior.Some? && v.seq_ <= prior.value.seq_ ==>
        y.active == x.active && ShapeOk(y, maxSeq, Max(applied, v.seq_), base, flushes)
  {
    hide SnapshotOk, Weight, TierWeight, Promised, Insert, Find, Fresh, NoClash, Ascends;
    WriteSnapshot(x, maxSeq, v);
  }

  lemma AppliedShape(x: Snapshot, maxSeq: nat, applied: nat, base: nat, flushes: seq<nat>, index: nat)
    requires ShapeOk(x, maxSeq, applied, base, flushes) && applied <= index <= MAX_UINT64
    ensures ShapeOk(x, maxSeq, index, base, flushes)
  {
    hide SnapshotOk, ActiveOk, Weight, TierWeight;
  }

  class Engine {
    const store: Store.Store?             // null keeps everything in memory
    const hash: Hash
    const flushThreshold: nat
    const autoCompact: bool
    var active: seq<Version>
    var activeSize: int
    var activeMaxSeq: nat
    var frozen: seq<Immutable>
    var tables: seq<Table>
    var appliedIndex: nat
    var flushedIndex: nat
    var nextFile: nat
    var obsolete: seq<nat>
    var dirDirty: bool
    var poisoned: bool
    var closed: bool
    ghost var history: set<Version>       // every write made so far
    ghost var base: nat                   // the tables' weight at the start
    ghost var flushes: seq<nat>           // the tier of every table flushed since
    ghost var tried: M.Edit               // once poisoned: the edit whose fate is unknown,
    ghost var after: Snapshot             // and the state it leads to

    function Parts(): set<object> { if store == null then {} else {store, store.fs} }

    ghost function Snap(): Snapshot
      reads this
    {
      Snapshot(active, frozen, tables, flushedIndex, nextFile, history)
    }

    ghost predicate Shape()
      reads this
    {
      ShapeOk(Snap(), activeMaxSeq, appliedIndex, base, flushes)
    }

    /** The directory is at the engine's version, or one edit on when that edit's fate is unknown. */
    ghost predicate Coupled()
      reads this, Parts()
    {
      if store == null then !poisoned
      else
        && FormatsOk(store.fm) && store.fs.Valid() && store.fm.readTable == TablePublish.TableReader(store.fm.crc, hash)
        && if poisoned then
             && Unsure(store.fm, store.fs.State(), store.version, store.edits, store.book, Snap(), tried, after)
             && after.flushed <= Max(appliedIndex, flushedIndex)
           else Tied(store.fm, store.fs.State(), store.version, store.edits, store.book, Snap(), obsolete)
    }

    ghost predicate Valid()
      reads this, Parts()
    {
      Shape() && Coupled() && activeSize == SizeOf(active)
    }

    /** A persistent engine with a threshold keeps less than that in its active memtable. */
    ghost predicate Bounded()
      reads this
    {
      store != null && flushThreshold > 0 ==> SizeOf(active) < flushThreshold
    }

    /** With v absorbed, the active memtable would be due for a flush. */
    ghost predicate Due(v: Version)
      reads this
    {
      && store != null && flushThreshold > 0
      && Insert(active, v) != active && SizeOf(Insert(active, v)) >= flushThreshold
    }

    /** Every write at or below the flushed index is in a table, whichever version survives. */
    ghost predicate Durable()
      reads this
    {
      Promised(Snap()) && (poisoned ==> Promised(after))
    }

    ghost predicate Alive()
      reads this, Parts()
    {
      !closed && !poisoned && (store != null ==> !store.fs.crashed)
    }

    /** File numbers used up, counting each table as one still to be spent on its compaction. */
    function Spent(): nat
      reads this
    {
      nextFile + |tables|
    }

    /** The same over both versions the directory may be found at. */
    ghost function Reach(): nat
      reads this
    {
      if poisoned then Max(Spent(), after.nextFile + |after.tables|) else Spent()
    }

    /** File numbers are left for flushing everything in memory and for the compactions that follow. */
    predicate Spare()
      reads this
    {
      Spent() + 2 * |frozen| + 2 < MAX_UINT64
    }

    /** The formats have room for every table these writes can be in. */
    ghost predicate Room(writes: set<Version>) { store != null ==> Roomy(store.fm, writes) }

    /** An engine in memory only. */
    constructor (hash: Hash, flushThreshold: nat, autoCompact: bool)
      ensures Valid() && Durable() && Alive() && store == null
      ensures this.hash == hash && this.flushThreshold == flushThreshold && this.autoCompact == autoCompact
      ensures history == {} && appliedIndex == 0 && flushedIndex == 0 && Bounded()
    {
      store, this.hash, this.flushThreshold, this.autoCompact := null, hash, flushThreshold, autoCompact;
      active, activeSize, activeMaxSeq, frozen, tables, obsolete, dirDirty := [], 0, 0, [], [], [], false;
      appliedIndex, flushedIndex, nextFile, poisoned, closed := 0, 0, 1, false, false;
      history, base, flushes := {}, 0, [];
    }

    /** An engine over the tables a recovered manifest names; nothing is known to be applied. */
    constructor Reopened(store: Store.Store, hash: Hash, flushThreshold: nat, autoCompact: bool, tables: seq<Table>,
                         next: nat, ghost past: set<Version>)
      requires store.Known() && !store.fs.crashed && store.fm.readTable == TablePublish.TableReader(store.fm.crc, hash)
      requires TablesOk(tables, store.version.flushed, next) && Represents(TableSet(tables), past) && NoClash(past)
      requires 1 <= next <= MAX_UINT64 && store.version.flushed <= MAX_UINT64 && Light(tables)
      requires Below(store.fs.State(), store.book, next)
      requires Reflects(store.version, store.book, Snapshot([], [], tables, store.version.flushed, next, past))
      ensures Valid() && Durable() && Alive() && this.store == store && history == past && this.tables == tables
      ensures appliedIndex == 0 && flushedIndex == store.version.flushed && this.hash == hash && nextFile == next
      ensures frozen == [] && this.flushThreshold == flushThreshold && this.autoCompact == autoCompact && Bounded()
    {
      hide Light, TablesOk, TableSet, Represents, NoClash, Reflects, Below, LsmDisk.Settled, M.Replay, Weight,
        SnapshotOk, Promised, ActiveOk;
      this.store, this.hash, this.flushThreshold, this.autoCompact := store, hash, flushThreshold, autoCompact;
      active, activeSize, activeMaxSeq, frozen, obsolete, dirDirty := [], 0, 0, [], [], false;
      this.tables, appliedIndex, flushedIndex, nextFile := tables, 0, store.version.flushed, next;
      poisoned, closed := false, false;
      history, base, flushes := past, Weight(tables), [];
      new;
      ReopenedSnapshot(tables, flushedIndex, next, past);
    }

    // ----- Removing dropped files -----

    /** Tries again to remove every file no version names. */
    method Reconcile(faults: seq<Fault>) returns (ok: bool, left: seq<Fault>)
      requires Valid() && !poisoned && store != null
      modifies this`obsolete, this`dirDirty, store.fs
      ensures Valid() && (ok ==> obsolete == [] && !dirDirty && !store.fs.crashed)
      ensures Store.Faultless(faults) && !old(store.fs.crashed) ==> ok && Store.Faultless(left)
    {
      hide ShapeOk, LsmDisk.Settled, M.Replay, Names, Reflects, FormatsOk;
      ghost var fs := store.fs.State();
      var pending, dirty;
      ok, pending, dirty, left := store.RemoveFiles(obsolete, dirDirty, faults);
      TiedCleaned(store.fm, fs, store.fs.State(), store.version, store.edits, store.book, Snap(), obsolete, pending);
      obsolete, dirDirty := pending, dirty;
    }

    // ----- Compaction -----

    /** Publishes a table of the content under the next number, in place of the removed ones. */
    method Emit(content: seq<Version>, file: Option<seq<Byte>>, tier: nat, removed: seq<nat>, mark: nat,
                faults: seq<Fault>)
      returns (status: Store.CommitStatus, e: M.Edit, left: seq<Fault>)
      requires Valid() && !poisoned && store != null && Ascends(content) && content != []
      requires file.Some? ==> store.fm.readTable(file.value) == Some(content)
      requires forall v :: v in content ==> v.seq_ <= mark
      modifies store, store.fs
      ensures e == M.Edit([M.Added(nextFile, Store.MetaOf(content, tier))], removed, mark)
      ensures Attempted(status, store.fm, old(store.fs.State()), store.fs.State(), old(store.version), store.version,
                        old(store.edits), store.edits, e, old(store.book), store.book, nextFile,
                        TableFile(content, if file.Some? then file.value else []))
      ensures store.fs.Valid() && (status == Store.Committed ==> !store.fs.crashed && file.Some?)
      ensures Store.Faultless(faults) && !old(store.fs.crashed) ==>
        && Store.Faultless(left) && !store.fs.crashed
        && status == if file.Some? && old(store.Acceptable(e)) then Store.Committed else Store.Refused
    {
      hide ShapeOk, SnapshotOk, LsmDisk.Settled, M.Replay, M.Apply, Names, Reflects, FormatsOk, Ascends,
        Store.Recoverable, Below, Unnamed, Store.MetaOf;
      ShapeFacts(Snap(), activeMaxSeq, appliedIndex, base, flushes);
      NewNumber(store.fm, store.fs.State(), store.version, store.edits, store.book, Snap(), obsolete);
      status, e, left := store.Publish(nextFile, content, file, tier, removed, mark, faults);
    }

    /** Writes the merged inputs as a table and commits the edit that puts it in their place. */
    method EmitOutput(tier: nat, inputs: seq<Table>, content: seq<Version>, faults: seq<Fault>)
      returns (status: Store.CommitStatus, e: M.Edit, left: seq<Fault>)
      requires Valid() && !poisoned && store != null && nextFile < MAX_UINT64 && Compacts(Snap(), tier, inputs, content)
      modifies store, store.fs
      ensures store.fs.Valid() && (status == Store.Committed ==> !store.fs.crashed)
      ensures Ends(status, store.fm, store.fs.State(), store.version, store.edits, e, store.book, Snap(),
                   CompactNext(Snap(), tier, inputs, content), obsolete + [nextFile], obsolete + NumberList(inputs))
      ensures Store.Faultless(faults) && !old(store.fs.crashed) ==>
        && Store.Faultless(left) && !store.fs.crashed && status != Store.Uncertain
        && (Room(history) ==> status == Store.Committed)
    {
      hide ShapeOk, SnapshotOk, M.Apply, Attempted, Tied, Unsure, FormatsOk, Compacts, Roomy, Ascends, CompactNext,
        Store.MetaOf, SSTable.TooBig, NumberList, Ends, SSTable.ReadFile;
      ShapeFacts(Snap(), activeMaxSeq, appliedIndex, base, flushes);
      ghost var x, fs, v, edits, book := Snap(), store.fs.State(), store.version, store.edits, store.book;
      TiedReflects(store.fm, fs, v, edits, book, x, obsolete);
      CompactAcceptable(v, book, x, tier, inputs, content);
      var file := TablePublish.BuildTable(store.fm.crc, hash, content);
      if Room(history) {
        MergedWritten(x, tier, inputs, content);
        OutputFits(x, tier, inputs, content);
        RoomyTable(store.fm, history, content, nextFile, tier + 1, NumberList(inputs), flushedIndex);
      }
      status, e, left := Emit(content, file, tier + 1, NumberList(inputs), flushedIndex, faults);
      CompactEnds(status, store.fm, fs, store.fs.State(), v, store.version, edits, store.edits, book, store.book, x,
                  obsolete, tier, inputs, content, TableFile(content, if file.Some? then file.value else []));
    }

    /** The directory may be one edit on: nothing more is written until it is opened again. */
    method Poison(ghost e: M.Edit, ghost y: Snapshot)
      requires Shape() && activeSize == SizeOf(active) && store != null && FormatsOk(store.fm) && store.fs.Valid()
      requires store.fm.readTable == TablePublish.TableReader(store.fm.crc, hash)
      requires Unsure(store.fm, store.fs.State(), store.version, store.edits, store.book, Snap(), e, y)
      requires y.flushed <= Max(appliedIndex, flushedIndex)
      modifies this`poisoned, this`tried, this`after
      ensures Valid() && poisoned && tried == e && after == y
    {
      hide ShapeOk, Unsure, FormatsOk, TablePublish.TableReader, SizeOf;
      poisoned, tried, after := true, e, y;
    }

    /** Publishes the merged inputs; an output that was refused is dropped, inputs that were replaced too. */
    method PublishOutput(tier: nat, inputs: seq<Table>, content: seq<Version>, faults: seq<Fault>)
      returns (status: Store.CommitStatus, left: seq<Fault>)
      requires Valid() && !poisoned && store != null && nextFile < MAX_UINT64 && Compacts(Snap(), tier, inputs, content)
      modifies this`tables, this`nextFile, this`poisoned, this`obsolete, this`tried, this`after, store, store.fs
      ensures Valid() && (old(Durable()) ==> Durable()) && poisoned == (status == Store.Uncertain)
      ensures status != Store.Committed ==> tables == old(tables)
      ensures status == Store.Committed ==> |tables| == old(|tables|) - 3 && !store.fs.crashed
      ensures status == Store.Committed ==> tables == CompactNext(old(Snap()), tier, inputs, content).tables
      ensures nextFile == old(nextFile) + 1 && Reach() <= old(Spent()) + 1
      ensures Store.Faultless(faults) && !old(store.fs.crashed) ==>
        && Store.Faultless(left) && !store.fs.crashed && status != Store.Uncertain
        && (Room(history) ==> status == Store.Committed)
    {
      hide ShapeOk, SnapshotOk, Tied, Unsure, FormatsOk, TablePublish.TableReader, SSTable.ReadFile, Compacts, Promised,
        Roomy, CompactNext, NumberList, SortByName, Without, Numbers, SizeOf, M.Replay, M.Apply, Store.Recoverable;
      ghost var x := Snap();
      CompactShape(x, activeMaxSeq, appliedIndex, base, flushes, tier, inputs, content);
      NumberShape(x, activeMaxSeq, appliedIndex, base, flushes);
      CompactNextIs(x, tier, inputs, content);
      var e;
      status, e, left := EmitOutput(tier, inputs, content, faults);
      match status {
        case Refused =>
          obsolete := obsolete + [nextFile];
        case Uncertain =>
          nextFile := nextFile + 1;
          Poison(e, CompactNext(x, tier, inputs, content));
          return;
        case Committed =>
          var numbers := NumberSet(inputs);
          tables := SortByName(Without(tables, numbers) + [Table(nextFile, tier + 1, content)]);
          obsolete := obsolete + NumberList(inputs);
      }
      nextFile := nextFile + 1;
    }

    /** Merges the inputs into one table of the next tier and publishes it in their place. */
    method CompactInputs(tier: nat, inputs: seq<Table>, faults: seq<Fault>) returns (ok: bool, left: seq<Fault>)
      requires Valid() && !poisoned && store != null && FourOf(tables, tier, inputs)
      modifies this`tables, this`nextFile, this`poisoned, this`obsolete, this`dirDirty, this`tried, this`after, store,
        store.fs
      ensures Valid() && (old(Durable()) ==> Durable())
      ensures (tables == old(tables) || |tables| == old(|tables|) - 3) && nextFile <= old(nextFile) + 1
      ensures Reach() <= old(Spent()) + 1
      ensures ok ==> |tables| == old(|tables|) - 3 && !poisoned && !store.fs.crashed
      ensures ok ==> Merges(old(tables), tables, tier, inputs, old(nextFile))
      ensures Store.Faultless(faults) && !old(store.fs.crashed) ==>
        Store.Faultless(left) && !store.fs.crashed && !poisoned
      ensures Store.Faultless(faults) && !old(store.fs.crashed) && Room(history) && old(nextFile) < MAX_UINT64 ==> ok
    {
      hide ShapeOk, SnapshotOk, Tied, Unsure, FormatsOk, TablePublish.TableReader, SSTable.ReadFile, FourOf, Merged,
        TableSet, Promised, Roomy, Merges, CompactNext;
      left := faults;
      if nextFile >= MAX_UINT64 { return false, left; }
      ShapeFacts(Snap(), activeMaxSeq, appliedIndex, base, flushes);
      InputsOf(Snap(), tier, inputs);
      var merged, content := MergeTables(Contents(inputs));
      if !merged { assert false; }
      CompactMerges(Snap(), tier, inputs, content);
      var status;
      status, left := PublishOutput(tier, inputs, content, left);
      if status == Store.Uncertain { return false, left; }
      ok, left := Reconcile(left);
      ok := ok && status == Store.Committed;
    }

    /** Compacts until every tier holds at most three tables. */
    method CompactAll(faults: seq<Fault>) returns (ok: bool, left: seq<Fault>)
      requires Valid() && !poisoned && store != null
      modifies this`tables, this`nextFile, this`poisoned, this`obsolete, this`dirDirty, this`tried, this`after, store,
        store.fs
      ensures Valid() && (old(Durable()) ==> Durable())
      ensures ok ==> SizeTiers.Settled(tables) && !poisoned && !store.fs.crashed
      ensures Reach() <= old(Spent()) + if ok then 0 else 1
      ensures Store.Faultless(faults) && !old(store.fs.crashed) ==>
        Store.Faultless(left) && !store.fs.crashed && !poisoned
      ensures Store.Faultless(faults) && !old(store.fs.crashed) && Room(history) && old(Spent()) < MAX_UINT64 ==> ok
    {
      hide ShapeOk, SnapshotOk, Tied, Unsure, FormatsOk, TablePublish.TableReader, SSTable.ReadFile, FourOf, Promised,
        Roomy, SizeTiers.Settled, Count;
      ok, left := Reconcile(faults);
      if !ok { return; }
      while true
        invariant Valid() && !poisoned && !store.fs.crashed && (old(Durable()) ==> Durable()) && Spent() <= old(Spent())
        invariant Store.Faultless(faults) && !old(store.fs.crashed) ==> Store.Faultless(left)
        decreases |tables|
      {
        ShapeFacts(Snap(), activeMaxSeq, appliedIndex, base, flushes);
        var found, tier, inputs := SelectInputs(tables);
        if !found { return true, left; }
        InputsFit(Snap(), tier, inputs);
        if tier == MAX_UINT32 { assert false; }
        ok, left := CompactInputs(tier, inputs, left);
        if !ok { return; }
      }
    }

    // ----- Flushing -----

    /** Writes the oldest frozen memtable as a table and commits the edit that names it. */
    method EmitOldest(faults: seq<Fault>) returns (status: Store.CommitStatus, e: M.Edit, tier: nat, left: seq<Fault>)
      requires Valid() && !poisoned && store != null && nextFile < MAX_UINT64 && frozen != []
      modifies store, store.fs
      ensures store.fs.Valid() && tier <= MAX_CLASS
      ensures status == Store.Committed ==>
        !store.fs.crashed && nextFile in store.book && InClass(|store.book[nextFile].bytes|, tier)
      ensures Ends(status, store.fm, store.fs.State(), store.version, store.edits, e, store.book, Snap(),
                   FlushNext(Snap(), tier), obsolete, obsolete)
      ensures Store.Faultless(faults) && !old(store.fs.crashed) ==>
        && Store.Faultless(left) && !store.fs.crashed && status != Store.Uncertain
        && (Room(history) ==> status == Store.Committed)
    {
      hide ShapeOk, SnapshotOk, M.Apply, Tied, Unsure, FormatsOk, Roomy, Ascends, Store.MetaOf, SSTable.TooBig, Ends,
        SSTable.ReadFile, Names, LsmDisk.Settled, Store.Recoverable;
      ShapeFacts(Snap(), activeMaxSeq, appliedIndex, base, flushes);
      ghost var x, fs, v, edits, book := Snap(), store.fs.State(), store.version, store.edits, store.book;
      var oldest := frozen[0];
      TiedReflects(store.fm, fs, v, edits, book, x, obsolete);
      FlushAcceptable(v, book, x, 0);
      var file := TablePublish.BuildTable(store.fm.crc, hash, oldest.list);
      tier := 0;
      if file.Some? {
        tier := TableSizeClass(|file.value|);
      }
      FlushAcceptable(v, book, x, tier);
      if Room(history) {
        FrozenWritten(x);
        RoomyTable(store.fm, history, oldest.list, nextFile, tier, [], oldest.watermark);
      }
      status, e, left := Emit(oldest.list, file, tier, [], oldest.watermark, faults);
      FlushEnds(status, store.fm, fs, store.fs.State(), v, store.version, edits, store.edits, book, store.book, x,
                obsolete, tier, TableFile(oldest.list, if file.Some? then file.value else []));
    }

    /** Moves the oldest frozen memtable into a table and the flushed index up to its watermark. */
    method FlushTable(faults: seq<Fault>) returns (ok: bool, left: seq<Fault>, ghost tier: nat)
      requires Valid() && !poisoned && store != null && frozen != []
      modifies this`tables, this`frozen, this`flushedIndex, this`nextFile, this`poisoned, this`flushes, this`tried,
        this`after, store, store.fs
      ensures Valid() && (old(Durable()) ==> Durable())
      ensures ok ==>
        frozen == old(frozen[1..]) && flushedIndex == old(frozen[0].watermark) && !poisoned && !store.fs.crashed
      ensures ok ==>
        flushes == old(flushes) + [tier] && tables == old(tables) + [Table(old(nextFile), tier, old(frozen[0].list))]
      ensures ok ==> old(nextFile) in store.book && InClass(|store.book[old(nextFile)].bytes|, tier)
      ensures !ok ==>
        frozen == old(frozen) && flushedIndex == old(flushedIndex) && tables == old(tables) && flushes == old(flushes)
      ensures nextFile <= old(nextFile) + 1 && Reach() <= old(Spent()) + 2
      ensures Store.Faultless(faults) && !old(store.fs.crashed) ==>
        Store.Faultless(left) && !store.fs.crashed && !poisoned
      ensures Store.Faultless(faults) && !old(store.fs.crashed) && Room(history) && old(nextFile) < MAX_UINT64 ==> ok
    {
      hide ShapeOk, SnapshotOk, Tied, Unsure, FormatsOk, TablePublish.TableReader, SSTable.ReadFile, Promised, Roomy,
        InClass, FlushNext, SizeOf, M.Replay, M.Apply, Store.Recoverable;
      if nextFile >= MAX_UINT64 { return false, faults, 0; }
      ghost var x := Snap();
      var status, e, class_;
      status, e, class_, left := EmitOldest(faults);
      tier := class_;
      FlushShape(x, activeMaxSeq, appliedIndex, base, flushes, tier);
      NumberShape(x, activeMaxSeq, appliedIndex, base, flushes);
      nextFile := nextFile + 1;
      if status == Store.Uncertain {
        Poison(e, FlushNext(x, tier));
        ok := false;
        return;
      }
      ok := status == Store.Committed;
      if ok { AdoptFlush(class_, x); }
    }

    /** The flushed memtable gives way to its table. */
    method AdoptFlush(tier: nat, ghost x: Snapshot)
      requires frozen != [] && nextFile > 0
      requires Snap() == x.(nextFile := x.nextFile + 1) && x.nextFile < MAX_UINT64 && tier <= MAX_CLASS
      requires ShapeOk(x, activeMaxSeq, appliedIndex, base, flushes)
      modifies this`tables, this`frozen, this`flushedIndex, this`flushes
      ensures Shape() && Snap() == FlushNext(x, tier) && flushes == old(flushes) + [tier] && frozen == old(frozen[1..])
      ensures flushedIndex == old(frozen[0].watermark)
      ensures tables == old(tables) + [Table(x.nextFile, tier, old(frozen[0].list))]
    {
      hide ShapeOk;
      FlushShape(x, activeMaxSeq, appliedIndex, base, flushes, tier);
      tables := tables + [Table(nextFile - 1, tier, frozen[0].list)];
      flushedIndex := frozen[0].watermark;
      frozen := frozen[1..];
      flushes := flushes + [tier];
    }

    /** Flushes the oldest frozen memtable, then compacts. */
    method FlushOldest(faults: seq<Fault>) returns (ok: bool, left: seq<Fault>, ghost tier: nat)
      requires Valid() && !poisoned && store != null && frozen != []
      modifies this`tables, this`frozen, this`flushedIndex, this`nextFile, this`poisoned, this`flushes, this`tried,
        this`after, this`obsolete, this`dirDirty, store, store.fs
      ensures Valid() && (old(Durable()) ==> Durable())
      ensures
        || (frozen == old(frozen) && flushedIndex == old(flushedIndex) && flushes == old(flushes))
        || (frozen == old(frozen[1..]) && flushedIndex == old(frozen[0].watermark) && flushes == old(flushes) + [tier])
      ensures ok ==>
        frozen == old(frozen[1..]) && !poisoned && !store.fs.crashed && (autoCompact ==> SizeTiers.Settled(tables))
      ensures Reach() <= old(Spent()) + if ok then 2 else 3
      ensures Store.Faultless(faults) && !old(store.fs.crashed) ==>
        Store.Faultless(left) && !store.fs.crashed && !poisoned
      ensures Store.Faultless(faults) && !old(store.fs.crashed) && Room(history) && old(Spent()) + 2 < MAX_UINT64 ==>
        ok
    {
      hide ShapeOk, SnapshotOk, Tied, Unsure, FormatsOk, TablePublish.TableReader, SSTable.ReadFile, Promised, Roomy,
        SizeTiers.Settled, Count, InClass;
      ok, left, tier := FlushTable(faults);
      if ok && autoCompact {
        ok, left := CompactAll(left);
      }
    }

    method Freeze(watermark: nat)
      requires Valid() && !poisoned && active != []
      requires activeMaxSeq <= watermark && flushedIndex <= watermark <= Max(appliedIndex, flushedIndex)
      requires forall m :: m in frozen ==> m.watermark <= watermark
      modifies this`frozen, this`active, this`activeSize, this`activeMaxSeq
      ensures Valid() && active == [] && activeMaxSeq == 0 && (old(Durable()) ==> Durable())
      ensures frozen == old(frozen) + [Immutable(old(active), old(activeMaxSeq), watermark)]
    {
      hide ShapeOk, SnapshotOk, Tied, Unsure, FormatsOk, TablePublish.TableReader, SSTable.ReadFile, Promised;
      ghost var x := Snap();
      FreezeShape(x, activeMaxSeq, appliedIndex, base, flushes, watermark);
      frozen := frozen + [Immutable(active, activeMaxSeq, watermark)];
      active, activeSize, activeMaxSeq := [], 0, 0;
      if store != null {
        TiedMemory(store.fm, store.fs.State(), store.version, store.edits, store.book, x, obsolete, Snap());
      }
    }

    /** The targets a flush accepts: applied, not behind the flushed index, and at or above every pending write. */
    ghost predicate Target(index: nat)
      reads this
    {
      && flushedIndex <= index <= Max(appliedIndex, flushedIndex) && activeMaxSeq <= index
      && forall k :: 0 <= k < |frozen| ==> frozen[k].watermark <= index
    }

    method CheckTarget(index: nat) returns (ok: bool)
      ensures ok == Target(index)
    {
      if index < flushedIndex || (index > appliedIndex && index > flushedIndex) || activeMaxSeq > index {
        return false;
      }
      for i := 0 to |frozen|
        invariant forall k :: 0 <= k < i ==> frozen[k].watermark <= index
      {
        if frozen[i].watermark > index { return false; }
      }
      return true;
    }

    /** Flushes every frozen memtable, oldest first. */
    method FlushFrozen(index: nat, faults: seq<Fault>) returns (ok: bool, left: seq<Fault>)
      requires Valid() && !poisoned && store != null && Target(index)
      modifies this`tables, this`frozen, this`flushedIndex, this`nextFile, this`poisoned, this`obsolete, this`dirDirty,
        this`flushes, this`tried, this`after, store, store.fs
      ensures Valid() && (old(Durable()) ==> Durable())
      ensures old(flushedIndex) <= flushedIndex <= index && old(flushes) <= flushes
      ensures ok ==>
        frozen == [] && !poisoned && (autoCompact && old(SizeTiers.Settled(tables)) ==> SizeTiers.Settled(tables))
      ensures Reach() <= old(Spent()) + 2 * old(|frozen|) + if ok then 0 else 1
      ensures Store.Faultless(faults) && !old(store.fs.crashed) ==>
        Store.Faultless(left) && !store.fs.crashed && !poisoned
      ensures Store.Faultless(faults) && !old(store.fs.crashed) && Room(history) ==>
        ok || old(Spent() + 2 * |frozen|) >= MAX_UINT64
    {
      hide ShapeOk, SnapshotOk, Tied, Unsure, FormatsOk, TablePublish.TableReader, SSTable.ReadFile, Promised, Roomy,
        SizeTiers.Settled, Count;
      left := faults;
      while |frozen| != 0
        invariant Valid() && !poisoned && (old(Durable()) ==> Durable()) && old(flushes) <= flushes
        invariant old(flushedIndex) <= flushedIndex && Target(index)
        invariant Spent() + 2 * |frozen| <= old(Spent()) + 2 * old(|frozen|)
        invariant autoCompact && old(SizeTiers.Settled(tables)) ==> SizeTiers.Settled(tables)
        invariant Store.Faultless(faults) && !old(store.fs.crashed) ==> Store.Faultless(left) && !store.fs.crashed
        decreases |frozen|
      {
        ShapeFacts(Snap(), activeMaxSeq, appliedIndex, base, flushes);
        ghost var tier;
        ok, left, tier := FlushOldest(left);
        if !ok { return; }
      }
      ok := true;
    }

    /** The flush of an engine with a directory, to a target it accepts. */
    method FlushTo(index: nat, faults: seq<Fault>) returns (ok: bool, left: seq<Fault>)
      requires Valid() && !poisoned && store != null && Target(index) && index <= MAX_UINT64
      modifies this`tables, this`frozen, this`flushedIndex, this`nextFile, this`poisoned, this`active, this`activeSize,
        this`activeMaxSeq, this`obsolete, this`dirDirty, this`flushes, this`tried, this`after, store, store.fs
      ensures Valid() && (old(Durable()) ==> Durable())
      ensures old(flushedIndex) <= flushedIndex <= index && old(flushes) <= flushes
      ensures active == []
      ensures ok ==> flushedIndex == index && frozen == [] && !poisoned
      ensures Reach() <= old(Spent()) + 2 * old(|frozen|) + if ok then 2 else 3
      ensures ok && autoCompact && old(SizeTiers.Settled(tables)) ==> SizeTiers.Settled(tables)
      ensures Store.Faultless(faults) && !old(store.fs.crashed) ==>
        Store.Faultless(left) && !store.fs.crashed && !poisoned
      ensures Store.Faultless(faults) && !old(store.fs.crashed) && Room(history) && old(Spare()) ==> ok
    {
      hide ShapeOk, SnapshotOk, Tied, Unsure, FormatsOk, TablePublish.TableReader, SSTable.ReadFile, Promised, Roomy,
        SizeTiers.Settled, Count;
      if |active| != 0 {
        Freeze(index);
      }
      ok, left := FlushFrozen(index, faults);
      if ok && index > flushedIndex {
        ok, left := MoveMark(index, left);
      }
    }

    /** Makes every write through `index` durable, or fails leaving everything readable. */
    method FlushThrough(index: nat, faults: seq<Fault>) returns (ok: bool, left: seq<Fault>)
      requires Valid() && !closed && !poisoned
      modifies this`tables, this`frozen, this`flushedIndex, this`nextFile, this`poisoned, this`active, this`activeSize,
        this`activeMaxSeq, this`obsolete, this`dirDirty, this`flushes, this`tried, this`after, Parts()
      ensures Valid() && (old(Durable()) ==> Durable()) && old(flushes) <= flushes
      ensures old(flushedIndex) <= flushedIndex <= Max(index, old(flushedIndex))
      ensures active == (if store != null && old(Target(index)) then [] else old(active))
      ensures ok ==> flushedIndex == index && active == [] && frozen == [] && !poisoned
      ensures Reach() <= old(Spent()) + 2 * old(|frozen|) + if ok then 2 else 3
      ensures ok && autoCompact && old(SizeTiers.Settled(tables)) ==> SizeTiers.Settled(tables)
      ensures Store.Faultless(faults) && old(Alive()) ==> Store.Faultless(left) && Alive()
      ensures store != null && !old(Target(index)) ==> !ok
      ensures Store.Faultless(faults) && old(Alive()) && Room(history) && old(Spare()) && store != null ==>
        ok == old(Target(index))
      ensures store == null ==> ok == old(active == [] && frozen == [] && index == flushedIndex)
    {
      hide ShapeOk, SnapshotOk, Tied, Unsure, FormatsOk, TablePublish.TableReader, SSTable.ReadFile, Promised, Roomy,
        SizeTiers.Settled, Count;
      if store == null {
        return |active| == 0 && |frozen| == 0 && index == flushedIndex, faults;
      }
      IndexFits(Snap(), activeMaxSeq, appliedIndex, base, flushes);
      ok := CheckTarget(index);
      if !ok { return ok, faults; }
      hide Target;
      ok, left := FlushTo(index, faults);
    }

    /** With nothing in memory, an edit that names no file moves the flushed index. */
    method MoveMark(index: nat, faults: seq<Fault>) returns (ok: bool, left: seq<Fault>)
      requires Valid() && !poisoned && store != null
      requires active == [] && frozen == [] && flushedIndex < index <= appliedIndex
      modifies this`flushedIndex, this`poisoned, this`tried, this`after, store, store.fs
      ensures Valid() && (old(Durable()) ==> Durable()) && (ok ==> !poisoned)
      ensures flushedIndex == (if ok then index else old(flushedIndex)) && Reach() == old(Spent())
      ensures Store.Faultless(faults) && !old(store.fs.crashed) ==>
        Store.Faultless(left) && !store.fs.crashed && !poisoned && (Room(history) ==> ok)
    {
      hide ShapeOk, SnapshotOk, Tied, Unsure, FormatsOk, TablePublish.TableReader, SSTable.ReadFile, Promised, Roomy,
        M.Apply, M.Replay, LsmDisk.Settled, AllPlaced, Names, Store.Recoverable;
      ShapeFacts(Snap(), activeMaxSeq, appliedIndex, base, flushes);
      ghost var x, fs, v, edits, book := Snap(), store.fs.State(), store.version, store.edits, store.book;
      MarkShape(x, activeMaxSeq, appliedIndex, base, flushes, index);
      MarkPlaced(store.fm, fs, v, edits, book, x, obsolete, index);
      NewNumber(store.fm, fs, v, edits, book, x, obsolete);
      if Room(history) { RoomyMark(store.fm, history, index); }
      var status;
      status, left := store.CommitEdit(M.Edit([], [], index), faults);
      MarkEnds(status, store.fm, fs, store.fs.State(), v, store.version, edits, store.edits, book, x, obsolete, index);
      match status {
        case Refused =>
        case Uncertain =>
          Poison(MarkEdit(index), MarkNext(x, index));
        case Committed =>
          flushedIndex := index;
      }
      ok := status == Store.Committed;
    }

    // ----- Writing -----

    /** How many file numbers one write can use up. */
    twostate predicate Costs(ok: bool)
      reads this
    {
      && Reach() <= old(Reach()) + 2 * old(|frozen|) + (if ok then 2 else 3)
      && (ok && old(frozen) == [] ==> frozen == [])
    }

    /** What a write of v leaves, refused or not, whatever its flush ran into. */
    twostate predicate Wrote(v: Version, ok: bool)
      reads this
    {
      && closed == old(closed) && (old(closed) || old(poisoned) || poisoned ==> !ok)
      && (history == if old(closed) || old(poisoned) then old(history) else old(history) + {v})
      && (appliedIndex == if old(closed) || old(poisoned) then old(appliedIndex) else Max(old(appliedIndex), v.seq_))
      && old(flushedIndex) <= flushedIndex <= Max(appliedIndex, old(flushedIndex))
      && (old(closed) || old(poisoned) ==> flushedIndex == old(flushedIndex))
      && base == old(base) && old(flushes) <= flushes
      && Costs(ok)
      && (old(Durable()) && Fresh(v, old(history), old(flushedIndex), old(frozen)) ==> Durable())
      && (ok && autoCompact && old(SizeTiers.Settled(tables)) ==> SizeTiers.Settled(tables))
      && (old(Bounded()) ==> Bounded())
      && (!old(closed) && !old(poisoned) ==> Placed(v, ok))
    }

    /** Where an absorbed write goes: the active memtable, or when that is due, with all else to the tables. */
    twostate predicate Placed(v: Version, ok: bool)
      reads this
    {
      if old(Due(v)) then active == [] && (ok ==> frozen == [] && flushedIndex == Max(appliedIndex, old(flushedIndex)))
      else
        && ok && active == Insert(old(active), v) && frozen == old(frozen) && tables == old(tables)
        && flushedIndex == old(flushedIndex)
    }

    method Put(key: Key, value: seq<Byte>, seq_: nat, faults: seq<Fault>) returns (ok: bool)
      requires Valid() && seq_ <= MAX_UINT64 && NoClash(history + {Version(key, seq_, Some(value))})
      modifies this, Parts()
      ensures Valid() && Wrote(Version(key, seq_, Some(value)), ok)
      ensures Store.Faultless(faults) && old(Alive()) ==> Alive() && (Room(history) && old(Spare()) ==> ok)
    {
      hide Valid, Durable, Fresh, NoClash, Room, SizeTiers.Settled;
      ok := Write(Version(key, seq_, Some(value)), faults);
    }

    method Delete(key: Key, seq_: nat, faults: seq<Fault>) returns (ok: bool)
      requires Valid() && seq_ <= MAX_UINT64 && NoClash(history + {Version(key, seq_, None)})
      modifies this, Parts()
      ensures Valid() && Wrote(Version(key, seq_, None), ok)
      ensures Store.Faultless(faults) && old(Alive()) ==> Alive() && (Room(history) && old(Spare()) ==> ok)
    {
      hide Valid, Durable, Fresh, NoClash, Room, SizeTiers.Settled;
      ok := Write(Version(key, seq_, None), faults);
    }

    /** The write is visible before any flush it triggers, so a failed flush loses nothing. */
    method Write(v: Version, faults: seq<Fault>) returns (ok: bool)
      requires Valid() && v.seq_ <= MAX_UINT64 && NoClash(history + {v})
      modifies this, Parts()
      ensures Valid() && Wrote(v, ok)
      ensures Store.Faultless(faults) && old(Alive()) ==> Alive() && (Room(history) && old(Spare()) ==> ok)
    {
      hide ShapeOk, SnapshotOk, Tied, Unsure, FormatsOk, TablePublish.TableReader, SSTable.ReadFile, Promised, Roomy,
        SizeTiers.Settled, Count, Fresh, NoClash, SizeOf, Insert;
      if closed || poisoned { return false; }
      NothingWeighs();
      var accepted := Absorb(v);
      ok := true;
      if accepted && store != null && flushThreshold > 0 && activeSize >= flushThreshold {
        TargetOk(Snap(), activeMaxSeq, appliedIndex, base, flushes);
        var left;
        ok, left := FlushThrough(Max(appliedIndex, flushedIndex), faults);
      }
    }

    /** Puts the write into the active memtable unless a newer one of its key is there. */
    method Absorb(v: Version) returns (accepted: bool)
      requires Valid() && !closed && !poisoned && v.seq_ <= MAX_UINT64 && NoClash(history + {v})
      modifies this`active, this`activeSize, this`activeMaxSeq, this`appliedIndex, this`history
      ensures Valid() && history == old(history) + {v} && appliedIndex == Max(old(appliedIndex), v.seq_)
      ensures active == Insert(old(active), v) && accepted == (active != old(active))
      ensures old(Durable()) && Fresh(v, old(history), flushedIndex, frozen) ==> Durable()
    {
      hide ShapeOk, SnapshotOk, Tied, Unsure, FormatsOk, TablePublish.TableReader, SSTable.ReadFile, Promised, Fresh,
        NoClash, Insert, Find, SizeOf, EntrySize;
      ghost var x := Snap();
      InsertSize(active, v);
      var prior := Find(active, v.key);
      WriteShape(x, activeMaxSeq, appliedIndex, base, flushes, v);
      accepted := prior == None || v.seq_ > prior.value.seq_;
      if accepted {
        activeSize := activeSize + EntrySize(v) - if prior.Some? then EntrySize(prior.value) else 0;
        activeMaxSeq := Max(activeMaxSeq, v.seq_);
      }
      active := if accepted then Insert(active, v) else active;
      appliedIndex := Max(appliedIndex, v.seq_);
      history := history + {v};
      if store != null {
        TiedMemory(store.fm, store.fs.State(), store.version, store.edits, store.book, x, obsolete, Snap());
      }
    }

    method AdvanceApplied(index: nat) returns (ok: bool)
      requires Valid() && index <= MAX_UINT64
      modifies this`appliedIndex
      ensures Valid() && (old(Durable()) ==> Durable())
      ensures ok == (!closed && !poisoned && index >= old(appliedIndex))
      ensures appliedIndex == if ok then index else old(appliedIndex)
    {
      hide ShapeOk, Tied, Unsure, FormatsOk, Promised, TablePublish.TableReader, SSTable.ReadFile;
      if closed || poisoned || index < appliedIndex { return false; }
      AppliedShape(Snap(), activeMaxSeq, appliedIndex, base, flushes, index);
      appliedIndex := index;
      return true;
    }

    // ----- Reading -----

    ghost function Sources(): set<Version>
      reads this
    {
      ListSet(active) + FrozenSet(frozen) + TableSet(tables)
    }

    /**
     Every source is asked; the newest answer wins and two different answers for one sequence
     number are corruption.
     */
    method Lookup(key: Key) returns (ok: bool, r: Option<Version>)
      requires Valid()
      ensures ok == !closed
      ensures ok ==> BestOf(history, key, r)
    {
      hide Represents, NoClash, BestOf, Ascends, TablesOk, FrozenOk, ListSet, FrozenSet, TableSet, Valid;
      if closed { return false, None; }
      Readable(this);
      r := Find(active, key);
      FindBest(active, key);
      r := SearchFrozen(key, r);
      r := SearchTables(key, r);
      BestWrite(Sources(), history, key, r);
      return true, r;
    }

    method SearchFrozen(key: Key, start: Option<Version>) returns (r: Option<Version>)
      requires Valid() && BestOf(ListSet(active), key, start)
      ensures Valid() && BestOf(ListSet(active) + FrozenSet(frozen), key, r)
    {
      hide Represents, NoClash, BestOf, Ascends, TablesOk, FrozenOk, ListSet, FrozenSet, TableSet, Valid;
      Readable(this);
      r := start;
      NoFrozen();
      assert frozen[..0] == [] && ListSet(active) + {} == ListSet(active);
      for i := 0 to |frozen|
        invariant Valid() && BestOf(ListSet(active) + FrozenSet(frozen[..i]), key, r)
      {
        var candidate := Find(frozen[i].list, key);
        FrozenAscends(frozen, i);
        FindBest(frozen[i].list, key);
        FrozenPrefix(frozen, i);
        ghost var seen := ListSet(active) + FrozenSet(frozen[..i]);
        Consider(Sources(), history, seen, ListSet(frozen[i].list), key, r, candidate);
        if Disagree(r, candidate) { assert false; }
        r := Newer(r, candidate);
        assert seen + ListSet(frozen[i].list) == ListSet(active) + FrozenSet(frozen[..i + 1]);
      }
      assert frozen[..|frozen|] == frozen;
    }

    method SearchTables(key: Key, start: Option<Version>) returns (r: Option<Version>)
      requires Valid() && BestOf(ListSet(active) + FrozenSet(frozen), key, start)
      ensures BestOf(Sources(), key, r)
    {
      hide Represents, NoClash, BestOf, Ascends, TablesOk, FrozenOk, ListSet, FrozenSet, TableSet, Valid;
      Readable(this);
      r := start;
      ghost var memory := ListSet(active) + FrozenSet(frozen);
      NoTables();
      assert tables[..0] == [] && memory + {} == memory;
      for i := 0 to |tables|
        invariant BestOf(memory + TableSet(tables[..i]), key, r)
      {
        var candidate := Find(tables[i].content, key);
        TableAscends(tables, flushedIndex, nextFile, i);
        FindBest(tables[i].content, key);
        TablePrefix(tables, i);
        ghost var seen := memory + TableSet(tables[..i]);
        Consider(Sources(), history, seen, ListSet(tables[i].content), key, r, candidate);
        if Disagree(r, candidate) { assert false; }
        r := Newer(r, candidate);
        assert seen + ListSet(tables[i].content) == memory + TableSet(tables[..i + 1]);
      }
      assert tables[..|tables|] == tables;
    }

    /** The logical point read: a newest tombstone reads as absent. */
    method Read(key: Key) returns (ok: bool, value: Option<seq<Byte>>)
      requires Valid()
      ensures ok == !closed && (ok ==> value == Value(history, key))
    {
      hide Represents, NoClash, BestOf, TablesOk, FrozenOk, Valid;
      Readable(this);
      var found, r := Lookup(key);
      ok := found;
      value := None;
      if ok && r.Some? {
        value := r.value.value;
      }
      if ok { ValueIs(history, key, r); }
    }
  }

  /** An automatic flush always has an acceptable target. */
  lemma TargetOk(x: Snapshot, maxSeq: nat, applied: nat, base: nat, flushes: seq<nat>)
    requires ShapeOk(x, maxSeq, applied, base, flushes)
    ensures maxSeq <= applied && forall k :: 0 <= k < |x.frozen| ==> x.frozen[k].watermark <= Max(applied, x.flushed)
  {
    hide SnapshotOk, ActiveOk, Weight, TierWeight;
  }

  lemma NothingActive()
    ensures ActiveOk([], 0)
  {
    EmptyAscends();
  }

  /** What a lookup rests on. */
  lemma Readable(engine: Engine)
    requires engine.Valid()
    ensures Represents(engine.Sources(), engine.history) && NoClash(engine.history) && Ascends(engine.active)
    ensures FrozenOk(engine.frozen) && TablesOk(engine.tables, engine.flushedIndex, engine.nextFile)
  {
    hide Represents, NoClash, FrozenOk, TablesOk, Ascends, Weight, TierWeight, Engine.Coupled;
  }

  lemma IndexFits(x: Snapshot, maxSeq: nat, applied: nat, base: nat, flushes: seq<nat>)
    requires ShapeOk(x, maxSeq, applied, base, flushes)
    ensures x.flushed <= MAX_UINT64 && applied <= MAX_UINT64
  {}

  lemma ShapeFacts(x: Snapshot, maxSeq: nat, applied: nat, base: nat, flushes: seq<nat>)
    requires ShapeOk(x, maxSeq, applied, base, flushes)
    ensures SnapshotOk(x) && NumbersDiffer(x.tables) && x.nextFile >= 1
    ensures x.flushed <= MAX_UINT64 && applied <= MAX_UINT64
    ensures maxSeq <= applied && MarksApplied(x.frozen, applied, x.flushed)
    ensures x.frozen != [] ==> x.flushed <= x.frozen[0].watermark <= MAX_UINT64
  {
    hide FrozenOk, Represents, NoClash, ActiveOk, Weight, TierWeight, Ascends;
  }

  lemma FirstMark(x: Snapshot)
    requires SnapshotOk(x) && x.frozen != []
    ensures x.flushed <= x.frozen[0].watermark
  {}

  /** Every mark, also one whose commit is uncertain, was applied or flushed before. */
  lemma Marks(engine: Engine)
    requires engine.Valid()
    ensures forall m :: m in engine.frozen ==> m.watermark <= Max(engine.appliedIndex, engine.flushedIndex)
    ensures engine.poisoned ==> engine.after.flushed <= Max(engine.appliedIndex, engine.flushedIndex)
  {
    hide SnapshotOk, ActiveOk, Weight, TierWeight, Unsure, Tied, FormatsOk, TablePublish.TableReader;
    forall m | m in engine.frozen ensures m.watermark <= Max(engine.appliedIndex, engine.flushedIndex) {
      var i :| 0 <= i < |engine.frozen| && engine.frozen[i] == m;
    }
  }

  // ----- Opening -----

  /** What the engine leaves on its directory when it stops here. */
  ghost function Left(engine: Engine): Image
    requires engine.store != null
    reads engine, engine.Parts()
  {
    if engine.poisoned then Image(engine.store.edits, engine.tried, engine.store.book, engine.Snap(), engine.after)
    else Image(engine.store.edits, MarkEdit(engine.flushedIndex), engine.store.book, engine.Snap(), engine.Snap())
  }

  /** Wherever a durable engine stops, its directory can be opened again. */
  lemma LeftRestarts(engine: Engine)
    requires engine.Valid() && engine.Durable() && engine.store != null
    ensures engine.store.fs.Valid() && Restartable(engine.store.fm, engine.store.fs.State(), Left(engine))
  {
    hide ShapeOk, SnapshotOk, Promised, Tied, FormatsOk, Store.Recoverable, M.Replay, Reflects, LeadsTo,
      TablePublish.TableReader;
    var x := engine.Snap();
    ShapeFacts(x, engine.activeMaxSeq, engine.appliedIndex, engine.base, engine.flushes);
    if !engine.poisoned {
      TiedRestarts(engine.store.fm, engine.store.fs.State(), engine.store.version, engine.store.edits,
                   engine.store.book, x, engine.obsolete);
    }
  }

  /**
   Replays the manifest, checks every table it names, and removes every other file. The engine
   holds exactly the writes at or below the flushed index it finds, which is that of the state
   before or after the interrupted edit.
   */
  method Open(fm: Formats, fs: SimFS, hash: Hash, flushThreshold: nat, autoCompact: bool, faults: seq<Fault>,
              ghost im: Image)
    returns (engine: Engine?, ghost kept: Snapshot)
    requires fs.Valid() && !fs.crashed
    requires Restartable(fm, fs.State(), im) && fm.readTable == TablePublish.TableReader(fm.crc, hash)
    modifies fs
    ensures fs.Valid() && Restartable(fm, fs.State(), im) && (kept == im.before || kept == im.after)
    ensures engine != null ==>
      && fresh(engine) && engine.Valid() && engine.Durable() && engine.Alive() && engine.hash == hash
      && engine.store != null && fresh(engine.store) && engine.store.fs == fs && engine.store.fm == fm
      && engine.appliedIndex == 0 && engine.flushedIndex == kept.flushed
      && engine.history == FlushedPart(kept.history, kept.flushed)
      && engine.frozen == [] && engine.Spent() <= kept.nextFile + |kept.tables|
      && engine.flushThreshold == flushThreshold && engine.autoCompact == autoCompact && engine.Bounded()
    ensures Store.Faultless(faults) ==> engine != null
  {
    hide SnapshotOk, Store.Recoverable, FormatsOk, LsmDisk.Settled, M.Replay, Reflects, LeadsTo, Promised, FlushedPart,
      TablesOk, Represents, Light, NoClash, TableSet, Names, TablePublish.TableReader, SSTable.ReadFile, Engine.Valid,
      Engine.Durable;
    var store, contents := Store.Open(fm, fs, faults, im.edits, im.tried, im.book);
    kept := if store != null && store.edits != im.edits then im.after else im.before;
    if store == null { return null, kept; }
    RecoveredReflects(fm, fs.State(), im, store.edits, store.book);
    var tables := ListTables(store.version.files, contents);
    var next := NextFileNumber(store.version.files.Keys);
    Rebuilt(store.version, store.book, kept, tables, next, fs.State());
    engine := new Engine.Reopened(store, hash, flushThreshold, autoCompact, tables, next,
                                  FlushedPart(kept.history, kept.flushed));
  }
}
