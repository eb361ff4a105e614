/**
 Publishing a table and reopening. A flush or a compaction writes its table under a new name,
 syncs it and the directory, appends one edit to the manifest and syncs that, and only then
 removes what the edit dropped. Any operation may fail or crash, keeping any byte prefix of
 the unsynced changes; whatever happens, reopening finds the version before or after the edit.
 */
module LsmStore {
  import opened RaftTypes
  import opened LsmTypes
  import opened Bytes
  import opened SimFs
  import opened Frames
  import opened LsmDisk
  import M = Manifest

  predicate Faultless(faults: seq<Fault>) { forall i :: 0 <= i < |faults| ==> faults[i] == NoFault }

  /** The fault scheduled for the next operation; beyond the schedule nothing fails. */
  function Next(faults: seq<Fault>): (f: Fault)
    ensures Faultless(faults) ==> f == NoFault
  {
    if faults == [] then NoFault else faults[0]
  }

  function Rest(faults: seq<Fault>): (r: seq<Fault>)
    ensures Faultless(faults) ==> Faultless(r)
  {
    if faults == [] then [] else faults[1..]
  }

  /** The directory is at one of the two versions, or recovery will take it there. */
  ghost predicate Recoverable(fm: Formats, fs: Fs, edits: seq<M.Edit>, e: M.Edit, book: Book) {
    || Settled(fm, fs, edits, book)
    || Settled(fm, fs, edits + [e], book)
    || Appending(fm, fs, edits, e, book)
    || (exists k: nat :: Torn(fm, fs, edits, e, book, k))
    || (exists k: nat :: Trimming(fm, fs, edits, e, book, k))
  }

  /** A crash, wherever it falls, leaves a recoverable directory with nothing half applied. */
  lemma CrashRecoverable(fm: Formats, fs: Fs, edits: seq<M.Edit>, e: M.Edit, book: Book, budget: Option<nat>)
    requires Recoverable(fm, fs, edits, e, book)
    ensures Recoverable(fm, Crashed(fs, budget), edits, e, book) && !Appending(fm, Crashed(fs, budget), edits, e, book)
  {
    hide Settled, Torn, Trimming, Crashed;
    if Settled(fm, fs, edits, book) {
      CrashSettled(fm, fs, edits, book, budget);
    } else if Settled(fm, fs, edits + [e], book) {
      CrashSettled(fm, fs, edits + [e], book, budget);
    } else if Appending(fm, fs, edits, e, book) {
      var k := CrashAppending(fm, fs, edits, e, book, budget);
    } else if k: nat :| Torn(fm, fs, edits, e, book, k) {
      CrashTorn(fm, fs, edits, e, book, k, budget);
    } else {
      var k: nat :| Trimming(fm, fs, edits, e, book, k);
      var k' := CrashTrimming(fm, fs, edits, e, book, k, budget);
    }
    CrashedClean(fs, budget);
  }

  lemma SettledFault(fm: Formats, before: Fs, after: Fs, edits: seq<M.Edit>, book: Book, fault: Fault)
    requires Settled(fm, before, edits, book) && Settled(fm, after, edits, book)
    ensures Settled(fm, Faulted(before, after, fault), edits, book)
  {
    hide Settled, Crashed;
    if fault.CrashBefore? { CrashSettled(fm, before, edits, book, fault.budget); }
    if fault.CrashAfter? { CrashSettled(fm, after, edits, book, fault.budget); }
  }

  /** Nothing was appended, the edit is durable, or nothing is known. */
  datatype CommitStatus = Refused | Committed | Uncertain

  class Store {
    const fm: Formats
    const fs: SimFS
    var version: M.VersionState
    ghost var edits: seq<M.Edit>
    ghost var book: Book

    /** The directory, crashed or not, is at the version the process knows. */
    ghost predicate Known()
      reads this, fs
    {
      FormatsOk(fm) && fs.Valid() && Settled(fm, fs.State(), edits, book) && version == M.Replay(edits).value
    }

    constructor (fm: Formats, fs: SimFS, version: M.VersionState, ghost edits: seq<M.Edit>, ghost book: Book)
      requires FormatsOk(fm) && fs.Valid() && Settled(fm, fs.State(), edits, book) && version == M.Replay(edits).value
      ensures Known() && this.fm == fm && this.fs == fs
      ensures this.version == version && this.edits == edits && this.book == book
    {
      this.fm, this.fs, this.version := fm, fs, version;
      this.edits, this.book := edits, book;
    }

    /** Writes a complete table under a new name; nothing refers to it yet. No bytes means the writer refused. */
    method WriteTable(n: nat, content: seq<Version>, file: Option<seq<Byte>>, faults: seq<Fault>)
      returns (status: Status, left: seq<Fault>)
      requires Known() && n > 0 && n !in version.files
      requires file.Some? ==> TableOk(fm, TableFile(content, file.value))
      modifies fs, this`book
      ensures Known() && fs.crashed == (status == Dead) && Names(fs.State()) <= old(Names(fs.State())) + {n}
      ensures status == Fine ==> file.Some? && book == old(book)[n := TableFile(content, file.value)]
      ensures status != Fine ==> book == old(book)
      ensures status == Fine ==> Placed(fm, fs.State(), book, n)
      ensures Faultless(faults) && !old(fs.crashed) && n !in old(fs.live) ==>
        Faultless(left) && status == if file.Some? then Fine else Error
    {
      hide Settled, FormatsOk, TableOk, Crashed, Created, M.Replay, Names;
      ghost var start := fs.State();
      var node;
      left := Rest(faults);
      status, node := fs.Create(n, Next(faults));
      if old(fs.crashed) || n in start.live {
        if fs.State() != start { CrashSettled(fm, start, edits, book, Next(faults).budget); }
        RefusedNames(start, fs.State(), n, Next(faults));
      } else {
        CreateKeeps(fm, start, edits, book, n, node);
        SettledFault(fm, start, Created(start, n, node), edits, book, Next(faults));
        CreatedNames(start, n, node, Next(faults));
      }
      if status != Fine { return; }
      CreatedFile(start, n, node);
      if file == None { return Error, left; }
      status, left := FillTable(n, node, file.value, left);
      if status != Fine { return; }
      status, left := NameTable(left);
      if status != Fine { return; }
      ghost var t := TableFile(content, file.value);
      BookGrows(fm, fs.State(), edits, book, n, t);
      book := book[n := t];
    }

    /** Writes the bytes and syncs the file. */
    method FillTable(n: nat, node: nat, bytes: seq<Byte>, faults: seq<Fault>) returns (status: Status, left: seq<Fault>)
      requires Known() && !fs.crashed && n > 0 && n !in version.files && n in fs.live && fs.live[n] == node
      requires node in fs.nodes && fs.nodes[node] == Inode([], [])
      modifies fs
      ensures Known() && fs.crashed == (status == Dead) && Names(fs.State()) <= old(Names(fs.State()))
      ensures status == Fine ==>
        && n in fs.live && fs.live[n] == node && node in fs.nodes && fs.nodes[node] == Inode(bytes, bytes)
        && NoDirty(fs.dirty, node)
      ensures Faultless(faults) ==> status == Fine && Faultless(left)
    {
      hide Settled, FormatsOk, Crashed, M.Replay, Overwrite, Clean;
      left := faults;
      ghost var before := fs.State();
      AppendIsOverwrite([], bytes);
      WorkKeeps(fm, before, Written(before, node, 0, bytes), edits, book, n);
      SettledFault(fm, before, Written(before, node, 0, bytes), edits, book, Next(left));
      FaultNames(before, Written(before, node, 0, bytes), Next(left));
      status := fs.Append(node, 0, bytes, Next(left));
      left := Rest(left);
      if status != Fine { return; }
      before := fs.State();
      SyncCleans(before, node);
      WorkKeeps(fm, before, Synced(before, node), edits, book, n);
      SettledFault(fm, before, Synced(before, node), edits, book, Next(left));
      FaultNames(before, Synced(before, node), Next(left));
      status := fs.Sync(node, Next(left));
      left := Rest(left);
    }

    /** Makes the new name durable, and reads the table back through it. */
    method NameTable(faults: seq<Fault>) returns (status: Status, left: seq<Fault>)
      requires Known() && !fs.crashed
      modifies fs
      ensures Known() && fs.crashed == (status == Dead) && Names(fs.State()) <= old(Names(fs.State()))
      ensures status == Fine ==> fs.State() == DirSynced(old(fs.State()))
      ensures Faultless(faults) ==> status == Fine && Faultless(left)
    {
      hide Settled, FormatsOk, Crashed, M.Replay;
      ghost var before := fs.State();
      DirSyncKeeps(fm, before, edits, book);
      SettledFault(fm, before, DirSynced(before), edits, book, Next(faults));
      FaultNames(before, DirSynced(before), Next(faults));
      status := fs.SyncDir(Next(faults));
      left := Rest(faults);
      if status != Fine { return; }
      status, left := Look(left);
    }

    /** A read of the directory: it may fail, and changes nothing. */
    method Look(faults: seq<Fault>) returns (status: Status, left: seq<Fault>)
      requires Known()
      modifies fs
      ensures Known() && fs.crashed == (status == Dead) && Names(fs.State()) <= old(Names(fs.State()))
      ensures status != Dead ==> fs.State() == old(fs.State())
      ensures status != Absent && (Faultless(faults) && !old(fs.crashed) ==> status == Fine && Faultless(left))
    {
      hide Settled, FormatsOk, Crashed, M.Replay;
      ghost var before := fs.State();
      SettledFault(fm, before, before, edits, book, Next(faults));
      FaultNames(before, before, Next(faults));
      status := fs.Inspect(Next(faults));
      left := Rest(faults);
    }

    /** Appends the edit to the manifest and syncs it; after a write or sync error nothing is known. */
    method CommitEdit(e: M.Edit, faults: seq<Fault>) returns (status: CommitStatus, left: seq<Fault>)
      requires Known()
      requires M.Apply(version, e).Some? ==> AllPlaced(fm, fs.State(), book, M.Apply(version, e).value)
      modifies fs, this`version, this`edits
      ensures fs.Valid() && Names(fs.State()) <= old(Names(fs.State()))
      ensures status == Committed ==>
        Known() && !fs.crashed && edits == old(edits) + [e] && M.Apply(old(version), e) == Some(version)
      ensures status != Committed ==> edits == old(edits) && version == old(version)
      ensures status == Refused ==> Known()
      ensures status == Uncertain ==> Recoverable(fm, fs.State(), edits, e, book) && M.Apply(version, e).Some?
      ensures Faultless(faults) && !old(fs.crashed) ==>
        Faultless(left) && !fs.crashed && status == if old(Acceptable(e)) then Committed else Refused
    {
      hide Settled, FormatsOk, Crashed, M.Replay, M.Apply, AllPlaced, Log, Overwrite, Clean, Appending, EditFrame,
        ManifestBytes;
      left := faults;
      var next := M.Apply(version, e);
      if next == None { return Refused, left; }
      var payload := fm.edits.marshal(e);
      if !Fits(|payload|, 4) { return Refused, left; }
      var frame := BuildFrame(fm.crc, payload);
      var opened_;
      opened_, left := Look(left);
      if opened_ != Fine { return Refused, left; }
      ghost var before := fs.State();
      ManifestNode(fm, before, edits, book);
      EditLogs(fm, edits, e, version);
      var node := fs.live[0];
      var offset := |fs.nodes[node].data|;
      AppendStarts(fm, before, edits, e, book);
      ghost var after := Written(before, node, offset, frame);
      FrameIs(fm, e);
      FaultRecoverable(fm, before, after, edits, e, book, Next(left));
      FaultNames(before, after, Next(left));
      var wrote := fs.Append(node, offset, frame, Next(left));
      left := Rest(left);
      if wrote != Fine { return Uncertain, left; }
      AppendCommits(fm, after, edits, e, book);
      FaultRecoverable(fm, after, Synced(after, node), edits, e, book, Next(left));
      FaultNames(after, Synced(after, node), Next(left));
      var synced := fs.Sync(node, Next(left));
      left := Rest(left);
      if synced != Fine { return Uncertain, left; }
      version, edits := next.value, edits + [e];
      return Committed, left;
    }

    /** The manifest accepts the edit and its frame has a representable length. */
    ghost predicate Acceptable(e: M.Edit)
      reads this
    {
      M.Apply(version, e).Some? && Fits(|fm.edits.marshal(e)|, 4)
    }

    /**
     Removes names the version no longer refers to. A name that cannot be removed stays for a
     later attempt, and once a removal was tried the directory is dirty until it is synced.
     */
    method RemoveFiles(files: seq<nat>, wasDirty: bool, faults: seq<Fault>)
      returns (ok: bool, pending: seq<nat>, dirty: bool, left: seq<Fault>)
      requires Known() && forall f :: f in files ==> f != 0 && f !in version.files
      modifies fs
      ensures Known() && Names(fs.State()) <= old(Names(fs.State())) && forall f :: f in pending ==> f in files
      ensures ok ==> pending == [] && !dirty && !fs.crashed && fs.live.Keys == old(fs.live.Keys) - (set f | f in files)
      ensures ok ==> fs.names == if files == [] && !wasDirty then old(fs.names) else fs.live
      ensures Faultless(faults) && !old(fs.crashed) ==> ok && Faultless(left)
    {
      hide Settled, FormatsOk, Crashed, M.Replay, Names;
      left, pending, dirty, ok := faults, [], wasDirty, true;
      ghost var start, names := fs.live.Keys, Names(fs.State());
      for i := 0 to |files|
        invariant Known() && Names(fs.State()) <= names && (old(fs.crashed) ==> fs.crashed)
        invariant forall f :: f in pending ==> f in files
        invariant dirty == (wasDirty || i > 0)
        invariant ok ==> pending == [] && fs.names == old(fs.names) && fs.live.Keys == start - (set f | f in files[..i])
        invariant fs.crashed ==> (files == [] || i == 0 || !ok) && (i == 0 ==> old(fs.crashed))
        invariant Faultless(faults) ==> Faultless(left) && (!old(fs.crashed) ==> ok && !fs.crashed)
      {
        assert files[..i + 1] == files[..i] + [files[i]];
        assert files[i] in files;
        dirty := true;
        var removed;
        removed, left := RemoveOne(files[i], left);
        if removed == Error || removed == Dead {
          ok, pending := false, pending + [files[i]];
        }
      }
      assert files[..|files|] == files;
      if dirty {
        ghost var before := fs.State();
        DirSyncKeeps(fm, before, edits, book);
        SettledFault(fm, before, DirSynced(before), edits, book, Next(left));
        SyncedNames(before, Next(left));
        var synced := fs.SyncDir(Next(left));
        left := Rest(left);
        if synced == Fine { dirty := false; } else { ok := false; }
      } else {
        ok := ok && !fs.crashed;
      }
    }

    method RemoveOne(name: nat, faults: seq<Fault>) returns (status: Status, left: seq<Fault>)
      requires Known() && name != 0 && name !in version.files
      modifies fs
      ensures Known() && Names(fs.State()) <= old(Names(fs.State())) && fs.crashed == (status == Dead)
      ensures (old(fs.crashed) ==> fs.crashed)
      ensures status == Fine || status == Absent ==>
        fs.live.Keys == old(fs.live.Keys) - {name} && fs.names == old(fs.names)
      ensures Faultless(faults) ==> Faultless(left) && (!old(fs.crashed) ==> status == Fine || status == Absent)
    {
      hide Settled, FormatsOk, Crashed, M.Replay, Names;
      ghost var before := fs.State();
      RemoveKeeps(fm, before, edits, book, name);
      SettledFault(fm, before, Removed(before, name), edits, book, Next(faults));
      SettledFault(fm, before, before, edits, book, Next(faults));
      RemovedNames(before, name, Next(faults));
      status := fs.Remove(name, Next(faults));
      left := Rest(faults);
    }

    /** Writes a table and commits the edit that names it and drops others. */
    method Publish(n: nat, content: seq<Version>, file: Option<seq<Byte>>, tier: nat, removed: seq<nat>, flushed: nat,
                   faults: seq<Fault>)
      returns (status: CommitStatus, e: M.Edit, left: seq<Fault>)
      requires Known() && n > 0 && n !in version.files && content != []
      requires file.Some? ==> TableOk(fm, TableFile(content, file.value))
      requires forall v :: v in content ==> v.seq_ <= flushed
      modifies this, fs
      ensures e == M.Edit([M.Added(n, MetaOf(content, tier))], removed, flushed)
      ensures fs.Valid() && Names(fs.State()) <= old(Names(fs.State())) + {n}
      ensures book == old(book) || (file.Some? && book == old(book)[n := TableFile(content, file.value)])
      ensures status == Committed ==>
        Known() && !fs.crashed && edits == old(edits) + [e] && M.Apply(old(version), e) == Some(version)
      ensures status != Committed ==> edits == old(edits) && version == old(version)
      ensures status == Refused ==> Known()
      ensures status == Uncertain ==> Recoverable(fm, fs.State(), edits, e, book) && M.Apply(version, e).Some?
      ensures status != Refused ==> file.Some? && book == old(book)[n := TableFile(content, file.value)]
      ensures Faultless(faults) && !old(fs.crashed) && n !in old(fs.live) ==>
        Faultless(left) && !fs.crashed && status == if file.Some? && old(Acceptable(e)) then Committed else Refused
    {
      hide Settled, FormatsOk, Crashed, M.Replay, M.Apply, AllPlaced, Recoverable, TableOk, MetaOk, Placed, Names;
      e := M.Edit([M.Added(n, MetaOf(content, tier))], removed, flushed);
      var wrote;
      wrote, left := WriteTable(n, content, file, faults);
      if wrote != Fine { return Refused, e, left; }
      if M.Apply(version, e).Some? { NewVersionPlaced(fm, fs.State(), edits, book, version, e, n, content, tier); }
      status, left := CommitEdit(e, left);
    }
  }

  lemma RefusedNames(before: Fs, after: Fs, n: nat, fault: Fault)
    requires after == before || (fault.CrashBefore? && after == Crashed(before, fault.budget))
    ensures Names(after) <= Names(before) + {n}
  {
    FaultNames(before, before, fault);
  }

  lemma CreatedNames(fs: Fs, n: nat, node: nat, fault: Fault)
    ensures Names(Faulted(fs, Created(fs, n, node), fault)) <= Names(fs) + {n}
  {
    FaultNames(fs, Created(fs, n, node), fault);
  }

  lemma SyncedNames(fs: Fs, fault: Fault)
    ensures Names(Faulted(fs, DirSynced(fs), fault)) <= Names(fs)
  {
    FaultNames(fs, DirSynced(fs), fault);
  }

  lemma RemovedNames(fs: Fs, name: nat, fault: Fault)
    ensures Names(Faulted(fs, Removed(fs, name), fault)) <= Names(fs) && Names(Faulted(fs, fs, fault)) <= Names(fs)
  {
    FaultNames(fs, Removed(fs, name), fault);
    FaultNames(fs, fs, fault);
  }

  function MetaOf(content: seq<Version>, tier: nat): M.Meta
    requires content != []
  {
    M.Meta(tier, content[0].key, content[|content| - 1].key, |content|)
  }

  lemma PositiveFiles(fm: Formats, fs: Fs, edits: seq<M.Edit>, book: Book)
    requires Settled(fm, fs, edits, book)
    ensures 0 in fs.live && forall f :: f in M.Replay(edits).value.files ==> f > 0 && f in fs.live
  {}

  lemma SettledRecoverable(fm: Formats, fs: Fs, edits: seq<M.Edit>, e: M.Edit, book: Book)
    requires Settled(fm, fs, edits, book)
    ensures Recoverable(fm, fs, edits, e, book)
  {}

  lemma SettledNew(fm: Formats, fs: Fs, edits: seq<M.Edit>, e: M.Edit, book: Book)
    requires Settled(fm, fs, edits + [e], book)
    ensures Recoverable(fm, fs, edits, e, book)
  {}

  /** Files the edit dropped are in neither the new version nor the manifest's own name. */
  lemma DroppedFiles(v: M.VersionState, e: M.Edit)
    requires M.Apply(v, e).Some?
    ensures forall f :: f in e.removed ==> f !in M.Apply(v, e).value.files
  {}

  lemma NewVersionPlaced(fm: Formats, fs: Fs, edits: seq<M.Edit>, book: Book, v: M.VersionState, e: M.Edit, n: nat,
                         content: seq<Version>, tier: nat)
    requires Settled(fm, fs, edits, book) && v == M.Replay(edits).value && n > 0
    requires content != [] && e.added == [M.Added(n, MetaOf(content, tier))] && M.Apply(v, e).Some?
    requires Placed(fm, fs, book, n) && book[n].content == content && forall x :: x in content ==> x.seq_ <= e.flushed
    ensures AllPlaced(fm, fs, book, M.Apply(v, e).value)
  {
    hide M.Replay, Sound, Named, TableOk, NoDirty, M.EditsFit;
    var v' := M.Apply(v, e).value;
    var base := v.files - M.SetOf(e.removed);
    assert e.added[..0] == [];
    assert M.AddFiles(base, e.added) == base[n := MetaOf(content, tier)];
    forall f | f in v'.files
      ensures f > 0 && Placed(fm, fs, book, f) && MetaOk(v'.files[f], book[f].content, v'.flushed)
    {
      if f != n { assert f in v.files && v'.files[f] == v.files[f]; }
    }
  }

  lemma CreatedFile(fs: Fs, n: nat, node: nat)
    ensures var fs' := Created(fs, n, node);
      n in fs'.live && fs'.live[n] == node && node in fs'.nodes && fs'.nodes[node] == Inode([], [])
  {}

  lemma SyncCleans(fs: Fs, node: nat)
    requires node in fs.nodes
    ensures NoDirty(Synced(fs, node).dirty, node) && forall m :: m in Synced(fs, node).dirty ==> m in fs.dirty
  {}

  /** Writing down what an unreferenced file holds. */
  lemma BookGrows(fm: Formats, fs: Fs, edits: seq<M.Edit>, book: Book, n: nat, file: TableFile)
    requires Settled(fm, fs, edits, book) && n !in M.Replay(edits).value.files
    ensures Settled(fm, fs, edits, book[n := file])
  {
    hide M.Replay, Sound, M.EditsFit, ManifestBytes, MetaOk, TableOk, Named;
    var v := M.Replay(edits).value;
    forall f | f in v.files ensures Placed(fm, fs, book[n := file], f) { assert Placed(fm, fs, book, f); }
  }

  lemma FaultRecoverable(fm: Formats, before: Fs, after: Fs, edits: seq<M.Edit>, e: M.Edit, book: Book, fault: Fault)
    requires Recoverable(fm, before, edits, e, book) && Recoverable(fm, after, edits, e, book)
    ensures Recoverable(fm, Faulted(before, after, fault), edits, e, book)
  {
    hide Recoverable, Crashed;
    if fault.CrashBefore? { CrashRecoverable(fm, before, edits, e, book, fault.budget); }
    if fault.CrashAfter? { CrashRecoverable(fm, after, edits, e, book, fault.budget); }
  }

  lemma FrameIs(fm: Formats, e: M.Edit)
    ensures EditFrame(fm, e) == FrameOf(fm.crc, fm.edits.marshal(e))
  {}

  lemma ManifestNode(fm: Formats, fs: Fs, edits: seq<M.Edit>, book: Book)
    requires Settled(fm, fs, edits, book)
    ensures Log(fm, edits) && 0 in fs.live
    ensures fs.live[0] in fs.nodes && |fs.nodes[fs.live[0]].data| == |ManifestBytes(fm, edits)|
  {}

  lemma EditLogs(fm: Formats, edits: seq<M.Edit>, e: M.Edit, version: M.VersionState)
    requires Log(fm, edits) && M.Replay(edits).value == version
    requires M.Apply(version, e).Some? && Fits(|fm.edits.marshal(e)|, 4)
    ensures Log(fm, edits + [e]) && M.Replay(edits + [e]) == M.Apply(version, e)
  {
    hide M.Apply;
    M.ReplayMore(edits, e);
  }

  // ----- Reopening -----

  /** Creates the manifest of an empty directory. */
  method Format(fm: Formats, fs: SimFS) returns (ok: bool)
    requires fs.Valid() && !fs.crashed && fs.State() == Fs(map[], map[], map[], [])
    modifies fs
    ensures ok && fs.Valid() && !fs.crashed && Settled(fm, fs.State(), [], map[])
  {
    var s, node := fs.Create(0, NoFault);
    s := fs.Sync(node, NoFault);
    s := fs.SyncDir(NoFault);
    FreshManifest(fm, node);
    assert fs.State() == Fs(map[node := Inode([], [])], map[0 := node], map[0 := node], []);
    return true;
  }

  lemma FreshManifest(fm: Formats, node: nat)
    ensures Settled(fm, Fs(map[node := Inode([], [])], map[0 := node], map[0 := node], []), [], map[])
  {}

  /** What the manifest's visible bytes say in each state a directory can be found in. */
  ghost predicate Visible(fm: Formats, fs: Fs, edits: seq<M.Edit>, book: Book, torn: bool) {
    && Sound(fs) && Log(fm, edits) && AllPlaced(fm, fs, book, M.Replay(edits).value)
    && 0 in fs.live && 0 in fs.names && fs.live[0] == fs.names[0] && fs.live[0] in fs.nodes
    && var loaded := M.Load(fm.edits, fm.crc, fs.nodes[fs.live[0]].data);
    loaded == Some(M.Loaded(M.Replay(edits).value, |ManifestBytes(fm, edits)|, torn))
  }

  lemma SettledVisible(fm: Formats, fs: Fs, edits: seq<M.Edit>, book: Book)
    requires FormatsOk(fm) && Settled(fm, fs, edits, book)
    ensures Visible(fm, fs, edits, book, false)
  {
    hide M.Replay, Sound, AllPlaced, M.EditsFit, M.FileBytes, M.Load, M.Lawful, NoDirty;
    M.LoadWhole(fm.edits, fm.crc, edits);
  }

  lemma TornVisible(fm: Formats, fs: Fs, edits: seq<M.Edit>, e: M.Edit, book: Book, k: nat)
    requires FormatsOk(fm) && Torn(fm, fs, edits, e, book, k) && k < |EditFrame(fm, e)|
    ensures Visible(fm, fs, edits, book, 0 < k)
  {
    hide M.Replay, Sound, AllPlaced, M.EditsFit, M.FileBytes, M.Load, M.Lawful, NoDirty;
    M.LoadTorn(fm.edits, fm.crc, edits, e, k);
  }

  lemma AppendingVisible(fm: Formats, fs: Fs, edits: seq<M.Edit>, e: M.Edit, book: Book)
    requires FormatsOk(fm) && Appending(fm, fs, edits, e, book)
    ensures Visible(fm, fs, edits + [e], book, false)
  {
    hide M.Replay, Sound, AllPlaced, M.EditsFit, M.FileBytes, M.Load, M.Lawful, NoDirty, OnlyChange;
    M.BytesMore(fm.edits, fm.crc, edits, e);
    M.LoadWhole(fm.edits, fm.crc, edits + [e]);
  }

  lemma TrimmingVisible(fm: Formats, fs: Fs, edits: seq<M.Edit>, e: M.Edit, book: Book, k: nat)
    requires FormatsOk(fm) && Trimming(fm, fs, edits, e, book, k)
    ensures Visible(fm, fs, edits, book, false)
  {
    hide M.Replay, Sound, AllPlaced, M.EditsFit, M.FileBytes, M.Load, M.Lawful, NoDirty, OnlyChange;
    M.LoadWhole(fm.edits, fm.crc, edits);
  }

  /** What recovery will find: one of the two versions, and whether it must trim a torn frame first. */
  ghost predicate Found(fm: Formats, fs: Fs, edits: seq<M.Edit>, e: M.Edit, book: Book, recovered: seq<M.Edit>,
                        torn: bool) {
    && (recovered == edits || recovered == edits + [e])
    && Visible(fm, fs, recovered, book, torn)
    && (torn ==> recovered == edits && exists k: nat :: 0 < k && Torn(fm, fs, edits, e, book, k))
    && (!torn ==> Settled(fm, Synced(fs, fs.live[0]), recovered, book))
  }

  lemma SyncSettled(fm: Formats, fs: Fs, edits: seq<M.Edit>, book: Book)
    requires Settled(fm, fs, edits, book)
    ensures Settled(fm, Synced(fs, fs.live[0]), edits, book)
  {
    hide M.Replay, M.EditsFit, MetaOk, TableOk, M.FileBytes;
    var fs' := Synced(fs, fs.live[0]);
    assert Sound(fs');
    PlacedStays(fm, fs, fs', book, M.Replay(edits).value);
  }

  lemma RecoveryFinds(fm: Formats, fs: Fs, edits: seq<M.Edit>, e: M.Edit, book: Book)
    returns (recovered: seq<M.Edit>, torn: bool)
    requires FormatsOk(fm) && Recoverable(fm, fs, edits, e, book)
    ensures Found(fm, fs, edits, e, book, recovered, torn)
  {
    hide Settled, Torn, Trimming, Appending, Visible, FormatsOk, Synced;
    torn := false;
    if Settled(fm, fs, edits, book) {
      recovered := edits;
      ManifestNode(fm, fs, recovered, book);
      SettledVisible(fm, fs, recovered, book);
      SyncSettled(fm, fs, recovered, book);
    } else if Settled(fm, fs, edits + [e], book) {
      recovered := edits + [e];
      ManifestNode(fm, fs, recovered, book);
      SettledVisible(fm, fs, recovered, book);
      SyncSettled(fm, fs, recovered, book);
    } else if Appending(fm, fs, edits, e, book) {
      recovered := edits + [e];
      PartialNode(fm, fs, edits, e, book);
      AppendingVisible(fm, fs, edits, e, book);
      AppendCommits(fm, fs, edits, e, book);
    } else if k: nat :| Torn(fm, fs, edits, e, book, k) {
      TornEnds(fm, fs, edits, e, book, k);
      TornNode(fm, fs, edits, e, book, k);
      recovered, torn := edits, true;
      TornVisible(fm, fs, edits, e, book, k);
    } else {
      var k: nat :| Trimming(fm, fs, edits, e, book, k);
      recovered := edits;
      TrimmingNode(fm, fs, edits, e, book, k);
      TrimmingVisible(fm, fs, edits, e, book, k);
      TrimEnds(fm, fs, edits, e, book, k);
    }
  }

  lemma PartialNode(fm: Formats, fs: Fs, edits: seq<M.Edit>, e: M.Edit, book: Book)
    requires Appending(fm, fs, edits, e, book)
    ensures 0 in fs.live && fs.live[0] in fs.nodes
  {}

  lemma TornNode(fm: Formats, fs: Fs, edits: seq<M.Edit>, e: M.Edit, book: Book, k: nat)
    requires Torn(fm, fs, edits, e, book, k)
    ensures 0 in fs.live && fs.live[0] in fs.nodes && k <= |EditFrame(fm, e)|
  {}

  lemma TrimmingNode(fm: Formats, fs: Fs, edits: seq<M.Edit>, e: M.Edit, book: Book, k: nat)
    requires Trimming(fm, fs, edits, e, book, k)
    ensures 0 in fs.live && fs.live[0] in fs.nodes
  {}

  lemma PlacedDirSync(fm: Formats, fs: Fs, book: Book, v: M.VersionState)
    requires AllPlaced(fm, fs, book, v)
    ensures AllPlaced(fm, DirSynced(fs), book, v)
  {
    hide MetaOk, TableOk;
    forall f | f in v.files ensures Placed(fm, DirSynced(fs), book, f) { assert Placed(fm, fs, book, f); }
  }

  lemma PartialDirSync(fm: Formats, fs: Fs, edits: seq<M.Edit>, e: M.Edit, book: Book, data: seq<Byte>,
                       durable: seq<Byte>)
    requires Partial(fm, fs, edits, e, book, data, durable)
    ensures Partial(fm, DirSynced(fs), edits, e, book, data, durable)
  {
    hide M.Replay, M.EditsFit;
    assert Sound(DirSynced(fs));
    hide AllPlaced;
    PlacedDirSync(fm, fs, book, M.Replay(edits).value);
    PlacedDirSync(fm, fs, book, M.Replay(edits + [e]).value);
  }

  lemma DirSyncRecoverable(fm: Formats, fs: Fs, edits: seq<M.Edit>, e: M.Edit, book: Book)
    requires Recoverable(fm, fs, edits, e, book)
    ensures Recoverable(fm, DirSynced(fs), edits, e, book)
  {
    hide Settled, Partial, OnlyChange, NoDirty;
    var old_, frame := ManifestBytes(fm, edits), EditFrame(fm, e);
    if Settled(fm, fs, edits, book) {
      DirSyncKeeps(fm, fs, edits, book);
    } else if Settled(fm, fs, edits + [e], book) {
      DirSyncKeeps(fm, fs, edits + [e], book);
    } else if Appending(fm, fs, edits, e, book) {
      PartialDirSync(fm, fs, edits, e, book, old_ + frame, old_);
      assert Appending(fm, DirSynced(fs), edits, e, book);
    } else if k: nat :| Torn(fm, fs, edits, e, book, k) {
      PartialDirSync(fm, fs, edits, e, book, old_ + frame[..k], old_ + frame[..k]);
      assert Torn(fm, DirSynced(fs), edits, e, book, k);
    } else {
      var k: nat :| Trimming(fm, fs, edits, e, book, k);
      PartialDirSync(fm, fs, edits, e, book, old_, old_ + frame[..k]);
      assert Trimming(fm, DirSynced(fs), edits, e, book, k);
    }
  }

  /** A read of a directory being recovered: it may fail, and changes nothing. */
  method Peek(fm: Formats, fs: SimFS, faults: seq<Fault>, ghost edits: seq<M.Edit>, ghost e: M.Edit, ghost book: Book)
    returns (status: Status, left: seq<Fault>)
    requires fs.Valid() && !fs.crashed && Recoverable(fm, fs.State(), edits, e, book)
    modifies fs
    ensures fs.Valid() && fs.crashed == (status == Dead) && Recoverable(fm, fs.State(), edits, e, book)
    ensures status == Fine ==> fs.State() == old(fs.State())
    ensures Faultless(faults) ==> status == Fine && Faultless(left)
  {
    hide Recoverable, Crashed;
    FaultRecoverable(fm, fs.State(), fs.State(), edits, e, book, Next(faults));
    status := fs.Inspect(Next(faults));
    left := Rest(faults);
  }

  /** Opens and checks every referenced table; only a failing read can refuse one. */
  method ReadTables(fm: Formats, fs: SimFS, version: M.VersionState, faults: seq<Fault>, ghost edits: seq<M.Edit>,
                    ghost e: M.Edit, ghost book: Book)
    returns (status: Status, tables: map<nat, seq<Version>>, left: seq<Fault>)
    requires fs.Valid() && !fs.crashed
    requires Recoverable(fm, fs.State(), edits, e, book) && AllPlaced(fm, fs.State(), book, version)
    modifies fs
    ensures fs.Valid() && fs.crashed == (status == Dead) && Recoverable(fm, fs.State(), edits, e, book)
    ensures status == Fine ==>
      && fs.State() == old(fs.State()) && tables.Keys == version.files.Keys
      && forall f :: f in tables ==> f in book && tables[f] == book[f].content
    ensures Faultless(faults) ==> status == Fine && Faultless(left)
  {
    hide AllPlaced, MetaMatches, Recoverable;
    tables, left, status := map[], faults, Fine;
    var todo := version.files.Keys;
    while todo != {}
      invariant fs.Valid() && !fs.crashed
      invariant Recoverable(fm, fs.State(), edits, e, book) && fs.State() == old(fs.State())
      invariant status == Fine && todo <= version.files.Keys && tables.Keys == version.files.Keys - todo
      invariant forall f :: f in tables ==> f in book && tables[f] == book[f].content
      invariant Faultless(faults) ==> Faultless(left)
      decreases |todo|
    {
      var f :| f in todo;
      status, left := Peek(fm, fs, left, edits, e, book);
      if status != Fine { return; }
      TableReads(fm, fs.State(), book, version, f);
      if f !in fs.live { assert false; }
      var content := fm.readTable(fs.nodes[fs.live[f]].data);
      if content == None || !MetaMatches(version.files[f], content.value, version.flushed) { assert false; }
      tables := tables[f := content.value];
      todo := todo - {f};
    }
  }

  lemma TableReads(fm: Formats, fs: Fs, book: Book, v: M.VersionState, f: nat)
    requires AllPlaced(fm, fs, book, v) && f in v.files
    ensures f in book && f in fs.live && fs.live[f] in fs.nodes
    ensures fm.readTable(fs.nodes[fs.live[f]].data) == Some(book[f].content)
    ensures MetaMatches(v.files[f], book[f].content, v.flushed)
  {
    hide NoDirty, Ascends;
    assert Placed(fm, fs, book, f) && MetaOk(v.files[f], book[f].content, v.flushed);
  }

  /** The footer, count, bounds and sequence checks of an opened table. */
  predicate MetaMatches(meta: M.Meta, content: seq<Version>, flushed: nat) {
    && content != [] && meta.count == |content|
    && meta.minKey == content[0].key && meta.maxKey == content[|content| - 1].key
    && forall i :: 0 <= i < |content| ==> content[i].seq_ <= flushed
  }

  /** A table passes the checks exactly when its metadata is what publishing its content would have recorded. */
  lemma CheckedAsPublished(meta: M.Meta, content: seq<Version>, flushed: nat)
    ensures MetaMatches(meta, content, flushed) <==>
      content != [] && meta == MetaOf(content, meta.tier) && forall v :: v in content ==> v.seq_ <= flushed
  {}

  /** Cuts a torn frame off the manifest and syncs the cut. */
  method TrimTail(fm: Formats, fs: SimFS, complete: nat, faults: seq<Fault>, ghost edits: seq<M.Edit>, ghost e: M.Edit,
                  ghost book: Book, ghost k: nat)
    returns (status: Status, left: seq<Fault>)
    requires fs.Valid() && !fs.crashed && Torn(fm, fs.State(), edits, e, book, k)
    requires k > 0 && complete == |ManifestBytes(fm, edits)|
    modifies fs
    ensures fs.Valid() && fs.crashed == (status == Dead) && Recoverable(fm, fs.State(), edits, e, book)
    ensures status == Fine ==> Settled(fm, fs.State(), edits, book)
    ensures Faultless(faults) ==> status == Fine && Faultless(left)
  {
    hide Torn, Trimming, Settled, Appending, Crashed, Resize, Clean, ManifestBytes;
    ghost var before := fs.State();
    TornNode(fm, before, edits, e, book, k);
    TrimStarts(fm, before, edits, e, book, k);
    var node := fs.live[0];
    ghost var cut := Resized(before, node, complete);
    assert Recoverable(fm, before, edits, e, book) && Recoverable(fm, cut, edits, e, book);
    FaultRecoverable(fm, before, cut, edits, e, book, Next(faults));
    status := fs.Truncate_(node, complete, Next(faults));
    left := Rest(faults);
    if status != Fine { return; }
    TrimEnds(fm, cut, edits, e, book, k);
    SettledRecoverable(fm, Synced(cut, node), edits, e, book);
    FaultRecoverable(fm, cut, Synced(cut, node), edits, e, book, Next(left));
    status := fs.Sync(node, Next(left));
    left := Rest(left);
  }

  lemma FoundDirSync(fm: Formats, fs: Fs, edits: seq<M.Edit>, e: M.Edit, book: Book, recovered: seq<M.Edit>)
    requires FormatsOk(fm) && Found(fm, fs, edits, e, book, recovered, false) && 0 in fs.live && fs.live[0] in fs.nodes
    ensures Settled(fm, Synced(DirSynced(fs), fs.live[0]), recovered, book)
  {
    hide Settled, Visible;
    DirSyncKeeps(fm, Synced(fs, fs.live[0]), recovered, book);
    assert DirSynced(Synced(fs, fs.live[0])) == Synced(DirSynced(fs), fs.live[0]);
  }

  /** Syncing a table that is already durable changes nothing. */
  lemma SyncPlaced(fm: Formats, fs: Fs, book: Book, v: M.VersionState, f: nat)
    requires AllPlaced(fm, fs, book, v) && f in v.files
    ensures f in fs.live && fs.live[f] in fs.nodes && Synced(fs, fs.live[f]) == fs
  {
    hide TableOk, MetaOk;
    assert Placed(fm, fs, book, f);
    CleanAlready(fs.dirty, fs.live[f]);
  }

  lemma {:induction false} CleanAlready(dirty: seq<Mutation>, node: nat)
    requires NoDirty(dirty, node)
    ensures Clean(dirty, node) == dirty
    decreases |dirty|
  {
    if dirty != [] {
      var front, last := dirty[..|dirty| - 1], dirty[|dirty| - 1];
      assert dirty == front + [last];
      assert last in dirty && forall m :: m in front ==> m in dirty;
      CleanAlready(front, node);
      assert Clean(dirty, node) == Clean(front, node) + [last];
    }
  }

  method SyncTables(fm: Formats, fs: SimFS, version: M.VersionState, faults: seq<Fault>, ghost edits: seq<M.Edit>,
                    ghost e: M.Edit, ghost book: Book)
    returns (status: Status, left: seq<Fault>)
    requires fs.Valid() && !fs.crashed
    requires Recoverable(fm, fs.State(), edits, e, book) && AllPlaced(fm, fs.State(), book, version)
    modifies fs
    ensures fs.Valid() && fs.crashed == (status == Dead) && Recoverable(fm, fs.State(), edits, e, book)
    ensures status == Fine ==> fs.State() == old(fs.State())
    ensures Faultless(faults) ==> status == Fine && Faultless(left)
  {
    hide AllPlaced, Recoverable, Crashed, Synced;
    left, status := faults, Fine;
    var todo := version.files.Keys;
    while todo != {}
      invariant fs.Valid() && !fs.crashed
      invariant Recoverable(fm, fs.State(), edits, e, book) && fs.State() == old(fs.State())
      invariant status == Fine && todo <= version.files.Keys && (Faultless(faults) ==> Faultless(left))
      decreases |todo|
    {
      var f :| f in todo;
      SyncPlaced(fm, fs.State(), book, version, f);
      FaultRecoverable(fm, fs.State(), fs.State(), edits, e, book, Next(left));
      status := fs.Sync(fs.live[f], Next(left));
      left := Rest(left);
      if status != Fine { return; }
      todo := todo - {f};
    }
  }

  /** Makes what was read durable before it is served: tables, then names, then the manifest. */
  method SyncRecovered(fm: Formats, fs: SimFS, version: M.VersionState, faults: seq<Fault>, ghost edits: seq<M.Edit>,
                       ghost e: M.Edit, ghost book: Book, ghost recovered: seq<M.Edit>)
    returns (status: Status, left: seq<Fault>)
    requires FormatsOk(fm) && fs.Valid() && !fs.crashed && Recoverable(fm, fs.State(), edits, e, book)
    requires Found(fm, fs.State(), edits, e, book, recovered, false) && version == M.Replay(recovered).value
    modifies fs
    ensures fs.Valid() && fs.crashed == (status == Dead) && Recoverable(fm, fs.State(), edits, e, book)
    ensures status == Fine ==> Settled(fm, fs.State(), recovered, book) && fs.names == fs.live == old(fs.live)
    ensures Faultless(faults) ==> status == Fine && Faultless(left)
  {
    hide Settled, Recoverable, FormatsOk, Crashed, Visible, Clean, M.Replay, AllPlaced;
    ghost var before := fs.State();
    VisibleFacts(fm, before, recovered, book, false);
    status, left := SyncTables(fm, fs, version, faults, edits, e, book);
    if status != Fine { return; }
    DirSyncRecoverable(fm, before, edits, e, book);
    FaultRecoverable(fm, before, DirSynced(before), edits, e, book, Next(left));
    status := fs.SyncDir(Next(left));
    left := Rest(left);
    if status != Fine { return; }
    status, left := Peek(fm, fs, left, edits, e, book);
    if status != Fine { return; }
    var node := fs.live[0];
    FoundDirSync(fm, before, edits, e, book, recovered);
    ghost var after := Synced(DirSynced(before), node);
    RecoveredIs(fm, after, edits, e, book, recovered);
    FaultRecoverable(fm, DirSynced(before), after, edits, e, book, Next(left));
    status := fs.Sync(node, Next(left));
    left := Rest(left);
  }

  lemma VisibleFacts(fm: Formats, fs: Fs, edits: seq<M.Edit>, book: Book, torn: bool)
    requires Visible(fm, fs, edits, book, torn)
    ensures 0 in fs.live && fs.live[0] in fs.nodes
    ensures M.Replay(edits).Some? && AllPlaced(fm, fs, book, M.Replay(edits).value)
    ensures var loaded := M.Load(fm.edits, fm.crc, fs.nodes[fs.live[0]].data);
      loaded == Some(M.Loaded(M.Replay(edits).value, |ManifestBytes(fm, edits)|, torn))
  {}

  lemma RecoveredIs(fm: Formats, fs: Fs, edits: seq<M.Edit>, e: M.Edit, book: Book, recovered: seq<M.Edit>)
    requires Settled(fm, fs, recovered, book) && (recovered == edits || recovered == edits + [e])
    ensures Recoverable(fm, fs, edits, e, book)
  {}

  lemma AfterTrim(fm: Formats, fs: Fs, edits: seq<M.Edit>, e: M.Edit, book: Book)
    requires FormatsOk(fm) && Settled(fm, fs, edits, book)
    ensures Found(fm, fs, edits, e, book, edits, false)
  {
    hide Settled, Visible, FormatsOk;
    ManifestNode(fm, fs, edits, book);
    SettledVisible(fm, fs, edits, book);
    SyncSettled(fm, fs, edits, book);
  }

  method Orphans(live: set<nat>, files: set<nat>) returns (names: seq<nat>)
    ensures forall f :: f in names <==> f in live && f !in files && f != 0
  {
    names := [];
    var left := live;
    while left != {}
      invariant left <= live && forall f :: f in names <==> f in live && f !in left && f !in files && f != 0
      decreases |left|
    {
      var f :| f in left;
      if f != 0 && f !in files {
        names := names + [f];
      }
      left := left - {f};
    }
  }

  /** What the book says of the named files; nothing else in it matters any more. */
  ghost function Pruned(book: Book, files: set<nat>): Book { map f | f in book && f in files :: book[f] }

  lemma PrunedSettled(fm: Formats, fs: Fs, edits: seq<M.Edit>, book: Book)
    requires Settled(fm, fs, edits, book)
    ensures M.Replay(edits).Some? && Settled(fm, fs, edits, Pruned(book, M.Replay(edits).value.files.Keys))
    ensures forall f :: f in M.Replay(edits).value.files ==> f in book
  {
    hide M.Replay, Sound, M.EditsFit, ManifestBytes, MetaOk, TableOk, Named;
    var v := M.Replay(edits).value;
    var kept := Pruned(book, v.files.Keys);
    forall f | f in v.files ensures Placed(fm, fs, kept, f) && kept[f] == book[f] { assert Placed(fm, fs, book, f); }
  }

  /** Loads the manifest and trims a torn frame off its end. */
  method LoadManifest(fm: Formats, fs: SimFS, faults: seq<Fault>, ghost edits: seq<M.Edit>, ghost e: M.Edit,
                      ghost book: Book)
    returns (status: Status, version: M.VersionState, ghost recovered: seq<M.Edit>, left: seq<Fault>)
    requires FormatsOk(fm) && fs.Valid() && !fs.crashed && Recoverable(fm, fs.State(), edits, e, book)
    modifies fs
    ensures fs.Valid() && fs.crashed == (status == Dead) && Recoverable(fm, fs.State(), edits, e, book)
    ensures status == Fine ==>
      Found(fm, fs.State(), edits, e, book, recovered, false) && version == M.Replay(recovered).value
    ensures Faultless(faults) ==> status == Fine && Faultless(left)
  {
    hide Settled, Recoverable, FormatsOk, Crashed, M.Replay, M.Load, Visible, AllPlaced, ManifestBytes, Torn;
    version, left := M.EMPTY_VERSION, faults;
    ghost var torn;
    recovered, torn := RecoveryFinds(fm, fs.State(), edits, e, book);
    status, left := Peek(fm, fs, left, edits, e, book);
    if status != Fine { return; }
    VisibleFacts(fm, fs.State(), recovered, book, torn);
    var loaded := M.LoadBytes(fm.edits, fm.crc, fs.nodes[fs.live[0]].data);
    version := loaded.value.version;
    if loaded.value.torn {
      ghost var k: nat :| 0 < k && Torn(fm, fs.State(), edits, e, book, k);
      status, left := TrimTail(fm, fs, loaded.value.complete, left, edits, e, book, k);
      if status != Fine { return; }
      AfterTrim(fm, fs.State(), edits, e, book);
    }
  }

  /**
   Reopens the directory after a crash or a stop. Every path leaves it recoverable; without
   further failures it succeeds, at the version before or after the interrupted edit, with
   every referenced table complete and every other file gone.
   */
  method Open(fm: Formats, fs: SimFS, faults: seq<Fault>, ghost edits: seq<M.Edit>, ghost e: M.Edit, ghost book: Book)
    returns (store: Store?, tables: map<nat, seq<Version>>)
    requires FormatsOk(fm) && fs.Valid() && !fs.crashed && Recoverable(fm, fs.State(), edits, e, book)
    modifies fs
    ensures fs.Valid() && Recoverable(fm, fs.State(), edits, e, book)
    ensures store != null ==>
      && fresh(store) && store.Known() && store.fm == fm && store.fs == fs && !fs.crashed
      && (store.edits == edits || store.edits == edits + [e]) && store.book == Pruned(book, store.version.files.Keys)
      && tables.Keys == store.version.files.Keys
      && (forall f :: f in tables ==> f in book && tables[f] == book[f].content)
      && Names(fs.State()) == store.version.files.Keys + {0}
    ensures Faultless(faults) ==> store != null
  {
    hide Settled, Recoverable, FormatsOk, Crashed, M.Replay, Visible, AllPlaced, Placed;
    store, tables := null, map[];
    var status, version, recovered, left := LoadManifest(fm, fs, faults, edits, e, book);
    if status != Fine { return; }
    VisibleFacts(fm, fs.State(), recovered, book, false);
    var contents;
    status, contents, left := ReadTables(fm, fs, version, left, edits, e, book);
    if status != Fine { return; }
    status, left := SyncRecovered(fm, fs, version, left, edits, e, book, recovered);
    if status != Fine { return; }
    var found := new Store(fm, fs, version, recovered, book);
    var cleared := RemoveOrphans(found, left);
    RecoveredIs(fm, fs.State(), edits, e, book, recovered);
    if !cleared { return; }
    PrunedSettled(fm, fs.State(), recovered, book);
    found.book := Pruned(book, version.files.Keys);
    store, tables := found, contents;
  }

  /** Removes every file the version does not name. */
  method RemoveOrphans(store: Store, faults: seq<Fault>) returns (ok: bool)
    requires store.Known() && !store.fs.crashed && store.fs.names == store.fs.live
    modifies store.fs
    ensures store.Known() && (ok ==> !store.fs.crashed && Names(store.fs.State()) == store.version.files.Keys + {0})
    ensures Faultless(faults) ==> ok
  {
    hide Settled, FormatsOk, Crashed, M.Replay;
    PositiveFiles(store.fm, store.fs.State(), store.edits, store.book);
    var status, left := store.Look(faults);
    if status != Fine { return false; }
    var orphans := Orphans(store.fs.live.Keys, store.version.files.Keys);
    ghost var names := store.fs.live.Keys;
    ok := true;
    var removed := false;
    for i := 0 to |orphans|
      invariant store.Known() && !store.fs.crashed && ok && store.fs.live.Keys == names - (set f | f in orphans[..i])
      invariant !removed ==> store.fs.names == store.fs.live
      invariant Faultless(faults) ==> Faultless(left)
    {
      assert orphans[..i + 1] == orphans[..i] + [orphans[i]];
      assert orphans[i] in orphans;
      var gone;
      gone, left := store.RemoveOne(orphans[i], left);
      if gone == Error || gone == Dead { return false; }
      removed := true;
    }
    assert orphans[..|orphans|] == orphans;
    assert names - (set f | f in orphans) == store.version.files.Keys + {0};
    if removed {
      ghost var before := store.fs.State();
      DirSyncKeeps(store.fm, before, store.edits, store.book);
      SettledFault(store.fm, before, DirSynced(before), store.edits, store.book, Next(left));
      var synced := store.fs.SyncDir(Next(left));
      ok := synced == Fine;
    }
  }
}
