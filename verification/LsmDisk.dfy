/**
 What the engine's directory holds. Between commits every referenced table is complete and
 durable under its name and the manifest is exactly its edits; a commit appends one frame.
 Every crash leaves a directory from which the version before or after the edit is recovered.
 */
module LsmDisk {
  import opened RaftTypes
  import opened LsmTypes
  import opened SimFs
  import opened Frames
  import M = Manifest

  /** The edit encoding, the checksum, and how a table file's bytes are read. */
  datatype Formats = Formats(edits: M.Codec, crc: Crc, readTable: seq<Byte> -> Option<seq<Version>>)

  datatype TableFile = TableFile(content: seq<Version>, bytes: seq<Byte>)

  /** The bytes read back as the content, one version per key. */
  ghost predicate TableOk(fm: Formats, t: TableFile) {
    Ascends(t.content) && t.content != [] && fm.readTable(t.bytes) == Some(t.content)
  }

  ghost predicate FormatsOk(fm: Formats) { M.Lawful(fm.edits) }

  /** What each table file number was written with. */
  type Book = map<nat, TableFile>

  ghost predicate NoDirty(dirty: seq<Mutation>, x: nat) { forall m :: m in dirty ==> m.node != x }

  /** Names and unsynced changes point at files, and no two names share one. */
  ghost predicate Sound(fs: Fs) {
    && (forall n :: n in fs.live ==> fs.live[n] in fs.nodes)
    && (forall n :: n in fs.names ==> fs.names[n] in fs.nodes)
    && (forall m :: m in fs.dirty ==> m.node in fs.nodes)
    && (forall a, b :: a in fs.live && b in fs.live && fs.live[a] == fs.live[b] ==> a == b)
    && (forall a, b :: a in fs.names && b in fs.names && fs.names[a] == fs.names[b] ==> a == b)
    && (forall a, b :: a in fs.live && b in fs.names && fs.live[a] == fs.names[b] ==> a == b)
  }

  /** The name is live and synced, and its file holds these bytes, of which these are synced. */
  ghost predicate Named(fs: Fs, name: nat, data: seq<Byte>, durable: seq<Byte>) {
    && name in fs.live && name in fs.names && fs.live[name] == fs.names[name]
    && fs.live[name] in fs.nodes && fs.nodes[fs.live[name]] == Inode(data, durable)
  }

  /** The table file is complete and durable. */
  ghost predicate Placed(fm: Formats, fs: Fs, book: Book, f: nat) {
    && f in book && TableOk(fm, book[f])
    && var bytes := book[f].bytes;
    && Named(fs, f, bytes, bytes) && NoDirty(fs.dirty, fs.live[f])
  }

  ghost predicate MetaOk(meta: M.Meta, content: seq<Version>, flushed: nat) {
    && content != [] && meta.count == |content|
    && meta.minKey == content[0].key && meta.maxKey == content[|content| - 1].key
    && forall v :: v in content ==> v.seq_ <= flushed
  }

  ghost predicate AllPlaced(fm: Formats, fs: Fs, book: Book, v: M.VersionState) {
    forall f :: f in v.files ==> f > 0 && Placed(fm, fs, book, f) && MetaOk(v.files[f], book[f].content, v.flushed)
  }

  function ManifestBytes(fm: Formats, edits: seq<M.Edit>): seq<Byte> { M.FileBytes(fm.edits, fm.crc, edits) }

  function EditFrame(fm: Formats, e: M.Edit): seq<Byte> { FrameOf(fm.crc, fm.edits.marshal(e)) }

  ghost predicate Log(fm: Formats, edits: seq<M.Edit>) { M.EditsFit(fm.edits, edits) && M.Replay(edits).Some? }

  /** Between commits. */
  ghost predicate Settled(fm: Formats, fs: Fs, edits: seq<M.Edit>, book: Book) {
    && Sound(fs) && Log(fm, edits)
    && Named(fs, 0, ManifestBytes(fm, edits), ManifestBytes(fm, edits)) && NoDirty(fs.dirty, fs.live[0])
    && AllPlaced(fm, fs, book, M.Replay(edits).value)
  }

  /** Both versions' tables are in place and the manifest holds part of the new edit. */
  ghost predicate Partial(fm: Formats, fs: Fs, edits: seq<M.Edit>, e: M.Edit, book: Book, data: seq<Byte>,
                          durable: seq<Byte>) {
    && Sound(fs) && Log(fm, edits) && Log(fm, edits + [e])
    && Named(fs, 0, data, durable)
    && AllPlaced(fm, fs, book, M.Replay(edits).value) && AllPlaced(fm, fs, book, M.Replay(edits + [e]).value)
  }

  /** The frame has been written but not synced. */
  ghost predicate Appending(fm: Formats, fs: Fs, edits: seq<M.Edit>, e: M.Edit, book: Book) {
    var old_, frame := ManifestBytes(fm, edits), EditFrame(fm, e);
    && Partial(fm, fs, edits, e, book, old_ + frame, old_)
    && OnlyChange(fs.dirty, Write(fs.live[0], |old_|, frame))
  }

  /** After a crash: k bytes of the frame survived. */
  ghost predicate Torn(fm: Formats, fs: Fs, edits: seq<M.Edit>, e: M.Edit, book: Book, k: nat) {
    var old_, frame := ManifestBytes(fm, edits), EditFrame(fm, e);
    && k <= |frame|
    && Partial(fm, fs, edits, e, book, old_ + frame[..k], old_ + frame[..k])
    && NoDirty(fs.dirty, fs.live[0])
  }

  /** Recovery has cut the torn frame off but not synced the cut. */
  ghost predicate Trimming(fm: Formats, fs: Fs, edits: seq<M.Edit>, e: M.Edit, book: Book, k: nat) {
    var old_, frame := ManifestBytes(fm, edits), EditFrame(fm, e);
    && 0 < k <= |frame|
    && Partial(fm, fs, edits, e, book, old_, old_ + frame[..k])
    && OnlyChange(fs.dirty, Truncate(fs.live[0], |old_| + k, |old_|))
  }

  // ----- Crashes -----

  lemma CrashedNode(fs: Fs, budget: Option<nat>, name: nat, data: seq<Byte>, durable: seq<Byte>)
    requires Named(fs, name, data, durable) && NoDirty(fs.dirty, fs.live[name])
    ensures Named(Crashed(fs, budget), name, durable, durable)
  {
    SurviveUntouched(Platter(fs), fs.dirty, budget, fs.live[name]);
    hide Survive;
    assert fs.names[name] in fs.names.Values;
  }

  /** The bytes a crash leaves of a file whose one unsynced change is number i. */
  function Leftover(dirty: seq<Mutation>, i: nat, durable: seq<Byte>, budget: Option<nat>): seq<Byte>
    requires i < |dirty|
  {
    if Reached(dirty, i, budget) then ApplyPrefix(dirty[i], durable, Kept(dirty, i, budget)) else durable
  }

  lemma CrashedChange(fs: Fs, budget: Option<nat>, name: nat, data: seq<Byte>, durable: seq<Byte>, i: nat)
    requires Named(fs, name, data, durable) && OnlyAt(fs.dirty, i) && fs.dirty[i].node == fs.live[name]
    ensures var left := Leftover(fs.dirty, i, durable, budget); Named(Crashed(fs, budget), name, left, left)
  {
    hide ApplyPrefix, OnlyAt, Survive, Reached, Kept;
    SurviveOne(Platter(fs), fs.dirty, budget, i);
    assert fs.names[name] in fs.names.Values;
  }

  lemma CrashedSound(fs: Fs, budget: Option<nat>)
    requires Sound(fs)
    ensures Sound(Crashed(fs, budget))
  {
    hide Survive;
  }

  lemma CrashedTables(fm: Formats, fs: Fs, book: Book, v: M.VersionState, budget: Option<nat>)
    requires AllPlaced(fm, fs, book, v)
    ensures AllPlaced(fm, Crashed(fs, budget), book, v)
  {
    hide Crashed, Named, MetaOk, TableOk;
    forall f | f in v.files ensures Placed(fm, Crashed(fs, budget), book, f) {
      var bytes := book[f].bytes;
      CrashedNode(fs, budget, f, bytes, bytes);
      CrashedClean(fs, budget);
    }
  }

  lemma CrashedClean(fs: Fs, budget: Option<nat>)
    ensures Crashed(fs, budget).dirty == []
  {}

  /** A crash between commits changes nothing that matters, whatever unsynced bytes survive. */
  lemma CrashSettled(fm: Formats, fs: Fs, edits: seq<M.Edit>, book: Book, budget: Option<nat>)
    requires Settled(fm, fs, edits, book)
    ensures Settled(fm, Crashed(fs, budget), edits, book)
  {
    hide Crashed, Named, AllPlaced, Sound, M.Replay, M.EditsFit;
    CrashedSound(fs, budget);
    CrashedNode(fs, budget, 0, ManifestBytes(fm, edits), ManifestBytes(fm, edits));
    CrashedTables(fm, fs, book, M.Replay(edits).value, budget);
    CrashedClean(fs, budget);
  }

  lemma CrashedPartial(fm: Formats, fs: Fs, edits: seq<M.Edit>, e: M.Edit, book: Book, data: seq<Byte>,
                       durable: seq<Byte>, budget: Option<nat>, after: seq<Byte>)
    requires Partial(fm, fs, edits, e, book, data, durable) && Named(Crashed(fs, budget), 0, after, after)
    ensures Partial(fm, Crashed(fs, budget), edits, e, book, after, after) && Crashed(fs, budget).dirty == []
  {
    hide Crashed, Named, AllPlaced, Sound, M.Replay, M.EditsFit;
    CrashedSound(fs, budget);
    CrashedTables(fm, fs, book, M.Replay(edits).value, budget);
    CrashedTables(fm, fs, book, M.Replay(edits + [e]).value, budget);
    CrashedClean(fs, budget);
  }

  /** A crash during the append leaves the bytes of the frame that the budget pays for. */
  lemma CrashAppendingAt(fm: Formats, fs: Fs, edits: seq<M.Edit>, e: M.Edit, book: Book, budget: Option<nat>, i: nat)
    requires Appending(fm, fs, edits, e, book) && OnlyAt(fs.dirty, i)
    requires fs.dirty[i] == Write(fs.live[0], |ManifestBytes(fm, edits)|, EditFrame(fm, e))
    ensures Torn(fm, Crashed(fs, budget), edits, e, book, Kept(fs.dirty, i, budget))
  {
    hide Crashed, AllPlaced, Sound, Log, OnlyChange, ManifestBytes, EditFrame;
    var old_, frame, k := ManifestBytes(fm, edits), EditFrame(fm, e), Kept(fs.dirty, i, budget);
    CrashedChange(fs, budget, 0, old_ + frame, old_, i);
    AppendIsOverwrite(old_, frame[..k]);
    assert old_ + frame[..0] == old_;
    assert Leftover(fs.dirty, i, old_, budget) == old_ + frame[..k];
    CrashedPartial(fm, fs, edits, e, book, old_ + frame, old_, budget, old_ + frame[..k]);
  }

  lemma AppendIndex(fm: Formats, fs: Fs, edits: seq<M.Edit>, e: M.Edit, book: Book) returns (i: nat)
    requires Appending(fm, fs, edits, e, book)
    ensures OnlyAt(fs.dirty, i) && fs.dirty[i] == Write(fs.live[0], |ManifestBytes(fm, edits)|, EditFrame(fm, e))
  {
    hide ManifestBytes, EditFrame, AllPlaced, Sound, Log;
    var m := Write(fs.live[0], |ManifestBytes(fm, edits)|, EditFrame(fm, e));
    i :| 0 <= i < |fs.dirty| && fs.dirty[i] == m && OnlyAt(fs.dirty, i);
  }

  lemma CrashAppending(fm: Formats, fs: Fs, edits: seq<M.Edit>, e: M.Edit, book: Book, budget: Option<nat>)
    returns (k: nat)
    requires Appending(fm, fs, edits, e, book)
    ensures Torn(fm, Crashed(fs, budget), edits, e, book, k)
  {
    hide Torn, Crashed;
    var i := AppendIndex(fm, fs, edits, e, book);
    k := Kept(fs.dirty, i, budget);
    CrashAppendingAt(fm, fs, edits, e, book, budget, i);
  }

  /** Every torn prefix of the frame is left by some crash, and a crash without a budget leaves it whole. */
  lemma EveryPrefixCanSurvive(fm: Formats, fs: Fs, edits: seq<M.Edit>, e: M.Edit, book: Book, k: nat)
    returns (budget: Option<nat>)
    requires Appending(fm, fs, edits, e, book) && k <= |EditFrame(fm, e)|
    ensures Torn(fm, Crashed(fs, budget), edits, e, book, k)
    ensures Torn(fm, Crashed(fs, None), edits, e, book, |EditFrame(fm, e)|)
  {
    hide Torn, Crashed, Appending, BytesBefore;
    var i := AppendIndex(fm, fs, edits, e, book);
    budget := Some(BytesBefore(fs.dirty, i) + k);
    CrashAppendingAt(fm, fs, edits, e, book, budget, i);
    CrashAppendingAt(fm, fs, edits, e, book, None, i);
  }

  /** A crash of a recovered directory changes nothing. */
  lemma CrashTorn(fm: Formats, fs: Fs, edits: seq<M.Edit>, e: M.Edit, book: Book, k: nat, budget: Option<nat>)
    requires Torn(fm, fs, edits, e, book, k)
    ensures Torn(fm, Crashed(fs, budget), edits, e, book, k)
  {
    hide Crashed, Named, AllPlaced, Sound, Log, ManifestBytes, EditFrame;
    var bytes := ManifestBytes(fm, edits) + EditFrame(fm, e)[..k];
    CrashedNode(fs, budget, 0, bytes, bytes);
    CrashedPartial(fm, fs, edits, e, book, bytes, bytes, budget, bytes);
  }

  lemma TrimLeaves(dirty: seq<Mutation>, i: nat, old_: seq<Byte>, frame: seq<Byte>, k: nat, budget: Option<nat>)
    requires i < |dirty| && dirty[i].Truncate? && k <= |frame|
    requires dirty[i].oldSize == |old_| + k && dirty[i].newSize == |old_|
    ensures Kept(dirty, i, budget) <= k
    ensures Leftover(dirty, i, old_ + frame[..k], budget) == old_ + frame[..k - Kept(dirty, i, budget)]
  {
    hide BytesBefore;
    var k' := k - Kept(dirty, i, budget);
    assert (old_ + frame[..k])[..|old_| + k'] == old_ + frame[..k'];
  }

  /** A crash while recovery trims the torn frame leaves a shorter one. */
  lemma CrashTrimming(fm: Formats, fs: Fs, edits: seq<M.Edit>, e: M.Edit, book: Book, k: nat, budget: Option<nat>)
    returns (k': nat)
    requires Trimming(fm, fs, edits, e, book, k)
    ensures k' <= k && Torn(fm, Crashed(fs, budget), edits, e, book, k')
  {
    hide Crashed, AllPlaced, Sound, Log, OnlyAt, ManifestBytes, EditFrame;
    var old_, frame := ManifestBytes(fm, edits), EditFrame(fm, e);
    var m := Truncate(fs.live[0], |old_| + k, |old_|);
    var i :| 0 <= i < |fs.dirty| && fs.dirty[i] == m && OnlyAt(fs.dirty, i);
    CrashedChange(fs, budget, 0, old_, old_ + frame[..k], i);
    k' := k - Kept(fs.dirty, i, budget);
    TrimLeaves(fs.dirty, i, old_, frame, k, budget);
    CrashedPartial(fm, fs, edits, e, book, old_, old_ + frame[..k], budget, old_ + frame[..k']);
  }

  /** A torn commit is one version or the other, except for bytes that recovery trims. */
  lemma TornEnds(fm: Formats, fs: Fs, edits: seq<M.Edit>, e: M.Edit, book: Book, k: nat)
    requires Torn(fm, fs, edits, e, book, k)
    ensures k == 0 ==> Settled(fm, fs, edits, book)
    ensures k == |EditFrame(fm, e)| ==> Settled(fm, fs, edits + [e], book)
  {
    M.BytesMore(fm.edits, fm.crc, edits, e);
    hide AllPlaced, Sound, M.Replay, M.EditsFit, M.FileBytes, FrameOf, NoDirty;
    var old_, frame := ManifestBytes(fm, edits), EditFrame(fm, e);
    assert old_ + frame[..0] == old_ && frame[..|frame|] == frame;
  }

  // ----- Work on a file no version refers to -----

  /** The operation touched neither the manifest nor any referenced table. */
  ghost predicate Aside(fs: Fs, fs': Fs, name: nat) {
    && name in fs.live && name in fs.names && fs.live[name] == fs.names[name]
    && name in fs'.live && name in fs'.names && fs'.live[name] == fs.live[name] && fs'.names[name] == fs.live[name]
    && fs.live[name] in fs.nodes && fs.live[name] in fs'.nodes && fs'.nodes[fs.live[name]] == fs.nodes[fs.live[name]]
    && (NoDirty(fs.dirty, fs.live[name]) ==> NoDirty(fs'.dirty, fs.live[name]))
  }

  /** Leaving the manifest and the referenced tables aside keeps the directory settled. */
  lemma StaysSettled(fm: Formats, fs: Fs, fs': Fs, edits: seq<M.Edit>, book: Book, book': Book)
    requires Settled(fm, fs, edits, book) && Sound(fs')
    requires Aside(fs, fs', 0) && forall f :: f in M.Replay(edits).value.files ==> Aside(fs, fs', f)
    requires forall f :: f in M.Replay(edits).value.files ==> f in book' && book'[f] == book[f]
    ensures Settled(fm, fs', edits, book')
  {
    hide Sound, M.Replay, M.EditsFit, ManifestBytes, MetaOk, TableOk;
    var v := M.Replay(edits).value;
    forall f | f in v.files ensures Placed(fm, fs', book', f) {
      assert Placed(fm, fs, book, f) && Aside(fs, fs', f);
    }
  }

  /** The file of an unreferenced live name belongs to no referenced name. */
  lemma Apart(fs: Fs, n: nat, f: nat)
    requires Sound(fs) && n in fs.live && f in fs.live && n != f
    ensures fs.live[n] != fs.live[f]
  {}

  lemma CreateKeeps(fm: Formats, fs: Fs, edits: seq<M.Edit>, book: Book, n: nat, node: nat)
    requires Settled(fm, fs, edits, book) && n !in fs.live && node !in fs.nodes
    ensures Settled(fm, Created(fs, n, node), edits, book)
  {
    hide M.Replay, M.EditsFit, ManifestBytes, MetaOk, TableOk;
    var fs' := Created(fs, n, node);
    assert Sound(fs');
    hide Sound;
    forall f | f == 0 || f in M.Replay(edits).value.files ensures Aside(fs, fs', f) {
      assert f == 0 || Placed(fm, fs, book, f);
    }
    StaysSettled(fm, fs, fs', edits, book, book);
  }

  /** Writing or syncing the file behind an unreferenced name. */
  lemma WorkKeeps(fm: Formats, fs: Fs, fs': Fs, edits: seq<M.Edit>, book: Book, n: nat)
    requires Settled(fm, fs, edits, book) && n in fs.live && n != 0 && n !in M.Replay(edits).value.files
    requires fs'.live == fs.live && fs'.names == fs.names && fs'.nodes.Keys == fs.nodes.Keys
    requires forall x :: x in fs.nodes && x != fs.live[n] ==> fs'.nodes[x] == fs.nodes[x]
    requires forall m :: m in fs'.dirty ==> m in fs.dirty || m.node == fs.live[n]
    ensures Settled(fm, fs', edits, book)
  {
    hide M.Replay, M.EditsFit, ManifestBytes, MetaOk, TableOk;
    assert Sound(fs');
    forall f | f == 0 || f in M.Replay(edits).value.files ensures Aside(fs, fs', f) {
      assert f == 0 || Placed(fm, fs, book, f);
      Apart(fs, n, f);
    }
    hide Sound;
    StaysSettled(fm, fs, fs', edits, book, book);
  }

  lemma DirSyncKeeps(fm: Formats, fs: Fs, edits: seq<M.Edit>, book: Book)
    requires Settled(fm, fs, edits, book)
    ensures Settled(fm, DirSynced(fs), edits, book)
  {
    hide M.Replay, M.EditsFit, ManifestBytes, MetaOk, TableOk;
    var fs' := DirSynced(fs);
    assert Sound(fs');
    hide Sound;
    forall f | f == 0 || f in M.Replay(edits).value.files ensures Aside(fs, fs', f) {
      assert f == 0 || Placed(fm, fs, book, f);
    }
    StaysSettled(fm, fs, fs', edits, book, book);
  }

  lemma RemoveKeeps(fm: Formats, fs: Fs, edits: seq<M.Edit>, book: Book, n: nat)
    requires Settled(fm, fs, edits, book) && n != 0 && n !in M.Replay(edits).value.files
    ensures Settled(fm, Removed(fs, n), edits, book)
  {
    hide M.Replay, M.EditsFit, ManifestBytes, MetaOk, TableOk;
    var fs' := Removed(fs, n);
    assert Sound(fs');
    hide Sound;
    forall f | f == 0 || f in M.Replay(edits).value.files ensures Aside(fs, fs', f) {
      assert f == 0 || Placed(fm, fs, book, f);
    }
    StaysSettled(fm, fs, fs', edits, book, book);
  }

  // ----- Committing an edit -----

  /** Appending the frame of an edit whose tables are in place. */
  lemma AppendStarts(fm: Formats, fs: Fs, edits: seq<M.Edit>, e: M.Edit, book: Book)
    requires Settled(fm, fs, edits, book) && Log(fm, edits + [e])
    requires AllPlaced(fm, fs, book, M.Replay(edits + [e]).value)
    ensures Appending(fm, Written(fs, fs.live[0], |ManifestBytes(fm, edits)|, EditFrame(fm, e)), edits, e, book)
  {
    hide M.Replay, M.EditsFit, M.FileBytes, MetaOk, TableOk, FrameOf;
    var old_, frame, m := ManifestBytes(fm, edits), EditFrame(fm, e), fs.live[0];
    var fs' := Written(fs, m, |old_|, frame);
    AppendIsOverwrite(old_, frame);
    assert Sound(fs');
    PlacedStays(fm, fs, fs', book, M.Replay(edits).value);
    PlacedStays(fm, fs, fs', book, M.Replay(edits + [e]).value);
    assert fs'.dirty[|fs.dirty|] == Write(m, |old_|, frame);
    forall j | 0 <= j < |fs'.dirty| && j != |fs.dirty|
      ensures fs'.dirty[j].node != m
    {
      assert fs.dirty[j] in fs.dirty;
    }
  }

  /** Changes to the manifest's file leave the tables in place. */
  lemma PlacedStays(fm: Formats, fs: Fs, fs': Fs, book: Book, v: M.VersionState)
    requires AllPlaced(fm, fs, book, v) && Sound(fs) && 0 in fs.live
    requires fs'.live == fs.live && fs'.names == fs.names && fs'.nodes.Keys == fs.nodes.Keys
    requires forall x :: x in fs.nodes && x != fs.live[0] ==> fs'.nodes[x] == fs.nodes[x]
    requires forall m :: m in fs'.dirty ==> m in fs.dirty || m.node == fs.live[0]
    ensures AllPlaced(fm, fs', book, v)
  {
    hide MetaOk, TableOk;
    forall f | f in v.files ensures Placed(fm, fs', book, f) {
      assert Placed(fm, fs, book, f);
      Apart(fs, 0, f);
    }
  }

  /** Syncing the frame completes the commit. */
  lemma AppendCommits(fm: Formats, fs: Fs, edits: seq<M.Edit>, e: M.Edit, book: Book)
    requires Appending(fm, fs, edits, e, book)
    ensures Settled(fm, Synced(fs, fs.live[0]), edits + [e], book)
  {
    M.BytesMore(fm.edits, fm.crc, edits, e);
    hide M.Replay, M.EditsFit, M.FileBytes, MetaOk, TableOk, FrameOf, OnlyChange;
    var fs' := Synced(fs, fs.live[0]);
    assert Sound(fs');
    PlacedStays(fm, fs, fs', book, M.Replay(edits + [e]).value);
  }

  // ----- Recovery -----

  lemma TrimStarts(fm: Formats, fs: Fs, edits: seq<M.Edit>, e: M.Edit, book: Book, k: nat)
    requires Torn(fm, fs, edits, e, book, k) && k > 0
    ensures Trimming(fm, Resized(fs, fs.live[0], |ManifestBytes(fm, edits)|), edits, e, book, k)
  {
    hide M.Replay, M.EditsFit, M.FileBytes, MetaOk, TableOk, FrameOf;
    var old_, m := ManifestBytes(fm, edits), fs.live[0];
    var fs' := Resized(fs, m, |old_|);
    assert Sound(fs');
    PlacedStays(fm, fs, fs', book, M.Replay(edits).value);
    PlacedStays(fm, fs, fs', book, M.Replay(edits + [e]).value);
    assert fs'.dirty[|fs.dirty|] == Truncate(m, |old_| + k, |old_|);
    forall j | 0 <= j < |fs'.dirty| && j != |fs.dirty|
      ensures fs'.dirty[j].node != m
    {
      assert fs.dirty[j] in fs.dirty;
    }
  }

  lemma TrimEnds(fm: Formats, fs: Fs, edits: seq<M.Edit>, e: M.Edit, book: Book, k: nat)
    requires Trimming(fm, fs, edits, e, book, k)
    ensures Settled(fm, Synced(fs, fs.live[0]), edits, book)
  {
    hide M.Replay, M.EditsFit, M.FileBytes, MetaOk, TableOk, FrameOf, OnlyChange;
    var fs' := Synced(fs, fs.live[0]);
    assert Sound(fs');
    PlacedStays(fm, fs, fs', book, M.Replay(edits).value);
  }
}
