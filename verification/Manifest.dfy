/**
 The manifest: a log of version edits in the shared frame format. Replaying it gives the set
 of referenced table files and the flushed index; an unterminated last frame is dropped.
 Tables are named by their file number.
 */
module Manifest {
  import opened RaftTypes
  import opened LsmTypes
  import opened Bytes
  import opened Frames

  datatype Meta = Meta(tier: nat, minKey: Key, maxKey: Key, count: nat)

  datatype Added = Added(file: nat, meta: Meta)

  datatype Edit = Edit(added: seq<Added>, removed: seq<nat>, flushed: nat)

  datatype VersionState = VersionState(files: map<nat, Meta>, flushed: nat, records: nat)

  const EMPTY_VERSION := VersionState(map[], 0, 0)

  /** Any codec that decodes what it encoded. */
  datatype Codec = Codec(marshal: Edit -> seq<Byte>, unmarshal: seq<Byte> -> Option<Edit>)

  ghost predicate Lawful(codec: Codec) { forall e :: codec.unmarshal(codec.marshal(e)) == Some(e) }

  predicate Unique<T(==)>(s: seq<T>) { forall i, j :: 0 <= i < j < |s| ==> s[i] != s[j] }

  function Files(added: seq<Added>): (fs: seq<nat>)
    ensures |fs| == |added| && forall i :: 0 <= i < |added| ==> fs[i] == added[i].file
  {
    seq(|added|, i requires 0 <= i < |added| => added[i].file)
  }

  /** Every check the manifest makes of an edit. */
  predicate Acceptable(s: VersionState, e: Edit) {
    && e.flushed >= s.flushed
    && !(e.added == [] && e.removed == [] && e.flushed == s.flushed)
    && Unique(e.removed) && (forall f :: f in e.removed ==> f in s.files)
    && Unique(Files(e.added))
    && forall a :: a in e.added ==>
         a.file !in e.removed && a.file !in s.files && a.meta.count > 0 && !KeyLess(a.meta.maxKey, a.meta.minKey)
  }

  function SetOf(s: seq<nat>): set<nat> { set f | f in s }

  function AddFiles(files: map<nat, Meta>, added: seq<Added>): (r: map<nat, Meta>)
    ensures r.Keys == files.Keys + (set a | a in added :: a.file)
  {
    if added == [] then files
    else
      var last := added[|added| - 1];
      AddFiles(files, added[..|added| - 1])[last.file := last.meta]
  }

  function Apply(s: VersionState, e: Edit): Option<VersionState> {
    if !Acceptable(s, e) then None
    else Some(VersionState(AddFiles(s.files - SetOf(e.removed), e.added), e.flushed, s.records + 1))
  }

  function Replay(edits: seq<Edit>): Option<VersionState> {
    if edits == [] then Some(EMPTY_VERSION)
    else match Replay(edits[..|edits| - 1])
         case None => None
         case Some(s) => Apply(s, edits[|edits| - 1])
  }

  lemma ReplayMore(edits: seq<Edit>, e: Edit)
    ensures Replay(edits + [e]) == match Replay(edits) case None => None case Some(s) => Apply(s, e)
  {
    assert (edits + [e])[..|edits|] == edits;
  }

  // ----- What a log of edits means -----

  /** Edit i added the file with this metadata, and no later edit removed it. */
  ghost predicate InForce(edits: seq<Edit>, i: nat, f: nat, meta: Meta) {
    i < |edits| && Added(f, meta) in edits[i].added && forall j :: i < j < |edits| ==> f !in edits[j].removed
  }

  ghost predicate Referenced(edits: seq<Edit>, f: nat) { exists i: nat, meta :: InForce(edits, i, f, meta) }

  lemma {:induction false} AddedFile(files: map<nat, Meta>, added: seq<Added>, f: nat, meta: Meta)
    requires Unique(Files(added)) && forall a :: a in added ==> a.file !in files
    ensures f in AddFiles(files, added) && AddFiles(files, added)[f] == meta <==>
      (f in files && files[f] == meta) || Added(f, meta) in added
    decreases |added|
  {
    if added != [] {
      var front, last := added[..|added| - 1], added[|added| - 1];
      assert added == front + [last];
      forall i, j | 0 <= i < j < |front| ensures Files(front)[i] != Files(front)[j] {
        assert Files(added)[i] != Files(added)[j];
      }
      AddedFile(files, front, f, meta);
      if Added(f, meta) in front {
        var i :| 0 <= i < |front| && front[i] == Added(f, meta);
        assert Files(added)[i] != Files(added)[|front|];
      }
    }
  }

  ghost predicate Holds(edits: seq<Edit>, f: nat, meta: Meta) { exists i: nat :: InForce(edits, i, f, meta) }

  lemma HoldsStep(front: seq<Edit>, e: Edit, f: nat, meta: Meta)
    ensures Holds(front + [e], f, meta) <==> (Holds(front, f, meta) && f !in e.removed) || Added(f, meta) in e.added
  {
    var edits := front + [e];
    forall i: nat | i < |front|
      ensures InForce(edits, i, f, meta) <==> InForce(front, i, f, meta) && f !in e.removed
    {
      assert forall j :: i <= j < |front| ==> front[j] == edits[j];
      assert edits[|front|] == e;
    }
    assert InForce(edits, |front|, f, meta) <==> Added(f, meta) in e.added;
  }

  lemma ApplyHolds(s: VersionState, e: Edit, f: nat, meta: Meta)
    requires Acceptable(s, e)
    ensures var files := Apply(s, e).value.files;
      f in files && files[f] == meta <==>
        (f in s.files && s.files[f] == meta && f !in e.removed) || Added(f, meta) in e.added
  {
    AddedFile(s.files - SetOf(e.removed), e.added, f, meta);
  }

  /** The replayed version references exactly the files added and not removed since, each as it was added. */
  lemma {:induction false} ReplayReferences(edits: seq<Edit>, f: nat, meta: Meta)
    requires Replay(edits).Some?
    ensures f in Replay(edits).value.files && Replay(edits).value.files[f] == meta <==>
      exists i: nat :: InForce(edits, i, f, meta)
    decreases |edits|
  {
    if edits != [] {
      hide InForce, Acceptable;
      var front, e := edits[..|edits| - 1], edits[|edits| - 1];
      assert edits == front + [e];
      ReplayReferences(front, f, meta);
      HoldsStep(front, e, f, meta);
      ApplyHolds(Replay(front).value, e, f, meta);
    }
  }

  lemma ReplayKeys(edits: seq<Edit>, f: nat)
    requires Replay(edits).Some?
    ensures f in Replay(edits).value.files <==> Referenced(edits, f)
  {
    hide Replay;
    var files := Replay(edits).value.files;
    if f in files { ReplayReferences(edits, f, files[f]); }
    if Referenced(edits, f) {
      var i: nat, meta :| InForce(edits, i, f, meta);
      ReplayReferences(edits, f, meta);
    }
  }

  /** The flushed index only rises, and is the last edit's; every edit counts once. */
  lemma {:induction false} ReplayMarks(edits: seq<Edit>)
    requires Replay(edits).Some?
    ensures Replay(edits).value.records == |edits|
    ensures Replay(edits).value.flushed == if edits == [] then 0 else edits[|edits| - 1].flushed
    ensures forall i, j :: 0 <= i <= j < |edits| ==> edits[i].flushed <= edits[j].flushed
    decreases |edits|
  {
    if edits != [] {
      ReplayMarks(edits[..|edits| - 1]);
      assert forall i :: 0 <= i < |edits| - 1 ==> edits[i] == edits[..|edits| - 1][i];
    }
  }

  lemma UniqueFiles(added: seq<Added>)
    ensures Unique(Files(added)) <==> forall i, j :: 0 <= i < j < |added| ==> added[i].file != added[j].file
  {
    var fs := Files(added);
    assert forall i, j :: 0 <= i < j < |added| ==> (fs[i] != fs[j] <==> added[i].file != added[j].file);
  }

  /**
   An edit extends a valid log exactly when it says something, does not lower the flushed index,
   removes only referenced files and adds only unreferenced ones, none twice, and describes each
   added table as non-empty with ordered bounds.
   */
  lemma ExtendsLogIff(edits: seq<Edit>, e: Edit)
    ensures Replay(edits + [e]).Some? <==>
      && Replay(edits).Some?
      && (e.added != [] || e.removed != [] || e.flushed != if edits == [] then 0 else edits[|edits| - 1].flushed)
      && (edits != [] ==> e.flushed >= edits[|edits| - 1].flushed)
      && (forall i, j :: 0 <= i < j < |e.removed| ==> e.removed[i] != e.removed[j])
      && (forall f :: f in e.removed ==> Referenced(edits, f))
      && (forall i, j :: 0 <= i < j < |e.added| ==> e.added[i].file != e.added[j].file)
      && forall a :: a in e.added ==>
           && !Referenced(edits, a.file) && a.file !in e.removed
           && a.meta.count > 0 && (a.meta.minKey == a.meta.maxKey || KeyLess(a.meta.minKey, a.meta.maxKey))
  {
    ReplayMore(edits, e);
    if Replay(edits).Some? {
      hide Replay, Referenced, KeyLess;
      ReplayMarks(edits);
      forall f ensures f in Replay(edits).value.files <==> Referenced(edits, f) { ReplayKeys(edits, f); }
      forall a: Added ensures !KeyLess(a.meta.maxKey, a.meta.minKey) <==>
        a.meta.minKey == a.meta.maxKey || KeyLess(a.meta.minKey, a.meta.maxKey)
      {
        KeyTotal(a.meta.minKey, a.meta.maxKey);
      }
      UniqueFiles(e.added);
    }
  }

  // ----- The state, updated in place -----

  class State {
    var files: map<nat, Meta>
    var flushed: nat
    var records: nat

    function AsVersion(): VersionState
      reads this
    {
      VersionState(files, flushed, records)
    }

    constructor ()
      ensures AsVersion() == EMPTY_VERSION
    {
      files, flushed, records := map[], 0, 0;
    }

    /** Checks the whole edit before changing anything. */
    method ApplyEdit(e: Edit) returns (ok: bool)
      modifies this
      ensures match Apply(old(AsVersion()), e)
              case None => !ok && AsVersion() == old(AsVersion())
              case Some(s) => ok && AsVersion() == s
    {
      hide Acceptable, SetOf;
      var fine, gone := CheckEdit(e);
      if !fine { return false; }
      files := files - gone;
      for i := 0 to |e.added|
        invariant files == AddFiles(old(files) - gone, e.added[..i]) && records == old(records)
      {
        assert e.added[..i + 1][..i] == e.added[..i];
        files := files[e.added[i].file := e.added[i].meta];
      }
      assert e.added[..|e.added|] == e.added;
      flushed := e.flushed;
      records := records + 1;
      return true;
    }

    method CheckEdit(e: Edit) returns (ok: bool, gone: set<nat>)
      ensures ok <==> Acceptable(AsVersion(), e)
      ensures ok ==> gone == SetOf(e.removed)
    {
      gone := {};
      if e.flushed < flushed { return false, gone; }
      if |e.added| == 0 && |e.removed| == 0 && e.flushed == flushed { return false, gone; }
      for i := 0 to |e.removed|
        invariant gone == SetOf(e.removed[..i]) && Unique(e.removed[..i])
        invariant forall f :: f in e.removed[..i] ==> f in files
      {
        var f := e.removed[i];
        if f in gone || f !in files { return false, gone; }
        gone := gone + {f};
        assert e.removed[..i + 1] == e.removed[..i] + [f];
      }
      assert e.removed[..|e.removed|] == e.removed;
      ok := CheckAdded(e.added, gone);
    }

    method CheckAdded(added: seq<Added>, gone: set<nat>) returns (ok: bool)
      ensures ok <==> Unique(Files(added)) && forall a :: a in added ==>
        a.file !in gone && a.file !in files && a.meta.count > 0 && !KeyLess(a.meta.maxKey, a.meta.minKey)
    {
      var seen: set<nat> := {};
      for i := 0 to |added|
        invariant seen == (set a | a in added[..i] :: a.file) && Unique(Files(added[..i]))
        invariant forall a :: a in added[..i] ==>
          a.file !in gone && a.file !in files && a.meta.count > 0 && !KeyLess(a.meta.maxKey, a.meta.minKey)
      {
        var a := added[i];
        if a.file in seen || a.file in gone || a.file in files || a.meta.count == 0
           || KeyLess(a.meta.maxKey, a.meta.minKey) {
          Blamed(added, i);
          return false;
        }
        assert added[..i + 1] == added[..i] + [a];
        seen := seen + {a.file};
      }
      assert added[..|added|] == added;
      return true;
    }
  }

  lemma Blamed(added: seq<Added>, i: nat)
    requires i < |added|
    ensures added[i] in added
    ensures (exists a :: a in added[..i] && a.file == added[i].file) ==> !Unique(Files(added))
  {
    if a :| a in added[..i] && a.file == added[i].file {
      var j :| 0 <= j < i && added[j] == a;
      assert Files(added)[j] == Files(added)[i];
    }
  }

  // ----- The manifest file -----

  function Payloads(codec: Codec, edits: seq<Edit>): (ps: seq<seq<Byte>>)
    ensures |ps| == |edits| && forall i :: 0 <= i < |edits| ==> ps[i] == codec.marshal(edits[i])
  {
    seq(|edits|, i requires 0 <= i < |edits| => codec.marshal(edits[i]))
  }

  function FileBytes(codec: Codec, crc: Crc, edits: seq<Edit>): seq<Byte> { EncodeFrames(crc, Payloads(codec, edits)) }

  ghost predicate EditsFit(codec: Codec, edits: seq<Edit>) { forall e :: e in edits ==> Fits(|codec.marshal(e)|, 4) }

  function ReplayPayloads(codec: Codec, ps: seq<seq<Byte>>): Option<VersionState> {
    if ps == [] then Some(EMPTY_VERSION)
    else match ReplayPayloads(codec, ps[..|ps| - 1])
         case None => None
         case Some(v) =>
           match codec.unmarshal(ps[|ps| - 1])
           case None => None
           case Some(e) => Apply(v, e)
  }

  /** The version, the bytes of the frames that make it up, and whether an unterminated frame follows. */
  datatype Loaded = Loaded(version: VersionState, complete: nat, torn: bool)

  function Load(codec: Codec, crc: Crc, data: seq<Byte>): Option<Loaded> {
    match ScanFrames(crc, data)
    case Corrupt => None
    case Found(ps, n, torn) =>
      match ReplayPayloads(codec, ps)
      case None => None
      case Some(v) => Some(Loaded(v, n, torn))
  }

  lemma {:induction false} PayloadsReplay(codec: Codec, edits: seq<Edit>)
    requires Lawful(codec)
    ensures ReplayPayloads(codec, Payloads(codec, edits)) == Replay(edits)
    decreases |edits|
  {
    hide Apply;
    if edits != [] {
      var ps := Payloads(codec, edits);
      assert ps[..|ps| - 1] == Payloads(codec, edits[..|edits| - 1]);
      PayloadsReplay(codec, edits[..|edits| - 1]);
    }
  }

  lemma FitPayloads(codec: Codec, edits: seq<Edit>)
    requires EditsFit(codec, edits)
    ensures AllFit(Payloads(codec, edits))
  {}

  lemma BytesMore(codec: Codec, crc: Crc, edits: seq<Edit>, e: Edit)
    ensures FileBytes(codec, crc, edits + [e]) == FileBytes(codec, crc, edits) + FrameOf(crc, codec.marshal(e))
  {
    var ps := Payloads(codec, edits + [e]);
    assert ps[..|edits|] == Payloads(codec, edits);
    hide FrameOf;
  }

  /** However much of an edit's frame follows a manifest, it loads as the version before that edit. */
  lemma LoadTorn(codec: Codec, crc: Crc, edits: seq<Edit>, e: Edit, k: nat)
    requires Lawful(codec) && EditsFit(codec, edits) && Replay(edits).Some? && k < |FrameOf(crc, codec.marshal(e))|
    ensures var old_ := FileBytes(codec, crc, edits);
      Load(codec, crc, old_ + FrameOf(crc, codec.marshal(e))[..k]) == Some(Loaded(Replay(edits).value, |old_|, 0 < k))
  {
    hide ScanFrames, EncodeFrames, FrameOf, Replay, ReplayPayloads, Lawful, EditsFit, AllFit;
    var ps := Payloads(codec, edits);
    FitPayloads(codec, edits);
    ScanPastFrames(crc, ps, FrameOf(crc, codec.marshal(e))[..k]);
    ScanCutFrame(crc, codec.marshal(e), k);
    assert ps + [] == ps;
    PayloadsReplay(codec, edits);
  }

  lemma LoadWhole(codec: Codec, crc: Crc, edits: seq<Edit>)
    requires Lawful(codec) && EditsFit(codec, edits) && Replay(edits).Some?
    ensures Load(codec, crc, FileBytes(codec, crc, edits))
         == Some(Loaded(Replay(edits).value, |FileBytes(codec, crc, edits)|, false))
  {
    hide ScanFrames, EncodeFrames, Replay, ReplayPayloads, Lawful, EditsFit, AllFit;
    var ps := Payloads(codec, edits);
    FitPayloads(codec, edits);
    ScanPastFrames(crc, ps, []);
    ScanNothing(crc);
    assert ps + [] == ps && EncodeFrames(crc, ps) + [] == EncodeFrames(crc, ps);
    PayloadsReplay(codec, edits);
  }

  /** Scans the manifest's bytes, applying each edit as it is read; None is corruption. */
  method LoadBytes(codec: Codec, crc: Crc, data: seq<Byte>) returns (r: Option<Loaded>)
    ensures r == Load(codec, crc, data)
  {
    hide ScanFrames, FirstFrame, ReplayPayloads, Apply;
    var state := new State();
    var offset := 0;
    ghost var ps: seq<seq<Byte>> := [];
    NothingRead(codec, crc, data);
    assert data[0..] == data;
    while offset < |data|
      invariant offset <= |data|
      invariant ScanFrames(crc, data) == Ahead(ps, offset, ScanFrames(crc, data[offset..]))
      invariant fresh(state) && ReplayPayloads(codec, ps) == Some(state.AsVersion())
      decreases |data| - offset
    {
      var rest := data[offset..];
      var head := NextFrame(crc, rest);
      ScanStops(crc, rest, ps, offset);
      if head.Bad? { return None; }
      if head.Unterminated? { return Some(Loaded(state.AsVersion(), offset, true)); }
      AheadOne(crc, rest, ps, offset);
      OneMorePayload(codec, ps, head.payload);
      var edit := codec.unmarshal(head.payload);
      var ok := false;
      if edit.Some? {
        ok := state.ApplyEdit(edit.value);
      }
      if !ok {
        StuckManifest(codec, ps + [head.payload], ScanFrames(crc, rest[head.size..]), offset + head.size);
        return None;
      }
      ps := ps + [head.payload];
      offset := offset + head.size;
      assert rest[head.size..] == data[offset..];
    }
    assert data[offset..] == [];
    AllRead(crc, ps, offset);
    return Some(Loaded(state.AsVersion(), offset, false));
  }

  lemma NothingRead(codec: Codec, crc: Crc, data: seq<Byte>)
    ensures ScanFrames(crc, data) == Ahead([], 0, ScanFrames(crc, data))
    ensures ReplayPayloads(codec, []) == Some(EMPTY_VERSION)
  {
    var s := ScanFrames(crc, data);
    if s.Found? { assert [] + s.payloads == s.payloads; }
  }

  lemma AllRead(crc: Crc, ps: seq<seq<Byte>>, n: nat)
    ensures Ahead(ps, n, ScanFrames(crc, [])) == Found(ps, n, false)
  {
    assert ps + [] == ps;
  }

  lemma ScanStops(crc: Crc, rest: seq<Byte>, ps: seq<seq<Byte>>, n: nat)
    requires rest != []
    ensures FirstFrame(crc, rest).Bad? ==> Ahead(ps, n, ScanFrames(crc, rest)) == Frames.Corrupt
    ensures FirstFrame(crc, rest).Unterminated? ==> Ahead(ps, n, ScanFrames(crc, rest)) == Found(ps, n, true)
  {
    hide FirstFrame;
    assert ps + [] == ps;
  }

  lemma OneMorePayload(codec: Codec, ps: seq<seq<Byte>>, p: seq<Byte>)
    ensures ReplayPayloads(codec, ps + [p]) ==
      match ReplayPayloads(codec, ps)
      case None => None
      case Some(v) => (match codec.unmarshal(p) case None => None case Some(e) => Apply(v, e))
  {
    hide Apply;
    assert (ps + [p])[..|ps|] == ps;
  }

  lemma StuckManifest(codec: Codec, ps: seq<seq<Byte>>, s: FrameScan, n: nat)
    requires ReplayPayloads(codec, ps) == None
    ensures Ahead(ps, n, s).Found? ==> ReplayPayloads(codec, Ahead(ps, n, s).payloads) == None
  {
    hide ReplayPayloads;
    if s.Found? { StuckFrom(codec, ps, s.payloads); }
  }

  lemma {:induction false} StuckFrom(codec: Codec, a: seq<seq<Byte>>, b: seq<seq<Byte>>)
    requires ReplayPayloads(codec, a) == None
    ensures ReplayPayloads(codec, a + b) == None
    decreases |b|
  {
    hide Apply;
    if b == [] {
      assert a + b == a;
    } else {
      StuckFrom(codec, a, b[..|b| - 1]);
      assert a + b == (a + b[..|b| - 1]) + [b[|b| - 1]];
      OneMorePayload(codec, a + b[..|b| - 1], b[|b| - 1]);
    }
  }
}
