/**
 The segmented write-ahead log. Each Save appends one batch of framed records to the active
 segment; reads come from an in-memory mirror; recovery replays every segment and drops an
 unterminated frame at the very end. Record marshalling is any codec that decodes what it encoded.
 */
module DiskLog {
  import opened RaftTypes
  import opened Storage
  import opened Bytes
  import opened Frames

  datatype Codec = Codec(marshal: Record -> seq<Byte>, unmarshal: seq<Byte> -> Option<Record>)

  ghost predicate Lawful(codec: Codec) { forall r :: codec.unmarshal(codec.marshal(r)) == Some(r) }

  // ----- Replaying records -----

  predicate Consecutive(entries: seq<Entry>) {
    forall i :: 1 <= i < |entries| ==> entries[i].index == entries[i - 1].index + 1
  }

  /** The entries overwrite or extend a log ending at `last` as one gapless run. */
  predicate Extends(entries: seq<Entry>, last: nat) {
    entries == [] || (1 <= entries[0].index <= last + 1 && Consecutive(entries))
  }

  /** Replays one record; None is a record Save would not have written. */
  function Replay(d: Durable, r: Record): Option<Durable> {
    match r
    case HardStateRecord(_) => Some(ApplyRecord(d, r))
    case TruncateRecord(from) => if from == 0 then None else Some(ApplyRecord(d, r))
    case EntriesRecord(entries) =>
      if entries == [] || !Extends(entries, LastIndex(d.log)) then None else Some(ApplyRecord(d, r))
  }

  function ReplayAll(d: Durable, rs: seq<Record>): Option<Durable> {
    if rs == [] then Some(d)
    else match ReplayAll(d, rs[..|rs| - 1])
         case None => None
         case Some(d1) => Replay(d1, rs[|rs| - 1])
  }

  lemma {:induction false} ReplayIsApply(d: Durable, rs: seq<Record>)
    requires ReplayAll(d, rs).Some?
    ensures ReplayAll(d, rs).value == ApplyRecords(d, rs)
  {
    if rs != [] { ReplayIsApply(d, rs[..|rs| - 1]); }
  }

  lemma {:induction false} ReplayConcat(d: Durable, a: seq<Record>, b: seq<Record>)
    ensures ReplayAll(d, a + b) == match ReplayAll(d, a) case None => None case Some(d1) => ReplayAll(d1, b)
    decreases |b|
  {
    hide Replay;
    if b == [] {
      assert a + b == a;
    } else {
      assert (a + b)[..|a + b| - 1] == a + b[..|b| - 1];
      ReplayConcat(d, a, b[..|b| - 1]);
    }
  }

  lemma ReplayPrefix(d: Durable, rs: seq<Record>, j: nat)
    requires ReplayAll(d, rs).Some? && j <= |rs|
    ensures ReplayAll(d, rs[..j]).Some?
  {
    assert rs[..j] + rs[j..] == rs;
    ReplayConcat(d, rs[..j], rs[j..]);
  }

  /** The entries of an accepted batch replay on the old log and on the log already cut for them. */
  lemma EntriesReplay(d: Durable, entries: seq<Entry>)
    requires Contiguous(d.log) && entries != [] && Extends(entries, LastIndex(d.log))
    ensures var r := EntriesRecord(entries);
      && Replay(d, r) == Some(ApplyRecord(d, r))
      && Replay(d.(log := TruncateFrom(d.log, entries[0].index)), r) == Some(ApplyRecord(d, r))
      && Contiguous(ApplyRecord(d, r).log)
  {
    ContiguousCut(d.log, entries[0].index);
    CutTwice(d.log, entries[0].index);
    RunNumbered(entries);
  }

  function CutRecord(d: Durable, entries: seq<Entry>): seq<Record>
    requires entries != []
  {
    if entries[0].index != 0 && entries[0].index <= LastIndex(d.log) then [TruncateRecord(entries[0].index)] else []
  }

  lemma EntriesBatchReplays(d: Durable, entries: seq<Entry>)
    requires Contiguous(d.log) && entries != [] && Extends(entries, LastIndex(d.log))
    ensures var r := EntriesRecord(entries); ReplayAll(d, CutRecord(d, entries) + [r]) == Some(ApplyRecord(d, r))
  {
    EntriesReplay(d, entries);
    var r, cut := EntriesRecord(entries), TruncateRecord(entries[0].index);
    assert CutRecord(d, entries) == [] || CutRecord(d, entries) == [cut];
    assert Replay(d, cut) == Some(d.(log := TruncateFrom(d.log, entries[0].index)));
    hide Replay, ReplayAll, Extends, Contiguous, TruncateFrom, CutRecord, ApplyRecord;
    if CutRecord(d, entries) == [] {
      assert [] + [r] == [r];
      ReplayOne(d, [r]);
    } else {
      ReplayConcat(d, [cut], [r]);
      ReplayOne(d, [cut]);
      ReplayOne(d.(log := TruncateFrom(d.log, entries[0].index)), [r]);
    }
  }

  /** Every batch Save accepts replays, whatever prefix of it is on disk. */
  lemma BatchReplays(d: Durable, hs: Option<HardState>, entries: seq<Entry>)
    requires Contiguous(d.log) && Extends(entries, LastIndex(d.log))
    ensures ReplayAll(d, BatchRecords(d, hs, entries)) == Some(Save(d, hs, entries))
    ensures Contiguous(Save(d, hs, entries).log)
  {
    var a: seq<Record> := if hs.Some? then [HardStateRecord(hs.value)] else [];
    var d1 := if hs.Some? then d.(hard := hs.value) else d;
    ReplayOne(d, a);
    if entries == [] {
      assert BatchRecords(d, hs, entries) == a;
    } else {
      var rest := CutRecord(d1, entries) + [EntriesRecord(entries)];
      assert BatchRecords(d, hs, entries) == a + rest;
      EntriesReplay(d1, entries);
      EntriesBatchReplays(d1, entries);
      hide ReplayAll, BatchRecords, Extends, Contiguous, Replay;
      ReplayConcat(d, a, rest);
    }
  }

  lemma ReplayOne(d: Durable, rs: seq<Record>)
    requires |rs| <= 1
    ensures ReplayAll(d, rs) == if rs == [] then Some(d) else Replay(d, rs[0])
  {
    if |rs| == 1 { assert rs[..0] == []; }
  }

  lemma {:induction false} RunNumbered(entries: seq<Entry>)
    requires entries != [] && Consecutive(entries)
    ensures forall k :: 0 <= k < |entries| ==> entries[k].index == entries[0].index + k
    decreases |entries|
  {
    if |entries| > 1 {
      var front := entries[..|entries| - 1];
      RunNumbered(front);
      assert forall k :: 0 <= k < |front| ==> entries[k] == front[k];
      assert entries[|front|].index == entries[|front| - 1].index + 1;
    }
  }

  // ----- Segments -----

  function Payloads(codec: Codec, rs: seq<Record>): (ps: seq<seq<Byte>>)
    ensures |ps| == |rs| && forall i :: 0 <= i < |rs| ==> ps[i] == codec.marshal(rs[i])
  {
    seq(|rs|, i requires 0 <= i < |rs| => codec.marshal(rs[i]))
  }

  function SegmentBytes(codec: Codec, crc: Crc, rs: seq<Record>): seq<Byte> { EncodeFrames(crc, Payloads(codec, rs)) }

  ghost predicate RecordsFit(codec: Codec, rs: seq<Record>) { forall r :: r in rs ==> Fits(|codec.marshal(r)|, 4) }

  function ReplayPayloads(codec: Codec, d: Durable, ps: seq<seq<Byte>>): Option<Durable> {
    if ps == [] then Some(d)
    else match ReplayPayloads(codec, d, ps[..|ps| - 1])
         case None => None
         case Some(d1) =>
           match codec.unmarshal(ps[|ps| - 1])
           case None => None
           case Some(r) => Replay(d1, r)
  }

  /** Folds one segment; only the final one may end in an unterminated frame. Yields the bytes kept. */
  function ReplaySegment(codec: Codec, crc: Crc, d: Durable, data: seq<Byte>, final: bool): (r: Option<(Durable, nat)>)
    ensures r.Some? ==> r.value.1 <= |data|
  {
    match ScanFrames(crc, data)
    case Corrupt => None
    case Found(ps, n, torn) =>
      if torn && !final then None
      else match ReplayPayloads(codec, d, ps)
           case None => None
           case Some(d1) => Some((d1, n))
  }

  function ReplayClosed(codec: Codec, crc: Crc, files: seq<seq<Byte>>): Option<Durable> {
    if files == [] then Some(EMPTY)
    else match ReplayClosed(codec, crc, files[..|files| - 1])
         case None => None
         case Some(d) =>
           match ReplaySegment(codec, crc, d, files[|files| - 1], false)
           case None => None
           case Some(r) => Some(r.0)
  }

  /** What Open rebuilds: the mirror, and the byte length the last segment is trimmed to. */
  function Recover(codec: Codec, crc: Crc, files: seq<seq<Byte>>): Option<(Durable, nat)>
    requires files != []
  {
    match ReplayClosed(codec, crc, files[..|files| - 1])
    case None => None
    case Some(d) => ReplaySegment(codec, crc, d, files[|files| - 1], true)
  }

  function Flatten(segs: seq<seq<Record>>): seq<Record> {
    if segs == [] then [] else Flatten(segs[..|segs| - 1]) + segs[|segs| - 1]
  }

  lemma {:induction false} PayloadsReplay(codec: Codec, d: Durable, rs: seq<Record>)
    requires Lawful(codec)
    ensures ReplayPayloads(codec, d, Payloads(codec, rs)) == ReplayAll(d, rs)
    decreases |rs|
  {
    if rs != [] {
      var ps := Payloads(codec, rs);
      assert ps[..|ps| - 1] == Payloads(codec, rs[..|rs| - 1]);
      PayloadsReplay(codec, d, rs[..|rs| - 1]);
    }
  }

  lemma BytesConcat(codec: Codec, crc: Crc, a: seq<Record>, b: seq<Record>)
    ensures SegmentBytes(codec, crc, a + b) == SegmentBytes(codec, crc, a) + SegmentBytes(codec, crc, b)
  {
    assert Payloads(codec, a + b) == Payloads(codec, a) + Payloads(codec, b);
    EncodeFramesConcat(crc, Payloads(codec, a), Payloads(codec, b));
  }

  lemma FitPayloads(codec: Codec, rs: seq<Record>)
    requires RecordsFit(codec, rs)
    ensures AllFit(Payloads(codec, rs))
  {}

  /** Number of whole records among the first k bytes of a batch. */
  function WholeRecords(codec: Codec, crc: Crc, rs: seq<Record>, k: nat): (j: nat)
    ensures j <= |rs|
  {
    WholeFrames(crc, Payloads(codec, rs), k)
  }

  /** A segment that ends inside a batch scans to its records and the batch's whole ones. */
  lemma CutSegmentScans(codec: Codec, crc: Crc, rs: seq<Record>, pending: seq<Record>, k: nat)
    requires RecordsFit(codec, rs + pending) && k <= |SegmentBytes(codec, crc, pending)|
    ensures var data := SegmentBytes(codec, crc, rs) + SegmentBytes(codec, crc, pending)[..k];
      var j := WholeRecords(codec, crc, pending, k);
      var n := |SegmentBytes(codec, crc, rs + pending[..j])|;
      n <= |data| && ScanFrames(crc, data) == Found(Payloads(codec, rs + pending[..j]), n, n < |data|)
  {
    FitPayloads(codec, rs);
    FitPayloads(codec, pending);
    PrefixPayloads(codec, rs, pending, WholeRecords(codec, crc, pending, k));
    hide EncodeFrames, ScanFrames, WholeFrames, Fits, RecordsFit, AllFit, Payloads;
    CutTailScans(crc, Payloads(codec, rs), Payloads(codec, pending), k);
  }

  lemma PrefixPayloads(codec: Codec, rs: seq<Record>, pending: seq<Record>, j: nat)
    requires j <= |pending|
    ensures Payloads(codec, rs + pending[..j]) == Payloads(codec, rs) + Payloads(codec, pending)[..j]
  {}

  ghost predicate SegsFit(codec: Codec, segs: seq<seq<Record>>) { forall s :: s in segs ==> RecordsFit(codec, s) }

  function Images(codec: Codec, crc: Crc, segs: seq<seq<Record>>): (fs: seq<seq<Byte>>)
    ensures |fs| == |segs|
  {
    seq(|segs|, i requires 0 <= i < |segs| => SegmentBytes(codec, crc, segs[i]))
  }

  lemma {:induction false} ClosedReplays(codec: Codec, crc: Crc, segs: seq<seq<Record>>)
    requires Lawful(codec) && SegsFit(codec, segs) && ReplayAll(EMPTY, Flatten(segs)).Some?
    ensures ReplayClosed(codec, crc, Images(codec, crc, segs)) == ReplayAll(EMPTY, Flatten(segs))
    decreases |segs|
  {
    if segs != [] {
      var front, last := segs[..|segs| - 1], segs[|segs| - 1];
      var fs := Images(codec, crc, segs);
      assert fs[..|fs| - 1] == Images(codec, crc, front);
      ReplayConcat(EMPTY, Flatten(front), last);
      assert SegsFit(codec, front) && RecordsFit(codec, last);
      hide SegmentBytes, ScanFrames, ReplayPayloads, ReplayAll, RecordsFit, Lawful;
      ClosedReplays(codec, crc, front);
      WholeSegmentReplays(codec, crc, ReplayAll(EMPTY, Flatten(front)).value, last);
    }
  }

  lemma WholeSegmentReplays(codec: Codec, crc: Crc, d: Durable, rs: seq<Record>)
    requires Lawful(codec) && RecordsFit(codec, rs) && ReplayAll(d, rs).Some?
    ensures ReplaySegment(codec, crc, d, SegmentBytes(codec, crc, rs), false)
         == Some((ReplayAll(d, rs).value, |SegmentBytes(codec, crc, rs)|))
  {
    assert rs + [] == rs;
    CutSegmentReplays(codec, crc, d, rs, [], 0);
    hide ReplayAll, ScanFrames, RecordsFit, Lawful;
    var bytes := SegmentBytes(codec, crc, rs);
    assert bytes + SegmentBytes(codec, crc, [])[..0] == bytes;
    hide SegmentBytes;
    CutSegmentScans(codec, crc, rs, [], 0);
  }

  /** Replaying a segment cut inside its last batch yields that batch's whole records. */
  lemma CutSegmentReplays(codec: Codec, crc: Crc, d: Durable, rs: seq<Record>, pending: seq<Record>, k: nat)
    requires Lawful(codec) && RecordsFit(codec, rs + pending) && k <= |SegmentBytes(codec, crc, pending)|
    requires ReplayAll(d, rs + pending).Some?
    ensures var j := WholeRecords(codec, crc, pending, k);
      var whole := rs + pending[..j];
      && ReplayAll(d, whole).Some?
      && ReplaySegment(codec, crc, d, SegmentBytes(codec, crc, rs) + SegmentBytes(codec, crc, pending)[..k], true)
         == Some((ReplayAll(d, whole).value, |SegmentBytes(codec, crc, whole)|))
  {
    hide ReplayAll, ScanFrames, RecordsFit, Lawful, SegmentBytes, WholeRecords, ReplayPayloads;
    var j := WholeRecords(codec, crc, pending, k);
    CutSegmentScans(codec, crc, rs, pending, k);
    assert (rs + pending)[..|rs| + j] == rs + pending[..j];
    ReplayPrefix(d, rs + pending, |rs| + j);
    PayloadsReplay(codec, d, rs + pending[..j]);
  }

  /**
   However many bytes of an unsynced batch reach the disk, recovery reports no corruption and
   rebuilds exactly the acknowledged state and the batch's whole records.
   */
  lemma CrashRecovers(codec: Codec, crc: Crc, segs: seq<seq<Record>>, pending: seq<Record>, k: nat)
    requires Lawful(codec) && segs != [] && SegsFit(codec, segs) && RecordsFit(codec, pending)
    requires k <= |SegmentBytes(codec, crc, pending)| && ReplayAll(EMPTY, Flatten(segs) + pending).Some?
    ensures var last := |segs| - 1;
      var files := Images(codec, crc, segs);
      var image := files[last := files[last] + SegmentBytes(codec, crc, pending)[..k]];
      var j := WholeRecords(codec, crc, pending, k);
      Recover(codec, crc, image)
        == Some((ApplyRecords(EMPTY, Flatten(segs) + pending[..j]),
                 |SegmentBytes(codec, crc, segs[last] + pending[..j])|))
  {
    hide ReplayAll, ScanFrames, RecordsFit, Lawful, SegmentBytes, WholeRecords, ReplaySegment, ReplayClosed,
      ApplyRecords;
    var n := |segs| - 1;
    var front, last := segs[..n], segs[n];
    var files := Images(codec, crc, segs);
    var image := files[n := files[n] + SegmentBytes(codec, crc, pending)[..k]];
    var j := WholeRecords(codec, crc, pending, k);
    assert image[..n] == Images(codec, crc, front);
    assert Flatten(segs) + pending == Flatten(front) + (last + pending);
    ReplayConcat(EMPTY, Flatten(front), last + pending);
    ClosedReplays(codec, crc, front);
    var d := ReplayAll(EMPTY, Flatten(front)).value;
    JoinFit(codec, last, pending);
    CutSegmentReplays(codec, crc, d, last, pending, k);
    var whole := last + pending[..j];
    assert Flatten(segs) + pending[..j] == Flatten(front) + whole;
    ReplayConcat(EMPTY, Flatten(front), whole);
    ReplayIsApply(EMPTY, Flatten(segs) + pending[..j]);
  }

  lemma JoinFit(codec: Codec, a: seq<Record>, b: seq<Record>)
    requires RecordsFit(codec, a) && RecordsFit(codec, b)
    ensures RecordsFit(codec, a + b)
  {}

  // ----- What the files and the mirror agree on -----

  /** The last file is its acknowledged bytes and m bytes of an unacknowledged batch. */
  ghost predicate TailIs(file: seq<Byte>, acked: seq<Byte>, batch: seq<Byte>, m: nat) {
    m <= |batch| && file == acked + batch[..m]
  }

  ghost predicate HasTail(file: seq<Byte>, acked: seq<Byte>, batch: seq<Byte>) {
    exists m: nat :: TailIs(file, acked, batch, m)
  }

  /** Every segment holds its acknowledged records; only a failed Save leaves more behind. */
  ghost predicate DiskOk(codec: Codec, crc: Crc, files: seq<seq<Byte>>, active: nat, failed: bool,
                         segs: seq<seq<Record>>, pending: seq<Record>)
  {
    && |files| == |segs| > 0
    && (forall i :: 0 <= i < |files| - 1 ==> files[i] == SegmentBytes(codec, crc, segs[i]))
    && var last := SegmentBytes(codec, crc, segs[|segs| - 1]);
    && HasTail(files[|files| - 1], last, SegmentBytes(codec, crc, pending))
    && (!failed ==> pending == [] && active == |last| && files[|files| - 1] == last)
  }

  /** A segment fits the rotation size or holds a single batch. */
  ghost predicate Rotated(codec: Codec, crc: Crc, segs: seq<seq<Record>>, batches: seq<nat>, rotateSize: nat) {
    && |batches| == |segs|
    && forall i :: 0 <= i < |segs| ==>
         batches[i] <= |segs[i]| && (batches[i] <= 1 || |SegmentBytes(codec, crc, segs[i])| <= rotateSize)
  }

  /** The mirror is the replay of the acknowledged records, and the pending ones could follow. */
  ghost predicate MirrorOk(codec: Codec, segs: seq<seq<Record>>, pending: seq<Record>, d: Durable) {
    && SegsFit(codec, segs) && RecordsFit(codec, pending) && Contiguous(d.log)
    && ReplayAll(EMPTY, Flatten(segs)) == Some(d)
    && ReplayAll(EMPTY, Flatten(segs) + pending).Some?
  }

  /** The batch left behind was written to an empty segment or one it still fits in. */
  ghost predicate PendingFits(codec: Codec, crc: Crc, segs: seq<seq<Record>>, pending: seq<Record>, rotateSize: nat)
    requires segs != []
  {
    || pending == [] || SegmentBytes(codec, crc, segs[|segs| - 1]) == []
    || |SegmentBytes(codec, crc, segs[|segs| - 1])| + |SegmentBytes(codec, crc, pending)| <= rotateSize
  }

  lemma NoBytes(codec: Codec, crc: Crc)
    ensures SegmentBytes(codec, crc, []) == []
  {}

  lemma {:induction false} SomeBytes(codec: Codec, crc: Crc, rs: seq<Record>)
    requires rs != []
    ensures SegmentBytes(codec, crc, rs) != []
  {}

  /** An empty segment changes nothing that is stored. */
  lemma EmptySegment(codec: Codec, crc: Crc, files: seq<seq<Byte>>, active: nat, failed: bool, segs: seq<seq<Record>>,
                     batches: seq<nat>, rotateSize: nat, d: Durable)
    requires DiskOk(codec, crc, files, active, false, segs, []) && Rotated(codec, crc, segs, batches, rotateSize)
    requires MirrorOk(codec, segs, [], d)
    ensures DiskOk(codec, crc, files + [[]], 0, failed, segs + [[]], [])
    ensures Rotated(codec, crc, segs + [[]], batches + [0], rotateSize) && MirrorOk(codec, segs + [[]], [], d)
  {
    NoBytes(codec, crc);
    hide SegmentBytes, ReplayAll;
    assert TailIs([], [], [], 0);
    assert (segs + [[]])[..|segs|] == segs;
    assert Flatten(segs + [[]]) == Flatten(segs) + [] == Flatten(segs);
  }

  lemma FlattenLast(segs: seq<seq<Record>>, more: seq<Record>)
    requires segs != []
    ensures var n := |segs| - 1; Flatten(segs[n := segs[n] + more]) == Flatten(segs) + more
  {
    var n := |segs| - 1;
    assert segs[n := segs[n] + more][..n] == segs[..n];
  }

  /** A batch written and synced. */
  lemma BatchStored(codec: Codec, crc: Crc, files: seq<seq<Byte>>, active: nat, segs: seq<seq<Record>>,
                    batches: seq<nat>, rotateSize: nat, d: Durable, records: seq<Record>, d': Durable)
    requires DiskOk(codec, crc, files, active, false, segs, []) && Rotated(codec, crc, segs, batches, rotateSize)
    requires MirrorOk(codec, segs, [], d) && RecordsFit(codec, records) && records != []
    requires ReplayAll(d, records) == Some(d') && Contiguous(d'.log)
    requires var bytes := SegmentBytes(codec, crc, records); active == 0 || active + |bytes| <= rotateSize
    ensures var n, bytes := |segs| - 1, SegmentBytes(codec, crc, records);
      var segs' := segs[n := segs[n] + records];
      && DiskOk(codec, crc, files[n := files[n] + bytes], active + |bytes|, false, segs', [])
      && Rotated(codec, crc, segs', batches[n := batches[n] + 1], rotateSize)
      && MirrorOk(codec, segs', [], d')
  {
    var n, bytes := |segs| - 1, SegmentBytes(codec, crc, records);
    hide MirrorOk, ReplayAll, RecordsFit, Rotated;
    BytesConcat(codec, crc, segs[n], records);
    StoredMirror(codec, segs, d, records, d');
    StoredRotation(codec, crc, segs, batches, rotateSize, records);
    NoBytes(codec, crc);
    hide SegmentBytes;
    var files' := files[n := files[n] + bytes];
    assert TailIs(files'[n], files'[n], [], 0);
  }

  lemma StoredMirror(codec: Codec, segs: seq<seq<Record>>, d: Durable, records: seq<Record>, d': Durable)
    requires segs != [] && MirrorOk(codec, segs, [], d) && RecordsFit(codec, records)
    requires ReplayAll(d, records) == Some(d') && Contiguous(d'.log)
    ensures MirrorOk(codec, segs[|segs| - 1 := segs[|segs| - 1] + records], [], d')
  {
    var n := |segs| - 1;
    var segs' := segs[n := segs[n] + records];
    FlattenLast(segs, records);
    ReplayConcat(EMPTY, Flatten(segs), records);
    JoinFit(codec, segs[n], records);
    hide ReplayAll, RecordsFit, Flatten;
    assert Flatten(segs') + [] == Flatten(segs');
  }

  lemma StoredRotation(codec: Codec, crc: Crc, segs: seq<seq<Record>>, batches: seq<nat>, rotateSize: nat,
                       records: seq<Record>)
    requires segs != [] && Rotated(codec, crc, segs, batches, rotateSize) && records != []
    requires var active := |SegmentBytes(codec, crc, segs[|segs| - 1])|;
      active == 0 || active + |SegmentBytes(codec, crc, records)| <= rotateSize
    ensures var n := |segs| - 1;
      Rotated(codec, crc, segs[n := segs[n] + records], batches[n := batches[n] + 1], rotateSize)
  {
    var n := |segs| - 1;
    if segs[n] != [] { SomeBytes(codec, crc, segs[n]); }
    hide SegmentBytes;
    BytesConcat(codec, crc, segs[n], records);
  }

  /** A batch whose write or sync failed after m bytes. */
  lemma BatchAbandoned(codec: Codec, crc: Crc, files: seq<seq<Byte>>, active: nat, segs: seq<seq<Record>>, d: Durable,
                       records: seq<Record>, m: nat)
    requires DiskOk(codec, crc, files, active, false, segs, []) && MirrorOk(codec, segs, [], d)
    requires RecordsFit(codec, records) && ReplayAll(d, records).Some? && m <= |SegmentBytes(codec, crc, records)|
    ensures var n := |segs| - 1;
      DiskOk(codec, crc, files[n := files[n] + SegmentBytes(codec, crc, records)[..m]], active, true, segs, records)
    ensures MirrorOk(codec, segs, records, d)
  {
    ReplayConcat(EMPTY, Flatten(segs), records);
    hide SegmentBytes, ReplayAll, RecordsFit, Flatten;
    var n, bytes := |segs| - 1, SegmentBytes(codec, crc, records);
    assert files[n] == SegmentBytes(codec, crc, segs[n]);
    assert TailIs(files[n] + bytes[..m], SegmentBytes(codec, crc, segs[n]), bytes, m);
  }

  // ----- The log -----

  /** How the file system treats one Save: rotation, write or sync may fail. */
  datatype Fault = NoFault | RotateFails(created: bool) | WriteFails(written: nat) | SyncFails

  datatype SaveResult = Saved | Rejected | Unusable | Failed

  /** The files with the bytes added to the last one. */
  function Extended(files: seq<seq<Byte>>, bytes: seq<Byte>): seq<seq<Byte>>
    requires files != []
  {
    files[|files| - 1 := files[|files| - 1] + bytes]
  }

  /** How many bytes of a batch the file system takes. */
  function Written(fault: Fault, size: nat): (n: nat)
    ensures n <= size
  {
    if fault.WriteFails? && fault.written < size then fault.written else size
  }

  class Log {
    const codec: Codec
    const crc: Crc
    const rotateSize: nat
    var files: seq<seq<Byte>>
    var activeSize: nat
    var hard: HardState
    var entries: seq<Entry>
    var failed: bool
    var closed: bool
    ghost var segs: seq<seq<Record>>     // acknowledged records of each segment
    ghost var batches: seq<nat>          // acknowledged batches of each segment
    ghost var pending: seq<Record>       // the batch whose Save failed

    function Contents(): Durable
      reads this
    {
      Durable(hard, entries)
    }

    /** A batch of this size would push the active segment, which holds one already, past the rotation size. */
    predicate Overflows(size: nat)
      reads this
    {
      activeSize > 0 && activeSize + size > rotateSize
    }

    ghost predicate Valid()
      reads this
    {
      && Lawful(codec)
      && DiskOk(codec, crc, files, activeSize, failed, segs, pending)
      && Rotated(codec, crc, segs, batches, rotateSize)
      && MirrorOk(codec, segs, pending, Contents())
      && PendingFits(codec, crc, segs, pending, rotateSize)
    }

    constructor (codec: Codec, crc: Crc, rotateSize: nat)
      requires Lawful(codec)
      ensures Valid() && Contents() == EMPTY && !failed && !closed
    {
      this.codec, this.crc, this.rotateSize := codec, crc, rotateSize;
      files, activeSize := [[]], 0;
      hard, entries, failed, closed := HardState(0, 0), [], false, false;
      segs, batches, pending := [[]], [0], [];
      new;
      assert segs[..0] == [];
      assert TailIs(files[0], SegmentBytes(codec, crc, segs[0]), SegmentBytes(codec, crc, pending), 0);
    }

    /** A log over files that hold whole records only. */
    constructor Reopened(codec: Codec, crc: Crc, rotateSize: nat, files: seq<seq<Byte>>, activeSize: nat,
                         contents: Durable, ghost segs: seq<seq<Record>>, ghost batches: seq<nat>)
      requires Lawful(codec) && DiskOk(codec, crc, files, activeSize, false, segs, [])
      requires Rotated(codec, crc, segs, batches, rotateSize) && MirrorOk(codec, segs, [], contents)
      ensures Valid() && Contents() == contents && !failed && !closed && pending == []
      ensures this.codec == codec && this.crc == crc && this.rotateSize == rotateSize && this.files == files
    {
      hide Lawful, DiskOk, Rotated, MirrorOk;
      this.codec, this.crc, this.rotateSize := codec, crc, rotateSize;
      this.files, this.activeSize, failed, closed := files, activeSize, false, false;
      hard, entries := contents.hard, contents.log;
      this.segs, this.batches, pending := segs, batches, [];
      new;
      LastFile(codec, crc, files, activeSize, false, segs, []);
    }

    /** Marshals and frames the batch; false is a payload too large for its length field. */
    method EncodeBatch(hs: Option<HardState>, added: seq<Entry>) returns (ok: bool, batch: seq<Byte>)
      ensures ok == RecordsFit(codec, BatchRecords(Contents(), hs, added))
      ensures ok ==> batch == SegmentBytes(codec, crc, BatchRecords(Contents(), hs, added))
    {
      var records := BatchRecords(Contents(), hs, added);
      batch := [];
      for i := 0 to |records|
        invariant RecordsFit(codec, records[..i]) && batch == SegmentBytes(codec, crc, records[..i])
      {
        var payload := codec.marshal(records[i]);
        if !Fits(|payload|, 4) { return false, []; }
        var frame := BuildFrame(crc, payload);
        batch := batch + frame;
        OneMore(codec, crc, records, i);
      }
      assert records[..|records|] == records;
      return true, batch;
    }

    /** Moves to a fresh segment when the batch would push a non-empty one past the rotation size. */
    method RotateIfNeeded(size: nat, fault: Fault) returns (ok: bool)
      requires Valid() && !failed
      modifies this
      ensures Valid() && failed == !ok && closed == old(closed) && pending == []
      ensures Contents() == old(Contents())
      ensures ok == !(old(Overflows(size)) && fault.RotateFails?) && (ok ==> !Overflows(size))
      ensures files == if old(Overflows(size)) && fault != RotateFails(false) then old(files) + [[]] else old(files)
    {
      hide Lawful, Rotated, MirrorOk;
      if activeSize == 0 || (activeSize <= rotateSize && size <= rotateSize - activeSize) { return true; }
      assert Overflows(size);
      if fault.RotateFails? && !fault.created {
        failed := true;
        return false;
      }
      failed := fault.RotateFails?;
      hide DiskOk;
      EmptySegment(codec, crc, files, activeSize, failed, segs, batches, rotateSize, Contents());
      files, activeSize := files + [[]], 0;
      segs, batches := segs + [[]], batches + [0];
      return !failed;
    }

    /**
     One Save. A success puts the whole batch on disk and in the mirror, exactly as the
     volatile storage would; a failure leaves the mirror alone, poisons the log, and leaves
     behind the bytes that were written. The batch goes to a fresh segment exactly when it would
     overflow the active one.
     */
    method Save(hs: Option<HardState>, added: seq<Entry>, fault: Fault) returns (result: SaveResult)
      requires Valid()
      modifies this
      ensures Valid() && closed == old(closed)
      ensures var unusable := old(closed) || old(failed);
        var nothing := hs == None && added == [];
        var fits := RecordsFit(codec, BatchRecords(old(Contents()), hs, added));
        var refused := !Extends(added, LastIndex(old(entries))) || !fits;
        && (result == Unusable <==> unusable)
        && (result == Rejected <==> !unusable && !nothing && refused)
        && var batch := SegmentBytes(codec, crc, BatchRecords(old(Contents()), hs, added));
        && var rotates := old(Overflows(|batch|));
        && var wrote := if fault.WriteFails? && fault.written < |batch| then batch[..fault.written] else batch;
        && var broken := fault.WriteFails? || fault.SyncFails? || (fault.RotateFails? && rotates);
        && (result == Failed <==> !unusable && !nothing && !refused && broken)
        && old(files) != []
        && files == if unusable || nothing || refused || (fault == RotateFails(false) && rotates) then old(files)
                    else if fault == RotateFails(true) && rotates then old(files) + [[]]
                    else Extended(if rotates then old(files) + [[]] else old(files), wrote)
      ensures Contents() == if result == Saved then Storage.Save(old(Contents()), hs, added) else old(Contents())
      ensures failed == (old(failed) || result == Failed)
    {
      hide Lawful, DiskOk, Rotated, SegsFit, RecordsFit, ReplayAll, BatchRecords, SegmentBytes, Extends, MirrorOk;
      LastFile(codec, crc, files, activeSize, failed, segs, pending);
      if closed || failed { return Unusable; }
      if hs == None && |added| == 0 { return Saved; }
      if !Extends(added, LastIndex(entries)) { return Rejected; }
      var ok, batch := EncodeBatch(hs, added);
      if !ok { return Rejected; }
      assert batch[..|batch|] == batch;
      var ready := RotateIfNeeded(|batch|, fault);
      if !ready { return Failed; }
      result := WriteBatch(hs, added, batch, fault);
    }

    /** Appends the batch to the active segment, syncs it, and only then moves the mirror. */
    method WriteBatch(hs: Option<HardState>, added: seq<Entry>, batch: seq<Byte>, fault: Fault)
      returns (result: SaveResult)
      requires Valid() && !failed && pending == [] && (hs != None || added != []) && Extends(added, LastIndex(entries))
      requires RecordsFit(codec, BatchRecords(Contents(), hs, added))
      requires batch == SegmentBytes(codec, crc, BatchRecords(Contents(), hs, added))
      requires !Overflows(|batch|)
      modifies this
      ensures old(files) != [] && files == Extended(old(files), batch[..Written(fault, |batch|)])
      ensures Valid() && closed == old(closed) && failed == (result == Failed)
      ensures result == if fault.WriteFails? || fault.SyncFails? then Failed else Saved
      ensures Contents() == if result == Saved then Storage.Save(old(Contents()), hs, added) else old(Contents())
    {
      hide Lawful, DiskOk, Rotated, RecordsFit, ReplayAll, BatchRecords, SegmentBytes, Extends, MirrorOk, PendingFits,
        TruncateFrom, Contiguous;
      ghost var records := BatchRecords(Contents(), hs, added);
      NonEmptyBatch(Contents(), hs, added);
      MirrorContiguous(codec, segs, pending, Contents());
      BatchReplays(Contents(), hs, added);
      LastFile(codec, crc, files, activeSize, failed, segs, pending);
      assert |batches| == |segs| by { BatchCounts(codec, crc, segs, batches, rotateSize); }
      var last := |files| - 1;
      NothingPending(codec, crc, segs[last := segs[last] + records], rotateSize);
      if fault.WriteFails? || fault.SyncFails? {
        var written := Written(fault, |batch|);
        PendingWithin(codec, crc, segs, records, rotateSize);
        BatchAbandoned(codec, crc, files, activeSize, segs, Contents(), records, written);
        files := files[last := files[last] + batch[..written]];
        failed, pending := true, records;
        return Failed;
      }
      BatchStored(codec, crc, files, activeSize, segs, batches, rotateSize, Contents(), records,
                  Storage.Save(Contents(), hs, added));
      assert batch[..|batch|] == batch;
      files := files[last := files[last] + batch];
      activeSize := activeSize + |batch|;
      segs := segs[last := segs[last] + records];
      batches := batches[last := batches[last] + 1];
      if hs.Some? {
        hard := hs.value;
      }
      if |added| > 0 {
        entries := TruncateFrom(entries, added[0].index) + added;
      }
      return Saved;
    }
  }

  lemma NothingPending(codec: Codec, crc: Crc, segs: seq<seq<Record>>, rotateSize: nat)
    requires segs != []
    ensures PendingFits(codec, crc, segs, [], rotateSize)
  {}

  lemma PendingWithin(codec: Codec, crc: Crc, segs: seq<seq<Record>>, pending: seq<Record>, rotateSize: nat)
    requires segs != []
    requires var active := |SegmentBytes(codec, crc, segs[|segs| - 1])|;
      active == 0 || active + |SegmentBytes(codec, crc, pending)| <= rotateSize
    ensures PendingFits(codec, crc, segs, pending, rotateSize)
  {
    hide SegmentBytes;
  }

  lemma NonEmptyBatch(d: Durable, hs: Option<HardState>, added: seq<Entry>)
    requires hs != None || added != []
    ensures BatchRecords(d, hs, added) != []
  {}

  lemma MirrorContiguous(codec: Codec, segs: seq<seq<Record>>, pending: seq<Record>, d: Durable)
    requires MirrorOk(codec, segs, pending, d)
    ensures Contiguous(d.log)
  {}

  lemma LastFile(codec: Codec, crc: Crc, files: seq<seq<Byte>>, active: nat, failed: bool, segs: seq<seq<Record>>,
                 pending: seq<Record>)
    requires DiskOk(codec, crc, files, active, failed, segs, pending)
    ensures |files| == |segs| > 0 && (!failed ==> active == |SegmentBytes(codec, crc, segs[|segs| - 1])|)
  {}

  lemma BatchCounts(codec: Codec, crc: Crc, segs: seq<seq<Record>>, batches: seq<nat>, rotateSize: nat)
    requires Rotated(codec, crc, segs, batches, rotateSize)
    ensures |batches| == |segs|
  {}

  lemma SegmentImages(codec: Codec, crc: Crc, files: seq<seq<Byte>>, segs: seq<seq<Record>>)
    requires |files| == |segs| > 0 && forall i :: 0 <= i < |files| - 1 ==> files[i] == SegmentBytes(codec, crc, segs[i])
    ensures var n, images := |files| - 1, Images(codec, crc, segs);
      images[n] == SegmentBytes(codec, crc, segs[n]) && files[..n] == images[..n]
  {}

  /**
   Whatever a crash keeps of the bytes a failed or interrupted Save wrote, reopening finds the
   acknowledged state and a record prefix of that Save's batch.
   */
  lemma ReopenRecovers(codec: Codec, crc: Crc, files: seq<seq<Byte>>, active: nat, failed: bool, segs: seq<seq<Record>>,
                       pending: seq<Record>, d: Durable, keep: nat)
    requires Lawful(codec) && DiskOk(codec, crc, files, active, failed, segs, pending)
    requires MirrorOk(codec, segs, pending, d)
    requires var last := |files| - 1; |SegmentBytes(codec, crc, segs[last])| <= keep <= |files[last]|
    ensures var last := |files| - 1;
      var image := files[last := files[last][..keep]];
      exists j: nat :: LongestWithin(codec, crc, segs[last], pending, keep, j) &&
        Recover(codec, crc, image) == Some((ApplyRecords(d, pending[..j]),
                                            |SegmentBytes(codec, crc, segs[last] + pending[..j])|))
  {
    var last := |files| - 1;
    var acked, bytes := SegmentBytes(codec, crc, segs[last]), SegmentBytes(codec, crc, pending);
    var m: nat :| TailIs(files[last], acked, bytes, m);
    var k := keep - |acked|;
    var image := files[last := files[last][..keep]];
    var images := Images(codec, crc, segs);
    SegmentImages(codec, crc, files, segs);
    assert files[last][..keep] == acked + bytes[..k];
    assert image == images[last := images[last] + bytes[..k]];
    CrashRecovers(codec, crc, segs, pending, k);
    var j := WholeRecords(codec, crc, pending, k);
    ReplayIsApply(EMPTY, Flatten(segs));
    ApplyRecordsConcat(EMPTY, Flatten(segs), pending[..j]);
    assert ApplyRecords(EMPTY, Flatten(segs) + pending[..j]) == ApplyRecords(d, pending[..j]);
    LongestIs(codec, crc, segs[last], pending, k);
  }

  lemma PrefixBytes(codec: Codec, crc: Crc, acked: seq<Record>, pending: seq<Record>, j: nat)
    requires j <= |pending|
    ensures |SegmentBytes(codec, crc, acked + pending[..j])| ==
            |SegmentBytes(codec, crc, acked)| + |EncodeFrames(crc, Payloads(codec, pending)[..j])|
  {
    hide EncodeFrames;
    PrefixPayloads(codec, acked, pending, j);
    EncodeFramesConcat(crc, Payloads(codec, acked), Payloads(codec, pending)[..j]);
  }

  lemma LongestIs(codec: Codec, crc: Crc, acked: seq<Record>, pending: seq<Record>, k: nat)
    ensures LongestWithin(codec, crc, acked, pending, |SegmentBytes(codec, crc, acked)| + k,
                          WholeRecords(codec, crc, pending, k))
  {
    hide EncodeFrames, WholeFrames, SegmentBytes, Payloads;
    var j := WholeRecords(codec, crc, pending, k);
    WholeFramesIs(crc, Payloads(codec, pending), k);
    PrefixBytes(codec, crc, acked, pending, j);
    if j < |pending| { PrefixBytes(codec, crc, acked, pending, j + 1); }
  }

  /** The first j pending records are the most that fit with the acknowledged ones into `keep` bytes. */
  ghost predicate LongestWithin(codec: Codec, crc: Crc, acked: seq<Record>, pending: seq<Record>, keep: nat, j: nat) {
    && j <= |pending| && |SegmentBytes(codec, crc, acked + pending[..j])| <= keep
    && (j < |pending| ==> keep < |SegmentBytes(codec, crc, acked + pending[..j + 1])|)
  }

  /** Checked replay keeps a log numbered from one. */
  lemma {:induction false} ReplayNumbered(d: Durable, rs: seq<Record>)
    requires Contiguous(d.log) && ReplayAll(d, rs).Some?
    ensures Contiguous(ReplayAll(d, rs).value.log)
    decreases |rs|
  {
    if rs != [] {
      var front, r := rs[..|rs| - 1], rs[|rs| - 1];
      ReplayNumbered(d, front);
      var d1 := ReplayAll(d, front).value;
      match r
      case HardStateRecord(_) =>
      case TruncateRecord(from) => ContiguousCut(d1.log, from);
      case EntriesRecord(entries) => EntriesReplay(d1, entries);
    }
  }

  /** The files without what the failed batch left are those of a log that never tried it. */
  lemma AckedOk(codec: Codec, crc: Crc, files: seq<seq<Byte>>, active: nat, failed: bool, segs: seq<seq<Record>>,
                pending: seq<Record>, d: Durable)
    requires DiskOk(codec, crc, files, active, failed, segs, pending) && MirrorOk(codec, segs, pending, d)
    ensures var last := |files| - 1;
      var acked := SegmentBytes(codec, crc, segs[last]);
      DiskOk(codec, crc, files[last := acked], |acked|, false, segs, [])
    ensures MirrorOk(codec, segs, [], d)
  {
    hide ReplayAll, Flatten;
    var last := |files| - 1;
    var acked := SegmentBytes(codec, crc, segs[last]);
    NoBytes(codec, crc);
    hide SegmentBytes;
    assert TailIs(acked, acked, SegmentBytes(codec, crc, []), 0);
    assert Flatten(segs) + [] == Flatten(segs);
  }

  lemma FitPrefix(codec: Codec, crc: Crc, rs: seq<Record>, j: nat)
    requires RecordsFit(codec, rs) && j <= |rs|
    ensures RecordsFit(codec, rs[..j]) && |SegmentBytes(codec, crc, rs[..j])| <= |SegmentBytes(codec, crc, rs)|
  {
    hide SegmentBytes;
    BytesConcat(codec, crc, rs[..j], rs[j..]);
    assert rs[..j] + rs[j..] == rs;
  }

  /** The first j records of the batch left behind count as saved. */
  lemma AdoptPending(codec: Codec, crc: Crc, files: seq<seq<Byte>>, active: nat, segs: seq<seq<Record>>,
                     batches: seq<nat>, pending: seq<Record>, d: Durable, j: nat, rotateSize: nat)
    requires DiskOk(codec, crc, files, active, false, segs, []) && Rotated(codec, crc, segs, batches, rotateSize)
    requires MirrorOk(codec, segs, [], d) && RecordsFit(codec, pending)
    requires ReplayAll(EMPTY, Flatten(segs) + pending).Some?
    requires PendingFits(codec, crc, segs, pending, rotateSize) && 0 < j <= |pending|
    ensures var n, records := |segs| - 1, pending[..j];
      var segs' := segs[n := segs[n] + records];
      var bytes := SegmentBytes(codec, crc, records);
      && DiskOk(codec, crc, files[n := files[n] + bytes], active + |bytes|, false, segs', [])
      && Rotated(codec, crc, segs', batches[n := batches[n] + 1], rotateSize)
      && MirrorOk(codec, segs', [], ApplyRecords(d, records))
  {
    hide SegmentBytes, RecordsFit, ApplyRecords, Flatten, ReplayAll, Contiguous;
    var n, records := |segs| - 1, pending[..j];
    ReplayConcat(EMPTY, Flatten(segs), pending);
    ReplayPrefix(d, pending, j);
    ReplayNumbered(d, records);
    ReplayIsApply(d, records);
    FitPrefix(codec, crc, pending, j);
    NoBytes(codec, crc);
    BatchStored(codec, crc, files, active, segs, batches, rotateSize, d, records, ApplyRecords(d, records));
  }

  /** Cutting after j whole records leaves the acknowledged bytes and theirs. */
  lemma TrimmedIs(codec: Codec, crc: Crc, files: seq<seq<Byte>>, segs: seq<seq<Record>>, pending: seq<Record>, m: nat,
                  j: nat)
    requires |files| == |segs| > 0 && j <= |pending|
    requires var file, seg := files[|files| - 1], segs[|segs| - 1];
      && TailIs(file, SegmentBytes(codec, crc, seg), SegmentBytes(codec, crc, pending), m)
      && |SegmentBytes(codec, crc, seg + pending[..j])| <= |file|
    ensures var file, seg := files[|files| - 1], segs[|segs| - 1];
      file[..|SegmentBytes(codec, crc, seg + pending[..j])|]
      == SegmentBytes(codec, crc, seg) + SegmentBytes(codec, crc, pending[..j])
  {
    hide SegmentBytes;
    var seg := segs[|segs| - 1];
    BytesConcat(codec, crc, seg, pending[..j]);
    BytesConcat(codec, crc, pending[..j], pending[j..]);
    assert pending[..j] + pending[j..] == pending;
    var a, b, c := SegmentBytes(codec, crc, seg), SegmentBytes(codec, crc,
                                                               pending[..j]), SegmentBytes(codec, crc, pending[j..]);
    var file := files[|files| - 1];
    assert file == a + (b + c)[..m];
    assert file[..|a| + |b|] == a + b;
  }

  lemma OneMore(codec: Codec, crc: Crc, rs: seq<Record>, i: nat)
    requires i < |rs|
    ensures RecordsFit(codec, rs[..i + 1]) <==> RecordsFit(codec, rs[..i]) && Fits(|codec.marshal(rs[i])|, 4)
    ensures var frame := FrameOf(crc, codec.marshal(rs[i]));
      SegmentBytes(codec, crc, rs[..i + 1]) == SegmentBytes(codec, crc, rs[..i]) + frame
  {
    assert rs[..i + 1] == rs[..i] + [rs[i]];
    var ps := Payloads(codec, rs[..i + 1]);
    assert ps[..i] == Payloads(codec, rs[..i]);
  }

  // ----- Opening -----

  /** Replays one segment into the mirror; None is corruption. */
  method ReplayFile(codec: Codec, crc: Crc, d: Durable, data: seq<Byte>, final: bool)
    returns (r: Option<(Durable, nat)>)
    ensures r == ReplaySegment(codec, crc, d, data, final)
  {
    hide ReplayPayloads, Replay, ScanFrames, FirstFrame;
    var mirror, offset := d, 0;
    NoPayloads(codec, d);
    ghost var ps: seq<seq<Byte>> := [];
    assert data[0..] == data;
    StartsAhead(ScanFrames(crc, data));
    while offset < |data|
      invariant offset <= |data|
      invariant ScanFrames(crc, data) == Ahead(ps, offset, ScanFrames(crc, data[offset..]))
      invariant ReplayPayloads(codec, d, ps) == Some(mirror)
      decreases |data| - offset
    {
      var rest := data[offset..];
      var head := NextFrame(crc, rest);
      FrontEnds(crc, rest, ps, offset);
      if head.Bad? { return None; }
      if head.Unterminated? { return if final then Some((mirror, offset)) else None; }
      AheadOne(crc, rest, ps, offset);
      MorePayloads(codec, d, ps, head.payload);
      hide Ahead;
      var record := codec.unmarshal(head.payload);
      var next := if record.Some? then Replay(mirror, record.value) else None;
      if next == None {
        StuckReplay(codec, d, ps + [head.payload], ScanFrames(crc, rest[head.size..]), offset + head.size);
        return None;
      }
      mirror := next.value;
      ps := ps + [head.payload];
      offset := offset + head.size;
      assert rest[head.size..] == data[offset..];
    }
    NothingLeft(crc, ps, offset);
    assert data[offset..] == [];
    return Some((mirror, offset));
  }

  lemma NoPayloads(codec: Codec, d: Durable)
    ensures ReplayPayloads(codec, d, []) == Some(d)
  {}

  lemma NothingLeft(crc: Crc, ps: seq<seq<Byte>>, n: nat)
    ensures Ahead(ps, n, ScanFrames(crc, [])) == Found(ps, n, false)
  {
    assert ps + [] == ps;
  }

  lemma FrontEnds(crc: Crc, rest: seq<Byte>, ps: seq<seq<Byte>>, n: nat)
    requires rest != []
    ensures FirstFrame(crc, rest).Bad? ==> Ahead(ps, n, ScanFrames(crc, rest)) == Frames.Corrupt
    ensures FirstFrame(crc, rest).Unterminated? ==> Ahead(ps, n, ScanFrames(crc, rest)) == Found(ps, n, true)
  {
    hide FirstFrame;
    assert ps + [] == ps;
  }

  lemma StartsAhead(s: FrameScan)
    ensures s == Ahead([], 0, s)
  {
    if s.Found? { assert [] + s.payloads == s.payloads; }
  }

  lemma MorePayloads(codec: Codec, d: Durable, ps: seq<seq<Byte>>, p: seq<Byte>)
    ensures ReplayPayloads(codec, d, ps + [p]) ==
      match ReplayPayloads(codec, d, ps)
      case None => None
      case Some(d1) => (match codec.unmarshal(p) case None => None case Some(r) => Replay(d1, r))
  {
    assert (ps + [p])[..|ps|] == ps;
  }

  /** A record that does not replay makes the whole segment corrupt, whatever follows it. */
  lemma StuckReplay(codec: Codec, d: Durable, ps: seq<seq<Byte>>, s: FrameScan, n: nat)
    requires ReplayPayloads(codec, d, ps) == None
    ensures Ahead(ps, n, s).Found? ==> ReplayPayloads(codec, d, Ahead(ps, n, s).payloads) == None
  {
    hide ReplayPayloads;
    if s.Found? { StuckPrefix(codec, d, ps, s.payloads); }
  }

  lemma {:induction false} StuckPrefix(codec: Codec, d: Durable, a: seq<seq<Byte>>, b: seq<seq<Byte>>)
    requires ReplayPayloads(codec, d, a) == None
    ensures ReplayPayloads(codec, d, a + b) == None
    decreases |b|
  {
    if b == [] {
      assert a + b == a;
    } else {
      StuckPrefix(codec, d, a, b[..|b| - 1]);
      assert a + b == (a + b[..|b| - 1]) + [b[|b| - 1]];
      MorePayloads(codec, d, a + b[..|b| - 1], b[|b| - 1]);
    }
  }

  /** Rebuilds the mirror from every segment in order. */
  method RecoverFiles(codec: Codec, crc: Crc, files: seq<seq<Byte>>) returns (r: Option<(Durable, nat)>)
    requires files != []
    ensures r == Recover(codec, crc, files)
  {
    var mirror := EMPTY;
    hide ReplaySegment;
    for i := 0 to |files| - 1
      invariant ReplayClosed(codec, crc, files[..i]) == Some(mirror)
    {
      var step := ReplayFile(codec, crc, mirror, files[i], false);
      assert files[..i + 1][..i] == files[..i];
      if step == None {
        assert files[..|files| - 1][..i + 1] == files[..i + 1];
        StuckClosed(codec, crc, files[..|files| - 1], i + 1);
        return None;
      }
      mirror := step.value.0;
    }
    r := ReplayFile(codec, crc, mirror, files[|files| - 1], true);
  }

  lemma {:induction false} StuckClosed(codec: Codec, crc: Crc, files: seq<seq<Byte>>, i: nat)
    requires i <= |files| && ReplayClosed(codec, crc, files[..i]) == None
    ensures ReplayClosed(codec, crc, files) == None
    decreases |files|
  {
    if i == |files| {
      assert files[..i] == files;
    } else {
      assert files[..|files| - 1][..i] == files[..i];
      StuckClosed(codec, crc, files[..|files| - 1], i);
    }
  }

  lemma RecoveredSize(codec: Codec, crc: Crc, files: seq<seq<Byte>>)
    requires files != [] && Recover(codec, crc, files).Some?
    ensures Recover(codec, crc, files).value.1 <= |files[|files| - 1]|
  {
    hide ReplaySegment, ReplayClosed;
  }

  /**
   A new process over the files of an old one, of whose unfinished batch any bytes survived: it
   replays the segments, cuts a torn frame off, and goes on from the acknowledged state and a
   record prefix of that batch, with every invariant of a running log.
   */
  method Reopen(log: Log, keep: nat) returns (next: Log)
    requires log.Valid()
    requires var last := |log.files| - 1;
      |SegmentBytes(log.codec, log.crc, log.segs[last])| <= keep <= |log.files[last]|
    ensures fresh(next) && next.Valid() && !next.failed && !next.closed
    ensures next.codec == log.codec && next.crc == log.crc && next.rotateSize == log.rotateSize
    ensures exists j: nat ::
      && LongestWithin(log.codec, log.crc, log.segs[|log.files| - 1], log.pending, keep, j)
      && next.Contents() == ApplyRecords(log.Contents(), log.pending[..j])
  {
    hide Lawful, SegmentBytes, RecordsFit, ReplayAll, Flatten, ApplyRecords, Recover, Rotated, MirrorOk, PendingFits;
    var last := |log.files| - 1;
    var image := log.files[last := log.files[last][..keep]];
    ReopenRecovers(log.codec, log.crc, log.files, log.activeSize, log.failed, log.segs, log.pending, log.Contents(),
                   keep);
    ghost var j: nat :| LongestWithin(log.codec, log.crc, log.segs[last], log.pending, keep, j) &&
      Recover(log.codec, log.crc, image) ==
        Some((ApplyRecords(log.Contents(), log.pending[..j]),
              |SegmentBytes(log.codec, log.crc, log.segs[last] + log.pending[..j])|));
    var r := RecoverFiles(log.codec, log.crc, image);
    var contents, complete := r.value.0, r.value.1;
    RecoveredSize(log.codec, log.crc, image);
    var trimmed := image[last := image[last][..complete]];
    ghost var segs, batches := ReopenedState(log, image, complete, j);
    next := new Log.Reopened(log.codec, log.crc, log.rotateSize, trimmed, complete, contents, segs, batches);
  }

  lemma ReopenedState(log: Log, image: seq<seq<Byte>>, complete: nat, j: nat)
    returns (segs: seq<seq<Record>>, batches: seq<nat>)
    requires log.Valid() && j <= |log.pending|
    requires var last := |log.files| - 1;
      && |image| == |log.files| && image[..last] == log.files[..last] && image[last] <= log.files[last]
      && complete == |SegmentBytes(log.codec, log.crc, log.segs[last] + log.pending[..j])| <= |image[last]|
    ensures var last := |log.files| - 1;
      DiskOk(log.codec, log.crc, image[last := image[last][..complete]], complete, false, segs, [])
    ensures Rotated(log.codec, log.crc, segs, batches, log.rotateSize)
    ensures MirrorOk(log.codec, segs, [], ApplyRecords(log.Contents(), log.pending[..j]))
  {
    hide SegmentBytes, RecordsFit, ReplayAll, Flatten, ApplyRecords, Rotated, PendingFits, Lawful;
    var codec, crc, last, d := log.codec, log.crc, |log.files| - 1, log.Contents();
    var acked := SegmentBytes(codec, crc, log.segs[last]);
    AckedOk(codec, crc, log.files, log.activeSize, log.failed, log.segs, log.pending, d);
    var m: nat :| TailIs(log.files[last], acked, SegmentBytes(codec, crc, log.pending), m);
    TrimmedIs(codec, crc, log.files, log.segs, log.pending, m, j);
    BytesConcat(codec, crc, log.segs[last], log.pending[..j]);
    var trimmed := image[last := image[last][..complete]];
    assert image[last][..complete] == log.files[last][..complete];
    var base := log.files[last := acked];
    BatchCounts(codec, crc, log.segs, log.batches, log.rotateSize);
    segs, batches := log.segs, log.batches;
    if j == 0 {
      NoBytes(codec, crc);
      NoRecords(d);
      assert log.pending[..0] == [];
      assert trimmed == base;
    } else {
      AdoptPending(codec, crc, base, |acked|, log.segs, log.batches, log.pending, d, j, log.rotateSize);
      segs, batches := log.segs[last := log.segs[last] + log.pending[..j]], log.batches[last := log.batches[last] + 1];
      assert trimmed == base[last := base[last] + SegmentBytes(codec, crc, log.pending[..j])];
    }
  }

  lemma NoRecords(d: Durable)
    ensures ApplyRecords(d, []) == d
  {}
}
