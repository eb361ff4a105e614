/**
 The storage crash model at byte granularity. A Save stages its records in a dirty buffer
 and moves them to the platter at the sync barrier; a crash keeps the platter and any byte
 prefix of the dirty buffer. Recovery reads nothing but the surviving bytes.
 */
module CrashStorage {
  import opened RaftTypes
  import opened Storage
  import opened Bytes
  import opened RecordCodec

  /** The volatile storage the durable ones must agree with. */
  class MemStorage {
    var hard: HardState
    var entries: seq<Entry>

    function Contents(): Durable
      reads this
    {
      Durable(hard, entries)
    }

    constructor ()
      ensures Contents() == EMPTY
    {
      hard, entries := HardState(0, 0), [];
    }

    method Save(hs: Option<HardState>, batch: seq<Entry>)
      modifies this
      ensures Contents() == Storage.Save(old(Contents()), hs, batch)
    {
      if hs.Some? {
        hard := hs.value;
      }
      if |batch| > 0 {
        var kept := TruncateFromIndex(entries, batch[0].index);
        entries := kept + batch;
      }
    }

    /** Entries in [lo, hi); None is an out-of-bounds request. */
    method Entries(lo: nat, hi: nat) returns (r: Option<seq<Entry>>)
      requires Contiguous(entries)
      ensures r.Some? <==> 1 <= lo <= hi <= |entries| + 1
      ensures r.Some? ==> r.value == entries[lo - 1..hi - 1]
    {
      var first, last := 1, 0;
      if |entries| > 0 {
        first, last := entries[0].index, entries[|entries| - 1].index;
      }
      if lo > hi || lo < first || hi > last + 1 { return None; }
      return Some(entries[lo - first..hi - first]);
    }
  }

  method TruncateFromIndex(entries: seq<Entry>, index: nat) returns (kept: seq<Entry>)
    ensures kept == TruncateFrom(entries, index)
  {
    var cut := |entries|;
    for i := 0 to |entries|
      invariant cut == |entries|
      invariant forall k :: 0 <= k < i ==> entries[k].index < index
    {
      if entries[i].index >= index {
        cut := i;
        break;
      }
    }
    assert cut == Cut(entries, index);
    kept := entries[..cut];
  }

  // ----- Encoding -----

  method AppendRecord(crc: Crc, dst: seq<Byte>, payload: seq<Byte>) returns (r: seq<Byte>)
    ensures r == dst + Frame(crc, payload)
  {
    var header := LE(|payload|, 4) + LE(crc(payload), 4);
    r := dst + header + payload;
  }

  method AppendHardStateRecord(crc: Crc, dst: seq<Byte>, hard: HardState) returns (r: seq<Byte>)
    ensures r == dst + Frame(crc, Payload(HardStateRecord(hard)))
  {
    r := AppendRecord(crc, dst, [1] + LE(hard.term, 8) + LE(hard.votedFor, 8));
  }

  method AppendTruncateRecord(crc: Crc, dst: seq<Byte>, from: nat) returns (r: seq<Byte>)
    ensures r == dst + Frame(crc, Payload(TruncateRecord(from)))
  {
    r := AppendRecord(crc, dst, [3] + LE(from, 8));
  }

  method AppendEntriesRecord(crc: Crc, dst: seq<Byte>, entries: seq<Entry>) returns (r: seq<Byte>)
    ensures r == dst + Frame(crc, Payload(EntriesRecord(entries)))
  {
    var payload: seq<Byte> := [2] + LE(|entries|, 4);
    for i := 0 to |entries|
      invariant payload == [2] + LE(|entries|, 4) + EncodeEntries(entries[..i])
    {
      assert entries[..i + 1][..i] == entries[..i];
      payload := payload + EntryHeader(entries[i]) + entries[i].data;
    }
    assert entries[..|entries|] == entries;
    r := AppendRecord(crc, dst, payload);
  }

  // ----- Recovery -----

  method DecodeBody(body: seq<Byte>) returns (r: Option<seq<Entry>>)
    ensures r == DecodeEntriesBody(body)
  {
    if |body| < 4 { return None; }
    var count := Unsigned(body[0..4]);
    if count == 0 { return None; }
    var rest := body[4..];
    var entries: seq<Entry> := [];
    PrependNone(DecodeEntries(rest, count));
    for i := 0 to count
      invariant Prepend(entries, DecodeEntries(rest, count - i)) == DecodeEntries(body[4..], count)
    {
      var e := FirstEntry(rest);
      if e == None { return None; }
      rest := rest[24 + |e.value.data|..];
      PrependOne(entries, e.value, DecodeEntries(rest, count - i - 1));
      entries := entries + [e.value];
    }
    if |rest| != 0 { return None; }
    assert entries + [] == entries;
    return Some(entries);
  }

  ghost function Prepend(a: seq<Entry>, r: Option<seq<Entry>>): Option<seq<Entry>> {
    match r
    case None => None
    case Some(b) => Some(a + b)
  }

  lemma PrependNone(r: Option<seq<Entry>>)
    ensures Prepend([], r) == r
  {
    if r.Some? { assert [] + r.value == r.value; }
  }

  lemma PrependOne(a: seq<Entry>, e: Entry, r: Option<seq<Entry>>)
    ensures Prepend(a, Prepend([e], r)) == Prepend(a + [e], r)
  {
    if r.Some? { assert a + ([e] + r.value) == a + [e] + r.value; }
  }

  /** The fold target of recovery. */
  class RecoveredState {
    var hard: HardState
    var entries: seq<Entry>

    function Contents(): Durable
      reads this
    {
      Durable(hard, entries)
    }

    constructor ()
      ensures Contents() == EMPTY
    {
      hard, entries := HardState(0, 0), [];
    }

    /** Folds one payload; false is a malformed one. */
    method Apply(payload: seq<Byte>) returns (ok: bool)
      modifies this
      ensures ok == Decode(payload).Some?
      ensures ok ==> Contents() == ApplyRecord(old(Contents()), Decode(payload).value)
    {
      if |payload| == 0 { return false; }
      if payload[0] == 1 {
        if |payload| != 17 { return false; }
        hard := HardState(Unsigned(payload[1..9]), Unsigned(payload[9..17]));
        return true;
      } else if payload[0] == 3 {
        if |payload| != 9 { return false; }
        var from := Unsigned(payload[1..9]);
        if from == 0 { return false; }
        entries := TruncateFromIndex(entries, from);
        return true;
      } else if payload[0] == 2 {
        var decoded := DecodeBody(payload[1..]);
        if decoded == None { return false; }
        NonEmptyBody(payload[1..]);
        var kept := TruncateFromIndex(entries, decoded.value[0].index);
        entries := kept + decoded.value;
        return true;
      }
      return false;
    }
  }

  lemma NonEmptyBody(body: seq<Byte>)
    requires DecodeEntriesBody(body).Some?
    ensures DecodeEntriesBody(body).value != []
  {}

  /** The scan result with records already found in front of it. */
  ghost function Ahead(rs: seq<Record>, n: nat, s: Scan): Scan {
    match s
    case Corrupt => Corrupt
    case Records(more, m) => Records(rs + more, n + m)
  }

  lemma AheadNone(s: Scan)
    ensures Ahead([], 0, s) == s
  {
    if s.Records? { assert [] + s.records == s.records; }
  }

  /** One whole record moves from the unread bytes to the found ones. */
  lemma AheadOne(crc: Crc, data: seq<Byte>, rs: seq<Record>, n: nat)
    requires FirstRecord(crc, data).Whole?
    ensures var h := FirstRecord(crc, data);
      Ahead(rs, n, ScanAll(crc, data)) == Ahead(rs + [h.record], n + h.size, ScanAll(crc, data[h.size..]))
  {
    hide FirstRecord;
    var h := FirstRecord(crc, data);
    var s := ScanAll(crc, data[h.size..]);
    if s.Records? { assert rs + ([h.record] + s.records) == rs + [h.record] + s.records; }
  }

  lemma AppliedOne(rs: seq<Record>, r: Record)
    ensures ApplyRecords(EMPTY, rs + [r]) == ApplyRecord(ApplyRecords(EMPTY, rs), r)
  {
    assert (rs + [r])[..|rs|] == rs;
  }

  /** Folds every whole record of the bytes in order; None is corruption. */
  method ParseRecords(crc: Crc, data: seq<Byte>) returns (state: Option<Durable>, complete: nat)
    ensures match ScanAll(crc, data)
            case Corrupt => state.None?
            case Records(rs, n) => state == Some(ApplyRecords(EMPTY, rs)) && complete == n
  {
    hide ScanAll, ApplyRecords, Decode, Unsigned, FirstRecord;
    var target := new RecoveredState();
    complete := 0;
    ghost var rs: seq<Record> := [];
    NoneApplied(EMPTY, rs);
    AheadNone(ScanAll(crc, data));
    assert data[0..] == data;
    while true
      invariant complete <= |data|
      invariant fresh(target) && target.Contents() == ApplyRecords(EMPTY, rs)
      invariant ScanAll(crc, data) == Ahead(rs, complete, ScanAll(crc, data[complete..]))
      decreases |data| - complete
    {
      var rest := data[complete..];
      HeadIs(crc, rest);
      if |rest| < HEADER { TornEnds(crc, rest, rs, complete); return Some(target.Contents()), complete; }
      var payloadLen := Unsigned(rest[0..4]);
      if |rest| < HEADER + payloadLen { TornEnds(crc, rest, rs, complete); return Some(target.Contents()), complete; }
      var payload := rest[HEADER..HEADER + payloadLen];
      if crc(payload) != Unsigned(rest[4..8]) { BadEnds(crc, rest, rs, complete); return None, 0; }
      var ok := target.Apply(payload);
      if !ok { BadEnds(crc, rest, rs, complete); return None, 0; }
      AheadOne(crc, rest, rs, complete);
      AppliedOne(rs, Decode(payload).value);
      rs := rs + [Decode(payload).value];
      complete := complete + HEADER + payloadLen;
      assert rest[HEADER + payloadLen..] == data[complete..];
    }
  }

  /** The record at the front of the bytes, check by check. */
  lemma HeadIs(crc: Crc, rest: seq<Byte>)
    ensures |rest| < HEADER ==> FirstRecord(crc, rest).Torn?
    ensures |rest| >= HEADER ==>
      var n := Unsigned(rest[0..4]);
      if |rest| < HEADER + n then FirstRecord(crc, rest).Torn?
      else
        var payload := rest[HEADER..HEADER + n];
        if crc(payload) != Unsigned(rest[4..8]) || Decode(payload).None? then FirstRecord(crc, rest).Bad?
        else FirstRecord(crc, rest) == Whole(Decode(payload).value, HEADER + n)
  {
    hide Decode, Unsigned;
  }

  lemma TornEnds(crc: Crc, rest: seq<Byte>, rs: seq<Record>, n: nat)
    requires FirstRecord(crc, rest).Torn?
    ensures Ahead(rs, n, ScanAll(crc, rest)) == Records(rs, n)
  {
    assert rs + [] == rs;
  }

  lemma BadEnds(crc: Crc, rest: seq<Byte>, rs: seq<Record>, n: nat)
    requires FirstRecord(crc, rest).Bad?
    ensures Ahead(rs, n, ScanAll(crc, rest)) == Corrupt
  {}

  /** A storage that reads back the folded state. */
  method Materialize(state: Durable) returns (view: MemStorage)
    ensures fresh(view) && view.Contents() == state
  {
    view := new MemStorage();
    view.Save(Some(state.hard), []);
    if |state.log| > 0 {
      view.Save(None, state.log);
    }
  }

  // ----- The crash model -----

  datatype CrashPoint = BeforeSync | AfterSyncBeforeSend | AfterSend

  /** Crash at the Save with this ordinal; `retain` dirty bytes survive, all of them when None. */
  datatype Directive = Directive(save: nat, point: CrashPoint, retain: Option<nat>)

  ghost predicate AllEncodable(rs: seq<Record>) { forall r :: r in rs ==> Encodable(r) }

  function Retained(retain: Option<nat>, dirty: nat): nat {
    if retain.Some? && retain.value < dirty then retain.value else dirty
  }

  class Disk {
    const crc: Crc
    const directives: seq<Directive>
    var next: nat
    var saves: nat
    var durable: seq<Byte>
    var unsynced: seq<Byte>
    var view: MemStorage
    var crashed: bool
    var armed: bool
    ghost var records: seq<Record>   // the whole records on the platter

    function Contents(): Durable
      reads this, view
    {
      view.Contents()
    }

    /** The directive the next accepted Save will meet. */
    function Planned(): Option<Directive>
      reads this
    {
      if next < |directives| && directives[next].save == saves + 1 then Some(directives[next]) else None
    }

    /** The view is the fold of the whole records; a live platter holds nothing else. */
    ghost predicate Valid()
      reads this, view
    {
      && unsynced == [] && AllEncodable(records)
      && ScanAll(crc, durable) == Records(records, |EncodeAll(crc, records)|)
      && EncodeAll(crc, records) <= durable
      && (if crashed then !armed else durable == EncodeAll(crc, records))
      && view.Contents() == ApplyRecords(EMPTY, records)
    }

    constructor (crc: Crc, directives: seq<Directive>)
      ensures Valid() && fresh(view) && Contents() == EMPTY && !crashed && !armed
    {
      this.crc, this.directives := crc, directives;
      next, saves, durable, unsynced, crashed, armed := 0, 0, [], [], false, false;
      records := [];
      view := new MemStorage();
    }

    /**
     One Save. It succeeds, or the storage is down afterwards and holds a record prefix of
     the batch: the whole of it when the crash came after the sync barrier, and as many
     records as the retained dirty bytes hold when it came before.
     */
    method Save(hs: Option<HardState>, entries: seq<Entry>) returns (ok: bool, ghost kept: nat)
      requires Valid() && AllEncodable(BatchRecords(Contents(), hs, entries))
      modifies this, view
      ensures Valid() && (view == old(view) || fresh(view)) && crashed == !ok
      ensures var batch := BatchRecords(old(Contents()), hs, entries);
        && kept <= |batch|
        && Contents() == ApplyRecords(old(Contents()), batch[..kept])
        && (if old(crashed) || old(armed) then !ok && kept == 0
            else match old(Planned())
                 case None => ok && kept == |batch|
                 case Some(d) =>
                   && ok == (d.point == AfterSend)
                   && kept == if d.point == BeforeSync
                              then WholeWithin(crc, batch, Retained(d.retain, |EncodeAll(crc, batch)|)) else |batch|)
      ensures ok ==> Contents() == Storage.Save(old(Contents()), hs, entries)
      ensures armed == (ok && old(Planned()).Some?)
      ensures var refused := old(crashed) || old(armed);
        var bytes := EncodeAll(crc, BatchRecords(old(Contents()), hs, entries));
        && saves == (if refused then old(saves) else old(saves) + 1)
        && next == (if refused || old(Planned()).None? then old(next) else old(next) + 1)
        && durable == old(durable) +
             if refused then []
             else match old(Planned())
                  case Some(Directive(_, BeforeSync, Some(n))) => if n < |bytes| then bytes[..n] else bytes
                  case _ => bytes
    {
      hide ScanAll, EncodeAll, WholeWithin, Encodable, ApplyRecords, BatchRecords;
      ghost var before, batch := Contents(), BatchRecords(Contents(), hs, entries);
      kept := 0;
      NoneApplied(before, batch);
      if crashed { return false, 0; }
      if armed {
        FailClean();
        return false, 0;
      }
      var directive := Planned();
      saves := saves + 1;
      StageBatch(hs, entries);
      if directive.Some? {
        next := next + 1;
      }
      if directive.Some? && directive.value.point == BeforeSync {
        kept := Fail(directive.value.retain, batch);
        return false, kept;
      }
      Sync(hs, entries);
      kept := |batch|;
      assert batch[..kept] == batch;
      WholeBatchIsSave(before, hs, entries);
      if directive.Some? && directive.value.point == AfterSyncBeforeSend {
        FailClean();
        return false, kept;
      }
      armed := directive.Some?;
      return true, kept;
    }

    /** Writes the batch's records to the dirty buffer in replay order. */
    method StageBatch(hs: Option<HardState>, entries: seq<Entry>)
      requires unsynced == []
      modifies this`unsynced
      ensures unsynced == EncodeAll(crc, BatchRecords(Contents(), hs, entries))
    {
      BatchBytes(crc, Contents(), hs, entries);
      hide EncodeAll, BatchRecords, Frame, Payload;
      if hs.Some? {
        unsynced := AppendHardStateRecord(crc, unsynced, hs.value);
      }
      if |entries| > 0 {
        var first := entries[0].index;
        if first != 0 && first <= LastIndex(view.entries) {
          unsynced := AppendTruncateRecord(crc, unsynced, first);
        }
        unsynced := AppendEntriesRecord(crc, unsynced, entries);
      }
    }

    /** The sync barrier: staged bytes become durable and the view takes the batch. */
    method Sync(hs: Option<HardState>, entries: seq<Entry>)
      requires AllEncodable(records) && AllEncodable(BatchRecords(Contents(), hs, entries))
      requires durable == EncodeAll(crc, records) && unsynced == EncodeAll(crc, BatchRecords(Contents(), hs, entries))
      requires Contents() == ApplyRecords(EMPTY, records) && !crashed
      modifies this`durable, this`unsynced, this`records, view
      ensures Valid() && Contents() == Storage.Save(old(Contents()), hs, entries)
      ensures durable == old(durable) + old(unsynced)
    {
      hide ScanAll, EncodeAll, Encodable, ApplyRecords, BatchRecords;
      ghost var batch := BatchRecords(Contents(), hs, entries);
      durable := durable + unsynced;
      unsynced := [];
      WholeBatchIsSave(Contents(), hs, entries);
      ApplyRecordsConcat(EMPTY, records, batch);
      EncodeAllConcat(crc, records, batch);
      records := records + batch;
      WholeLogScans(crc, records);
      view.Save(hs, entries);
    }

    /** A kill between batches: exactly the durable bytes survive. */
    method Crash() returns (ok: bool)
      requires Valid()
      modifies this
      ensures Valid() && crashed && ok == !old(crashed) && Contents() == old(Contents())
      ensures view == old(view) || fresh(view)
    {
      if crashed { return false; }
      FailClean();
      return true;
    }

    /** Fires an armed after-send crash. */
    method CrashIfArmed() returns (fired: bool)
      requires Valid()
      modifies this
      ensures Valid() && fired == (!old(crashed) && old(armed)) && crashed == (old(crashed) || fired) && !armed
      ensures Contents() == old(Contents()) && (view == old(view) || fresh(view))
    {
      if crashed || !armed { return false; }
      FailClean();
      return true;
    }

    method FailClean()
      requires Valid() && !crashed
      modifies this
      ensures Valid() && crashed && !armed && fresh(view) && Contents() == old(Contents())
      ensures next == old(next) && saves == old(saves) && durable == old(durable)
    {
      hide ScanAll, EncodeAll, WholeWithin, Encodable, ApplyRecords;
      EncodeNone(crc);
      assert records + [] == records;
      ghost var kept := Fail(Some(0), []);
      NoneApplied(old(Contents()), []);
    }

    /** Rebuilds the view from the surviving bytes and trims a torn final record. */
    method Recover() returns (ok: bool)
      requires Valid()
      modifies this
      ensures Valid() && !crashed && ok == old(crashed) && armed == old(armed)
      ensures Contents() == old(Contents()) && records == old(records) && durable == EncodeAll(crc, records)
      ensures view == old(view) || fresh(view)
    {
      hide ScanAll, EncodeAll, WholeWithin, Encodable, ApplyRecords;
      if !crashed { return false; }
      var state, complete := ParseRecords(crc, durable);
      durable := durable[..complete];
      assert durable == EncodeAll(crc, records);
      WholeLogScans(crc, records);
      view := Materialize(state.value);
      crashed := false;
      return true;
    }

    /** Keeps the platter and a byte prefix of the dirty buffer, and rereads what survived. */
    method Fail(retain: Option<nat>, ghost staged: seq<Record>) returns (ghost kept: nat)
      requires AllEncodable(records + staged) && durable == EncodeAll(crc, records)
      requires unsynced == EncodeAll(crc, staged)
      modifies this
      ensures Valid() && crashed && !armed && fresh(view) && next == old(next) && saves == old(saves)
      ensures kept == WholeWithin(crc, staged, Retained(retain, |EncodeAll(crc, staged)|))
      ensures durable == old(durable) + old(unsynced)[..Retained(retain, |old(unsynced)|)]
      ensures Contents() == ApplyRecords(ApplyRecords(EMPTY, old(records)), staged[..kept])
    {
      hide ScanAll, EncodeAll, WholeWithin, Encodable, ApplyRecords;
      var keep := Retained(retain, |unsynced|);
      SurvivingRecords(crc, records, staged, keep);
      kept := WholeWithin(crc, staged, keep);
      durable := durable + unsynced[..keep];
      unsynced := [];
      crashed, armed := true, false;
      var state, complete := ParseRecords(crc, durable);
      records := records + staged[..kept];
      view := Materialize(state.value);
      ApplyRecordsConcat(EMPTY, old(records), staged[..kept]);
    }
  }

  lemma NoneWithin(crc: Crc, rs: seq<Record>)
    ensures WholeWithin(crc, rs, 0) == 0
  {
    hide Payload;
  }

  /**
   Every record prefix of a batch is left by some crash before the sync barrier, and the whole
   batch by one that keeps all dirty bytes.
   */
  lemma EveryRecordPrefixCanSurvive(crc: Crc, batch: seq<Record>, j: nat) returns (retain: nat)
    requires j <= |batch|
    ensures var size := |EncodeAll(crc, batch)|;
      && WholeWithin(crc, batch, Retained(Some(retain), size)) == j
      && WholeWithin(crc, batch, Retained(None, size)) == |batch|
  {
    hide EncodeAll, WholeWithin;
    NoneWithin(crc, batch[j..]);
    NoneWithin(crc, []);
    retain := |EncodeAll(crc, batch[..j])|;
    assert batch[..j] + batch[j..] == batch && batch + [] == batch;
    EncodeAllConcat(crc, batch[..j], batch[j..]);
    PrefixWithin(crc, batch[..j], batch[j..], 0);
    PrefixWithin(crc, batch, [], 0);
  }

  lemma NoneApplied(d: Durable, rs: seq<Record>)
    ensures ApplyRecords(d, rs[..0]) == d
  {}

  lemma WholeLogScans(crc: Crc, rs: seq<Record>)
    requires AllEncodable(rs)
    ensures ScanAll(crc, EncodeAll(crc, rs)) == Records(rs, |EncodeAll(crc, rs)|)
  {
    hide ScanAll, EncodeAll, WholeWithin, Encodable;
    var data := EncodeAll(crc, rs);
    TornLogScans(crc, rs, |data|);
    PrefixWithin(crc, rs, [], 0);
    assert rs + [] == rs && rs[..|rs|] == rs && data[..|data|] == data;
  }

  /** The bytes of a batch are those of its optional parts in order. */
  lemma BatchBytes(crc: Crc, d: Durable, hs: Option<HardState>, entries: seq<Entry>)
    ensures EncodeAll(crc, BatchRecords(d, hs, entries))
         == (if hs.Some? then Frame(crc, Payload(HardStateRecord(hs.value))) else [])
          + (if entries != [] && entries[0].index != 0 && entries[0].index <= LastIndex(d.log)
             then Frame(crc, Payload(TruncateRecord(entries[0].index))) else [])
          + (if entries != [] then Frame(crc, Payload(EntriesRecord(entries))) else [])
  {
    var a: seq<Record> := if hs.Some? then [HardStateRecord(hs.value)] else [];
    var b: seq<Record> := if entries != [] && entries[0].index != 0 && entries[0].index <= LastIndex(d.log)
                          then [TruncateRecord(entries[0].index)] else [];
    var e: seq<Record> := if entries != [] then [EntriesRecord(entries)] else [];
    assert BatchRecords(d, hs, entries) == a + b + e;
    EncodeAllConcat(crc, a + b, e);
    EncodeAllConcat(crc, a, b);
    if hs.Some? { EncodeOne(crc, HardStateRecord(hs.value)); }
    if b != [] { EncodeOne(crc, b[0]); }
    if e != [] { EncodeOne(crc, e[0]); }
    hide Frame, Payload;
  }

  lemma EncodeOne(crc: Crc, r: Record)
    ensures EncodeAll(crc, [r]) == Frame(crc, Payload(r))
  {
    assert [r] + [] == [r];
    EncodeAllCons(crc, r, []);
  }

  lemma PrefixWithin(crc: Crc, rs: seq<Record>, staged: seq<Record>, keep: nat)
    ensures WholeWithin(crc, rs + staged, |EncodeAll(crc, rs)| + keep) == |rs| + WholeWithin(crc, staged, keep)
    decreases |rs|
  {
    hide Frame, Payload, EncodeAll;
    if rs == [] {
      EncodeNone(crc);
      assert rs + staged == staged;
    } else {
      var r, rest := rs[0], rs[1..];
      assert rs == [r] + rest;
      EncodeAllCons(crc, r, rest);
      assert (rs + staged)[1..] == rest + staged;
      PrefixWithin(crc, rest, staged, keep);
    }
  }

  /** After a crash the platter scans to the old records and a prefix of the staged ones. */
  lemma SurvivingRecords(crc: Crc, rs: seq<Record>, staged: seq<Record>, keep: nat)
    requires AllEncodable(rs + staged) && keep <= |EncodeAll(crc, staged)|
    ensures var platter := EncodeAll(crc, rs) + EncodeAll(crc, staged)[..keep];
      var whole := rs + staged[..WholeWithin(crc, staged, keep)];
      && ScanAll(crc, platter) == Records(whole, |EncodeAll(crc, whole)|)
      && EncodeAll(crc, whole) <= platter && AllEncodable(whole)
  {
    hide ScanAll, EncodeAll, WholeWithin, Encodable;
    var all, n := rs + staged, |EncodeAll(crc, rs)| + keep;
    var j := WholeWithin(crc, staged, keep);
    EncodeAllConcat(crc, rs, staged);
    TornLogScans(crc, all, n);
    PrefixWithin(crc, rs, staged, keep);
    assert all[..|rs| + j] == rs + staged[..j];
    assert EncodeAll(crc, all)[..n] == EncodeAll(crc, rs) + EncodeAll(crc, staged)[..keep];
    WholeWithinIs(crc, staged, keep);
    EncodeAllConcat(crc, rs, staged[..j]);
    EncodeAllConcat(crc, staged[..j], staged[j..]);
    assert staged[..j] + staged[j..] == staged;
  }
}
