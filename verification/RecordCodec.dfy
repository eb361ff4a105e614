/**
 The crash storage's record bytes: a length and checksum header around a payload with a
 kind byte and fixed-width fields. The checksum is an arbitrary function of the payload.
 */
module RecordCodec {
  import opened RaftTypes
  import opened Storage
  import opened Bytes

  /** Any 32-bit checksum. */
  type Crc = seq<Byte> -> U32

  type U32 = n: int | 0 <= n < 0x1_0000_0000 witness 0

  const HEADER: nat := 8

  // ----- Entries -----

  function TypeCode(t: EntryType): nat {
    match t
    case Unspecified => 0
    case Normal => 1
    case Noop => 2
    case Other(code) => code
  }

  function TypeOf(code: nat): EntryType {
    if code == 0 then Unspecified else if code == 1 then Normal else if code == 2 then Noop else Other(code)
  }

  /** The entry's fields fit their encoded widths. */
  predicate FitsEntry(e: Entry) {
    && Fits(e.index, 8) && Fits(e.term, 8) && Fits(|e.data|, 4)
    && Fits(TypeCode(e.typ), 4) && TypeOf(TypeCode(e.typ)) == e.typ
  }

  function EntryHeader(e: Entry): (bs: seq<Byte>)
    ensures |bs| == 24
  {
    LE(e.index, 8) + LE(e.term, 8) + LE(TypeCode(e.typ), 4) + LE(|e.data|, 4)
  }

  function EncodeEntries(es: seq<Entry>): seq<Byte> {
    if es == [] then [] else EncodeEntries(es[..|es| - 1]) + EntryHeader(es[|es| - 1]) + es[|es| - 1].data
  }

  /** The first entry of a body and its encoded length, if the body holds one whole entry. */
  function FirstEntry(body: seq<Byte>): Option<Entry> {
    if |body| < 24 then None
    else
      var n := Unsigned(body[20..24]);
      if |body| < 24 + n then None
      else Some(Entry(Unsigned(body[0..8]), Unsigned(body[8..16]), TypeOf(Unsigned(body[16..20])), body[24..24 + n]))
  }

  function DecodeEntries(body: seq<Byte>, count: nat): Option<seq<Entry>>
    decreases count
  {
    if count == 0 then if body == [] then Some([]) else None
    else
      match FirstEntry(body)
      case None => None
      case Some(e) =>
        match DecodeEntries(body[24 + |e.data|..], count - 1)
        case None => None
        case Some(es) => Some([e] + es)
  }

  lemma FirstEntryOf(e: Entry, rest: seq<Byte>)
    requires FitsEntry(e)
    ensures FirstEntry(EntryHeader(e) + e.data + rest) == Some(e)
    ensures (EntryHeader(e) + e.data + rest)[24 + |e.data|..] == rest
  {
    var body := EntryHeader(e) + e.data + rest;
    assert body[0..8] == LE(e.index, 8);
    assert body[8..16] == LE(e.term, 8);
    assert body[16..20] == LE(TypeCode(e.typ), 4);
    assert body[20..24] == LE(|e.data|, 4);
    assert body[24..24 + |e.data|] == e.data;
    LERoundTrip(e.index, 8);
    LERoundTrip(e.term, 8);
    LERoundTrip(TypeCode(e.typ), 4);
    LERoundTrip(|e.data|, 4);
  }

  lemma {:induction false} EncodeCons(e: Entry, es: seq<Entry>)
    ensures EncodeEntries([e] + es) == EntryHeader(e) + e.data + EncodeEntries(es)
    decreases |es|
  {
    var all := [e] + es;
    if es == [] {
      assert all[..0] == [];
      assert EncodeEntries(all) == EncodeEntries([]) + EntryHeader(e) + e.data;
    } else {
      var last := es[|es| - 1];
      assert all[..|all| - 1] == [e] + es[..|es| - 1];
      EncodeCons(e, es[..|es| - 1]);
      assert EncodeEntries(all) == EncodeEntries([e] + es[..|es| - 1]) + EntryHeader(last) + last.data;
    }
  }

  lemma {:induction false} EntriesRoundTrip(es: seq<Entry>)
    requires forall e :: e in es ==> FitsEntry(e)
    ensures DecodeEntries(EncodeEntries(es), |es|) == Some(es)
    decreases |es|
  {
    if es != [] {
      var e, rest := es[0], es[1..];
      assert es == [e] + rest;
      EncodeCons(e, rest);
      FirstEntryOf(e, EncodeEntries(rest));
      EntriesRoundTrip(rest);
    }
  }

  // ----- Records -----

  function Payload(r: Record): (p: seq<Byte>)
    ensures p != []
  {
    match r
    case HardStateRecord(hard) => [1] + LE(hard.term, 8) + LE(hard.votedFor, 8)
    case EntriesRecord(entries) => [2] + LE(|entries|, 4) + EncodeEntries(entries)
    case TruncateRecord(from) => [3] + LE(from, 8)
  }

  /** The record can be written: every field fits its width, and it is one Save writes. */
  predicate Encodable(r: Record) {
    && Fits(|Payload(r)|, 4)
    && match r
       case HardStateRecord(hard) => Fits(hard.term, 8) && Fits(hard.votedFor, 8)
       case EntriesRecord(entries) =>
         entries != [] && Fits(|entries|, 4) && forall e :: e in entries ==> FitsEntry(e)
       case TruncateRecord(from) => from != 0 && Fits(from, 8)
  }

  function DecodeEntriesBody(body: seq<Byte>): Option<seq<Entry>> {
    if |body| < 4 then None
    else if Unsigned(body[0..4]) == 0 then None
    else DecodeEntries(body[4..], Unsigned(body[0..4]))
  }

  /** None is a malformed payload. */
  function Decode(payload: seq<Byte>): Option<Record> {
    if payload == [] then None
    else if payload[0] == 1 then
      if |payload| != 17 then None
      else Some(HardStateRecord(HardState(Unsigned(payload[1..9]), Unsigned(payload[9..17]))))
    else if payload[0] == 3 then
      if |payload| != 9 || Unsigned(payload[1..9]) == 0 then None
      else Some(TruncateRecord(Unsigned(payload[1..9])))
    else if payload[0] == 2 then
      match DecodeEntriesBody(payload[1..])
      case None => None
      case Some(entries) => Some(EntriesRecord(entries))
    else None
  }

  lemma HardStateDecodes(hard: HardState)
    requires Fits(hard.term, 8) && Fits(hard.votedFor, 8)
    ensures Decode(Payload(HardStateRecord(hard))) == Some(HardStateRecord(hard))
  {
    hide LE, Unsigned, Pow256;
    var p := Payload(HardStateRecord(hard));
    assert p[1..9] == LE(hard.term, 8) && p[9..17] == LE(hard.votedFor, 8);
    LERoundTrip(hard.term, 8);
    LERoundTrip(hard.votedFor, 8);
  }

  lemma TruncateDecodes(from: nat)
    requires from != 0 && Fits(from, 8)
    ensures Decode(Payload(TruncateRecord(from))) == Some(TruncateRecord(from))
  {
    hide LE, Unsigned, Pow256;
    assert Payload(TruncateRecord(from))[1..9] == LE(from, 8);
    LERoundTrip(from, 8);
  }

  lemma EntriesDecode(entries: seq<Entry>)
    requires entries != [] && Fits(|entries|, 4) && forall e :: e in entries ==> FitsEntry(e)
    ensures Decode(Payload(EntriesRecord(entries))) == Some(EntriesRecord(entries))
  {
    hide LE, Unsigned, Pow256, FitsEntry, EncodeEntries, DecodeEntries;
    var body := Payload(EntriesRecord(entries))[1..];
    assert body[0..4] == LE(|entries|, 4) && body[4..] == EncodeEntries(entries);
    LERoundTrip(|entries|, 4);
    EntriesRoundTrip(entries);
  }

  lemma DecodePayload(r: Record)
    requires Encodable(r)
    ensures Decode(Payload(r)) == Some(r)
  {
    hide Payload, Decode;
    match r
    case HardStateRecord(hard) => HardStateDecodes(hard);
    case EntriesRecord(entries) => EntriesDecode(entries);
    case TruncateRecord(from) => TruncateDecodes(from);
  }

  // ----- The byte log -----

  function Frame(crc: Crc, payload: seq<Byte>): (f: seq<Byte>)
    ensures |f| == HEADER + |payload|
  {
    LE(|payload|, 4) + LE(crc(payload), 4) + payload
  }

  function EncodeAll(crc: Crc, rs: seq<Record>): seq<Byte> {
    if rs == [] then [] else EncodeAll(crc, rs[..|rs| - 1]) + Frame(crc, Payload(rs[|rs| - 1]))
  }

  /** What a scan of the surviving bytes finds: whole records and their byte length, or corruption. */
  datatype Scan = Records(records: seq<Record>, complete: nat) | Corrupt

  /** One step of the scan at the start of `data`: the record there, if a whole one is present. */
  datatype Head = Torn | Bad | Whole(record: Record, size: nat)

  function FirstRecord(crc: Crc, data: seq<Byte>): (h: Head)
    ensures h.Whole? ==> HEADER <= h.size <= |data|
  {
    if |data| < HEADER then Torn
    else
      var n := Unsigned(data[0..4]);
      if |data| < HEADER + n then Torn
      else
        var payload := data[HEADER..HEADER + n];
        if crc(payload) != Unsigned(data[4..8]) then Bad
        else match Decode(payload)
             case None => Bad
             case Some(r) => Whole(r, HEADER + n)
  }

  function ScanAll(crc: Crc, data: seq<Byte>): (s: Scan)
    ensures s.Records? ==> s.complete <= |data|
    decreases |data|
  {
    match FirstRecord(crc, data)
    case Torn => Records([], 0)
    case Bad => Corrupt
    case Whole(r, n) =>
      match ScanAll(crc, data[n..])
      case Corrupt => Corrupt
      case Records(rs, m) => Records([r] + rs, n + m)
  }

  lemma {:induction false} EncodeAllCons(crc: Crc, r: Record, rs: seq<Record>)
    ensures EncodeAll(crc, [r] + rs) == Frame(crc, Payload(r)) + EncodeAll(crc, rs)
    decreases |rs|
  {
    hide Frame, Payload;
    var all := [r] + rs;
    if rs == [] {
      assert all[..0] == [];
    } else {
      var front, last := rs[..|rs| - 1], rs[|rs| - 1];
      assert all[..|all| - 1] == [r] + front;
      EncodeAllCons(crc, r, front);
      AssociateBytes(Frame(crc, Payload(r)), EncodeAll(crc, front), Frame(crc, Payload(last)));
    }
  }

  lemma {:induction false} EncodeAllConcat(crc: Crc, a: seq<Record>, b: seq<Record>)
    ensures EncodeAll(crc, a + b) == EncodeAll(crc, a) + EncodeAll(crc, b)
    decreases |b|
  {
    hide Frame, Payload;
    if b == [] {
      assert a + b == a;
    } else {
      var front, last := b[..|b| - 1], b[|b| - 1];
      assert (a + b)[..|a + b| - 1] == a + front;
      EncodeAllConcat(crc, a, front);
      AssociateBytes(EncodeAll(crc, a), EncodeAll(crc, front), Frame(crc, Payload(last)));
    }
  }

  lemma AssociateBytes(a: seq<Byte>, b: seq<Byte>, c: seq<Byte>)
    ensures (a + b) + c == a + (b + c)
  {}

  lemma FrameFields(crc: Crc, payload: seq<Byte>)
    requires Fits(|payload|, 4)
    ensures Unsigned(Frame(crc, payload)[0..4]) == |payload|
    ensures Unsigned(Frame(crc, payload)[4..8]) == crc(payload)
    ensures Frame(crc, payload)[8..] == payload
  {
    var f := Frame(crc, payload);
    assert f[0..4] == LE(|payload|, 4) && f[4..8] == LE(crc(payload), 4);
    LERoundTrip(|payload|, 4);
    assert Pow256(4) == 0x1_0000_0000;
    LERoundTrip(crc(payload), 4);
  }

  lemma FitsPayload(r: Record)
    requires Encodable(r)
    ensures Fits(|Payload(r)|, 4)
  {}

  /** A whole record at the front is found; a proper prefix of one is a torn tail, never corruption. */
  lemma FrontRecord(crc: Crc, r: Record, rest: seq<Byte>, k: nat)
    requires Encodable(r) && k <= |Frame(crc, Payload(r))| + |rest|
    ensures var f := Frame(crc, Payload(r));
      FirstRecord(crc, (f + rest)[..k]) == if k < |f| then Torn else Whole(r, |f|)
  {
    hide Payload, Frame, Decode, Unsigned, Pow256, Encodable;
    var payload := Payload(r);
    FitsPayload(r);
    FrameFields(crc, payload);
    DecodePayload(r);
    var f := Frame(crc, payload);
    var data := (f + rest)[..k];
    if k >= HEADER {
      assert data[0..4] == f[0..4] && data[4..8] == f[4..8];
      if k >= |f| { assert data[HEADER..HEADER + |payload|] == f[8..]; }
    }
  }

  /** Number of leading records wholly inside the first k bytes. */
  function WholeWithin(crc: Crc, rs: seq<Record>, k: nat): (j: nat)
    ensures j <= |rs|
  {
    if rs == [] then 0
    else
      var n := |Frame(crc, Payload(rs[0]))|;
      if k < n then 0 else 1 + WholeWithin(crc, rs[1..], k - n)
  }

  lemma EncodeNone(crc: Crc)
    ensures EncodeAll(crc, []) == []
  {}

  lemma EmptyScans(crc: Crc)
    ensures ScanAll(crc, []) == Records([], 0)
  {}

  /** Any byte prefix of a log of records scans to exactly a record prefix, and never as corrupt. */
  lemma {:induction false} TornLogScans(crc: Crc, rs: seq<Record>, k: nat)
    requires (forall r :: r in rs ==> Encodable(r)) && k <= |EncodeAll(crc, rs)|
    ensures var j := WholeWithin(crc, rs, k);
      ScanAll(crc, EncodeAll(crc, rs)[..k]) == Records(rs[..j], |EncodeAll(crc, rs[..j])|)
    decreases |rs|
  {
    hide EncodeAll, Frame, Payload, FirstRecord, Encodable;
    EncodeNone(crc);
    if rs == [] {
      EmptyScans(crc);
    } else {
      var r, rest := rs[0], rs[1..];
      assert rs == [r] + rest;
      var f, tail := Frame(crc, Payload(r)), EncodeAll(crc, rest);
      EncodeAllCons(crc, r, rest);
      FrontRecord(crc, r, tail, k);
      if k >= |f| {
        assert (f + tail)[..k][|f|..] == tail[..k - |f|];
        TornLogScans(crc, rest, k - |f|);
        var j := WholeWithin(crc, rest, k - |f|);
        assert rs[..j + 1] == [r] + rest[..j];
        EncodeAllCons(crc, r, rest[..j]);
      }
    }
  }

  /** The record prefix found is the longest one the bytes hold. */
  lemma {:induction false} WholeWithinIs(crc: Crc, rs: seq<Record>, k: nat)
    requires k <= |EncodeAll(crc, rs)|
    ensures var j := WholeWithin(crc, rs, k);
      && |EncodeAll(crc, rs[..j])| <= k
      && (j < |rs| ==> k < |EncodeAll(crc, rs[..j + 1])|)
    decreases |rs|
  {
    hide EncodeAll, Frame, Payload;
    EncodeNone(crc);
    if rs != [] {
      var r, rest := rs[0], rs[1..];
      assert rs == [r] + rest;
      var n := |Frame(crc, Payload(r))|;
      EncodeAllCons(crc, r, rest);
      if k >= n {
        WholeWithinIs(crc, rest, k - n);
        var j := WholeWithin(crc, rest, k - n);
        assert rs[..j + 1] == [r] + rest[..j];
        EncodeAllCons(crc, r, rest[..j]);
        if j < |rest| {
          assert rs[..j + 2] == [r] + rest[..j + 1];
          EncodeAllCons(crc, r, rest[..j + 1]);
        }
      } else {
        assert rs[..1] == [r] + rest[..0];
        EncodeAllCons(crc, r, rest[..0]);
      }
    }
  }

  // ----- Nothing else is accepted -----

  lemma EntryAccepted(body: seq<Byte>)
    requires FirstEntry(body).Some?
    ensures var e := FirstEntry(body).value;
      24 + |e.data| <= |body| && body[..24 + |e.data|] == EntryHeader(e) + e.data
  {
    hide LE, Unsigned;
    HeaderAccepted(body[..24]);
    var e := FirstEntry(body).value;
    assert body[..24][0..8] == body[0..8] && body[..24][8..16] == body[8..16];
    assert body[..24][16..20] == body[16..20] && body[..24][20..24] == body[20..24];
    hide EntryHeader;
    assert body[..24 + |e.data|] == body[..24] + body[24..24 + |e.data|];
  }

  lemma HeaderAccepted(h: seq<Byte>)
    requires |h| == 24
    ensures h == LE(Unsigned(h[0..8]), 8) + LE(Unsigned(h[8..16]), 8) + LE(Unsigned(h[16..20]), 4)
                 + LE(Unsigned(h[20..24]), 4)
  {
    hide LE, Unsigned;
    UnsignedInjective(h[0..8]);
    UnsignedInjective(h[8..16]);
    UnsignedInjective(h[16..20]);
    UnsignedInjective(h[20..24]);
    assert h == h[0..8] + h[8..16] + h[16..20] + h[20..24];
  }

  lemma {:induction false} EntriesAccepted(body: seq<Byte>, count: nat)
    requires DecodeEntries(body, count).Some?
    ensures var es := DecodeEntries(body, count).value; |es| == count && EncodeEntries(es) == body
    decreases count
  {
    if count > 0 {
      hide EntryHeader, EncodeEntries, FirstEntry;
      var e := FirstEntry(body).value;
      EntryAccepted(body);
      var rest := body[24 + |e.data|..];
      EntriesAccepted(rest, count - 1);
      EncodeCons(e, DecodeEntries(rest, count - 1).value);
      assert body == body[..24 + |e.data|] + rest;
    }
  }

  /** Only the encoding of a record decodes to it. */
  lemma PayloadAccepted(payload: seq<Byte>)
    requires Decode(payload).Some?
    ensures Payload(Decode(payload).value) == payload
  {
    if payload[0] == 2 {
      var body := payload[1..];
      EntriesAccepted(body[4..], Unsigned(body[0..4]));
      UnsignedInjective(body[0..4]);
      hide LE, Unsigned, EncodeEntries, DecodeEntries;
      assert payload == [2] + body[0..4] + body[4..];
    } else if payload[0] == 1 {
      UnsignedInjective(payload[1..9]);
      UnsignedInjective(payload[9..17]);
      hide LE, Unsigned;
      assert payload == [1] + payload[1..9] + payload[9..17];
    } else {
      UnsignedInjective(payload[1..9]);
      hide LE, Unsigned;
      assert payload == [3] + payload[1..9];
    }
  }

  lemma RecordAccepted(crc: Crc, data: seq<Byte>)
    requires FirstRecord(crc, data).Whole?
    ensures var h := FirstRecord(crc, data); data[..h.size] == Frame(crc, Payload(h.record))
  {
    UnsignedInjective(data[0..4]);
    UnsignedInjective(data[4..8]);
    hide LE, Unsigned, Decode, Payload;
    var n := FirstRecord(crc, data).size - HEADER;
    PayloadAccepted(data[HEADER..HEADER + n]);
    assert data[..HEADER + n] == data[0..4] + data[4..8] + data[HEADER..HEADER + n];
  }

  /** What a scan accepts is the encoding of exactly the records it returns, checksums included, up to a torn one. */
  lemma {:induction false} ScannedAreRecords(crc: Crc, data: seq<Byte>)
    requires ScanAll(crc, data).Records?
    ensures var s := ScanAll(crc, data);
      data[..s.complete] == EncodeAll(crc, s.records) && FirstRecord(crc, data[s.complete..]) == Torn
    decreases |data|
  {
    hide Frame, Payload, EncodeAll, FirstRecord;
    EncodeNone(crc);
    var h := FirstRecord(crc, data);
    if h.Whole? {
      RecordAccepted(crc, data);
      ScannedAreRecords(crc, data[h.size..]);
      var s := ScanAll(crc, data[h.size..]);
      EncodeAllCons(crc, h.record, s.records);
      assert data[..h.size + s.complete] == data[..h.size] + data[h.size..][..s.complete];
      assert data[h.size..][s.complete..] == data[h.size + s.complete..];
    } else {
      assert data[0..] == data;
    }
  }
}
