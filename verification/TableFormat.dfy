/** The sorted table's byte formats: varint lengths, records, and the block index. */
module TableFormat {
  import opened RaftTypes
  import opened LsmTypes
  import opened Bytes

  // ----- Varints -----

  function Uvarint(n: nat): (bs: seq<Byte>)
    ensures |bs| > 0
  {
    if n < 128 then [n] else [n % 128 + 128] + Uvarint(n / 128)
  }

  function Pow128(k: nat): (p: nat)
    ensures p > 0
  {
    if k == 0 then 1 else 128 * Pow128(k - 1)
  }

  /** A varint whose first byte is its i-th, with the bytes it takes; none if cut short or over 64 bits. */
  function UvarintAt(data: seq<Byte>, i: nat): (r: Option<(nat, nat)>)
    ensures r.Some? ==> 0 < r.value.1 <= |data|
  {
    if data == [] || i >= 10 then None
    else if data[0] < 128 then if i == 9 && data[0] > 1 then None else Some((data[0], 1))
    else
      match UvarintAt(data[1..], i + 1)
      case None => None
      case Some((x, n)) => Some((data[0] - 128 + 128 * x, n + 1))
  }

  function ReadUvarint(data: seq<Byte>): (r: Option<(nat, nat)>)
    ensures r.Some? ==> 0 < r.value.1 <= |data|
  {
    UvarintAt(data, 0)
  }

  lemma {:induction false} UvarintReads(n: nat, i: nat, rest: seq<Byte>)
    requires i <= 9 && n < 2 * Pow128(9 - i)
    ensures UvarintAt(Uvarint(n) + rest, i) == Some((n, |Uvarint(n)|))
    decreases n
  {
    var data := Uvarint(n) + rest;
    if n >= 128 {
      assert i < 9;
      assert data[0] == n % 128 + 128 && data[1..] == Uvarint(n / 128) + rest;
      UvarintReads(n / 128, i + 1, rest);
    } else {
      assert data[0] == n;
    }
  }

  lemma UvarintRoundTrip(n: nat, rest: seq<Byte>)
    requires n <= MAX_UINT64
    ensures ReadUvarint(Uvarint(n) + rest) == Some((n, |Uvarint(n)|)) && (Uvarint(n) + rest)[|Uvarint(n)|..] == rest
  {
    assert 2 * Pow128(9) == MAX_UINT64 + 1;
    UvarintReads(n, 0, rest);
  }

  lemma LE64(n: nat)
    requires n <= MAX_UINT64
    ensures Unsigned(LE(n, 8)) == n
  {
    assert Pow256(8) == MAX_UINT64 + 1;
    LERoundTrip(n, 8);
  }

  // ----- Records -----

  /** The writer accepts the record's lengths. */
  predicate FitsRecord(v: Version) {
    |v.key| <= MAX_UINT32 && v.seq_ <= MAX_UINT64 && (v.value.Some? ==> |v.value.value| <= MAX_UINT32)
  }

  function ValueBytes(value: Option<seq<Byte>>): seq<Byte> {
    match value
    case None => [1] + Uvarint(0)
    case Some(bs) => [0] + Uvarint(|bs|) + bs
  }

  function RecordBytes(v: Version): (bs: seq<Byte>)
    ensures |bs| > 0
  {
    Uvarint(|v.key|) + (v.key + (LE(v.seq_, 8) + ValueBytes(v.value)))
  }

  /** The tombstone marker and value at the front of the bytes, with their length. */
  function FrontValue(data: seq<Byte>): (r: Option<(Option<seq<Byte>>, nat)>)
    ensures r.Some? ==> 0 < r.value.1 <= |data|
  {
    if data == [] || data[0] > 1 then None
    else
      match ReadUvarint(data[1..])
      case None => None
      case Some((size, n)) =>
        if size > |data| - 1 - n || (data[0] == 1 && size != 0) then None
        else Some((if data[0] == 1 then None else Some(data[1 + n..1 + n + size]), 1 + n + size))
  }

  /** The record at the front of the bytes, with its length. */
  function FrontRecord(data: seq<Byte>): (r: Option<(Version, nat)>)
    ensures r.Some? ==> 0 < r.value.1 <= |data|
  {
    match ReadUvarint(data)
    case None => None
    case Some((keyLen, n)) =>
      var rest := data[n..];
      if keyLen > |rest| || |rest| - keyLen < 9 then None
      else
        match FrontValue(rest[keyLen + 8..])
        case None => None
        case Some((value, size)) =>
          Some((Version(rest[..keyLen], Unsigned(rest[keyLen..keyLen + 8]), value), n + keyLen + 8 + size))
  }

  lemma TombstoneRoundTrip(rest: seq<Byte>)
    ensures FrontValue(ValueBytes(None) + rest) == Some((None, |ValueBytes(None)|))
  {
    hide Uvarint, ReadUvarint;
    var data := ValueBytes(None) + rest;
    assert data[0] == 1 && data[1..] == Uvarint(0) + rest;
    UvarintRoundTrip(0, rest);
  }

  lemma PresentRoundTrip(bs: seq<Byte>, rest: seq<Byte>)
    requires |bs| <= MAX_UINT32
    ensures FrontValue(ValueBytes(Some(bs)) + rest) == Some((Some(bs), |ValueBytes(Some(bs))|))
  {
    hide Uvarint, ReadUvarint;
    var data, size := ValueBytes(Some(bs)) + rest, Uvarint(|bs|);
    assert data[0] == 0 && data[1..] == size + (bs + rest);
    UvarintRoundTrip(|bs|, bs + rest);
    assert data[1 + |size|..1 + |size| + |bs|] == bs;
  }

  lemma ValueRoundTrip(value: Option<seq<Byte>>, rest: seq<Byte>)
    requires value.Some? ==> |value.value| <= MAX_UINT32
    ensures FrontValue(ValueBytes(value) + rest) == Some((value, |ValueBytes(value)|))
  {
    hide FrontValue, ValueBytes;
    match value
    case None => TombstoneRoundTrip(rest);
    case Some(bs) => PresentRoundTrip(bs, rest);
  }

  lemma RecordRoundTrip(v: Version, rest: seq<Byte>)
    requires FitsRecord(v)
    ensures FrontRecord(RecordBytes(v) + rest) == Some((v, |RecordBytes(v)|))
    ensures (RecordBytes(v) + rest)[|RecordBytes(v)|..] == rest
  {
    hide Uvarint, ReadUvarint, FrontValue, ValueBytes;
    var data, tail := RecordBytes(v) + rest, v.key + (LE(v.seq_, 8) + (ValueBytes(v.value) + rest));
    assert data == Uvarint(|v.key|) + tail;
    UvarintRoundTrip(|v.key|, tail);
    assert tail[..|v.key|] == v.key && tail[|v.key|..|v.key| + 8] == LE(v.seq_, 8);
    assert tail[|v.key| + 8..] == ValueBytes(v.value) + rest;
    LE64(v.seq_);
    ValueRoundTrip(v.value, rest);
    ValueSize(v.value);
  }

  lemma ValueSize(value: Option<seq<Byte>>)
    ensures |ValueBytes(value)| >= 2
  {}

  function Payload(g: seq<Version>): seq<Byte> {
    if g == [] then [] else RecordBytes(g[0]) + Payload(g[1..])
  }

  lemma {:induction false} PayloadSnoc(g: seq<Version>, v: Version)
    ensures Payload(g + [v]) == Payload(g) + RecordBytes(v)
  {
    if g == [] {
      assert g + [v] == [v] && [v][1..] == [] && Payload([]) == [];
      assert Payload([v]) == RecordBytes(v) + Payload([]);
    } else {
      assert (g + [v])[1..] == g[1..] + [v];
      PayloadSnoc(g[1..], v);
    }
  }

  /** All records of a block in order, each after the one before it. */
  function DecodeAll(data: seq<Byte>, last: Option<Version>): Option<seq<Version>>
    decreases |data|
  {
    if data == [] then Some([])
    else
      match FrontRecord(data)
      case None => None
      case Some((v, n)) =>
        if last.Some? && !Before(last.value, v) then None
        else
          match DecodeAll(data[n..], Some(v))
          case None => None
          case Some(vs) => Some([v] + vs)
  }

  ghost predicate AllFit(g: seq<Version>) { forall v :: v in g ==> FitsRecord(v) }

  lemma {:induction false} PayloadDecodes(g: seq<Version>, last: Option<Version>)
    requires AllFit(g) && SortedTable(g) && (last.Some? && g != [] ==> Before(last.value, g[0]))
    ensures DecodeAll(Payload(g), last) == Some(g)
    decreases |g|
  {
    hide Before, RecordBytes, FrontRecord, FitsRecord;
    if g != [] {
      RecordRoundTrip(g[0], Payload(g[1..]));
      PayloadDecodes(g[1..], Some(g[0]));
      assert [g[0]] + g[1..] == g;
    }
  }

  /** Prepends what a loop has read so far. */
  function Ahead(vs: seq<Version>, r: Option<seq<Version>>): Option<seq<Version>> {
    match r
    case None => None
    case Some(rest) => Some(vs + rest)
  }

  function Last(vs: seq<Version>): Option<Version> { if vs == [] then None else Some(vs[|vs| - 1]) }

  method DecodeRecords(data: seq<Byte>) returns (r: Option<seq<Version>>)
    ensures r == DecodeAll(data, None)
  {
    hide FrontRecord, Before;
    var entries, rest := [], data;
    AheadNone(DecodeAll(data, None));
    while rest != []
      invariant DecodeAll(data, None) == Ahead(entries, DecodeAll(rest, Last(entries)))
      decreases |rest|
    {
      var front := FrontRecord(rest);
      if front.None? { return None; }
      var (entry, n) := front.value;
      if entries != [] && !Before(entries[|entries| - 1], entry) { return None; }
      AheadOne(entries, entry, DecodeAll(rest[n..], Some(entry)));
      entries, rest := entries + [entry], rest[n..];
    }
    assert entries + [] == entries;
    return Some(entries);
  }

  lemma AheadNone(r: Option<seq<Version>>)
    ensures Ahead([], r) == r
  {
    if r.Some? { assert [] + r.value == r.value; }
  }

  lemma AheadOne(vs: seq<Version>, v: Version, r: Option<seq<Version>>)
    ensures Ahead(vs + [v], r) == Ahead(vs, Ahead([v], r))
  {
    if r.Some? { assert vs + [v] + r.value == vs + ([v] + r.value); }
  }

  // ----- Index -----

  datatype IndexEntry = IndexEntry(firstKey: Key, offset: nat, length: nat)

  predicate FitsIndex(e: IndexEntry) { |e.firstKey| <= MAX_UINT32 && e.offset <= MAX_UINT64 && e.length <= MAX_UINT64 }

  function IndexEntryBytes(e: IndexEntry): (bs: seq<Byte>)
    ensures |bs| > 16
  {
    Uvarint(|e.firstKey|) + (e.firstKey + (LE(e.offset, 8) + LE(e.length, 8)))
  }

  function IndexTail(index: seq<IndexEntry>): seq<Byte> {
    if index == [] then [] else IndexEntryBytes(index[0]) + IndexTail(index[1..])
  }

  function IndexBytes(index: seq<IndexEntry>): seq<Byte> { Uvarint(|index|) + IndexTail(index) }

  function FrontIndex(data: seq<Byte>): (r: Option<(IndexEntry, nat)>)
    ensures r.Some? ==> 0 < r.value.1 <= |data|
  {
    match ReadUvarint(data)
    case None => None
    case Some((keyLen, n)) =>
      var rest := data[n..];
      if keyLen > |rest| || |rest| - keyLen < 16 then None
      else Some((IndexEntry(rest[..keyLen], Unsigned(rest[keyLen..keyLen + 8]),
                            Unsigned(rest[keyLen + 8..keyLen + 16])),
                 n + keyLen + 16))
  }

  predicate IndexAfter(last: Option<IndexEntry>, e: IndexEntry) {
    e.length >= 4 && (last.Some? ==> KeyLess(last.value.firstKey, e.firstKey))
  }

  function DecodeTail(data: seq<Byte>, count: nat, last: Option<IndexEntry>): Option<seq<IndexEntry>>
    decreases count
  {
    if count == 0 then if data == [] then Some([]) else None
    else
      match FrontIndex(data)
      case None => None
      case Some((e, n)) =>
        if !IndexAfter(last, e) then None
        else
          match DecodeTail(data[n..], count - 1, Some(e))
          case None => None
          case Some(es) => Some([e] + es)
  }

  function DecodeIndex(data: seq<Byte>): Option<seq<IndexEntry>> {
    match ReadUvarint(data)
    case None => None
    case Some((count, n)) => if count > |data| then None else DecodeTail(data[n..], count, None)
  }

  lemma IndexEntryRoundTrip(e: IndexEntry, rest: seq<Byte>)
    requires FitsIndex(e)
    ensures FrontIndex(IndexEntryBytes(e) + rest) == Some((e, |IndexEntryBytes(e)|))
    ensures (IndexEntryBytes(e) + rest)[|IndexEntryBytes(e)|..] == rest
  {
    hide Uvarint, ReadUvarint;
    var data, tail := IndexEntryBytes(e) + rest, e.firstKey + (LE(e.offset, 8) + (LE(e.length, 8) + rest));
    assert data == Uvarint(|e.firstKey|) + tail;
    UvarintRoundTrip(|e.firstKey|, tail);
    assert tail[..|e.firstKey|] == e.firstKey;
    assert tail[|e.firstKey|..|e.firstKey| + 8] == LE(e.offset, 8);
    assert tail[|e.firstKey| + 8..|e.firstKey| + 16] == LE(e.length, 8);
    LE64(e.offset);
    LE64(e.length);
  }

  /** First keys ascend and every entry covers at least a checksum. */
  ghost predicate IndexOk(index: seq<IndexEntry>) {
    && (forall e :: e in index ==> FitsIndex(e) && e.length >= 4)
    && forall i, j :: 0 <= i < j < |index| ==> KeyLess(index[i].firstKey, index[j].firstKey)
  }

  lemma {:induction false} TailDecodes(index: seq<IndexEntry>, last: Option<IndexEntry>)
    requires IndexOk(index) && (last.Some? && index != [] ==> KeyLess(last.value.firstKey, index[0].firstKey))
    ensures DecodeTail(IndexTail(index), |index|, last) == Some(index) && |IndexTail(index)| >= |index|
    decreases |index|
  {
    hide KeyLess, FrontIndex, IndexEntryBytes;
    if index != [] {
      IndexEntryRoundTrip(index[0], IndexTail(index[1..]));
      TailDecodes(index[1..], Some(index[0]));
      assert [index[0]] + index[1..] == index;
    }
  }

  lemma IndexRoundTrip(index: seq<IndexEntry>)
    requires IndexOk(index) && |index| <= MAX_UINT64
    ensures DecodeIndex(IndexBytes(index)) == Some(index)
  {
    hide Uvarint, ReadUvarint, IndexTail, DecodeTail;
    TailDecodes(index, None);
    UvarintRoundTrip(|index|, IndexTail(index));
  }

  function IndexAhead(es: seq<IndexEntry>, r: Option<seq<IndexEntry>>): Option<seq<IndexEntry>> {
    match r
    case None => None
    case Some(rest) => Some(es + rest)
  }

  lemma IndexAheadOne(es: seq<IndexEntry>, e: IndexEntry, r: Option<seq<IndexEntry>>)
    ensures IndexAhead([], r) == r && IndexAhead(es + [e], r) == IndexAhead(es, IndexAhead([e], r))
  {
    if r.Some? { assert [] + r.value == r.value && es + [e] + r.value == es + ([e] + r.value); }
  }

  function LastIndex(es: seq<IndexEntry>): Option<IndexEntry> { if es == [] then None else Some(es[|es| - 1]) }

  method ParseIndex(data: seq<Byte>) returns (r: Option<seq<IndexEntry>>)
    ensures r == DecodeIndex(data)
  {
    hide FrontIndex, KeyLess, ReadUvarint;
    var head := ReadUvarint(data);
    if head.None? || head.value.0 > |data| { return None; }
    var (count, at) := head.value;
    var index, rest := [], data[at..];
    IndexAheadOne([], IndexEntry([], 0, 0), DecodeTail(rest, count, None));
    for k := 0 to count
      invariant |index| == k && DecodeIndex(data) == IndexAhead(index, DecodeTail(rest, count - k, LastIndex(index)))
    {
      var front := FrontIndex(rest);
      if front.None? { return None; }
      var (entry, n) := front.value;
      if entry.length < 4 || (index != [] && !KeyLess(index[|index| - 1].firstKey, entry.firstKey)) { return None; }
      IndexAheadOne(index, entry, DecodeTail(rest[n..], count - k - 1, Some(entry)));
      index, rest := index + [entry], rest[n..];
    }
    if rest != [] { return None; }
    assert index + [] == index;
    return Some(index);
  }
}
