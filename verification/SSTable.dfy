/**
 Sorted table files. Whatever file validates, a lookup through the Bloom filter, the key bounds,
 the block index and one block gives what a scan of all its records gives; and every file the
 writer produces validates as exactly the entries it was given.
 */
module SSTable {
  import opened RaftTypes
  import opened LsmTypes
  import opened Bytes
  import opened TableFormat
  import opened Bloom
  import RecordCodec

  type Crc = RecordCodec.Crc

  const BLOCK_TARGET: nat := 4096
  const TRAILER: nat := 16
  const MAGIC: seq<Byte> := [77, 81, 83, 83, 84, 66, 48, 49]

  // ----- Reading -----

  datatype Reader = Reader(file: seq<Byte>, index: seq<IndexEntry>, bits: seq<Byte>, m: nat, count: nat, minKey: Key,
                           maxKey: Key)

  /** The bytes of a block whose checksum matches. */
  function ReadBlock(crc: Crc, file: seq<Byte>, offset: nat, length: nat): Option<seq<Byte>> {
    if length < 4 || offset + length > MAX_INT64 || offset + length > |file| then None
    else
      var payload := file[offset..offset + length - 4];
      if Unsigned(file[offset + length - 4..offset + length]) != crc(payload) then None else Some(payload)
  }

  /** Blocks lie one after another before the index. */
  predicate InBounds(index: seq<IndexEntry>, end: nat) {
    forall i :: 0 <= i < |index| ==>
      && index[i].offset < end && index[i].length <= end - index[i].offset
      && (i > 0 ==> index[i].offset >= index[i - 1].offset + index[i - 1].length)
  }

  /** The footer's fields, if they are consistent with the file's size and checksum. */
  function ReadFooter(crc: Crc, file: seq<Byte>): (r: Option<(seq<Byte>, nat)>)
    ensures r.Some? ==> |r.value.0| >= 48 && r.value.1 <= |file|
  {
    if |file| < TRAILER then None
    else
      var trailer := file[|file| - TRAILER..];
      var size := Unsigned(trailer[4..8]);
      if trailer[8..] != MAGIC || size < 48 || size > |file| - TRAILER then None
      else
        var meta := file[|file| - TRAILER - size..|file| - TRAILER];
        if Unsigned(trailer[..4]) != crc(meta) then None else Some((meta, |file| - TRAILER - size))
  }

  function Open(crc: Crc, file: seq<Byte>): (r: Option<Reader>)
    ensures r.Some? ==> Sized(r.value.bits, r.value.m)
  {
    match ReadFooter(crc, file)
    case None => None
    case Some((meta, end)) =>
      var indexOffset, indexLength := Unsigned(meta[..8]), Unsigned(meta[8..16]);
      var bloomOffset, bloomLength := Unsigned(meta[16..24]), Unsigned(meta[24..32]);
      var count, minLen, maxLen := Unsigned(meta[32..40]), Unsigned(meta[40..44]), Unsigned(meta[44..48]);
      if |meta| - 48 != minLen + maxLen || indexLength < 4 || bloomLength < 4 then None
      else if indexOffset + indexLength > bloomOffset || bloomOffset + bloomLength > end then None
      else OpenParts(file, ReadBlock(crc, file, indexOffset, indexLength),
                     ReadBlock(crc, file, bloomOffset, bloomLength), indexOffset, count, meta[48..48 + minLen],
                     meta[48 + minLen..])
  }

  function OpenParts(file: seq<Byte>, index: Option<seq<Byte>>, bloom: Option<seq<Byte>>, end: nat, count: nat,
                     minKey: Key, maxKey: Key): (r: Option<Reader>)
    ensures r.Some? ==> Sized(r.value.bits, r.value.m)
  {
    if index.None? then None
    else
      match DecodeIndex(index.value)
      case None => None
      case Some(index) =>
        if (count == 0) != (index == []) || !InBounds(index, end) || bloom.None? then None
        else
          match Unmarshal(bloom.value)
          case None => None
          case Some((bits, m)) =>
            if count > 0 && KeyLess(maxKey, minKey) then None
            else Some(Reader(file, index, bits, m, count, minKey, maxKey))
  }

  datatype Found = Corrupt | Absent | Hit(v: Version)

  /** First record of the key in order. */
  function Scan(vs: seq<Version>, key: Key): Found {
    if vs == [] then Absent else if vs[0].key == key then Hit(vs[0]) else Scan(vs[1..], key)
  }

  /** The same, giving up at the first greater key. */
  function ScanSorted(vs: seq<Version>, key: Key): Found {
    if vs == [] || KeyLess(key, vs[0].key) then Absent
    else if vs[0].key == key then Hit(vs[0])
    else ScanSorted(vs[1..], key)
  }

  /** The records of one block, which must start at its indexed key. */
  function BlockAt(crc: Crc, t: Reader, i: nat): (r: Option<seq<Version>>)
    requires i < |t.index|
    ensures r.Some? ==> r.value != [] && r.value[0].key == t.index[i].firstKey
  {
    match ReadBlock(crc, t.file, t.index[i].offset, t.index[i].length)
    case None => None
    case Some(data) =>
      match DecodeAll(data, None)
      case None => None
      case Some(vs) => if vs == [] || vs[0].key != t.index[i].firstKey then None else Some(vs)
  }

  /** How many leading index entries start at or before the key. */
  function BlocksUpTo(index: seq<IndexEntry>, key: Key): (i: nat)
    ensures i <= |index|
    ensures forall j :: 0 <= j < i ==> !KeyLess(key, index[j].firstKey)
    ensures i < |index| ==> KeyLess(key, index[i].firstKey)
  {
    if index == [] || KeyLess(key, index[0].firstKey) then 0 else 1 + BlocksUpTo(index[1..], key)
  }

  function Lookup(crc: Crc, hash: Hash, t: Reader, key: Key, checkBloom: bool): Found
    requires Sized(t.bits, t.m)
  {
    if t.count == 0 || (checkBloom && !MayHold(hash, t.bits, t.m, key)) then Absent
    else if KeyLess(key, t.minKey) || KeyLess(t.maxKey, key) then Absent
    else
      var i := BlocksUpTo(t.index, key);
      if i == 0 then Absent
      else
        match BlockAt(crc, t, i - 1)
        case None => Corrupt
        case Some(vs) => ScanSorted(vs, key)
  }

  /** The first k blocks, each record in order and none denied by the filter. */
  function ReadBlocks(crc: Crc, hash: Hash, t: Reader, k: nat): Option<seq<Version>>
    requires Sized(t.bits, t.m) && k <= |t.index|
  {
    if k == 0 then Some([])
    else
      match (ReadBlocks(crc, hash, t, k - 1), BlockAt(crc, t, k - 1))
      case (Some(before), Some(vs)) =>
        if before != [] && !KeyLess(before[|before| - 1].key, vs[0].key) then None
        else if exists v :: v in vs && !MayHold(hash, t.bits, t.m, v.key) then None
        else Some(before + vs)
      case _ => None
  }

  /** Every record of the table, once everything the footer says about them holds. */
  function ReadAll(crc: Crc, hash: Hash, t: Reader): Option<seq<Version>>
    requires Sized(t.bits, t.m)
  {
    match ReadBlocks(crc, hash, t, |t.index|)
    case None => None
    case Some(vs) =>
      if |vs| != t.count || (vs != [] && (vs[0].key != t.minKey || vs[|vs| - 1].key != t.maxKey)) then None
      else Some(vs)
  }

  ghost predicate IndexSorted(index: seq<IndexEntry>) {
    forall i, j :: 0 <= i < j < |index| ==> KeyLess(index[i].firstKey, index[j].firstKey)
  }

  // ----- Lookup is scan -----

  lemma {:induction false} DecodedSorted(data: seq<Byte>, last: Option<Version>)
    requires DecodeAll(data, last).Some?
    ensures var vs := DecodeAll(data, last).value;
      SortedTable(vs) && (last.Some? ==> forall v :: v in vs ==> Before(last.value, v))
    decreases |data|
  {
    hide Before, FrontRecord;
    if data != [] {
      var (v, n) := FrontRecord(data).value;
      DecodedSorted(data[n..], Some(v));
      var rest := DecodeAll(data[n..], Some(v)).value;
      if last.Some? {
        forall w | w in [v] + rest ensures Before(last.value, w) {
          if w in rest { BeforeTransitive(last.value, v, w); }
        }
      }
    }
  }

  lemma BlockSorted(crc: Crc, t: Reader, i: nat)
    requires i < |t.index| && BlockAt(crc, t, i).Some?
    ensures SortedTable(BlockAt(crc, t, i).value)
  {
    DecodedSorted(ReadBlock(crc, t.file, t.index[i].offset, t.index[i].length).value, None);
  }

  lemma {:induction false} ScanConcat(a: seq<Version>, b: seq<Version>, key: Key)
    ensures Scan(a + b, key) == if Scan(a, key).Hit? then Scan(a, key) else Scan(b, key)
    decreases |a|
  {
    if a == [] {
      assert a + b == b;
    } else {
      assert (a + b)[1..] == a[1..] + b;
      ScanConcat(a[1..], b, key);
    }
  }

  lemma {:induction false} ScanMisses(vs: seq<Version>, key: Key)
    requires forall v :: v in vs ==> v.key != key
    ensures Scan(vs, key) == Absent
  {
    if vs != [] { ScanMisses(vs[1..], key); }
  }

  /** The scan's hit is the newest record of the key, and it misses only absent keys. */
  lemma {:induction false} ScanIsNewest(vs: seq<Version>, key: Key)
    requires SortedTable(vs)
    ensures Scan(vs, key) == Absent ==> forall v :: v in vs ==> v.key != key
    ensures Scan(vs, key).Hit? ==> Newest((set v | v in vs), Scan(vs, key).v) && Scan(vs, key).v.key == key
    ensures !Scan(vs, key).Corrupt?
  {
    hide KeyLess;
    if vs != [] {
      KeyTotal(key, key);
      if vs[0].key != key {
        ScanIsNewest(vs[1..], key);
        assert forall v :: v in vs <==> v == vs[0] || v in vs[1..];
      } else {
        forall v | v in vs && v.key == key ensures v.seq_ <= vs[0].seq_ {
          var i :| 0 <= i < |vs| && vs[i] == v;
          if i > 0 { assert Before(vs[0], vs[i]); }
        }
      }
    }
  }

  lemma {:induction false} ScanSortedIs(vs: seq<Version>, key: Key)
    requires SortedTable(vs)
    ensures ScanSorted(vs, key) == Scan(vs, key)
  {
    hide KeyLess;
    if vs != [] {
      if KeyLess(key, vs[0].key) { AfterAll(vs, key); ScanMisses(vs, key); }
      else { ScanSortedIs(vs[1..], key); }
    }
  }

  /** Every record of a sorted table whose first key is greater is greater. */
  lemma AfterAll(vs: seq<Version>, key: Key)
    requires SortedTable(vs) && vs != [] && KeyLess(key, vs[0].key)
    ensures forall v :: v in vs ==> KeyLess(key, v.key) && v.key != key
  {
    hide KeyLess;
    KeyTotal(key, key);
    forall v | v in vs ensures KeyLess(key, v.key) {
      var i :| 0 <= i < |vs| && vs[i] == v;
      if i > 0 {
        assert Before(vs[0], vs[i]);
        if KeyLess(vs[0].key, v.key) { KeyTransitive(key, vs[0].key, v.key); }
      }
    }
  }

  /** Every record of a sorted table whose last key is smaller is smaller. */
  lemma BeforeAll(vs: seq<Version>, key: Key)
    requires SortedTable(vs) && (vs != [] ==> KeyLess(vs[|vs| - 1].key, key))
    ensures forall v :: v in vs ==> KeyLess(v.key, key) && v.key != key
  {
    hide KeyLess;
    KeyTotal(key, key);
    forall v | v in vs ensures KeyLess(v.key, key) {
      var i, k :| 0 <= i < |vs| && vs[i] == v && k == |vs| - 1;
      if i < k {
        assert Before(vs[i], vs[k]);
        if KeyLess(v.key, vs[k].key) { KeyTransitive(v.key, vs[k].key, key); }
      }
    }
  }

  lemma SortedConcat(a: seq<Version>, b: seq<Version>)
    requires SortedTable(a) && SortedTable(b) && (a != [] && b != [] ==> KeyLess(a[|a| - 1].key, b[0].key))
    ensures SortedTable(a + b)
  {
    hide KeyLess, Before;
    var r := a + b;
    forall i, j | 0 <= i < j < |r| ensures Before(r[i], r[j]) {
      if i < |a| <= j { Across(a, b, i, j - |a|); }
    }
  }

  lemma Across(a: seq<Version>, b: seq<Version>, i: nat, j: nat)
    requires SortedTable(a) && SortedTable(b) && i < |a| && j < |b| && KeyLess(a[|a| - 1].key, b[0].key)
    ensures Before(a[i], b[j])
  {
    hide KeyLess;
    BeforeAll(a, b[0].key);
    assert a[i] in a;
    if j > 0 {
      assert Before(b[0], b[j]);
      if KeyLess(b[0].key, b[j].key) { KeyTransitive(a[i].key, b[0].key, b[j].key); }
    }
  }

  lemma {:induction false} BlocksSorted(crc: Crc, hash: Hash, t: Reader, k: nat)
    requires Sized(t.bits, t.m) && k <= |t.index| && ReadBlocks(crc, hash, t, k).Some?
    ensures var vs := ReadBlocks(crc, hash, t, k).value;
      SortedTable(vs) && (k > 0 ==> vs != []) && forall v :: v in vs ==> MayHold(hash, t.bits, t.m, v.key)
  {
    hide KeyLess, MayHold, BlockAt, SortedTable;
    if k > 0 {
      BlocksSorted(crc, hash, t, k - 1);
      BlockSorted(crc, t, k - 1);
      SortedConcat(ReadBlocks(crc, hash, t, k - 1).value, BlockAt(crc, t, k - 1).value);
    } else {
      assert SortedTable([]) by { NothingSorted(); }
    }
  }

  lemma NothingSorted()
    ensures SortedTable([])
  {}

  /** How many of the first k blocks a lookup considers. */
  lemma {:induction false} BlocksUpToIs(index: seq<IndexEntry>, key: Key, i: nat)
    requires i <= |index| && (forall j :: 0 <= j < i ==> !KeyLess(key, index[j].firstKey))
    requires (i < |index| ==> KeyLess(key, index[i].firstKey))
    ensures BlocksUpTo(index, key) == i
    decreases |index|
  {
    if i > 0 { BlocksUpToIs(index[1..], key, i - 1); }
  }

  /** Among the first k blocks, a scan of all is a scan of the last that starts at or before the key. */
  lemma {:induction false} ScanBlocks(crc: Crc, hash: Hash, t: Reader, k: nat, key: Key)
    requires Sized(t.bits, t.m) && k <= |t.index| && IndexSorted(t.index) && ReadBlocks(crc, hash, t, k).Some?
    ensures var i := BlocksUpTo(t.index[..k], key);
      && (i > 0 ==> BlockAt(crc, t, i - 1).Some?)
      && var found := Scan(ReadBlocks(crc, hash, t, k).value, key);
      found == if i == 0 then Absent else ScanSorted(BlockAt(crc, t, i - 1).value, key)
  {
    hide KeyLess, MayHold, BlockAt, SortedTable, ScanSorted, Scan, BlocksUpTo;
    if k == 0 {
      ScanNothing(key);
    } else {
      ScanBlocks(crc, hash, t, k - 1, key);
      BlocksSorted(crc, hash, t, k - 1);
      BlockSorted(crc, t, k - 1);
      var before, vs, first := ReadBlocks(crc, hash, t,
                                          k - 1).value, BlockAt(crc, t, k - 1).value, t.index[k - 1].firstKey;
      ScanConcat(before, vs, key);
      if KeyLess(key, first) {
        AfterAll(vs, key);
        ScanMisses(vs, key);
        SameBlocks(t.index, k, key);
        ScanIsNewest(before, key);
      } else {
        LastBlock(t.index, k, key);
        ScanSortedIs(vs, key);
        if before != [] { EarlierMisses(before, first, key); }
        ScanMisses(before, key);
      }
    }
  }

  lemma ScanNothing(key: Key)
    ensures Scan([], key) == Absent
  {}

  lemma EarlierMisses(before: seq<Version>, first: Key, key: Key)
    requires SortedTable(before) && before != [] && KeyLess(before[|before| - 1].key, first) && !KeyLess(key, first)
    ensures forall v :: v in before ==> v.key != key
  {
    hide KeyLess, SortedTable;
    KeyTotal(first, key);
    if first != key { KeyTransitive(before[|before| - 1].key, first, key); }
    BeforeAll(before, key);
  }

  lemma SameBlocks(index: seq<IndexEntry>, k: nat, key: Key)
    requires 0 < k <= |index| && KeyLess(key, index[k - 1].firstKey)
    ensures BlocksUpTo(index[..k], key) == BlocksUpTo(index[..k - 1], key)
  {
    hide KeyLess, BlocksUpTo;
    BlocksUpToIs(index[..k], key, BlocksUpTo(index[..k - 1], key));
  }

  lemma LastBlock(index: seq<IndexEntry>, k: nat, key: Key)
    requires 0 < k <= |index| && IndexSorted(index) && !KeyLess(key, index[k - 1].firstKey)
    ensures BlocksUpTo(index[..k], key) == k
  {
    hide KeyLess, BlocksUpTo;
    forall j | 0 <= j < k ensures !KeyLess(key, index[j].firstKey) {
      if j < k - 1 && KeyLess(key, index[j].firstKey) { KeyTransitive(key, index[j].firstKey, index[k - 1].firstKey); }
    }
    BlocksUpToIs(index[..k], key, k);
  }

  /** For every file that validates, with the filter on or off, the indexed lookup is the scan. */
  lemma LookupIsScan(crc: Crc, hash: Hash, t: Reader, key: Key, checkBloom: bool)
    requires Sized(t.bits, t.m) && IndexSorted(t.index) && ReadAll(crc, hash, t).Some?
    ensures Lookup(crc, hash, t, key, checkBloom) == Scan(ReadAll(crc, hash, t).value, key)
  {
    hide KeyLess, MayHold, BlockAt, SortedTable, ScanSorted, Scan, BlocksUpTo;
    var vs, k := ReadAll(crc, hash, t).value, |t.index|;
    ScanBlocks(crc, hash, t, k, key);
    BlocksSorted(crc, hash, t, k);
    assert t.index[..k] == t.index;
    if vs != [] {
      if KeyLess(key, t.minKey) { AfterAll(vs, key); ScanMisses(vs, key); }
      else if KeyLess(t.maxKey, key) { BeforeAll(vs, key); ScanMisses(vs, key); }
      else if !MayHold(hash, t.bits, t.m, key) { ScanMisses(vs, key); }
    } else {
      ScanNothing(key);
    }
  }

  // ----- The reader's loops -----

  lemma {:induction false} TailSorted(data: seq<Byte>, count: nat, last: Option<IndexEntry>)
    requires DecodeTail(data, count, last).Some?
    ensures var es := DecodeTail(data, count, last).value;
      IndexSorted(es) && (last.Some? ==> forall e :: e in es ==> KeyLess(last.value.firstKey, e.firstKey))
    decreases count
  {
    hide KeyLess, FrontIndex;
    if count > 0 {
      var (e, n) := FrontIndex(data).value;
      TailSorted(data[n..], count - 1, Some(e));
      var rest := DecodeTail(data[n..], count - 1, Some(e)).value;
      if last.Some? {
        forall x | x in [e] + rest ensures KeyLess(last.value.firstKey, x.firstKey) {
          if x in rest { KeyTransitive(last.value.firstKey, e.firstKey, x.firstKey); }
        }
      }
    }
  }

  /** An opened table has a sorted index. */
  lemma OpenedOk(crc: Crc, file: seq<Byte>)
    requires Open(crc, file).Some?
    ensures var t := Open(crc, file).value; t.file == file && IndexSorted(t.index)
  {
    hide KeyLess, ReadFooter, ReadBlock, DecodeTail, InBounds, Unsigned;
    var (meta, end) := ReadFooter(crc, file).value;
    var index := ReadBlock(crc, file, Unsigned(meta[..8]), Unsigned(meta[8..16])).value;
    var (count, n) := ReadUvarint(index).value;
    TailSorted(index[n..], count, None);
  }

  /** The binary search for the last block that starts at or before the key. */
  method SearchIndex(index: seq<IndexEntry>, key: Key) returns (i: nat)
    requires IndexSorted(index)
    ensures i == BlocksUpTo(index, key)
  {
    hide KeyLess, BlocksUpTo;
    i := 0;
    var j := |index|;
    while i < j
      invariant 0 <= i <= j <= |index|
      invariant forall x :: 0 <= x < i ==> !KeyLess(key, index[x].firstKey)
      invariant j < |index| ==> KeyLess(key, index[j].firstKey)
    {
      var h := (i + j) / 2;
      if !KeyLess(key, index[h].firstKey) {
        StartsBefore(index, h, key);
        i := h + 1;
      } else {
        j := h;
      }
    }
    BlocksUpToIs(index, key, i);
  }

  lemma StartsBefore(index: seq<IndexEntry>, h: nat, key: Key)
    requires IndexSorted(index) && h < |index| && !KeyLess(key, index[h].firstKey)
    ensures forall x :: 0 <= x <= h ==> !KeyLess(key, index[x].firstKey)
  {
    LastBlock(index, h + 1, key);
    assert forall x :: 0 <= x <= h ==> index[..h + 1][x] == index[x];
  }

  method Get(crc: Crc, hash: Hash, t: Reader, key: Key, checkBloom: bool) returns (r: Found)
    requires Sized(t.bits, t.m) && IndexSorted(t.index)
    ensures r == Lookup(crc, hash, t, key, checkBloom)
  {
    hide KeyLess, MayHold, BlockAt, BlocksUpTo;
    if t.count == 0 || (checkBloom && !MayHold(hash, t.bits, t.m, key))
       || KeyLess(key, t.minKey) || KeyLess(t.maxKey, key) {
      return Absent;
    }
    var i := SearchIndex(t.index, key);
    if i == 0 { return Absent; }
    var entries := LoadBlock(crc, t, i - 1);
    if entries.None? { return Corrupt; }
    var rest := entries.value;
    while rest != []
      invariant ScanSorted(entries.value, key) == ScanSorted(rest, key)
    {
      if rest[0].key == key { KeyTotal(key, key); return Hit(rest[0]); }
      if KeyLess(key, rest[0].key) { break; }
      rest := rest[1..];
    }
    return Absent;
  }

  method LoadBlock(crc: Crc, t: Reader, i: nat) returns (r: Option<seq<Version>>)
    requires i < |t.index|
    ensures r == BlockAt(crc, t, i)
  {
    var data := ReadBlock(crc, t.file, t.index[i].offset, t.index[i].length);
    if data.None? { return None; }
    var entries := DecodeRecords(data.value);
    if entries.None? || entries.value == [] || entries.value[0].key != t.index[i].firstKey { return None; }
    return entries;
  }

  method AllEntries(crc: Crc, hash: Hash, t: Reader) returns (r: Option<seq<Version>>)
    requires Sized(t.bits, t.m)
    ensures r == ReadAll(crc, hash, t)
  {
    hide KeyLess, MayHold, BlockAt;
    var entries: seq<Version> := [];
    for k := 0 to |t.index|
      invariant ReadBlocks(crc, hash, t, k) == Some(entries)
    {
      var decoded := LoadBlock(crc, t, k);
      if decoded.None? || (entries != [] && !KeyLess(entries[|entries| - 1].key, decoded.value[0].key)) {
        StaysBad(crc, hash, t, k + 1, |t.index|);
        return None;
      }
      for j := 0 to |decoded.value|
        invariant forall i :: 0 <= i < j ==> MayHold(hash, t.bits, t.m, decoded.value[i].key)
      {
        if !MayHold(hash, t.bits, t.m, decoded.value[j].key) {
          assert decoded.value[j] in decoded.value;
          StaysBad(crc, hash, t, k + 1, |t.index|);
          return None;
        }
      }
      entries := entries + decoded.value;
    }
    if |entries| != t.count { return None; }
    if entries != [] && (entries[0].key != t.minKey || entries[|entries| - 1].key != t.maxKey) { return None; }
    return Some(entries);
  }

  lemma {:induction false} StaysBad(crc: Crc, hash: Hash, t: Reader, j: nat, k: nat)
    requires Sized(t.bits, t.m) && j <= k <= |t.index| && ReadBlocks(crc, hash, t, j).None?
    ensures ReadBlocks(crc, hash, t, k).None?
    decreases k
  {
    hide KeyLess, MayHold, BlockAt;
    if j < k { StaysBad(crc, hash, t, j, k - 1); }
  }

  // ----- Writing -----

  function BlockBytes(crc: Crc, payload: seq<Byte>): seq<Byte> { payload + LE(crc(payload), 4) }

  function Flatten(groups: seq<seq<Version>>): seq<Version> {
    if groups == [] then [] else Flatten(groups[..|groups| - 1]) + groups[|groups| - 1]
  }

  function DataBytes(crc: Crc, groups: seq<seq<Version>>): seq<Byte> {
    if groups == [] then [] else DataBytes(crc, groups[..|groups| - 1]) + BlockBytes(crc, Payload(groups[|groups| - 1]))
  }

  ghost predicate NonEmpty(groups: seq<seq<Version>>) { forall i :: 0 <= i < |groups| ==> groups[i] != [] }

  function IndexOf(crc: Crc, groups: seq<seq<Version>>): (index: seq<IndexEntry>)
    requires NonEmpty(groups)
    ensures |index| == |groups|
  {
    if groups == [] then []
    else
      var before, g := groups[..|groups| - 1], groups[|groups| - 1];
      IndexOf(crc, before) + [IndexEntry(g[0].key, |DataBytes(crc, before)|, |Payload(g)| + 4)]
  }

  function Metadata(indexOffset: nat, indexLength: nat, bloomOffset: nat, bloomLength: nat, count: nat, minKey: Key,
                    maxKey: Key): seq<Byte> {
    LE(indexOffset, 8) + LE(indexLength, 8) + LE(bloomOffset, 8) + LE(bloomLength, 8) + LE(count, 8)
    + LE(|minKey|, 4) + LE(|maxKey|, 4) + minKey + maxKey
  }

  function Footer(crc: Crc, meta: seq<Byte>): seq<Byte> { meta + (LE(crc(meta), 4) + LE(|meta|, 4) + MAGIC) }

  function Bounds(entries: seq<Version>): (Key, Key) {
    if entries == [] then ([], []) else (entries[0].key, entries[|entries| - 1].key)
  }

  /** The whole file for these blocks and this encoded filter. */
  function FileBytes(crc: Crc, groups: seq<seq<Version>>, bloom: seq<Byte>): seq<Byte>
    requires NonEmpty(groups)
  {
    var data, entries := DataBytes(crc, groups), Flatten(groups);
    var index, filter := BlockBytes(crc, IndexBytes(IndexOf(crc, groups))), BlockBytes(crc, bloom);
    var (minKey, maxKey) := Bounds(entries);
    var meta := Metadata(|data|, |index|, |data| + |index|, |filter|, |entries|, minKey, maxKey);
    data + (index + (filter + Footer(crc, meta)))
  }

  /** Only versions of one key may carry a block past its target. */
  ghost predicate OnlyRunsOverflow(g: seq<Version>) {
    forall e :: 0 < e < |g| && g[e].key != g[e - 1].key ==> |Payload(g[..e + 1])| <= BLOCK_TARGET
  }

  /** No key spans two blocks, and a block ends only where the next record would overflow it. */
  ghost predicate SplitAt(g: seq<Version>, next: Version) {
    g != [] && g[|g| - 1].key != next.key && |Payload(g)| + |RecordBytes(next)| > BLOCK_TARGET
  }

  ghost predicate Blocked(groups: seq<seq<Version>>) {
    && NonEmpty(groups) && (forall g :: g in groups ==> OnlyRunsOverflow(g))
    && forall i :: 0 <= i < |groups| - 1 ==> SplitAt(groups[i], groups[i + 1][0])
  }

  datatype BuiltBlock = BuiltBlock(firstKey: Key, data: seq<Byte>)

  ghost predicate BuiltFrom(blocks: seq<BuiltBlock>, groups: seq<seq<Version>>) {
    && |blocks| == |groups| && NonEmpty(groups)
    && forall i :: 0 <= i < |groups| ==> blocks[i] == BuiltBlock(groups[i][0].key, Payload(groups[i]))
  }

  /** Takes records until the next would overflow the block and starts a new key. */
  method NextBlock(entries: seq<Version>, start: nat) returns (ok: bool, data: seq<Byte>, end: nat)
    requires start < |entries| && forall v :: v in entries ==> v.seq_ <= MAX_UINT64
    ensures start <= end <= |entries| && (ok ==> start < end)
    ensures ok ==>
      data == Payload(entries[start..end]) && OnlyRunsOverflow(entries[start..end]) && AllFit(entries[start..end])
    ensures ok && end < |entries| ==> SplitAt(entries[start..end], entries[end])
    ensures !ok ==> end < |entries| && !FitsRecord(entries[end])
  {
    hide RecordBytes, Payload;
    ok, data, end := true, [], start;
    EmptyPayload();
    assert entries[start..start] == [];
    while end < |entries|
      invariant start <= end <= |entries|
      invariant data == Payload(entries[start..end]) && OnlyRunsOverflow(entries[start..end])
      invariant AllFit(entries[start..end])
      decreases |entries| - end
    {
      var record := RecordBytes(entries[end]);
      assert entries[end] in entries;
      if !FitsRecord(entries[end]) { return false, data, end; }
      if end > start && |data| + |record| > BLOCK_TARGET && entries[end].key != entries[end - 1].key {
        break;
      }
      TakeOne(entries, start, end);
      data := data + record;
      end := end + 1;
    }
  }

  lemma EmptyPayload()
    ensures Payload([]) == []
  {}

  lemma TakeOne(entries: seq<Version>, start: nat, end: nat)
    requires start <= end < |entries| && OnlyRunsOverflow(entries[start..end])
    requires end > start && entries[end].key != entries[end - 1].key ==>
               |Payload(entries[start..end])| + |RecordBytes(entries[end])| <= BLOCK_TARGET
    ensures Payload(entries[start..end + 1]) == Payload(entries[start..end]) + RecordBytes(entries[end])
    ensures OnlyRunsOverflow(entries[start..end + 1])
  {
    hide RecordBytes, Payload;
    var g, next := entries[start..end], entries[start..end + 1];
    assert next == g + [entries[end]];
    PayloadSnoc(g, entries[end]);
    forall e | 0 < e < |next| && next[e].key != next[e - 1].key ensures |Payload(next[..e + 1])| <= BLOCK_TARGET {
      if e < |g| { assert next[..e + 1] == g[..e + 1] && g[e] == next[e] && g[e - 1] == next[e - 1]; }
      else { assert next[..e + 1] == next; }
    }
  }

  method BuildDataBlocks(entries: seq<Version>) returns (r: Option<seq<BuiltBlock>>, ghost groups: seq<seq<Version>>)
    requires forall v :: v in entries ==> v.seq_ <= MAX_UINT64
    ensures r.Some? <==> AllFit(entries)
    ensures r.Some? ==> Blocked(groups) && Flatten(groups) == entries && BuiltFrom(r.value, groups)
  {
    hide RecordBytes, Payload, OnlyRunsOverflow, FitsRecord, Flatten, Blocked, BuiltFrom, SplitAt, AllFit;
    var blocks, start := [], 0;
    groups := [];
    NoGroups();
    assert entries[..0] == [];
    while start < |entries|
      invariant 0 <= start <= |entries| && AllFit(entries[..start])
      invariant Blocked(groups) && Flatten(groups) == entries[..start] && BuiltFrom(blocks, groups)
      invariant groups != [] && start < |entries| ==> SplitAt(groups[|groups| - 1], entries[start])
      decreases |entries| - start
    {
      var ok, data, end := NextBlock(entries, start);
      if !ok {
        DoesNotFit(entries, end);
        return None, groups;
      }
      ghost var g := entries[start..end];
      AddGroup(groups, g);
      AddBlock(blocks, groups, g);
      AllFitTogether(entries[..start], g);
      assert entries[..end] == entries[..start] + g;
      blocks, groups := blocks + [BuiltBlock(entries[start].key, data)], groups + [g];
      start := end;
    }
    assert entries[..start] == entries;
    return Some(blocks), groups;
  }

  lemma NoGroups()
    ensures Flatten([]) == [] && Blocked([]) && BuiltFrom([], []) && AllFit([])
  {}

  lemma DoesNotFit(entries: seq<Version>, i: nat)
    requires i < |entries| && !FitsRecord(entries[i])
    ensures !AllFit(entries)
  {
    assert entries[i] in entries;
  }

  lemma AllFitTogether(a: seq<Version>, b: seq<Version>)
    requires AllFit(a) && AllFit(b)
    ensures AllFit(a + b)
  {}

  lemma AddBlock(blocks: seq<BuiltBlock>, groups: seq<seq<Version>>, g: seq<Version>)
    requires BuiltFrom(blocks, groups) && g != []
    ensures BuiltFrom(blocks + [BuiltBlock(g[0].key, Payload(g))], groups + [g])
  {}

  lemma AddGroup(groups: seq<seq<Version>>, g: seq<Version>)
    requires Blocked(groups) && g != [] && OnlyRunsOverflow(g) && (groups != [] ==> SplitAt(groups[|groups| - 1], g[0]))
    ensures Blocked(groups + [g]) && Flatten(groups + [g]) == Flatten(groups) + g
  {
    hide OnlyRunsOverflow, SplitAt;
    var next := groups + [g];
    assert next[..|next| - 1] == groups;
    forall i | 0 <= i < |next| - 1 ensures SplitAt(next[i], next[i + 1][0]) {
      if i < |groups| - 1 { assert SplitAt(groups[i], groups[i + 1][0]); }
    }
  }

  // ----- What is written reads back -----

  lemma BlockReads(crc: Crc, a: seq<Byte>, payload: seq<Byte>, b: seq<Byte>)
    requires |a| + |payload| + 4 + |b| <= MAX_INT64
    ensures ReadBlock(crc, a + (BlockBytes(crc, payload) + b), |a|, |payload| + 4) == Some(payload)
  {
    hide Unsigned, LE;
    var file, stored := a + (BlockBytes(crc, payload) + b), LE(crc(payload), 4);
    assert file[|a|..|a| + |payload|] == payload;
    assert file[|a| + |payload|..|a| + |payload| + 4] == stored;
    LE32(crc(payload));
  }

  lemma LE32(n: nat)
    requires n <= MAX_UINT32
    ensures Unsigned(LE(n, 4)) == n
  {
    assert Pow256(4) == MAX_UINT32 + 1;
    LERoundTrip(n, 4);
  }

  lemma FooterReads(crc: Crc, before: seq<Byte>, meta: seq<Byte>)
    requires 48 <= |meta| <= MAX_UINT32
    ensures ReadFooter(crc, before + Footer(crc, meta)) == Some((meta, |before|))
  {
    hide Unsigned, LE;
    var file := before + Footer(crc, meta);
    var trailer := LE(crc(meta), 4) + LE(|meta|, 4) + MAGIC;
    assert |file| == |before| + |meta| + TRAILER;
    assert file[|file| - TRAILER..] == trailer;
    assert trailer[..4] == LE(crc(meta), 4) && trailer[4..8] == LE(|meta|, 4) && trailer[8..] == MAGIC;
    LE32(crc(meta));
    LE32(|meta|);
    assert file[|before|..|before| + |meta|] == meta;
  }

  lemma MetadataReads(a: nat, b: nat, c: nat, d: nat, n: nat, minKey: Key, maxKey: Key)
    requires a <= MAX_UINT64 && b <= MAX_UINT64 && c <= MAX_UINT64 && d <= MAX_UINT64 && n <= MAX_UINT64
    requires |minKey| <= MAX_UINT32 && |maxKey| <= MAX_UINT32
    ensures var meta := Metadata(a, b, c, d, n, minKey, maxKey);
      && |meta| == 48 + |minKey| + |maxKey|
      && Unsigned(meta[..8]) == a && Unsigned(meta[8..16]) == b && Unsigned(meta[16..24]) == c
      && Unsigned(meta[24..32]) == d
      && Unsigned(meta[32..40]) == n && Unsigned(meta[40..44]) == |minKey| && Unsigned(meta[44..48]) == |maxKey|
      && meta[48..48 + |minKey|] == minKey && meta[48 + |minKey|..] == maxKey
  {
    hide Unsigned, LE;
    var meta := Metadata(a, b, c, d, n, minKey, maxKey);
    assert meta[..8] == LE(a, 8) && meta[8..16] == LE(b, 8) && meta[16..24] == LE(c, 8) && meta[24..32] == LE(d, 8);
    assert meta[32..40] == LE(n, 8) && meta[40..44] == LE(|minKey|, 4) && meta[44..48] == LE(|maxKey|, 4);
    assert meta[48..48 + |minKey|] == minKey && meta[48 + |minKey|..] == maxKey;
    LE64(a); LE64(b); LE64(c); LE64(d); LE64(n);
    LE32(|minKey|); LE32(|maxKey|);
  }

  lemma {:induction false} IndexAt(crc: Crc, groups: seq<seq<Version>>, i: nat)
    requires NonEmpty(groups) && i < |groups|
    ensures IndexOf(crc, groups)[i] == IndexEntry(groups[i][0].key, |DataBytes(crc, groups[..i])|,
                                                  |Payload(groups[i])| + 4)
    ensures |DataBytes(crc, groups[..i])| + |Payload(groups[i])| + 4 == |DataBytes(crc, groups[..i + 1])|
    decreases |groups|
  {
    hide Payload;
    assert groups[..i + 1][..i] == groups[..i];
    if i < |groups| - 1 {
      IndexAt(crc, groups[..|groups| - 1], i);
      assert groups[..|groups| - 1][..i] == groups[..i];
    }
  }

  lemma {:induction false} DataPrefix(crc: Crc, groups: seq<seq<Version>>, i: nat) returns (rest: seq<Byte>)
    requires i <= |groups|
    ensures DataBytes(crc, groups) == DataBytes(crc, groups[..i]) + rest
    decreases |groups|
  {
    hide Payload, BlockBytes;
    if i == |groups| {
      rest := [];
      assert groups[..i] == groups && DataBytes(crc, groups) + [] == DataBytes(crc, groups);
    } else {
      var k := |groups| - 1;
      rest := DataPrefix(crc, groups[..k], i);
      assert groups[..k][..i] == groups[..i];
      rest := rest + BlockBytes(crc, Payload(groups[k]));
    }
  }

  lemma IndexInBounds(crc: Crc, groups: seq<seq<Version>>)
    requires NonEmpty(groups)
    ensures InBounds(IndexOf(crc, groups), |DataBytes(crc, groups)|)
  {
    hide Payload, DataBytes, IndexOf;
    var index := IndexOf(crc, groups);
    forall i | 0 <= i < |index|
      ensures index[i].offset + index[i].length <= |DataBytes(crc, groups)| && index[i].length > 0
      ensures i > 0 ==> index[i].offset == index[i - 1].offset + index[i - 1].length
    {
      IndexAt(crc, groups, i);
      var _ := DataPrefix(crc, groups, i + 1);
      if i > 0 { IndexAt(crc, groups, i - 1); }
    }
  }

  lemma DataBlockReads(crc: Crc, groups: seq<seq<Version>>, tail: seq<Byte>, i: nat)
    requires NonEmpty(groups) && i < |groups| && |DataBytes(crc, groups)| + |tail| <= MAX_INT64
    ensures var e := IndexOf(crc, groups)[i];
      ReadBlock(crc, DataBytes(crc, groups) + tail, e.offset, e.length) == Some(Payload(groups[i]))
  {
    hide Payload, IndexOf, ReadBlock;
    IndexAt(crc, groups, i);
    var rest := DataPrefix(crc, groups, i + 1);
    var a, p := DataBytes(crc, groups[..i]), Payload(groups[i]);
    assert groups[..i + 1][..i] == groups[..i];
    assert DataBytes(crc, groups) + tail == a + (BlockBytes(crc, p) + (rest + tail));
    BlockReads(crc, a, p, rest + tail);
  }

  lemma {:induction false} FlattenPrefix(groups: seq<seq<Version>>, i: nat) returns (rest: seq<Version>)
    requires i <= |groups|
    ensures Flatten(groups) == Flatten(groups[..i]) + rest
    decreases |groups|
  {
    if i == |groups| {
      rest := [];
      assert groups[..i] == groups && Flatten(groups) + [] == Flatten(groups);
    } else {
      var k := |groups| - 1;
      rest := FlattenPrefix(groups[..k], i);
      assert groups[..k][..i] == groups[..i];
      rest := rest + groups[k];
    }
  }

  ghost predicate KeysApart(groups: seq<seq<Version>>) {
    NonEmpty(groups) && forall i :: 0 <= i < |groups| - 1 ==> groups[i][|groups[i]| - 1].key != groups[i + 1][0].key
  }

  lemma SortedParts(a: seq<Version>, b: seq<Version>)
    requires SortedTable(a + b)
    ensures SortedTable(a) && SortedTable(b) && (a != [] && b != [] ==> Before(a[|a| - 1], b[0]))
  {
    hide Before;
    var r := a + b;
    forall i, j | 0 <= i < j < |a| ensures Before(a[i], a[j]) { assert Before(r[i], r[j]); }
    forall i, j | 0 <= i < j < |b| ensures Before(b[i], b[j]) { assert Before(r[|a| + i], r[|a| + j]); }
    if a != [] && b != [] { assert Before(r[|a| - 1], r[|a|]); }
  }

  /** Each block continues the table after the ones before it, at a greater key. */
  lemma GroupPlace(groups: seq<seq<Version>>, i: nat)
    requires KeysApart(groups) && SortedTable(Flatten(groups)) && AllFit(Flatten(groups)) && i < |groups|
    ensures var before := Flatten(groups[..i]);
      && Flatten(groups[..i + 1]) == before + groups[i] && SortedTable(groups[i]) && AllFit(groups[i])
      && (i > 0 ==>
            && before != [] && KeyLess(before[|before| - 1].key, groups[i][0].key)
            && before[|before| - 1] == groups[i - 1][|groups[i - 1]| - 1])
      && (i == 0 ==> before == [])
  {
    hide KeyLess, SortedTable, FitsRecord;
    var before := Flatten(groups[..i]);
    var rest := FlattenPrefix(groups, i + 1);
    assert groups[..i + 1][..i] == groups[..i];
    assert Flatten(groups) == before + (groups[i] + rest) == (before + groups[i]) + rest;
    SortedParts(before + groups[i], rest);
    SortedParts(before, groups[i]);
    assert forall v :: v in groups[i] ==> v in Flatten(groups);
    if i > 0 { assert groups[..i][..i - 1] == groups[..i - 1]; }
  }

  lemma {:induction false} FirstKeysAscend(groups: seq<seq<Version>>, i: nat, j: nat)
    requires KeysApart(groups) && SortedTable(Flatten(groups)) && AllFit(Flatten(groups)) && i < j < |groups|
    ensures KeyLess(groups[i][0].key, groups[j][0].key)
    decreases j
  {
    hide KeyLess, SortedTable, Flatten, AllFit;
    GroupPlace(groups, j);
    GroupPlace(groups, j - 1);
    var g := groups[j - 1];
    FirstBeforeNext(g, groups[j][0].key);
    if i < j - 1 {
      FirstKeysAscend(groups, i, j - 1);
      KeyTransitive(groups[i][0].key, g[0].key, groups[j][0].key);
    }
  }

  lemma FirstBeforeNext(g: seq<Version>, key: Key)
    requires SortedTable(g) && g != [] && KeyLess(g[|g| - 1].key, key)
    ensures KeyLess(g[0].key, key)
  {
    BeforeAll(g, key);
    assert g[0] in g;
  }

  lemma WrittenIndexOk(crc: Crc, groups: seq<seq<Version>>)
    requires KeysApart(groups) && SortedTable(Flatten(groups))
    requires AllFit(Flatten(groups)) && |DataBytes(crc, groups)| <= MAX_INT64
    ensures IndexOk(IndexOf(crc, groups)) && IndexSorted(IndexOf(crc, groups)) && |groups| <= |DataBytes(crc, groups)|
  {
    hide KeyLess, SortedTable, Flatten, DataBytes, IndexOf, Payload;
    var index := IndexOf(crc, groups);
    forall i | 0 <= i < |index|
      ensures FitsIndex(index[i]) && index[i].length >= 4 && index[i].firstKey == groups[i][0].key
    {
      IndexAt(crc, groups, i);
      var _ := DataPrefix(crc, groups, i + 1);
      GroupPlace(groups, i);
      assert groups[i][0] in groups[i];
    }
    forall i, j | 0 <= i < j < |index|
      ensures KeyLess(index[i].firstKey, index[j].firstKey)
    {
      FirstKeysAscend(groups, i, j);
    }
    AtLeastOneByteEach(crc, groups);
  }

  lemma {:induction false} AtLeastOneByteEach(crc: Crc, groups: seq<seq<Version>>)
    ensures |groups| <= |DataBytes(crc, groups)|
    decreases |groups|
  {
    if groups != [] { AtLeastOneByteEach(crc, groups[..|groups| - 1]); }
  }

  /** The reader's blocks are the writer's. */
  lemma WrittenBlock(crc: Crc, groups: seq<seq<Version>>, t: Reader, tail: seq<Byte>, i: nat)
    requires KeysApart(groups) && SortedTable(Flatten(groups)) && AllFit(Flatten(groups)) && i < |groups|
    requires t.file == DataBytes(crc, groups) + tail && |t.file| <= MAX_INT64 && t.index == IndexOf(crc, groups)
    ensures BlockAt(crc, t, i) == Some(groups[i])
  {
    hide KeyLess, SortedTable, Flatten, DataBytes, IndexOf, Payload, ReadBlock, DecodeAll, AllFit;
    GroupPlace(groups, i);
    DataBlockReads(crc, groups, tail, i);
    PayloadDecodes(groups[i], None);
    IndexAt(crc, groups, i);
  }

  lemma {:induction false} WrittenBlocks(crc: Crc, hash: Hash, groups: seq<seq<Version>>, t: Reader, tail: seq<Byte>,
                                         k: nat)
    requires KeysApart(groups) && SortedTable(Flatten(groups)) && AllFit(Flatten(groups)) && k <= |groups|
    requires t.file == DataBytes(crc, groups) + tail && |t.file| <= MAX_INT64 && t.index == IndexOf(crc, groups)
    requires Sized(t.bits, t.m) && forall v :: v in Flatten(groups) ==> MayHold(hash, t.bits, t.m, v.key)
    ensures ReadBlocks(crc, hash, t, k) == Some(Flatten(groups[..k]))
  {
    hide KeyLess, SortedTable, DataBytes, IndexOf, BlockAt, AllFit, MayHold, Sized, Flatten;
    if k == 0 {
      NoGroups();
      assert groups[..0] == [];
    } else {
      WrittenBlocks(crc, hash, groups, t, tail, k - 1);
      WrittenBlock(crc, groups, t, tail, k - 1);
      GroupPlace(groups, k - 1);
      var rest := FlattenPrefix(groups, k);
      assert forall v :: v in groups[k - 1] ==> v in Flatten(groups);
    }
  }

  /** What the writer's file should read back as. */
  function WrittenReader(crc: Crc, groups: seq<seq<Version>>, bits: seq<Byte>, m: nat): Reader
    requires NonEmpty(groups)
  {
    var entries := Flatten(groups);
    var (minKey, maxKey) := Bounds(entries);
    Reader(FileBytes(crc, groups, Marshal(bits, m)), IndexOf(crc, groups), bits, m, |entries|, minKey, maxKey)
  }

  lemma {:induction false} FlattenEmpty(groups: seq<seq<Version>>)
    requires NonEmpty(groups)
    ensures Flatten(groups) == [] <==> groups == []
    decreases |groups|
  {
    if groups != [] { FlattenEmpty(groups[..|groups| - 1]); }
  }

  lemma BoundsOrdered(entries: seq<Version>)
    requires SortedTable(entries)
    ensures !KeyLess(Bounds(entries).1, Bounds(entries).0)
  {
    hide KeyLess;
    var (minKey, maxKey) := Bounds(entries);
    KeyTotal(minKey, maxKey);
    KeyTotal(minKey, minKey);
    if |entries| > 1 { assert Before(entries[0], entries[|entries| - 1]); }
  }

  lemma WrittenOpens(crc: Crc, groups: seq<seq<Version>>, bits: seq<Byte>, m: nat)
    requires KeysApart(groups) && SortedTable(Flatten(groups)) && AllFit(Flatten(groups))
    requires Sized(bits, m) && m <= MAX_UINT64 && |FileBytes(crc, groups, Marshal(bits, m))| <= MAX_INT64
    requires |Bounds(Flatten(groups)).0| + |Bounds(Flatten(groups)).1| + 48 <= MAX_UINT32
    requires |Flatten(groups)| <= MAX_UINT64
    ensures Open(crc, FileBytes(crc, groups, Marshal(bits, m))) == Some(WrittenReader(crc, groups, bits, m))
  {
    hide KeyLess, SortedTable, Flatten, DataBytes, IndexOf, ReadBlock, ReadFooter, AllFit, Sized, Marshal, Unmarshal,
      BlockBytes, Footer, Metadata, InBounds, DecodeIndex, IndexBytes, Unsigned, Bounds, OpenParts;
    var entries, data := Flatten(groups), DataBytes(crc, groups);
    var index, filter := BlockBytes(crc, IndexBytes(IndexOf(crc, groups))), BlockBytes(crc, Marshal(bits, m));
    var (minKey, maxKey) := Bounds(entries);
    var meta := Metadata(|data|, |index|, |data| + |index|, |filter|, |entries|, minKey, maxKey);
    var footer := Footer(crc, meta);
    var file := data + (index + (filter + footer));
    assert file == (data + (index + filter)) + footer;
    MetadataReads(|data|, |index|, |data| + |index|, |filter|, |entries|, minKey, maxKey);
    FooterReads(crc, data + (index + filter), meta);
    IndexBlockReads(crc, groups, data, filter + footer);
    assert file == (data + index) + (filter + footer);
    PayloadReads(crc, data + index, Marshal(bits, m), footer);
    PartsOpen(crc, groups, bits, m, file);
  }

  lemma PayloadReads(crc: Crc, a: seq<Byte>, payload: seq<Byte>, b: seq<Byte>)
    requires |a| + |BlockBytes(crc, payload)| + |b| <= MAX_INT64
    ensures |BlockBytes(crc, payload)| == |payload| + 4
    ensures ReadBlock(crc, a + (BlockBytes(crc, payload) + b), |a|, |BlockBytes(crc, payload)|) == Some(payload)
  {
    hide ReadBlock;
    BlockReads(crc, a, payload, b);
  }

  lemma IndexBlockReads(crc: Crc, groups: seq<seq<Version>>, data: seq<Byte>, rest: seq<Byte>)
    requires NonEmpty(groups) && |data| + |BlockBytes(crc, IndexBytes(IndexOf(crc, groups)))| + |rest| <= MAX_INT64
    ensures var index := BlockBytes(crc, IndexBytes(IndexOf(crc, groups)));
      |index| >= 4 && ReadBlock(crc, data + (index + rest), |data|, |index|) == Some(IndexBytes(IndexOf(crc, groups)))
  {
    PayloadReads(crc, data, IndexBytes(IndexOf(crc, groups)), rest);
  }

  lemma PartsOpen(crc: Crc, groups: seq<seq<Version>>, bits: seq<Byte>, m: nat, file: seq<Byte>)
    requires KeysApart(groups) && SortedTable(Flatten(groups)) && AllFit(Flatten(groups))
    requires Sized(bits, m) && m <= MAX_UINT64
    requires |DataBytes(crc, groups)| <= MAX_INT64
    ensures var (minKey, maxKey) := Bounds(Flatten(groups));
      OpenParts(file, Some(IndexBytes(IndexOf(crc, groups))), Some(Marshal(bits, m)), |DataBytes(crc, groups)|,
                |Flatten(groups)|, minKey, maxKey)
        == Some(Reader(file, IndexOf(crc, groups), bits, m, |Flatten(groups)|, minKey, maxKey))
  {
    hide KeyLess, SortedTable, Flatten, DataBytes, IndexOf, AllFit, Sized, Marshal, Unmarshal, InBounds, DecodeIndex,
      IndexBytes, Bounds;
    WrittenIndexOk(crc, groups);
    IndexRoundTrip(IndexOf(crc, groups));
    IndexInBounds(crc, groups);
    BloomRoundTrip(bits, m);
    FlattenEmpty(groups);
    BoundsOrdered(Flatten(groups));
  }

  /** Every record of a table file, if it validates. */
  function ReadFile(crc: Crc, hash: Hash, file: seq<Byte>): Option<seq<Version>> {
    match Open(crc, file)
    case None => None
    case Some(t) => ReadAll(crc, hash, t)
  }

  lemma WrittenReads(crc: Crc, hash: Hash, groups: seq<seq<Version>>, bits: seq<Byte>, m: nat)
    requires KeysApart(groups) && SortedTable(Flatten(groups)) && AllFit(Flatten(groups))
    requires Sized(bits, m) && m <= MAX_UINT64 && |FileBytes(crc, groups, Marshal(bits, m))| <= MAX_INT64
    requires |Bounds(Flatten(groups)).0| + |Bounds(Flatten(groups)).1| + 48 <= MAX_UINT32
    requires |Flatten(groups)| <= MAX_UINT64
    requires forall v :: v in Flatten(groups) ==> MayHold(hash, bits, m, v.key)
    ensures ReadFile(crc, hash, FileBytes(crc, groups, Marshal(bits, m))) == Some(Flatten(groups))
  {
    hide KeyLess, SortedTable, Flatten, DataBytes, IndexOf, AllFit, Sized, Marshal, Open, IndexBytes, ReadBlocks,
      MayHold, BlockBytes, Footer, Metadata;
    WrittenOpens(crc, groups, bits, m);
    var t, data := WrittenReader(crc, groups, bits, m), DataBytes(crc, groups);
    var tail := t.file[|data|..];
    assert t.file == data + tail;
    WrittenBlocks(crc, hash, groups, t, tail, |groups|);
    assert groups[..|groups|] == groups;
  }

  /** A written table answers every lookup as a scan of what was written does, newest version first. */
  lemma WrittenLookup(crc: Crc, hash: Hash, file: seq<Byte>, entries: seq<Version>, key: Key, checkBloom: bool)
    requires SortedTable(entries) && ReadFile(crc, hash, file) == Some(entries)
    ensures var r := Lookup(crc, hash, Open(crc, file).value, key, checkBloom);
      && r == Scan(entries, key) && !r.Corrupt?
      && (r == Absent <==> forall v :: v in entries ==> v.key != key)
      && (r.Hit? ==> Newest((set v | v in entries), r.v) && r.v.key == key)
  {
    hide KeyLess, SortedTable, Open, ReadAll, Lookup, Sized;
    OpenedOk(crc, file);
    LookupIsScan(crc, hash, Open(crc, file).value, key, checkBloom);
    ScanIsNewest(entries, key);
  }

  // ----- What a reader accepts -----

  /** A block is read only with the checksum its writer would have put after it. */
  lemma BlockAccepted(crc: Crc, file: seq<Byte>, offset: nat, length: nat)
    requires ReadBlock(crc, file, offset, length).Some?
    ensures offset + length <= |file|
    ensures file[offset..offset + length] == BlockBytes(crc, ReadBlock(crc, file, offset, length).value)
  {
    UnsignedInjective(file[offset + length - 4..offset + length]);
    hide LE, Unsigned;
    var payload := file[offset..offset + length - 4];
    assert file[offset..offset + length] == payload + file[offset + length - 4..offset + length];
  }

  /** A file is opened only if it ends in a footer its writer could have put there. */
  lemma FooterAccepted(crc: Crc, file: seq<Byte>)
    requires ReadFooter(crc, file).Some?
    ensures var (meta, end) := ReadFooter(crc, file).value; file[end..] == Footer(crc, meta)
  {
    var (meta, end) := ReadFooter(crc, file).value;
    var trailer := file[|file| - TRAILER..];
    UnsignedInjective(trailer[..4]);
    UnsignedInjective(trailer[4..8]);
    hide LE, Unsigned;
    assert trailer == trailer[..4] + trailer[4..8] + trailer[8..];
    assert file[end..] == meta + trailer;
  }

  /** A table is read only if its records are in order and agree with its footer, index and filter. */
  lemma ReadChecks(crc: Crc, hash: Hash, file: seq<Byte>)
    requires ReadFile(crc, hash, file).Some?
    ensures Open(crc, file).Some?
    ensures var t, vs := Open(crc, file).value, ReadFile(crc, hash, file).value;
      && SortedTable(vs) && |vs| == t.count && (forall v :: v in vs ==> MayHold(hash, t.bits, t.m, v.key))
      && (vs != [] ==> vs[0].key == t.minKey && vs[|vs| - 1].key == t.maxKey)
      && forall i :: 0 <= i < |t.index| ==>
           BlockAt(crc, t, i).Some? && forall v :: v in BlockAt(crc, t, i).value ==> v in vs
  {
    hide SortedTable, MayHold, BlockAt, Open, Sized;
    OpenedOk(crc, file);
    var t := Open(crc, file).value;
    BlocksSorted(crc, hash, t, |t.index|);
    EveryBlockRead(crc, hash, t, |t.index|);
  }

  lemma {:induction false} EveryBlockRead(crc: Crc, hash: Hash, t: Reader, k: nat)
    requires Sized(t.bits, t.m) && k <= |t.index| && ReadBlocks(crc, hash, t, k).Some?
    ensures forall i :: 0 <= i < k ==>
      BlockAt(crc, t, i).Some? && forall v :: v in BlockAt(crc, t, i).value ==> v in ReadBlocks(crc, hash, t, k).value
  {
    hide BlockAt, MayHold;
    if k > 0 { EveryBlockRead(crc, hash, t, k - 1); }
  }

  // ----- The writer -----

  lemma BlockedApart(groups: seq<seq<Version>>)
    requires Blocked(groups)
    ensures KeysApart(groups)
  {
    hide OnlyRunsOverflow;
    forall i | 0 <= i < |groups| - 1 ensures groups[i][|groups[i]| - 1].key != groups[i + 1][0].key {
      assert SplitAt(groups[i], groups[i + 1][0]);
    }
  }

  /** Some part of the file is too long for its length field. */
  ghost predicate Oversized(crc: Crc, groups: seq<seq<Version>>, bloom: seq<Byte>)
    requires NonEmpty(groups)
  {
    || (exists g :: g in groups && |Payload(g)| > MAX_UINT32)
    || |IndexBytes(IndexOf(crc, groups))| > MAX_UINT32 || |bloom| > MAX_UINT32
    || |Bounds(Flatten(groups)).0| + |Bounds(Flatten(groups)).1| + 48 > MAX_UINT32
  }

  /** A way to lay the entries out in blocks beside their encoded filter. */
  ghost predicate Laid(entries: seq<Version>, groups: seq<seq<Version>>, bloom: seq<Byte>)
    requires BloomBits(|entries|).Some?
  {
    Blocked(groups) && Flatten(groups) == entries && |bloom| == HEADER_SIZE + ByteLen(BloomBits(|entries|).value)
  }

  lemma BloomSize(bits: seq<Byte>, m: nat)
    requires Sized(bits, m)
    ensures |Marshal(bits, m)| == HEADER_SIZE + ByteLen(m)
  {}

  /** The format has no room for these entries. */
  ghost predicate TooBig(crc: Crc, entries: seq<Version>) {
    || !AllFit(entries) || BloomBits(|entries|).None?
    || exists groups, bloom :: Laid(entries, groups, bloom)
         && (Oversized(crc, groups, bloom) || |FileBytes(crc, groups, bloom)| > MAX_INT64)
  }

  // ----- Small tables always fit -----

  const SMALL: nat := 0x400_0000

  lemma {:induction false} UvarintShort(n: nat, k: nat)
    requires n < Pow128(k) && k > 0
    ensures |Uvarint(n)| <= k
    decreases k
  {
    if n >= 128 { UvarintShort(n / 128, k - 1); }
  }

  lemma UvarintAtMost10(n: nat)
    requires n <= MAX_UINT64
    ensures |Uvarint(n)| <= 10
  {
    assert Pow128(10) > MAX_UINT64;
    UvarintShort(n, 10);
  }

  lemma RecordSize(v: Version)
    ensures |v.key| + 8 < |RecordBytes(v)| && (v.value.Some? ==> |v.value.value| < |RecordBytes(v)|)
  {}

  lemma {:induction false} RecordsFit(entries: seq<Version>)
    ensures |entries| <= |Payload(entries)| && forall v :: v in entries ==> |RecordBytes(v)| <= |Payload(entries)|
    decreases |entries|
  {
    hide RecordBytes;
    if entries != [] { RecordsFit(entries[1..]); }
  }

  lemma {:induction false} PayloadConcat(a: seq<Version>, b: seq<Version>)
    ensures |Payload(a + b)| == |Payload(a)| + |Payload(b)|
    decreases |a|
  {
    hide RecordBytes;
    if a == [] {
      assert a + b == b;
    } else {
      assert (a + b)[1..] == a[1..] + b;
      PayloadConcat(a[1..], b);
    }
  }

  lemma NoParts(crc: Crc)
    ensures |DataBytes(crc, [])| == 0 && |IndexTail(IndexOf(crc, []))| == 0
  {
    EmptyTail();
  }

  lemma FlattenSnoc(front: seq<seq<Version>>, g: seq<Version>)
    ensures |Payload(Flatten(front + [g]))| == |Payload(Flatten(front))| + |Payload(g)|
  {
    hide Payload;
    assert (front + [g])[..|front|] == front;
    PayloadConcat(Flatten(front), g);
  }

  /** What one more block adds. */
  lemma PartsSnoc(crc: Crc, front: seq<seq<Version>>, g: seq<Version>)
    requires NonEmpty(front) && NonEmpty(front + [g]) && g != [] && |DataBytes(crc, front)| <= 5 * SMALL
    requires |Payload(g)| <= SMALL
    ensures var all := front + [g];
      && |Payload(g)| >= 1 && |DataBytes(crc, all)| == |DataBytes(crc, front)| + |Payload(g)| + 4
      && |IndexTail(IndexOf(crc, all))| <= |IndexTail(IndexOf(crc, front))| + 26 + |Payload(g)|
  {
    hide Payload, RecordBytes, IndexEntryBytes, IndexTail;
    assert (front + [g])[..|front|] == front;
    RecordsFit(g);
    assert g[0] in g;
    RecordSize(g[0]);
    var e := IndexEntry(g[0].key, |DataBytes(crc, front)|, |Payload(g)| + 4);
    IndexTailSnoc(IndexOf(crc, front), e);
    EntrySize(e);
  }

  /** Data, index and block count are bounded by the records' bytes. */
  lemma {:induction false} PartsBounded(crc: Crc, groups: seq<seq<Version>>)
    requires NonEmpty(groups) && |Payload(Flatten(groups))| <= SMALL
    ensures |groups| <= |Payload(Flatten(groups))| && |DataBytes(crc, groups)| <= 5 * |Payload(Flatten(groups))|
    ensures |IndexTail(IndexOf(crc, groups))| <= 27 * |Payload(Flatten(groups))|
    ensures forall g :: g in groups ==> |Payload(g)| <= |Payload(Flatten(groups))|
    decreases |groups|
  {
    hide Payload, DataBytes, IndexTail, IndexOf, Flatten;
    if groups != [] {
      var front, g := groups[..|groups| - 1], groups[|groups| - 1];
      assert groups == front + [g] && g in groups;
      FlattenSnoc(front, g);
      PartsBounded(crc, front);
      PartsSnoc(crc, front, g);
    } else {
      NoParts(crc);
    }
  }

  lemma EntrySize(e: IndexEntry)
    requires |e.firstKey| <= MAX_UINT64
    ensures |IndexEntryBytes(e)| <= 26 + |e.firstKey|
  {
    UvarintAtMost10(|e.firstKey|);
  }

  /** Up to 64 MiB of records always make a table. */
  lemma SmallTableFits(crc: Crc, entries: seq<Version>)
    requires |Payload(entries)| <= SMALL && forall v :: v in entries ==> v.seq_ <= MAX_UINT64
    ensures !TooBig(crc, entries)
  {
    hide Payload, RecordBytes, OnlyRunsOverflow, SplitAt, Flatten, DataBytes, IndexOf, IndexTail;
    RecordsFit(entries);
    forall v | v in entries ensures FitsRecord(v) { RecordSize(v); }
    forall groups, bloom | Laid(entries, groups, bloom)
      ensures !Oversized(crc, groups, bloom) && |FileBytes(crc, groups, bloom)| <= MAX_INT64
    {
      BlockedApart(groups);
      PartsBounded(crc, groups);
      UvarintAtMost10(|groups|);
      if entries != [] {
        assert entries[0] in entries && entries[|entries| - 1] in entries;
        RecordSize(entries[0]);
        RecordSize(entries[|entries| - 1]);
      }
    }
  }

  lemma {:induction false} IndexTailSnoc(index: seq<IndexEntry>, e: IndexEntry)
    ensures IndexTail(index + [e]) == IndexTail(index) + IndexEntryBytes(e)
  {
    if index == [] {
      assert [] + [e] == [e] && [e][1..] == [] && IndexTail([]) == [];
      assert IndexTail([e]) == IndexEntryBytes(e) + IndexTail([]);
    } else {
      assert (index + [e])[1..] == index[1..] + [e];
      IndexTailSnoc(index[1..], e);
    }
  }

  method EncodeIndex(index: seq<IndexEntry>) returns (out: seq<Byte>)
    ensures out == IndexBytes(index)
  {
    hide IndexEntryBytes, IndexTail, Uvarint;
    out := Uvarint(|index|);
    assert index[..0] == [] && IndexTail([]) == [] by { EmptyTail(); }
    for i := 0 to |index|
      invariant out == Uvarint(|index|) + IndexTail(index[..i])
    {
      IndexTailSnoc(index[..i], index[i]);
      assert index[..i + 1] == index[..i] + [index[i]];
      out := out + IndexEntryBytes(index[i]);
    }
    assert index[..|index|] == index;
  }

  lemma EmptyTail()
    ensures IndexTail([]) == []
  {}

  /** Lays the data blocks out and notes where each begins. */
  method LayBlocks(crc: Crc, blocks: seq<BuiltBlock>, ghost groups: seq<seq<Version>>)
    returns (ok: bool, table: seq<Byte>, index: seq<IndexEntry>)
    requires BuiltFrom(blocks, groups)
    ensures ok <==> forall g :: g in groups ==> |Payload(g)| <= MAX_UINT32
    ensures ok ==> table == DataBytes(crc, groups) && index == IndexOf(crc, groups)
  {
    hide Payload, BlockBytes;
    ok, table, index := true, [], [];
    for k := 0 to |blocks|
      invariant forall i :: 0 <= i < k ==> |Payload(groups[i])| <= MAX_UINT32
      invariant NonEmpty(groups[..k]) && table == DataBytes(crc, groups[..k]) && index == IndexOf(crc, groups[..k])
    {
      assert groups[..k + 1][..k] == groups[..k] && groups[k] in groups;
      if |blocks[k].data| > MAX_UINT32 { return false, table, index; }
      var offset := |table|;
      BlockSize(crc, blocks[k].data);
      table := table + BlockBytes(crc, blocks[k].data);
      index := index + [IndexEntry(blocks[k].firstKey, offset, |table| - offset)];
    }
    assert groups[..|groups|] == groups;
  }

  lemma BlockSize(crc: Crc, payload: seq<Byte>)
    ensures |BlockBytes(crc, payload)| == |payload| + 4
  {}

  function KeysOf(entries: seq<Version>): (keys: seq<Key>)
    ensures |keys| == |entries|
  {
    if entries == [] then [] else KeysOf(entries[..|entries| - 1]) + [entries[|entries| - 1].key]
  }

  lemma {:induction false} KeyListed(entries: seq<Version>, v: Version)
    requires v in entries
    ensures v.key in KeysOf(entries)
    decreases |entries|
  {
    var last := entries[|entries| - 1];
    if v != last {
      var i :| 0 <= i < |entries| && entries[i] == v;
      assert entries[..|entries| - 1][i] == v;
      KeyListed(entries[..|entries| - 1], v);
    }
  }

  /** The filter of exactly the entries' keys. */
  method FilterFor(hash: Hash, entries: seq<Version>, m: nat) returns (bits: seq<Byte>)
    requires m > 0
    ensures Built(hash, bits, m, KeysOf(entries))
    ensures Sized(bits, m) && forall v :: v in entries ==> MayHold(hash, bits, m, v.key)
  {
    hide MayHold, BitAt, Probe;
    var filter := new BloomFilter(m);
    assert entries[..0] == [];
    forall at | 0 <= at < m ensures !AnyHits(hash, m, [], at) { NoProbe(hash, m, at); }
    hide AnyHits;
    for i := 0 to |entries|
      invariant fresh(filter.bits) && filter.Valid() && Built(hash, filter.bits[..], m, KeysOf(entries[..i]))
    {
      ghost var before := filter.bits[..];
      filter.Add(hash, entries[i].key);
      assert entries[..i + 1][..i] == entries[..i];
      BuiltOneMore(hash, before, filter.bits[..], m, KeysOf(entries[..i]), entries[i].key);
    }
    assert entries[..|entries|] == entries;
    forall v | v in entries ensures MayHold(hash, filter.bits[..], m, v.key) {
      KeyListed(entries, v);
      PassesIff(hash, filter.bits[..], m, KeysOf(entries), v.key);
    }
    return filter.bits[..];
  }

  /** The encoded filter of exactly the entries' keys, at ten bits a key. */
  ghost predicate FilterOf(hash: Hash, entries: seq<Version>, bloom: seq<Byte>) {
    exists bits :: BloomBits(|entries|).Some? && Built(hash, bits, BloomBits(|entries|).value, KeysOf(entries))
                   && bloom == Marshal(bits, BloomBits(|entries|).value)
  }

  class SSTableWriter {
    var entries: seq<Version>
    var closed: bool

    ghost predicate Valid()
      reads this
    {
      SortedTable(entries) && forall v :: v in entries ==> v.seq_ <= MAX_UINT64
    }

    constructor ()
      ensures Valid() && entries == [] && !closed
    {
      entries, closed := [], false;
    }

    method Add(v: Version) returns (ok: bool)
      requires Valid() && v.seq_ <= MAX_UINT64
      modifies this`entries
      ensures Valid() && entries == if ok then old(entries) + [v] else old(entries)
      ensures ok <==> !closed && (old(entries) == [] || Before(old(entries)[|old(entries)| - 1], v))
    {
      hide Before;
      if closed || (entries != [] && !Before(entries[|entries| - 1], v)) { return false; }
      SortedSnoc(entries, v);
      entries := entries + [v];
      return true;
    }

    /** Writes the table: the file reads back as the entries, through every reader path. */
    method Finish(crc: Crc, hash: Hash)
      returns (r: Option<seq<Byte>>, ghost groups: seq<seq<Version>>, ghost bloom: seq<Byte>)
      requires Valid()
      modifies this`closed
      ensures closed && NonEmpty(groups)
      ensures r.None? <==>
        old(closed) || !AllFit(entries) || BloomBits(|entries|).None? || Oversized(crc, groups, bloom)
      ensures !old(closed) && AllFit(entries) && BloomBits(|entries|).Some? ==>
        Laid(entries, groups, bloom) && FilterOf(hash, entries, bloom)
      ensures r.Some? ==> r.value == FileBytes(crc, groups, bloom)
      ensures r.Some? && |r.value| <= MAX_INT64 ==> ReadFile(crc, hash, r.value) == Some(entries)
    {
      hide SortedTable, AllFit, Payload, Flatten, DataBytes, IndexOf, IndexBytes, BlockBytes, Marshal, Footer, Metadata,
        ReadFile, MayHold, OnlyRunsOverflow, SplitAt, Bounds, Built, KeysOf;
      groups, bloom := [], [];
      if closed { return None, groups, bloom; }
      closed := true;
      var blocks, gs := BuildDataBlocks(entries);
      if blocks.None? { return None, groups, bloom; }
      groups := gs;
      var bits := BloomBits(|entries|);
      if bits.None? { return None, groups, bloom; }
      var filter := FilterFor(hash, entries, bits.value);
      bloom := Marshal(filter, bits.value);
      BloomSize(filter, bits.value);
      var ok, table, index := LayBlocks(crc, blocks.value, groups);
      if !ok { return None, groups, bloom; }
      var indexData := EncodeIndex(index);
      if |indexData| > MAX_UINT32 { return None, groups, bloom; }
      var indexBlock := BlockBytes(crc, indexData);
      var bloomData := Marshal(filter, bits.value);
      if |bloomData| > MAX_UINT32 { return None, groups, bloom; }
      var bloomBlock := BlockBytes(crc, bloomData);
      var (minKey, maxKey) := Bounds(entries);
      if |minKey| + |maxKey| + 48 > MAX_UINT32 { return None, groups, bloom; }
      var end := |table| + |indexBlock|;
      var footer := Footer(crc, Metadata(|table|, |indexBlock|, end, |bloomBlock|, |entries|, minKey, maxKey));
      r := Some(table + (indexBlock + (bloomBlock + footer)));
      BlockedApart(groups);
      if |r.value| <= MAX_INT64 { WrittenReads(crc, hash, groups, filter, bits.value); }
    }
  }

  lemma SortedSnoc(vs: seq<Version>, v: Version)
    requires SortedTable(vs) && (vs != [] ==> Before(vs[|vs| - 1], v))
    ensures SortedTable(vs + [v])
  {
    hide Before;
    var next := vs + [v];
    forall i, j | 0 <= i < j < |next| ensures Before(next[i], next[j]) {
      if j == |vs| && i < |vs| - 1 { BeforeTransitive(vs[i], vs[|vs| - 1], v); }
    }
  }
}
