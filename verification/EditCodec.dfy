/**
 A codec for the manifest's edits: numbers in base 255 closed by the byte 255, keys and lists
 behind their lengths. Its decoder inverts its encoder on every edit, and an edit takes little
 more than its keys; so formats whose edits always fit exist, and what is promised of an engine
 with such formats is promised of something.
 */
module EditCodec {
  import opened RaftTypes
  import opened LsmTypes
  import opened LsmDisk
  import opened FormatRoom
  import M = Manifest
  import SSTable
  import TableFormat

  // ----- Numbers -----

  function Number(n: nat): (bs: seq<Byte>)
    ensures |bs| > 0
  {
    if n == 0 then [255] else [n % 255] + Number(n / 255)
  }

  function FrontNumber(data: seq<Byte>): Option<(nat, seq<Byte>)> {
    if data == [] then None
    else if data[0] == 255 then Some((0, data[1..]))
    else
      match FrontNumber(data[1..])
      case None => None
      case Some(r) => Some((data[0] + 255 * r.0, r.1))
  }

  lemma {:induction false} NumberReads(n: nat, rest: seq<Byte>)
    ensures FrontNumber(Number(n) + rest) == Some((n, rest))
    decreases n
  {
    if n == 0 {
      assert ([255] + rest)[1..] == rest;
    } else {
      NumberReads(n / 255, rest);
      assert (Number(n) + rest)[1..] == Number(n / 255) + rest;
    }
  }

  // ----- Keys and lists -----

  function KeyOut(key: Key): seq<Byte> { Number(|key|) + key }

  function FrontKey(data: seq<Byte>): Option<(Key, seq<Byte>)> {
    match FrontNumber(data)
    case None => None
    case Some(r) => if r.0 > |r.1| then None else Some((r.1[..r.0], r.1[r.0..]))
  }

  lemma KeyReads(key: Key, rest: seq<Byte>)
    ensures FrontKey(KeyOut(key) + rest) == Some((key, rest))
  {
    NumberReads(|key|, key + rest);
    assert KeyOut(key) + rest == Number(|key|) + (key + rest);
  }

  function NumbersOut(ns: seq<nat>): seq<Byte> { if ns == [] then [] else Number(ns[0]) + NumbersOut(ns[1..]) }

  function FrontNumbers(count: nat, data: seq<Byte>): Option<(seq<nat>, seq<Byte>)> {
    if count == 0 then Some(([], data))
    else
      match FrontNumber(data)
      case None => None
      case Some(r) =>
        match FrontNumbers(count - 1, r.1)
        case None => None
        case Some(q) => Some(([r.0] + q.0, q.1))
  }

  lemma {:induction false} NumbersRead(ns: seq<nat>, rest: seq<Byte>)
    ensures FrontNumbers(|ns|, NumbersOut(ns) + rest) == Some((ns, rest))
    decreases |ns|
  {
    if ns == [] {
      assert NumbersOut(ns) + rest == rest;
    } else {
      NumbersRead(ns[1..], rest);
      NumberReads(ns[0], NumbersOut(ns[1..]) + rest);
      assert NumbersOut(ns) + rest == Number(ns[0]) + (NumbersOut(ns[1..]) + rest);
      assert [ns[0]] + ns[1..] == ns;
    }
  }

  // ----- Added tables -----

  function AddedOut(a: M.Added): seq<Byte> {
    Number(a.file) + (Number(a.meta.tier) + (Number(a.meta.count) + (KeyOut(a.meta.minKey) + KeyOut(a.meta.maxKey))))
  }

  function FrontAdded(data: seq<Byte>): Option<(M.Added, seq<Byte>)> {
    match FrontNumbers(3, data)
    case None => None
    case Some(n) =>
      match FrontKey(n.1)
      case None => None
      case Some(a) =>
        match FrontKey(a.1)
        case None => None
        case Some(b) =>
          if |n.0| != 3 then None else Some((M.Added(n.0[0], M.Meta(n.0[1], a.0, b.0, n.0[2])), b.1))
  }

  lemma AddedReads(a: M.Added, rest: seq<Byte>)
    ensures FrontAdded(AddedOut(a) + rest) == Some((a, rest))
  {
    hide Number, FrontNumber, FrontKey, KeyOut;
    var ns := [a.file, a.meta.tier, a.meta.count];
    var tail := KeyOut(a.meta.minKey) + (KeyOut(a.meta.maxKey) + rest);
    NumbersRead(ns, tail);
    KeyReads(a.meta.minKey, KeyOut(a.meta.maxKey) + rest);
    KeyReads(a.meta.maxKey, rest);
    ThreeOut(ns);
    assert AddedOut(a) + rest == NumbersOut(ns) + tail;
  }

  lemma ThreeOut(ns: seq<nat>)
    requires |ns| == 3
    ensures NumbersOut(ns) == Number(ns[0]) + (Number(ns[1]) + Number(ns[2]))
  {
    hide Number;
    assert ns[1..][1..] == [ns[2]] && ns[1..][1..][1..] == [] && ns[1..][0] == ns[1];
    assert NumbersOut([]) == [] && NumbersOut([ns[2]]) == Number(ns[2]) + [];
  }

  function AllOut(added: seq<M.Added>): seq<Byte> {
    if added == [] then [] else AddedOut(added[0]) + AllOut(added[1..])
  }

  function FrontAll(count: nat, data: seq<Byte>): Option<(seq<M.Added>, seq<Byte>)> {
    if count == 0 then Some(([], data))
    else
      match FrontAdded(data)
      case None => None
      case Some(r) =>
        match FrontAll(count - 1, r.1)
        case None => None
        case Some(q) => Some(([r.0] + q.0, q.1))
  }

  lemma {:induction false} AllRead(added: seq<M.Added>, rest: seq<Byte>)
    ensures FrontAll(|added|, AllOut(added) + rest) == Some((added, rest))
    decreases |added|
  {
    hide AddedOut, FrontAdded;
    if added == [] {
      assert AllOut(added) + rest == rest;
    } else {
      AllRead(added[1..], rest);
      AddedReads(added[0], AllOut(added[1..]) + rest);
      assert AllOut(added) + rest == AddedOut(added[0]) + (AllOut(added[1..]) + rest);
      assert [added[0]] + added[1..] == added;
    }
  }

  // ----- Edits -----

  function Marshal(e: M.Edit): seq<Byte> {
    Number(e.flushed) + (Number(|e.removed|) + (Number(|e.added|) + (NumbersOut(e.removed) + AllOut(e.added))))
  }

  function Unmarshal(data: seq<Byte>): Option<M.Edit> {
    match FrontNumbers(3, data)
    case None => None
    case Some(n) =>
      if |n.0| != 3 then None
      else
        match FrontNumbers(n.0[1], n.1)
        case None => None
        case Some(removed) =>
          match FrontAll(n.0[2], removed.1)
          case None => None
          case Some(added) => if added.1 == [] then Some(M.Edit(added.0, removed.0, n.0[0])) else None
  }

  const PLAIN := M.Codec(Marshal, Unmarshal)

  /** The decoder inverts the encoder on every edit. */
  lemma PlainIsLawful()
    ensures M.Lawful(PLAIN)
  {
    hide Number, NumbersOut, AllOut, FrontNumbers, FrontAll;
    forall e: M.Edit ensures PLAIN.unmarshal(PLAIN.marshal(e)) == Some(e) {
      var ns := [e.flushed, |e.removed|, |e.added|];
      NumbersRead(ns, NumbersOut(e.removed) + AllOut(e.added));
      ThreeOut(ns);
      NumbersRead(e.removed, AllOut(e.added));
      AllRead(e.added, []);
      assert AllOut(e.added) + [] == AllOut(e.added);
      assert Marshal(e) == NumbersOut(ns) + (NumbersOut(e.removed) + AllOut(e.added));
    }
  }

  // ----- Sizes -----

  lemma {:induction false} NumberShort(n: nat, k: nat)
    requires n < Pow255(k)
    ensures |Number(n)| <= k + 1
    decreases k
  {
    if n > 0 { NumberShort(n / 255, k - 1); }
  }

  function Pow255(k: nat): nat { if k == 0 then 1 else 255 * Pow255(k - 1) }

  lemma WordShort(n: nat)
    requires n <= MAX_UINT64
    ensures |Number(n)| <= 10
  {
    assert Pow255(9) > MAX_UINT64;
    NumberShort(n, 9);
  }

  lemma {:induction false} NumbersShort(ns: seq<nat>)
    requires forall i :: 0 <= i < |ns| ==> ns[i] <= MAX_UINT64
    ensures |NumbersOut(ns)| <= 10 * |ns|
    decreases |ns|
  {
    hide Number;
    if ns != [] {
      WordShort(ns[0]);
      NumbersShort(ns[1..]);
    }
  }

  lemma {:induction false} NumberAtMost(n: nat)
    ensures |Number(n)| <= n + 1
    decreases n
  {
    if n > 0 { NumberAtMost(n / 255); }
  }

  lemma AddedShort(a: M.Added)
    requires a.file <= MAX_UINT64 && a.meta.tier <= MAX_UINT32 && a.meta.count <= MAX_UINT64
    ensures |AddedOut(a)| <= 32 + 2 * (|a.meta.minKey| + |a.meta.maxKey|)
  {
    hide Number;
    WordShort(a.file);
    WordShort(a.meta.tier);
    WordShort(a.meta.count);
    NumberAtMost(|a.meta.minKey|);
    NumberAtMost(|a.meta.maxKey|);
  }

  /** Besides its keys an edit takes at most 102 bytes. */
  lemma PlainIsFrugal()
    ensures Frugal(PLAIN, 102)
  {
    hide Number, NumbersOut, AddedOut;
    forall e: M.Edit | SmallEdit(e) ensures |PLAIN.marshal(e)| <= 102 + 2 * KeyBytes(e.added) {
      WordShort(e.flushed);
      WordShort(|e.removed|);
      WordShort(|e.added|);
      forall i | 0 <= i < |e.removed| ensures e.removed[i] <= MAX_UINT64 { assert e.removed[i] in e.removed; }
      NumbersShort(e.removed);
      if e.added != [] {
        assert e.added[0] in e.added && e.added[1..] == [] && AllOut([]) == [] && KeyBytes([]) == 0;
        AddedShort(e.added[0]);
      }
    }
  }

  /**
   Formats with this codec are lawful and have room for any writes of at most 64 MiB together,
   whatever checksum and table reader go with it.
   */
  lemma PlainHasRoom(crc: SSTable.Crc, readTable: seq<Byte> -> Option<seq<Version>>, writes: set<Version>, size: nat)
    requires forall v :: v in writes ==> v.seq_ <= MAX_UINT64 && |TableFormat.RecordBytes(v)| <= size
    requires |writes| * size <= SSTable.SMALL
    ensures var fm := Formats(PLAIN, crc, readTable); FormatsOk(fm) && Roomy(fm, writes)
  {
    hide M.Lawful, Frugal, Roomy, TableFormat.RecordBytes;
    PlainIsLawful();
    PlainIsFrugal();
    SmallIsRoomy(Formats(PLAIN, crc, readTable), writes, size, 102);
  }
}
