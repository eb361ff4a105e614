/**
 The self-delimiting frames of the write-ahead log and the manifest: a start marker, the
 length, checksum and payload with every byte split into two symbols, and an end marker.
 */
module Frames {
  import opened RaftTypes
  import opened Bytes
  import RecordCodec

  type Crc = RecordCodec.Crc

  const START: Byte := 0xFA
  const END: Byte := 0xFB
  const BASE: Byte := 0x40
  const LIMIT: Byte := 0x4F

  predicate IsSymbol(b: Byte) { BASE <= b <= LIMIT }

  // ----- Symbols -----

  /** Each byte becomes two symbols, high nibble first. */
  function Symbols(bs: seq<Byte>): (ss: seq<Byte>)
    ensures |ss| == 2 * |bs|
    ensures forall i :: 0 <= i < |ss| ==> IsSymbol(ss[i])
  {
    seq(2 * |bs|, i requires 0 <= i < 2 * |bs| =>
      if i % 2 == 0 then BASE + bs[i / 2] / 16 else BASE + bs[i / 2] % 16)
  }

  function Unsymbols(ss: seq<Byte>): (bs: seq<Byte>)
    requires |ss| % 2 == 0 && forall i :: 0 <= i < |ss| ==> IsSymbol(ss[i])
    ensures |bs| == |ss| / 2
  {
    seq(|ss| / 2, i requires 0 <= i < |ss| / 2 => Join(ss[2 * i], ss[2 * i + 1]))
  }

  function Join(high: Byte, low: Byte): Byte
    requires IsSymbol(high) && IsSymbol(low)
  {
    (high - BASE) * 16 + (low - BASE)
  }

  lemma SymbolsRoundTrip(bs: seq<Byte>)
    ensures Unsymbols(Symbols(bs)) == bs
  {
    var ss := Symbols(bs);
    forall i | 0 <= i < |bs| ensures Unsymbols(ss)[i] == bs[i] {
      assert ss[2 * i] == BASE + bs[i] / 16 && ss[2 * i + 1] == BASE + bs[i] % 16;
    }
  }

  lemma UnsymbolsRoundTrip(ss: seq<Byte>)
    requires |ss| % 2 == 0 && forall i :: 0 <= i < |ss| ==> IsSymbol(ss[i])
    ensures Symbols(Unsymbols(ss)) == ss
  {
    var bs := Unsymbols(ss);
    forall i | 0 <= i < |ss| ensures Symbols(bs)[i] == ss[i] {
      var h := i / 2;
      assert bs[h] == Join(ss[2 * h], ss[2 * h + 1]);
    }
  }

  // ----- One frame -----

  function Body(crc: Crc, payload: seq<Byte>): (b: seq<Byte>)
    ensures |b| == 8 + |payload|
  {
    LE(|payload|, 4) + LE(crc(payload), 4) + payload
  }

  function FrameOf(crc: Crc, payload: seq<Byte>): (f: seq<Byte>)
    ensures |f| == 2 + 2 * (8 + |payload|)
  {
    [START] + Symbols(Body(crc, payload)) + [END]
  }

  /** The payload of a terminated frame's interior; None is corruption. */
  function DecodeBody(crc: Crc, symbols: seq<Byte>): Option<seq<Byte>>
    requires forall i :: 0 <= i < |symbols| ==> IsSymbol(symbols[i])
  {
    if |symbols| % 2 != 0 then None
    else
      var body := Unsymbols(symbols);
      if |body| < 8 || |body| != 8 + Unsigned(body[..4]) then None
      else if crc(body[8..]) != Unsigned(body[4..8]) then None
      else Some(body[8..])
  }

  lemma DecodeFrameBody(crc: Crc, payload: seq<Byte>)
    requires Fits(|payload|, 4)
    ensures DecodeBody(crc, Symbols(Body(crc, payload))) == Some(payload)
  {
    var body := Body(crc, payload);
    SymbolsRoundTrip(body);
    assert body[..4] == LE(|payload|, 4) && body[4..8] == LE(crc(payload), 4) && body[8..] == payload;
    LERoundTrip(|payload|, 4);
    assert Pow256(4) == 0x1_0000_0000;
    LERoundTrip(crc(payload), 4);
  }

  /** Only the encoding of a payload decodes to it. */
  lemma DecodedBodyIs(crc: Crc, symbols: seq<Byte>)
    requires forall i :: 0 <= i < |symbols| ==> IsSymbol(symbols[i])
    requires DecodeBody(crc, symbols).Some?
    ensures symbols == Symbols(Body(crc, DecodeBody(crc, symbols).value)) && Fits(|DecodeBody(crc, symbols).value|, 4)
  {
    var body := Unsymbols(symbols);
    UnsymbolsRoundTrip(symbols);
    BodyIs(crc, body);
  }

  lemma BodyIs(crc: Crc, body: seq<Byte>)
    requires |body| >= 8 && |body| == 8 + Unsigned(body[..4]) && crc(body[8..]) == Unsigned(body[4..8])
    ensures body == Body(crc, body[8..]) && Fits(|body| - 8, 4)
  {
    UnsignedInjective(body[..4]);
    UnsignedBound(body[..4]);
    UnsignedInjective(body[4..8]);
    hide LE, Unsigned, Pow256;
    assert body == body[..4] + body[4..8] + body[8..];
  }

  // ----- Scanning -----

  /** The first position from p on that does not hold a symbol. */
  function InteriorEnd(data: seq<Byte>, p: nat): (e: nat)
    requires p <= |data|
    ensures p <= e <= |data|
    ensures forall i :: p <= i < e ==> IsSymbol(data[i])
    ensures e < |data| ==> !IsSymbol(data[e])
    decreases |data| - p
  {
    if p == |data| || !IsSymbol(data[p]) then p else InteriorEnd(data, p + 1)
  }

  datatype Head = Bad | Unterminated | Whole(payload: seq<Byte>, size: nat)

  function FirstFrame(crc: Crc, data: seq<Byte>): (h: Head)
    requires data != []
    ensures h.Whole? ==> 2 <= h.size <= |data|
  {
    if data[0] != START then Bad
    else
      var e := InteriorEnd(data, 1);
      if e == |data| then Unterminated
      else if data[e] != END then Bad
      else match DecodeBody(crc, data[1..e])
           case None => Bad
           case Some(payload) => Whole(payload, e + 1)
  }

  /** The payloads found, how many bytes they take, and whether an unterminated frame follows. */
  datatype FrameScan = Found(payloads: seq<seq<Byte>>, complete: nat, torn: bool) | Corrupt

  function ScanFrames(crc: Crc, data: seq<Byte>): (s: FrameScan)
    ensures s.Found? ==> s.complete <= |data|
    decreases |data|
  {
    if data == [] then Found([], 0, false)
    else
      match FirstFrame(crc, data)
      case Bad => Corrupt
      case Unterminated => Found([], 0, true)
      case Whole(payload, n) =>
        match ScanFrames(crc, data[n..])
        case Corrupt => Corrupt
        case Found(ps, m, torn) => Found([payload] + ps, n + m, torn)
  }

  function EncodeFrames(crc: Crc, ps: seq<seq<Byte>>): seq<Byte> {
    if ps == [] then [] else EncodeFrames(crc, ps[..|ps| - 1]) + FrameOf(crc, ps[|ps| - 1])
  }

  ghost predicate AllFit(ps: seq<seq<Byte>>) { forall p :: p in ps ==> Fits(|p|, 4) }

  lemma {:induction false} EncodeFramesConcat(crc: Crc, a: seq<seq<Byte>>, b: seq<seq<Byte>>)
    ensures EncodeFrames(crc, a + b) == EncodeFrames(crc, a) + EncodeFrames(crc, b)
    decreases |b|
  {
    hide FrameOf;
    if b == [] {
      assert a + b == a;
    } else {
      var front, last := b[..|b| - 1], b[|b| - 1];
      assert (a + b)[..|a + b| - 1] == a + front;
      EncodeFramesConcat(crc, a, front);
      RecordCodec.AssociateBytes(EncodeFrames(crc, a), EncodeFrames(crc, front), FrameOf(crc, last));
    }
  }

  lemma EncodeFramesCons(crc: Crc, p: seq<Byte>, ps: seq<seq<Byte>>)
    ensures EncodeFrames(crc, [p] + ps) == FrameOf(crc, p) + EncodeFrames(crc, ps)
  {
    hide FrameOf;
    EncodeFramesConcat(crc, [p], ps);
    assert [p][..0] == [];
  }

  lemma {:induction false} InteriorEndIs(data: seq<Byte>, p: nat, e: nat)
    requires p <= e <= |data| && forall i :: p <= i < e ==> IsSymbol(data[i])
    requires e < |data| ==> !IsSymbol(data[e])
    ensures InteriorEnd(data, p) == e
    decreases e - p
  {
    if p < e { InteriorEndIs(data, p + 1, e); }
  }

  /** A frame cut anywhere before its end marker is unterminated, never corrupt. */
  lemma CutFrame(crc: Crc, p: seq<Byte>, data: seq<Byte>)
    requires data != [] && |data| < |FrameOf(crc, p)| && data == FrameOf(crc, p)[..|data|]
    ensures FirstFrame(crc, data) == Unterminated
  {
    var interior := Symbols(Body(crc, p));
    hide DecodeBody, Symbols, Body;
    assert forall i :: 1 <= i < |data| ==> data[i] == interior[i - 1];
    InteriorEndIs(data, 1, |data|);
  }

  lemma WholeFrame(crc: Crc, p: seq<Byte>, data: seq<Byte>)
    requires Fits(|p|, 4) && |FrameOf(crc, p)| <= |data| && data[..|FrameOf(crc, p)|] == FrameOf(crc, p)
    ensures FirstFrame(crc, data) == Whole(p, |FrameOf(crc, p)|)
  {
    var f, interior := FrameOf(crc, p), Symbols(Body(crc, p));
    DecodeFrameBody(crc, p);
    hide DecodeBody, Symbols, Body, Fits;
    var e := |f| - 1;
    assert forall i :: 0 <= i < |f| ==> data[i] == data[..|f|][i];
    assert forall i :: 1 <= i < e ==> data[i] == interior[i - 1];
    assert data[0] == START && data[e] == END;
    InteriorEndIs(data, 1, e);
    assert data[1..e] == interior;
  }

  /** Number of leading frames wholly inside the first k bytes. */
  function WholeFrames(crc: Crc, ps: seq<seq<Byte>>, k: nat): (j: nat)
    ensures j <= |ps|
  {
    if ps == [] || |EncodeFrames(crc, ps)| <= k then |ps| else WholeFrames(crc, ps[..|ps| - 1], k)
  }

  /** They are the longest prefix of the frames that the bytes hold. */
  lemma {:induction false} WholeFramesIs(crc: Crc, ps: seq<seq<Byte>>, k: nat)
    ensures var j := WholeFrames(crc, ps, k);
      && |EncodeFrames(crc, ps[..j])| <= k
      && (j < |ps| ==> k < |EncodeFrames(crc, ps[..j + 1])|)
    decreases |ps|
  {
    hide EncodeFrames;
    EncodeNoFrames(crc);
    assert ps[..|ps|] == ps;
    if ps != [] && |EncodeFrames(crc, ps)| > k {
      var front := ps[..|ps| - 1];
      WholeFramesIs(crc, front, k);
      var j := WholeFrames(crc, front, k);
      assert front[..j] == ps[..j];
      if j < |front| { assert front[..j + 1] == ps[..j + 1]; }
    }
  }

  /** The scan of what follows some frames already read. */
  function Ahead(ps: seq<seq<Byte>>, n: nat, s: FrameScan): FrameScan {
    match s
    case Corrupt => Corrupt
    case Found(more, m, torn) => Found(ps + more, n + m, torn)
  }

  lemma ScanPastFrame(crc: Crc, p: seq<Byte>, tail: seq<Byte>)
    requires Fits(|p|, 4)
    ensures ScanFrames(crc, FrameOf(crc, p) + tail) == Ahead([p], |FrameOf(crc, p)|, ScanFrames(crc, tail))
  {
    hide FrameOf, FirstFrame, Fits;
    var f := FrameOf(crc, p);
    assert (f + tail)[..|f|] == f && (f + tail)[|f|..] == tail;
    WholeFrame(crc, p, f + tail);
  }

  lemma AheadTwice(p: seq<Byte>, n: nat, ps: seq<seq<Byte>>, m: nat, s: FrameScan)
    ensures Ahead([p], n, Ahead(ps, m, s)) == Ahead([p] + ps, n + m, s)
  {
    if s.Found? { assert [p] + (ps + s.payloads) == ([p] + ps) + s.payloads; }
  }

  /** Whole frames are read in order, whatever follows them. */
  lemma {:induction false} ScanPastFrames(crc: Crc, ps: seq<seq<Byte>>, tail: seq<Byte>)
    requires AllFit(ps)
    ensures ScanFrames(crc, EncodeFrames(crc, ps) + tail) == Ahead(ps, |EncodeFrames(crc, ps)|, ScanFrames(crc, tail))
    decreases |ps|
  {
    hide EncodeFrames, FrameOf, Fits, ScanFrames;
    var s := ScanFrames(crc, tail);
    if ps == [] {
      EncodeNoFrames(crc);
      assert EncodeFrames(crc, ps) + tail == tail;
      assert s.Found? ==> [] + s.payloads == s.payloads;
    } else {
      var p, rest := ps[0], ps[1..];
      assert ps == [p] + rest;
      EncodeFramesCons(crc, p, rest);
      var f, more := FrameOf(crc, p), EncodeFrames(crc, rest);
      RecordCodec.AssociateBytes(f, more, tail);
      ScanPastFrame(crc, p, more + tail);
      ScanPastFrames(crc, rest, tail);
      AheadTwice(p, |f|, rest, |more|, s);
    }
  }

  lemma ScanCutFrame(crc: Crc, p: seq<Byte>, k: nat)
    requires k < |FrameOf(crc, p)|
    ensures ScanFrames(crc, FrameOf(crc, p)[..k]) == Found([], 0, 0 < k)
  {
    hide FrameOf, FirstFrame;
    if k > 0 { CutFrame(crc, p, FrameOf(crc, p)[..k]); }
  }

  /** A cut log is its whole frames and a proper prefix of the next. */
  lemma {:induction false} CutLog(crc: Crc, ps: seq<seq<Byte>>, k: nat)
    requires k <= |EncodeFrames(crc, ps)|
    ensures var j := WholeFrames(crc, ps, k);
      var n := |EncodeFrames(crc, ps[..j])|;
      && n <= k
      && EncodeFrames(crc, ps[..j]) <= EncodeFrames(crc, ps)
      && if j == |ps| then k == n
         else k - n < |FrameOf(crc, ps[j])|
              && EncodeFrames(crc, ps)[..k] == EncodeFrames(crc, ps[..j]) + FrameOf(crc, ps[j])[..k - n]
    decreases |ps|
  {
    hide FrameOf;
    if ps != [] && k < |EncodeFrames(crc, ps)| {
      var front, last := ps[..|ps| - 1], ps[|ps| - 1];
      var e := EncodeFrames(crc, front);
      if k < |e| {
        CutLog(crc, front, k);
        var j := WholeFrames(crc, front, k);
        assert ps[..j] == front[..j];
        assert EncodeFrames(crc, ps)[..k] == e[..k];
      } else {
        assert WholeFrames(crc, front, k) == |front|;
        assert EncodeFrames(crc, ps)[..k] == e + FrameOf(crc, last)[..k - |e|];
      }
    } else {
      assert ps[..|ps|] == ps;
    }
  }

  /** Any byte prefix of a log of frames scans to a frame prefix and at most one unterminated frame. */
  lemma TornFramesScan(crc: Crc, ps: seq<seq<Byte>>, k: nat)
    requires AllFit(ps) && k <= |EncodeFrames(crc, ps)|
    ensures var j := WholeFrames(crc, ps, k);
      var n := |EncodeFrames(crc, ps[..j])|;
      n <= k && ScanFrames(crc, EncodeFrames(crc, ps)[..k]) == Found(ps[..j], n, n < k)
  {
    hide EncodeFrames, FrameOf, Fits, ScanFrames, WholeFrames;
    var j := WholeFrames(crc, ps, k);
    var whole := ps[..j];
    CutLog(crc, ps, k);
    var n := |EncodeFrames(crc, whole)|;
    assert whole + [] == whole;
    if j == |ps| {
      assert whole == ps;
      assert EncodeFrames(crc, ps)[..k] == EncodeFrames(crc, whole) + [];
      ScanPastFrames(crc, whole, []);
      ScanNothing(crc);
    } else {
      ScanPastFrames(crc, whole, FrameOf(crc, ps[j])[..k - n]);
      ScanCutFrame(crc, ps[j], k - n);
    }
  }

  /** A log that ends inside the frames b scans to the frames before them and b's whole ones. */
  lemma CutTailScans(crc: Crc, a: seq<seq<Byte>>, b: seq<seq<Byte>>, k: nat)
    requires AllFit(a) && AllFit(b) && k <= |EncodeFrames(crc, b)|
    ensures var data := EncodeFrames(crc, a) + EncodeFrames(crc, b)[..k];
      var j := WholeFrames(crc, b, k);
      var n := |EncodeFrames(crc, a + b[..j])|;
      n <= |data| && ScanFrames(crc, data) == Found(a + b[..j], n, n < |data|)
  {
    hide EncodeFrames, ScanFrames, WholeFrames, FrameOf, Fits, AllFit;
    var j := WholeFrames(crc, b, k);
    TornFramesScan(crc, b, k);
    ScanPastFrames(crc, a, EncodeFrames(crc, b)[..k]);
    EncodeFramesConcat(crc, a, b[..j]);
  }

  lemma ScanNothing(crc: Crc)
    ensures ScanFrames(crc, []) == Found([], 0, false)
  {}

  lemma EncodeNoFrames(crc: Crc)
    ensures EncodeFrames(crc, []) == []
  {}

  /** Whatever bytes are accepted are exactly the frames of the payloads found. */
  lemma {:induction false} AcceptedAreFrames(crc: Crc, data: seq<Byte>)
    requires ScanFrames(crc, data).Found?
    ensures var s := ScanFrames(crc, data);
      && AllFit(s.payloads)
      && data[..s.complete] == EncodeFrames(crc, s.payloads)
      && (s.torn <==> s.complete < |data|)
    decreases |data|
  {
    EncodeNoFrames(crc);
    if data != [] && FirstFrame(crc, data).Whole? {
      var h := FirstFrame(crc, data);
      FoundFrame(crc, data);
      var s := ScanFrames(crc, data[h.size..]);
      assert ScanFrames(crc, data) == Ahead([h.payload], h.size, s);
      hide FirstFrame, EncodeFrames, FrameOf, Fits, ScanFrames;
      AcceptedAreFrames(crc, data[h.size..]);
      JoinFrames(crc, data, h.payload, h.size, s.payloads, s.complete);
    }
  }

  lemma JoinFrames(crc: Crc, data: seq<Byte>, p: seq<Byte>, n: nat, ps: seq<seq<Byte>>, m: nat)
    requires n <= |data| && m <= |data| - n && data[..n] == FrameOf(crc, p) && data[n..][..m] == EncodeFrames(crc, ps)
    ensures data[..n + m] == EncodeFrames(crc, [p] + ps)
  {
    hide EncodeFrames, FrameOf;
    EncodeFramesCons(crc, p, ps);
    assert data[..n + m] == data[..n] + data[n..][..m];
  }

  lemma FoundFrame(crc: Crc, data: seq<Byte>)
    requires data != [] && FirstFrame(crc, data).Whole?
    ensures var h := FirstFrame(crc, data); data[..h.size] == FrameOf(crc, h.payload) && Fits(|h.payload|, 4)
  {
    var e := InteriorEnd(data, 1);
    DecodedBodyIs(crc, data[1..e]);
    hide DecodeBody, Symbols, Body;
    assert data[..e + 1] == [data[0]] + data[1..e] + [data[e]];
  }

  // ----- Building and reading frames in place -----

  method EncodeSymbols(dst: array<Byte>, at: nat, decoded: seq<Byte>)
    requires at + 2 * |decoded| <= dst.Length
    modifies dst
    ensures dst[at..at + 2 * |decoded|] == Symbols(decoded)
    ensures dst[..at] == old(dst[..at]) && dst[at + 2 * |decoded|..] == old(dst[at + 2 * |decoded|..])
  {
    for i := 0 to |decoded|
      invariant forall k :: 0 <= k < at || at + 2 * i <= k < dst.Length ==> dst[k] == old(dst[k])
      invariant forall k :: 0 <= k < 2 * i ==> dst[at + k] == Symbols(decoded)[k]
    {
      dst[at + 2 * i] := BASE + decoded[i] / 16;
      dst[at + 2 * i + 1] := BASE + decoded[i] % 16;
    }
  }

  method BuildFrame(crc: Crc, payload: seq<Byte>) returns (frame: seq<Byte>)
    ensures frame == FrameOf(crc, payload)
  {
    hide Symbols, LE;
    var buf := new Byte[2 + 2 * (8 + |payload|)];
    buf[0] := START;
    buf[buf.Length - 1] := END;
    var header := LE(|payload|, 4) + LE(crc(payload), 4);
    EncodeSymbols(buf, 1, header);
    EncodeSymbols(buf, 1 + 16, payload);
    frame := buf[..];
    assert frame[1..17] == buf[..17][1..] && frame[17..|frame| - 1] == buf[17..buf.Length - 1];
    FrameParts(crc, payload, frame);
  }

  lemma FrameParts(crc: Crc, payload: seq<Byte>, frame: seq<Byte>)
    requires |frame| == 2 + 2 * (8 + |payload|) && frame[0] == START && frame[|frame| - 1] == END
    requires frame[1..17] == Symbols(LE(|payload|, 4) + LE(crc(payload), 4))
    requires frame[17..|frame| - 1] == Symbols(payload)
    ensures frame == FrameOf(crc, payload)
  {
    hide Symbols, LE;
    var header := LE(|payload|, 4) + LE(crc(payload), 4);
    SymbolsConcat(header, payload);
    Assemble(frame, Symbols(header), Symbols(payload));
  }

  lemma Assemble(frame: seq<Byte>, a: seq<Byte>, b: seq<Byte>)
    requires |frame| == |a| + |b| + 2 && frame[0] == START && frame[|frame| - 1] == END
    requires frame[1..1 + |a|] == a && frame[1 + |a|..|frame| - 1] == b
    ensures frame == [START] + (a + b) + [END]
  {
    assert frame == [frame[0]] + (frame[1..1 + |a|] + frame[1 + |a|..|frame| - 1]) + [frame[|frame| - 1]];
  }

  lemma SymbolsConcat(a: seq<Byte>, b: seq<Byte>)
    ensures Symbols(a + b) == Symbols(a) + Symbols(b)
  {}

  /** Looks for the end of the frame that starts at `offset`. */
  method FindEnd(data: seq<Byte>, offset: nat) returns (e: nat)
    requires offset < |data|
    ensures e == InteriorEnd(data, offset + 1)
  {
    e := offset + 1;
    while e < |data| && IsSymbol(data[e])
      invariant offset + 1 <= e <= |data|
      invariant forall i :: offset + 1 <= i < e ==> IsSymbol(data[i])
    {
      e := e + 1;
    }
    InteriorEndIs(data, offset + 1, e);
  }

  /** The frame at the front of the unread bytes. */
  method NextFrame(crc: Crc, rest: seq<Byte>) returns (h: Head)
    requires rest != []
    ensures h == FirstFrame(crc, rest)
  {
    if rest[0] != START { return Bad; }
    var e := FindEnd(rest, 0);
    if e == |rest| { return Unterminated; }
    if rest[e] != END { return Bad; }
    var payload := DecodeBody(crc, rest[1..e]);
    if payload == None { return Bad; }
    return Whole(payload.value, e + 1);
  }

  /** One frame moves from the unread bytes to the read ones. */
  lemma AheadOne(crc: Crc, rest: seq<Byte>, ps: seq<seq<Byte>>, n: nat)
    requires rest != [] && FirstFrame(crc, rest).Whole?
    ensures var h := FirstFrame(crc, rest);
      Ahead(ps, n, ScanFrames(crc, rest)) == Ahead(ps + [h.payload], n + h.size, ScanFrames(crc, rest[h.size..]))
  {
    hide FirstFrame;
    var h := FirstFrame(crc, rest);
    var s := ScanFrames(crc, rest[h.size..]);
    if s.Found? { assert ps + ([h.payload] + s.payloads) == (ps + [h.payload]) + s.payloads; }
  }
}
