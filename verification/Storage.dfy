/**
 Durable Raft state and the records one Save writes. `Save` is the atomic storage
 operation; `BatchRecords` is what the durable implementations write for it, and a torn
 write leaves a prefix of those records.
 */
module Storage {
  import opened RaftTypes

  datatype Durable = Durable(hard: HardState, log: seq<Entry>)

  datatype Record =
    | HardStateRecord(hard: HardState)
    | TruncateRecord(from: nat)
    | EntriesRecord(entries: seq<Entry>)

  const EMPTY := Durable(HardState(0, 0), [])

  /** Number of leading entries whose index is below `index`. */
  function Cut(log: seq<Entry>, index: nat): (n: nat)
    ensures n <= |log|
    ensures forall k :: 0 <= k < n ==> log[k].index < index
    ensures n < |log| ==> log[n].index >= index
  {
    if log == [] then 0
    else
      var n := Cut(log[..|log| - 1], index);
      if n == |log| - 1 && log[n].index < index then n + 1 else n
  }

  function TruncateFrom(log: seq<Entry>, index: nat): seq<Entry> { log[..Cut(log, index)] }

  function LastIndex(log: seq<Entry>): nat { if log == [] then 0 else log[|log| - 1].index }

  function Save(d: Durable, hs: Option<HardState>, entries: seq<Entry>): Durable {
    Durable(if hs.Some? then hs.value else d.hard,
            if entries == [] then d.log else TruncateFrom(d.log, entries[0].index) + entries)
  }

  /** The records of one Save in replay order: hard state, truncate, entries. */
  function BatchRecords(d: Durable, hs: Option<HardState>, entries: seq<Entry>): seq<Record> {
    (if hs.Some? then [HardStateRecord(hs.value)] else [])
    + (if entries != [] && entries[0].index != 0 && entries[0].index <= LastIndex(d.log)
       then [TruncateRecord(entries[0].index)] else [])
    + (if entries != [] then [EntriesRecord(entries)] else [])
  }

  function ApplyRecord(d: Durable, r: Record): Durable {
    match r
    case HardStateRecord(hard) => d.(hard := hard)
    case TruncateRecord(from) => d.(log := TruncateFrom(d.log, from))
    case EntriesRecord(entries) =>
      if entries == [] then d else d.(log := TruncateFrom(d.log, entries[0].index) + entries)
  }

  function ApplyRecords(d: Durable, rs: seq<Record>): Durable {
    if rs == [] then d else ApplyRecord(ApplyRecords(d, rs[..|rs| - 1]), rs[|rs| - 1])
  }

  lemma ContiguousCut(log: seq<Entry>, index: nat)
    requires Contiguous(log)
    ensures Cut(log, index) == if index == 0 then 0 else if index - 1 < |log| then index - 1 else |log|
  {}

  lemma {:induction false} ApplyRecordsConcat(d: Durable, a: seq<Record>, b: seq<Record>)
    ensures ApplyRecords(d, a + b) == ApplyRecords(ApplyRecords(d, a), b)
    decreases |b|
  {
    if b == [] {
      assert a + b == a;
    } else {
      assert (a + b)[..|a + b| - 1] == a + b[..|b| - 1];
      ApplyRecordsConcat(d, a, b[..|b| - 1]);
    }
  }

  /** Cutting twice at the same index is cutting once. */
  lemma CutTwice(log: seq<Entry>, index: nat)
    ensures TruncateFrom(TruncateFrom(log, index), index) == TruncateFrom(log, index)
  {
    var once := TruncateFrom(log, index);
    assert Cut(once, index) == |once|;
  }

  /** Writing the whole batch is the atomic Save, for every stored log and every batch. */
  lemma WholeBatchIsSave(d: Durable, hs: Option<HardState>, entries: seq<Entry>)
    ensures ApplyRecords(d, BatchRecords(d, hs, entries)) == Save(d, hs, entries)
  {
    var a: seq<Record> := if hs.Some? then [HardStateRecord(hs.value)] else [];
    var b: seq<Record> := if entries != [] && entries[0].index != 0 && entries[0].index <= LastIndex(d.log)
                          then [TruncateRecord(entries[0].index)] else [];
    var e: seq<Record> := if entries != [] then [EntriesRecord(entries)] else [];
    var d1 := if hs.Some? then d.(hard := hs.value) else d;
    assert ApplyRecords(d, a) == d1 by { if hs.Some? { assert a[..0] == []; } }
    ApplyRecordsConcat(d, a, b);
    ApplyRecordsConcat(d, a + b, e);
    if entries != [] {
      CutTwice(d.log, entries[0].index);
      assert b[..0] == [];
      assert e[..0] == [];
    }
  }
}
