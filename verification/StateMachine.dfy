/**
 The LSM-backed state machine. After a crash the engine may already hold the writes of
 entries that the retained log is about to replay; until the replay is over, reads come from
 the values rebuilt so far. Whatever the engine held, every applied entry gives the result,
 values, deduplication table and applied index of the simple map machine; and whenever nothing
 fails, an entry is applied exactly when the map machine accepts it.
 */
module StateMachine {
  import opened RaftTypes
  import opened LsmTypes
  import E = Engine
  import opened EngineState
  import opened FormatRoom
  import opened EngineDirectory
  import opened KvMachine
  import opened SimFs
  import KWayMerge
  import Store = LsmStore

  /** The longer of two logs, one of which extends the other. */
  ghost function Longer(a: seq<Entry>, b: seq<Entry>): seq<Entry> { if |a| >= |b| then a else b }

  /** Every write of the log at or below the index is in the history. */
  ghost predicate Covers(decode: Decoder, history: set<Version>, log: seq<Entry>, index: nat) {
    index <= |log| && forall w :: w in Writes(decode, log) && w.seq_ <= index ==> w in history
  }

  /** The engine holds every write of `done`, nothing beyond the two logs, and all it has ever flushed. */
  ghost predicate Holding(decode: Decoder, done: seq<Entry>, past: seq<Entry>, history: set<Version>, flushed: nat,
                          reached: nat) {
    && Contiguous(done) && Contiguous(past) && (done <= past || past <= done) && reached <= |done|
    && Writes(decode, done) <= history <= Writes(decode, Longer(done, past))
    && Covers(decode, history, Longer(done, past), flushed)
  }

  /**
   Whichever version of the engine's directory survives, it holds the log's writes up to its
   flushed index and no others.
   */
  ghost predicate Recorded(decode: Decoder, engine: E.Engine, log: seq<Entry>)
    reads engine, engine.Parts()
  {
    && engine.Valid() && engine.Durable() && engine.history <= Writes(decode, log)
    && Covers(decode, engine.history, log, engine.flushedIndex)
    && (engine.poisoned ==> Covers(decode, engine.history, log, engine.after.flushed))
  }

  class Machine {
    const decode: Decoder
    const engine: E.Engine
    var values: map<Key, seq<Byte>>
    var dedup: map<nat, Dedup>
    var applied: nat
    var replaying: bool
    var replayCeiling: nat
    ghost var done: seq<Entry>     // applied by this incarnation
    ghost var past: seq<Entry>     // applied, or failed to apply, in earlier incarnations

    function AsState(): State
      reads this
    {
      State(values, dedup, applied)
    }

    ghost predicate Holds()
      reads this, engine, engine.Parts()
    {
      && this !in engine.Parts() && engine.Valid() && engine.Durable() && AsState() == Replayed(decode, done)
      && applied == |done|
      && Holding(decode, done, past, engine.history, engine.flushedIndex, engine.appliedIndex)
    }

    /** Ready to apply: reads go to the engine only once everything it holds has been replayed. */
    ghost predicate Valid()
      reads this, engine, engine.Parts()
    {
      && Holds() && (if replaying then |done| < replayCeiling else |past| <= |done|)
      && (|past| <= |done| || |past| <= replayCeiling)
    }

    /** A machine over a reopened engine, which holds the writes of `past` up to its flushed index. */
    constructor (decode: Decoder, engine: E.Engine, ghost past: seq<Entry>)
      requires Recorded(decode, engine, past) && engine.appliedIndex == 0 && Contiguous(past)
      ensures this.decode == decode && this.engine == engine && this.past == past && done == [] && Holds() && !replaying
    {
      hide Writes, E.Engine.Valid, E.Engine.Durable, Holding, Replayed;
      this.decode, this.engine := decode, engine;
      values, dedup, applied, replaying, replayCeiling := map[], map[], 0, false, 0;
      this.done, this.past := [], past;
      new;
      HoldingStart(decode, past, engine.history, engine.flushedIndex);
    }

    /** Records the retained interval; everything applied before the crash lies within it. */
    method BeginReplay(first: nat, last: nat) returns (ok: bool)
      requires Holds() && done == [] && |past| <= last && (last < first ==> past == [])
      modifies this`replaying, this`replayCeiling
      ensures ok == (last < first || first == 1)
      ensures ok ==> Valid() && replaying == (first <= last) && replayCeiling == if replaying then last else 0
      ensures Holds()
    {
      hide Replayed, Holding, E.Engine.Valid, E.Engine.Durable;
      if last < first {
        replaying, replayCeiling := false, 0;
        return true;
      }
      if first != 1 { return false; }
      replaying, replayCeiling := true, last;
      return true;
    }

    /** The next entry of the log, which earlier incarnations may have applied before. */
    ghost predicate Next(e: Entry)
      reads this
    {
      e.index == |done| + 1 <= MAX_UINT64 && (|done| < |past| ==> e == past[|done|])
    }

    /** Nothing will fail, the engine works, and numbers and formats have room for every write of the log. */
    ghost predicate Clear(e: Entry, faults: seq<Fault>)
      reads this, engine, engine.Parts()
    {
      && Store.Faultless(faults) && engine.Alive() && engine.Spare()
      && engine.Room(Writes(decode, Longer(done + [e], past)))
    }

    /**
     Applies one committed entry. The entries of earlier incarnations come again in the same
     order; an error stops the process and leaves the engine with writes of the log only.
     */
    method Apply(e: Entry, faults: seq<Fault>) returns (ok: bool, result: Result)
      requires Valid() && Next(e)
      modifies this, engine, engine.Parts()
      ensures ok ==> KvMachine.Apply(decode, old(AsState()), e) == Done(AsState(), result)
      ensures ok ==> Valid() && done == old(done) + [e] && past == old(past) && replayCeiling == old(replayCeiling)
      ensures Recorded(decode, engine, Longer(old(done) + [e], old(past)))
      ensures old(engine.closed || engine.poisoned) ==> !ok
      ensures old(Clear(e, faults)) ==> engine.Alive() && (ok <==> KvMachine.Apply(decode, old(AsState()), e).Done?)
      ensures engine.Costs(ok)
    {
      hide Replayed, Writes, E.Engine.Valid, E.Engine.Durable, E.Engine.Room, Holding, Recorded, Execute;
      EntryReplayed(decode, done, e);
      result := NO_RESULT;
      replaying := replaying && e.index <= replayCeiling;
      ghost var d := done;
      if e.typ == Noop {
        ok := Skip(e);
      } else if e.typ != Normal || decode(e.data) == None {
        ok := false;
      } else {
        ok, result := ApplyCommand(decode(e.data).value, e, faults);
      }
      if !ok { StopRecorded(decode, engine, d, past, e); } else { DoneRecorded(decode, engine, done, past); }
    }

    /** An entry that writes nothing. */
    method Skip(e: Entry) returns (ok: bool)
      requires Holds() && Next(e) && WriteOf(decode, Replayed(decode, done), e) == None
      modifies this`applied, this`replaying, this`done, engine`appliedIndex
      ensures engine.Valid() && engine.Durable() && ok == (!engine.closed && !engine.poisoned)
      ensures Holding(decode, done, past, engine.history, engine.flushedIndex, engine.appliedIndex)
      ensures done == (if ok then old(done) + [e] else old(done)) && applied == if ok then e.index else old(applied)
      ensures replaying == (old(replaying) && (ok ==> e.index < replayCeiling))
    {
      hide Replayed, Writes, E.Engine.Valid, E.Engine.Durable, Holding, WriteOf;
      HoldingReached(decode, done, past, engine.history, engine.flushedIndex, engine.appliedIndex);
      ok := AdvanceApplied(e.index);
      if ok {
        Advanced(decode, done, past, e, engine.history, engine.flushedIndex, old(engine.appliedIndex),
                 engine.flushedIndex, engine.appliedIndex);
        assert engine.history + WriteSet(None) == engine.history;
        Finish(e);
      }
    }

    method ApplyCommand(c: Command, e: Entry, faults: seq<Fault>) returns (ok: bool, result: Result)
      requires Holds() && Next(e) && (replaying || |past| <= |done|) && e.typ == Normal && decode(e.data) == Some(c)
      modifies this`values, this`dedup, this`applied, this`replaying, this`done, engine, engine.Parts()
      ensures engine.Valid() && engine.Durable() && (old(engine.closed || engine.poisoned) ==> !ok)
      ensures Steps(old(done), e)
      ensures ok ==> KvMachine.Apply(decode, old(AsState()), e) == Done(AsState(), result) && done == old(done) + [e]
      ensures ok ==> Holding(decode, done, past, engine.history, engine.flushedIndex, engine.appliedIndex)
      ensures ok ==> replaying == (old(replaying) && e.index < replayCeiling)
      ensures old(Clear(e, faults)) ==> engine.Alive() && (ok <==> KvMachine.Apply(decode, old(AsState()), e).Done?)
      ensures engine.Costs(ok)
    {
      hide Replayed, Writes, E.Engine.Valid, E.Engine.Durable, E.Engine.Room, Holding, Execute;
      result := NO_RESULT;
      if c.client in dedup && c.seq_ <= dedup[c.client].lastSeq {
        ok := Skip(e);
        if ok { result := dedup[c.client].lastResult; }
        return;
      }
      ok, result := Run(c, e, faults);
      if !ok { return; }
      dedup := dedup[c.client := Dedup(c.seq_, result)];
      if e.index > applied {
        applied := e.index;
      }
      Finish(e);
    }

    /** The engine is where it was before the entry or where it is after it. */
    ghost predicate Steps(before: seq<Entry>, e: Entry)
      reads this, engine
    {
      || Holding(decode, before, past, engine.history, engine.flushedIndex, engine.appliedIndex)
      || Holding(decode, before + [e], past, engine.history, engine.flushedIndex, engine.appliedIndex)
    }

    method Run(c: Command, e: Entry, faults: seq<Fault>) returns (ok: bool, result: Result)
      requires Holds() && Next(e) && (replaying || |past| <= |done|)
      requires e.typ == Normal && decode(e.data) == Some(c) && !Duplicate(AsState(), c)
      modifies this`values, this`applied, engine, engine.Parts()
      ensures engine.Valid() && engine.Durable() && (old(engine.closed || engine.poisoned) ==> !ok) && Steps(done, e)
      ensures ok ==> Execute(old(values), c) == Some((values, result)) && old(applied) <= applied <= e.index
      ensures ok ==> Holding(decode, done + [e], past, engine.history, engine.flushedIndex, engine.appliedIndex)
      ensures old(Clear(e, faults)) ==> engine.Alive() && (ok <==> Execute(old(values), c).Some?)
      ensures engine.Costs(ok)
    {
      hide Replayed, Writes, E.Engine.Valid, E.Engine.Durable, E.Engine.Room, Holding;
      result := NO_RESULT;
      match c.op {
        case OpPut =>
          ok := WriteEntry(c, e, Some(c.value), faults);
          if ok { values := values[c.key := c.value]; }
        case OpDelete =>
          ok := WriteEntry(c, e, None, faults);
          if ok { values := values - {c.key}; }
        case OpGet => ok, result := ReadEntry(c, e);
        case OpUnknown(_) => return false, result;
      }
    }

    method WriteEntry(c: Command, e: Entry, value: Option<seq<Byte>>, faults: seq<Fault>) returns (ok: bool)
      requires Holds() && Next(e) && WriteOf(decode, AsState(), e) == Some(Version(c.key, e.index, value))
      modifies engine, engine.Parts()
      ensures engine.Valid() && engine.Durable() && (old(engine.closed || engine.poisoned) ==> !ok) && Steps(done, e)
      ensures ok ==> Holding(decode, done + [e], past, engine.history, engine.flushedIndex, engine.appliedIndex)
      ensures old(Clear(e, faults)) ==> engine.Alive() && ok
      ensures engine.Costs(ok)
    {
      hide Replayed, Writes, E.Engine.Valid, E.Engine.Durable, E.Engine.Room, Holding, WriteOf, Fresh,
        KWayMerge.NoClash;
      ghost var w := Version(c.key, e.index, value);
      HoldingFresh(decode, done, past, e, engine, w);
      HoldingReached(decode, done, past, engine.history, engine.flushedIndex, engine.appliedIndex);
      if value.Some? {
        ok := engine.Put(c.key, value.value, e.index, faults);
      } else {
        ok := engine.Delete(c.key, e.index, faults);
      }
      if !old(engine.closed || engine.poisoned) {
        Advanced(decode, done, past, e, old(engine.history), old(engine.flushedIndex), old(engine.appliedIndex),
                 engine.flushedIndex, engine.appliedIndex);
        if old(Clear(e, faults)) {
          HoldingWrites(decode, done + [e], past, engine.history, engine.flushedIndex, engine.appliedIndex);
          RoomLess(engine, engine.history, Writes(decode, Longer(done + [e], past)));
        }
      }
    }

    method ReadEntry(c: Command, e: Entry) returns (ok: bool, result: Result)
      requires Holds() && Next(e) && (replaying || |past| <= |done|) && WriteOf(decode, AsState(), e) == None
      modifies this`applied, engine`appliedIndex
      ensures engine.Valid() && engine.Durable() && ok == (!engine.closed && !engine.poisoned)
      ensures ok ==> result == Lookup(values, c.key) && old(applied) <= applied <= e.index
      ensures Holding(decode, if ok then done + [e] else done, past, engine.history, engine.flushedIndex,
                      engine.appliedIndex)
    {
      hide Replayed, Writes, E.Engine.Valid, E.Engine.Durable, Holding, WriteOf;
      if replaying {
        result := Lookup(values, c.key);
      } else {
        var read, value := engine.Read(c.key);
        if !read { return false, NO_RESULT; }
        HoldingAll(decode, done, past, engine.history, engine.flushedIndex, engine.appliedIndex);
        NewestIsMap(decode, done, c.key);
        result := if value.Some? then Result(value.value, true) else NO_RESULT;
      }
      HoldingReached(decode, done, past, engine.history, engine.flushedIndex, engine.appliedIndex);
      ok := AdvanceApplied(e.index);
      if ok {
        Advanced(decode, done, past, e, engine.history, engine.flushedIndex, old(engine.appliedIndex),
                 engine.flushedIndex, engine.appliedIndex);
        assert engine.history + WriteSet(None) == engine.history;
      }
    }

    /**
     The direct read path: the newest write the engine holds, which during a replay may be ahead
     of the entries applied so far. It agrees with the map machine once the replay is over.
     */
    method Read(key: Key) returns (ok: bool, result: Result)
      requires Valid()
      ensures ok == !engine.closed
      ensures ok ==> result == match Value(engine.history, key) case None => NO_RESULT case Some(v) => Result(v, true)
      ensures ok && !replaying ==> result == Lookup(Replayed(decode, done).values, key)
    {
      hide Replayed, Writes, E.Engine.Valid, E.Engine.Durable, Holding;
      var read, value := engine.Read(key);
      ok, result := read, NO_RESULT;
      if !read { return; }
      result := if value.Some? then Result(value.value, true) else NO_RESULT;
      if !replaying {
        HoldingAll(decode, done, past, engine.history, engine.flushedIndex, engine.appliedIndex);
        NewestIsMap(decode, done, key);
      }
    }

    /** Replay is over once the captured boundary has been applied. */
    method Finish(e: Entry)
      modifies this`replaying, this`done
      ensures done == old(done) + [e] && replaying == (old(replaying) && e.index < replayCeiling)
    {
      done := done + [e];
      if replaying && e.index >= replayCeiling {
        replaying := false;
      }
    }

    method AdvanceApplied(index: nat) returns (ok: bool)
      requires engine.Valid() && index <= MAX_UINT64
      modifies this`applied, engine`appliedIndex
      ensures engine.Valid() && (old(engine.Durable()) ==> engine.Durable())
      ensures ok == (index <= old(applied) || (!engine.closed && !engine.poisoned && index >= old(engine.appliedIndex)))
      ensures applied == if ok then KvMachine.Max(old(applied), index) else old(applied)
      ensures engine.appliedIndex == if ok && index > old(applied) then index else old(engine.appliedIndex)
    {
      hide E.Engine.Valid, E.Engine.Durable;
      if index <= applied { return true; }
      ok := engine.AdvanceApplied(index);
      assert this !in engine.Parts();
      if ok {
        applied := index;
      }
    }
  }

  // ----- What one entry does to what the engine holds -----

  /** The entry's write, if it makes one, and a flush up to it. */
  lemma Advanced(decode: Decoder, done: seq<Entry>, past: seq<Entry>, e: Entry, history: set<Version>, flushed: nat,
                 reached: nat, flushed': nat, reached': nat)
    requires Holding(decode, done, past, history, flushed, reached)
    requires e.index == |done| + 1 && (|done| < |past| ==> e == past[|done|])
    requires reached' <= e.index && flushed <= flushed' <= EngineState.Max(reached', flushed)
    ensures var w := WriteSet(WriteOf(decode, Replayed(decode, done), e));
      Holding(decode, done + [e], past, history + w, flushed', reached')
  {
    hide Replayed, Writes, WriteOf, Contiguous;
    var next := done + [e];
    EntryWrites(decode, done, past, e);
    LogsGrow(done, past, e);
    var history' := history + WriteSet(WriteOf(decode, Replayed(decode, done), e));
    forall w | w in Writes(decode, Longer(next, past)) && w.seq_ <= flushed' ensures w in history' {
      if w.seq_ <= |next| {
        WritesPrefix(decode, next, Longer(next, past), w);
      } else {
        assert Longer(next, past) == past == Longer(done, past);
      }
    }
  }

  /** A new machine has applied nothing. */
  lemma HoldingStart(decode: Decoder, past: seq<Entry>, history: set<Version>, flushed: nat)
    requires Contiguous(past) && history <= Writes(decode, past) && Covers(decode, history, past, flushed)
    ensures Holding(decode, [], past, history, flushed, 0) && Replayed(decode, []) == START
  {
    assert Longer([], past) == past;
  }

  lemma HoldingReached(decode: Decoder, done: seq<Entry>, past: seq<Entry>, history: set<Version>, flushed: nat,
                       reached: nat)
    requires Holding(decode, done, past, history, flushed, reached)
    ensures reached <= |done|
  {}

  /** Once the replay is over the engine holds exactly what was applied. */
  lemma HoldingAll(decode: Decoder, done: seq<Entry>, past: seq<Entry>, history: set<Version>, flushed: nat,
                   reached: nat)
    requires Holding(decode, done, past, history, flushed, reached) && |past| <= |done|
    ensures history == Writes(decode, done) && Contiguous(done)
  {}

  lemma HoldingWrites(decode: Decoder, done: seq<Entry>, past: seq<Entry>, history: set<Version>, flushed: nat,
                      reached: nat)
    requires Holding(decode, done, past, history, flushed, reached)
    ensures history <= Writes(decode, Longer(done, past))
  {}

  lemma RoomLess(engine: E.Engine, a: set<Version>, b: set<Version>)
    requires a <= b && engine.Room(b)
    ensures engine.Room(a)
  {
    if engine.store != null { RoomyLess(engine.store.fm, a, b); }
  }

  /** The write of the next entry was made before, or lies above everything flushed or about to be. */
  lemma HoldingFresh(decode: Decoder, done: seq<Entry>, past: seq<Entry>, e: Entry, engine: E.Engine, w: Version)
    requires engine.Valid() && Holding(decode, done, past, engine.history, engine.flushedIndex, engine.appliedIndex)
    requires e.index == |done| + 1 && (|done| < |past| ==> e == past[|done|])
    requires WriteOf(decode, Replayed(decode, done), e) == Some(w) && w.seq_ == e.index
    ensures Fresh(w, engine.history, engine.flushedIndex, engine.frozen) && KWayMerge.NoClash(engine.history + {w})
  {
    hide Replayed, Writes, WriteOf, Contiguous, KWayMerge.NoClash, E.Engine.Valid;
    var next := done + [e];
    EntryWrites(decode, done, past, e);
    assert w in WriteSet(WriteOf(decode, Replayed(decode, done), e));
    FewerClash(engine.history + {w}, Writes(decode, Longer(next, past)));
    E.Marks(engine);
    if w.seq_ <= engine.flushedIndex {
      assert Longer(next, past) == past == Longer(done, past);
      assert w in engine.history;
    }
    forall m | m in engine.frozen ensures m.watermark <= EngineState.Max(engine.appliedIndex, engine.flushedIndex) {}
  }

  /** An engine stopped before or after an entry is recorded in the log that includes the entry. */
  lemma StopRecorded(decode: Decoder, engine: E.Engine, done: seq<Entry>, past: seq<Entry>, e: Entry)
    requires engine.Valid() && engine.Durable() && e.index == |done| + 1 && (|done| < |past| ==> e == past[|done|])
    requires
      || Holding(decode, done, past, engine.history, engine.flushedIndex, engine.appliedIndex)
      || Holding(decode, done + [e], past, engine.history, engine.flushedIndex, engine.appliedIndex)
    ensures Recorded(decode, engine, Longer(done + [e], past))
  {
    hide Writes, Contiguous, E.Engine.Valid, E.Engine.Durable, Covers;
    if Holding(decode, done + [e], past, engine.history, engine.flushedIndex, engine.appliedIndex) {
      DoneRecorded(decode, engine, done + [e], past);
    } else {
      DoneRecorded(decode, engine, done, past);
      LogsGrow(done, past, e);
      RecordedGrows(decode, engine, Longer(done, past), Longer(done + [e], past));
    }
  }

  lemma DoneRecorded(decode: Decoder, engine: E.Engine, done: seq<Entry>, past: seq<Entry>)
    requires engine.Valid() && engine.Durable()
    requires Holding(decode, done, past, engine.history, engine.flushedIndex, engine.appliedIndex)
    ensures Recorded(decode, engine, Longer(done, past))
  {
    hide Writes, E.Engine.Durable, E.Engine.Valid;
    E.Marks(engine);
    forall w | w in Writes(decode, Longer(done, past)) && w.seq_ <= engine.appliedIndex ensures w in engine.history {
      WritesPrefix(decode, done, Longer(done, past), w);
    }
  }

  lemma RecordedGrows(decode: Decoder, engine: E.Engine, a: seq<Entry>, b: seq<Entry>)
    requires Recorded(decode, engine, a) && a <= b && Contiguous(b)
    ensures Recorded(decode, engine, b)
  {
    hide Writes, E.Engine.Durable, E.Engine.Valid;
    WritesMonotone(decode, a, b);
    forall w | w in Writes(decode, b) && w.seq_ <= |a| ensures w in Writes(decode, a) { WritesPrefix(decode, a, b, w); }
  }

  /** A log's writes up to a prefix's length are the prefix's. */
  lemma {:induction false} WritesPrefix(decode: Decoder, a: seq<Entry>, b: seq<Entry>, w: Version)
    requires a <= b && Contiguous(b) && w in Writes(decode, b) && w.seq_ <= |a|
    ensures w in Writes(decode, a)
    decreases |b|
  {
    if |a| < |b| {
      var front := b[..|b| - 1];
      if w in Writes(decode, front) { WritesPrefix(decode, a, front, w); }
    } else {
      assert a == b;
    }
  }

  lemma EntryReplayed(decode: Decoder, done: seq<Entry>, e: Entry)
    ensures Replayed(decode, done + [e]) == (match KvMachine.Apply(decode, Replayed(decode, done), e)
                                             case Rejected => Replayed(decode, done) case Done(s, _) => s)
  {
    OneMoreEntry(decode, done, e);
  }

  ghost function WriteSet(w: Option<Version>): set<Version> { if w.Some? then {w.value} else {} }

  /** The write a command makes when it is executed at an index. */
  function CommandWrite(c: Command, index: nat): Option<Version> {
    match c.op
    case OpPut => Some(Version(c.key, index, Some(c.value)))
    case OpDelete => Some(Version(c.key, index, None))
    case _ => None
  }

  /** Once everything the engine holds has been replayed, its newest write is the map's value. */
  lemma NewestIsMap(decode: Decoder, log: seq<Entry>, key: Key)
    requires Contiguous(log)
    ensures var values := Replayed(decode, log).values;
      Value(Writes(decode, log), key) == if key in values then Some(values[key]) else None
  {
    MapReflectsWrites(decode, log, key);
    var ws := Writes(decode, log);
    if v :| v in ws && v.key == key && Newest(ws, v) {
      forall w | Newest(ws, w) && w.key == key ensures w == v { WritesDistinct(decode, log, w, v); }
    }
  }

  lemma {:induction false} WritesMonotone(decode: Decoder, a: seq<Entry>, b: seq<Entry>)
    requires a <= b
    ensures Writes(decode, a) <= Writes(decode, b)
    decreases |b|
  {
    if |a| < |b| {
      WritesMonotone(decode, a, b[..|b| - 1]);
    } else {
      assert a == b;
    }
  }

  /** What one more entry adds to the log's writes. */
  lemma EntryWrites(decode: Decoder, done: seq<Entry>, past: seq<Entry>, e: Entry)
    requires Contiguous(done) && Contiguous(past) && (done <= past || past <= done)
    requires e.index == |done| + 1 && (|done| < |past| ==> e == past[|done|])
    ensures var next := done + [e];
      && Contiguous(next) && (next <= past || past <= next)
      && Replayed(decode, next) == (match KvMachine.Apply(decode, Replayed(decode, done), e)
                                    case Rejected => Replayed(decode, done) case Done(s, _) => s)
      && Writes(decode, next) == Writes(decode, done) + WriteSet(WriteOf(decode, Replayed(decode, done), e))
      && Writes(decode, Longer(done, past)) <= Writes(decode, Longer(next, past))
      && Writes(decode, next) <= Writes(decode, Longer(next, past))
      && KWayMerge.NoClash(Writes(decode, Longer(next, past)))
  {
    hide Replayed, Writes, WriteOf, KvMachine.Apply, Contiguous, Longer, KWayMerge.NoClash, WriteSet;
    var next := done + [e];
    LogsGrow(done, past, e);
    OneMoreEntry(decode, done, e);
    WritesMonotone(decode, Longer(done, past), Longer(next, past));
    WritesMonotone(decode, next, Longer(next, past));
    OneWritePerIndex(decode, Longer(next, past));
  }

  lemma LogsGrow(done: seq<Entry>, past: seq<Entry>, e: Entry)
    requires Contiguous(done) && Contiguous(past) && (done <= past || past <= done)
    requires e.index == |done| + 1 && (|done| < |past| ==> e == past[|done|])
    ensures var next := done + [e];
      && Contiguous(next) && (next <= past || past <= next) && Contiguous(Longer(next, past))
      && Longer(done, past) <= Longer(next, past) && next <= Longer(next, past)
  {}

  lemma FewerClash(a: set<Version>, b: set<Version>)
    requires a <= b && KWayMerge.NoClash(b)
    ensures KWayMerge.NoClash(a)
  {}

  lemma OneMoreEntry(decode: Decoder, done: seq<Entry>, e: Entry)
    ensures Replayed(decode, done + [e]) == (match KvMachine.Apply(decode, Replayed(decode, done), e)
                                             case Rejected => Replayed(decode, done) case Done(s, _) => s)
    ensures Writes(decode, done + [e]) == Writes(decode, done) + WriteSet(WriteOf(decode, Replayed(decode, done), e))
  {
    hide WriteOf, KvMachine.Apply;
    assert (done + [e])[..|done|] == done;
  }

  lemma OneWritePerIndex(decode: Decoder, log: seq<Entry>)
    requires Contiguous(log)
    ensures KWayMerge.NoClash(Writes(decode, log))
  {
    hide Writes;
    forall a, b | a in Writes(decode, log) && b in Writes(decode, log) ensures !Conflicts(a, b) {
      if a.seq_ == b.seq_ { WritesDistinct(decode, log, a, b); }
    }
  }

  /** What the map machine answers to each entry of a log. */
  function Answers(decode: Decoder, log: seq<Entry>): seq<Result> {
    if log == [] then []
    else
      var before := log[..|log| - 1];
      Answers(decode, before) + [match KvMachine.Apply(decode, Replayed(decode, before), log[|log| - 1])
                                 case Rejected => NO_RESULT case Done(_, r) => r]
  }

  /** The map machine accepts every entry. */
  ghost predicate Accepted(decode: Decoder, log: seq<Entry>) {
    forall i :: 0 <= i < |log| ==> KvMachine.Apply(decode, Replayed(decode, log[..i]), log[i]).Done?
  }

  ghost predicate AllFaultless(faults: seq<seq<Fault>>) { forall i :: 0 <= i < |faults| ==> Store.Faultless(faults[i]) }

  /** The i-th entry of the retained log. */
  method ReplayEntry(m: Machine, log: seq<Entry>, i: nat, faults: seq<Fault>) returns (ok: bool, result: Result)
    requires m.Valid() && i < |log| <= MAX_UINT64 && m.done == log[..i] && Contiguous(log) && m.past <= log
    modifies m, m.engine, m.engine.Parts()
    ensures Recorded(m.decode, m.engine, Longer(log[..i + 1], old(m.past)))
    ensures ok ==>
      m.Valid() && m.done == log[..i + 1] && m.past == old(m.past) && m.replayCeiling == old(m.replayCeiling)
    ensures ok ==> KvMachine.Apply(m.decode, Replayed(m.decode, log[..i]), log[i]) == Done(m.AsState(), result)
    ensures m.engine.Costs(ok)
    ensures old(m.engine.Alive() && m.engine.Spare()) && m.engine.Room(Writes(m.decode, log)) && Store.Faultless(faults)
      ==> m.engine.Alive() && (ok <==> KvMachine.Apply(m.decode, Replayed(m.decode, log[..i]), log[i]).Done?)
  {
    hide Replayed, Writes, E.Engine.Valid, E.Engine.Durable, E.Engine.Room, KvMachine.Apply, Holding, Recorded;
    assert log[..i] + [log[i]] == log[..i + 1];
    ghost var next := Longer(log[..i + 1], m.past);
    if m.engine.Room(Writes(m.decode, log)) {
      WritesMonotone(m.decode, next, log);
      RoomLess(m.engine, Writes(m.decode, next), Writes(m.decode, log));
    }
    ok, result := m.Apply(log[i], faults);
  }

  /**
   Recovery: the whole retained log is applied again over whatever the engine kept of it. Every
   answer and the final state are the map machine's, and reads then come from the engine alone;
   when nothing fails, it succeeds exactly for the logs the map machine accepts.
   */
  method ReplayLog(m: Machine, log: seq<Entry>, faults: seq<seq<Fault>>) returns (ok: bool, results: seq<Result>)
    requires m.Holds() && m.done == [] && Contiguous(log) && m.past <= log && |log| <= MAX_UINT64
    modifies m, m.engine, m.engine.Parts()
    ensures ok ==> m.Valid() && !m.replaying && m.done == log
    ensures ok ==> m.AsState() == Replayed(m.decode, log) && results == Answers(m.decode, log)
    ensures ok ==> m.engine.history == Writes(m.decode, log)
    ensures Recorded(m.decode, m.engine, log) && (ok ==> Accepted(m.decode, log))
    ensures old(m.engine.Alive() && m.engine.frozen == [] && m.engine.Spent() + 2 * |log| < MAX_UINT64)
      && m.engine.Room(Writes(m.decode, log)) && AllFaultless(faults)
      ==> m.engine.Alive() && (ok <==> Accepted(m.decode, log))
  {
    hide Replayed, Writes, E.Engine.Valid, E.Engine.Durable, E.Engine.Room, KvMachine.Apply, Holding, Recorded,
      Contiguous;
    results := [];
    ok := m.BeginReplay(1, |log|);
    ghost var spent := m.engine.Spent();
    ghost var fine := m.engine.Alive() && m.engine.frozen == [] && spent + 2 * |log| < MAX_UINT64
      && m.engine.Room(Writes(m.decode, log)) && AllFaultless(faults);
    for i := 0 to |log|
      invariant ok && m.Valid() && m.done == log[..i] && m.past == old(m.past) && m.replayCeiling == |log|
      invariant results == Answers(m.decode, log[..i])
      invariant fine ==> m.engine.Alive() && m.engine.frozen == [] && m.engine.Spent() <= spent + 2 * i
      invariant forall k :: 0 <= k < i ==> KvMachine.Apply(m.decode, Replayed(m.decode, log[..k]), log[k]).Done?
    {
      assert log[..i + 1][..i] == log[..i];
      var result;
      ok, result := ReplayEntry(m, log, i, if i < |faults| then faults[i] else []);
      if !ok {
        RecordedGrows(m.decode, m.engine, Longer(log[..i + 1], old(m.past)), log);
        return;
      }
      results := results + [result];
    }
    assert log[..|log|] == log;
    DoneRecorded(m.decode, m.engine, log, m.past);
    HoldingAll(m.decode, log, m.past, m.engine.history, m.engine.flushedIndex, m.engine.appliedIndex);
  }
}
