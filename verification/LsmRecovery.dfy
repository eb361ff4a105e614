/**
 A node's storage through all its processes. Each process opens the directory, replays the
 retained log over what the engine kept, goes on applying, and ends in a failed write, an exit
 or a crash that keeps any prefix of the unsynced changes. By induction over the processes the
 directory always holds writes of the log only, all of them up to its flushed index; so the
 next process that meets no failure rebuilds the map machine's state from the whole log.
 */
module LsmRecovery {
  import opened RaftTypes
  import opened Bloom
  import opened SimFs
  import opened LsmDisk
  import opened EngineState
  import opened FormatRoom
  import opened EngineDirectory
  import opened KvMachine
  import opened StateMachine
  import E = Engine
  import M = Manifest
  import Store = LsmStore
  import TablePublish
  import EditCodec
  import SSTable
  import TableFormat

  /** How an engine is to run. */
  datatype Settings = Settings(hash: Hash, flushThreshold: nat, autoCompact: bool)

  /** A crash keeps as many bytes of the unsynced changes as its budget says. */
  datatype Ending = Exit | Crash(budget: Option<nat>)

  /**
   One process: how opening goes, where the retained log ends (never before an entry tried
   earlier), how many entries it gets to and what each of them runs into.
   */
  datatype Life = Life(opening: seq<Fault>, retained: nat, entries: nat, faults: seq<seq<Fault>>, ending: Ending)

  /** Both states the directory may be found in hold the log's writes up to their flushed index, and no others. */
  ghost predicate Remembers(decode: Decoder, im: Image, log: seq<Entry>) {
    && im.before.history <= Writes(decode, log)
    && Covers(decode, im.before.history, log, im.before.flushed)
    && Covers(decode, im.before.history, log, im.after.flushed)
  }

  /** Between processes: a directory to start on, with a faithful record of what was applied so far. */
  ghost predicate Resting(fm: Formats, fs: SimFS, hash: Hash, decode: Decoder, im: Image, log: seq<Entry>)
    reads fs
  {
    && fs.Valid() && !fs.crashed && Restartable(fm, fs.State(), im)
    && fm.readTable == TablePublish.TableReader(fm.crc, hash)
    && Contiguous(log) && Remembers(decode, im, log)
  }

  /** The file numbers used up at most, whichever version survived. */
  ghost function Spending(im: Image): nat {
    EngineState.Max(im.before.nextFile + |im.before.tables|, im.after.nextFile + |im.after.tables|)
  }

  /** A reopened engine is recorded in the log its directory remembers. */
  lemma OpenedRecorded(decode: Decoder, engine: E.Engine, im: Image, kept: Snapshot, log: seq<Entry>)
    requires engine.Valid() && engine.Durable() && !engine.poisoned
    requires Remembers(decode, im, log) && im.after.history == im.before.history
    requires (kept == im.before || kept == im.after) && engine.flushedIndex == kept.flushed
    requires engine.history == FlushedPart(kept.history, kept.flushed)
    ensures Recorded(decode, engine, log)
  {
    hide Writes, E.Engine.Valid, E.Engine.Durable;
  }

  /** Whatever a recorded engine's process leaves, the directory remembers the log. */
  lemma LeftRemembers(decode: Decoder, engine: E.Engine, log: seq<Entry>)
    requires Recorded(decode, engine, log) && engine.store != null
    ensures engine.store.fs.Valid() && Restartable(engine.store.fm, engine.store.fs.State(), E.Left(engine))
    ensures Remembers(decode, E.Left(engine), log)
  {
    hide Writes, E.Engine.Valid, E.Engine.Durable, Restartable, Covers;
    E.LeftRestarts(engine);
  }

  /** The end of a process. */
  method End(fm: Formats, fs: SimFS, ending: Ending, ghost im: Image)
    requires fs.Valid() && Restartable(fm, fs.State(), im)
    modifies fs
    ensures fs.Valid() && !fs.crashed && Restartable(fm, fs.State(), im)
  {
    hide Restartable, Crashed;
    if !fs.crashed && ending.Crash? {
      CrashRestartable(fm, fs.State(), im, ending.budget);
      fs.Crash(ending.budget);
    }
    if fs.crashed {
      var _ := fs.Recover();
    }
  }

  lemma ImageHistory(fm: Formats, fs: Fs, im: Image)
    requires Restartable(fm, fs, im)
    ensures im.after.history == im.before.history
  {}

  /** The part of the log tried so far: the longer of two of its prefixes. */
  lemma LongerPrefix(log: seq<Entry>, a: nat, b: nat)
    requires a <= |log| && b <= |log|
    ensures Longer(log[..a], log[..b]) == log[..EngineState.Max(a, b)]
  {}

  /** Applies entries from the start of the log until one fails or the process is to end. */
  method Serve(engine: E.Engine, decode: Decoder, log: seq<Entry>, life: Life, high: nat) returns (reached: nat)
    requires high <= |log| <= MAX_UINT64 && Contiguous(log)
    requires engine.appliedIndex == 0 && Recorded(decode, engine, log[..high])
    requires engine.frozen == [] && !engine.poisoned
    modifies engine, engine.Parts()
    ensures high <= reached <= |log| && Recorded(decode, engine, log[..reached])
    ensures engine.Reach() <= old(engine.Spent()) + 2 * |log| + 1
  {
    hide Writes, E.Engine.Valid, E.Engine.Durable, Recorded, Holding, Replayed, KvMachine.Apply, E.Engine.Room;
    var m := new Machine(decode, engine, log[..high]);
    var ok := m.BeginReplay(1, EngineState.Max(high, life.retained));
    var i := 0;
    reached := high;
    while ok && i < life.entries && i < |log|
      invariant fresh(m) && m.engine == engine && m.decode == decode
      invariant i <= |log| && reached == EngineState.Max(high, i) && Recorded(decode, engine, log[..reached])
      invariant ok ==> m.Valid() && m.done == log[..i] && m.past == log[..high] && engine.frozen == []
      invariant engine.Reach() <= old(engine.Spent()) + 2 * i + if ok then 0 else 1
      decreases |log| - i
    {
      LongerPrefix(log, i + 1, high);
      var answer;
      ok, answer := ReplayEntry(m, log, i, if i < |life.faults| then life.faults[i] else []);
      i := i + 1;
      reached := EngineState.Max(high, i);
    }
  }

  /** One process from opening to its end. `high` entries have been tried before it. */
  method Live(fm: Formats, fs: SimFS, settings: Settings, decode: Decoder, log: seq<Entry>, life: Life, high: nat,
              ghost im: Image)
    returns (reached: nat, ghost left: Image)
    requires high <= |log| <= MAX_UINT64 && Contiguous(log) && Resting(fm, fs, settings.hash, decode, im, log[..high])
    modifies fs
    ensures high <= reached <= |log| && Resting(fm, fs, settings.hash, decode, left, log[..reached])
    ensures Spending(left) <= Spending(im) + 2 * |log| + 1
  {
    hide Writes, E.Engine.Valid, E.Engine.Durable, Restartable, Remembers, Recorded, TablePublish.TableReader;
    var engine, kept := E.Open(fm, fs, settings.hash, settings.flushThreshold, settings.autoCompact, life.opening, im);
    if engine == null {
      End(fm, fs, life.ending, im);
      return high, im;
    }
    ImageHistory(fm, fs.State(), im);
    OpenedRecorded(decode, engine, im, kept, log[..high]);
    reached := Serve(engine, decode, log, life, high);
    LeftRemembers(decode, engine, log[..reached]);
    left := E.Left(engine);
    End(fm, fs, life.ending, left);
  }

  /** A directory nothing was written to yet. */
  ghost function FirstImage(): Image {
    var x := Snapshot([], [], [], 0, 1, {});
    Image([], MarkEdit(0), map[], x, x)
  }

  lemma FirstRests(fm: Formats, fs: Fs, decode: Decoder)
    requires FormatsOk(fm) && LsmDisk.Settled(fm, fs, [], map[])
    ensures Restartable(fm, fs, FirstImage()) && Remembers(decode, FirstImage(), [])
  {
    hide FormatsOk, LsmDisk.Settled;
    Store.SettledRecoverable(fm, fs, [], MarkEdit(0), map[]);
    M.ReplayMore([], MarkEdit(0));
    ReopenedSnapshot([], 0, 1, {});
  }

  /** Any number of processes, one after the other. */
  method LiveThrough(fm: Formats, fs: SimFS, settings: Settings, decode: Decoder, log: seq<Entry>, lives: seq<Life>)
    returns (high: nat, ghost im: Image)
    requires FormatsOk(fm) && fm.readTable == TablePublish.TableReader(fm.crc, settings.hash)
    requires fs.Valid() && !fs.crashed && fs.State() == Fs(map[], map[], map[], [])
    requires Contiguous(log) && |log| <= MAX_UINT64
    modifies fs
    ensures high <= |log| && Resting(fm, fs, settings.hash, decode, im, log[..high])
    ensures Spending(im) <= 1 + |lives| * (2 * |log| + 1)
  {
    hide Writes, Restartable, Remembers, TablePublish.TableReader, FormatsOk, LsmDisk.Settled, Contiguous;
    var _ := Store.Format(fm, fs);
    im := FirstImage();
    FirstRests(fm, fs.State(), decode);
    high := 0;
    assert log[..0] == [] && Contiguous([]) by { NoEntries(); }
    for i := 0 to |lives|
      invariant high <= |log| && Resting(fm, fs, settings.hash, decode, im, log[..high])
      invariant Spending(im) <= 1 + i * (2 * |log| + 1)
    {
      OneMoreLife(i, 2 * |log| + 1);
      high, im := Live(fm, fs, settings, decode, log, lives[i], high, im);
    }
  }

  lemma NoEntries()
    ensures Contiguous([])
  {}

  lemma OneMoreLife(i: nat, cost: nat)
    ensures (i + 1) * cost == i * cost + cost
  {}

  /** A process that meets no failure replays the whole log. */
  method Revive(fm: Formats, fs: SimFS, settings: Settings, decode: Decoder, log: seq<Entry>, high: nat,
                ghost im: Image)
    returns (m: Machine, ok: bool, results: seq<Result>)
    requires high <= |log| <= MAX_UINT64 && Contiguous(log) && Resting(fm, fs, settings.hash, decode, im, log[..high])
    modifies fs
    ensures m.decode == decode && Recorded(decode, m.engine, log)
    ensures ok ==> m.Valid() && !m.replaying && m.AsState() == Replayed(decode, log) && results == Answers(decode, log)
    ensures ok ==> m.engine.history == Writes(decode, log) && Accepted(decode, log)
    ensures Roomy(fm, Writes(decode, log)) && Spending(im) + 2 * |log| < MAX_UINT64 ==> (ok <==> Accepted(decode, log))
  {
    hide Writes, E.Engine.Valid, E.Engine.Durable, Restartable, Remembers, Recorded, TablePublish.TableReader, Holding,
      Replayed, Roomy, Accepted, Contiguous;
    var engine, kept := E.Open(fm, fs, settings.hash, settings.flushThreshold, settings.autoCompact, [], im);
    ImageHistory(fm, fs.State(), im);
    OpenedRecorded(decode, engine, im, kept, log[..high]);
    m := new Machine(decode, engine, log[..high]);
    ok, results := ReplayLog(m, log, []);
  }

  /**
   Any number of processes, each with any failures and any end, then one that meets no failure:
   it has the map machine's state and gives its answers for the whole log, from an engine that
   holds exactly the log's writes. With room in the formats, and file numbers for two tables an
   entry and process, it succeeds exactly when the map machine accepts the log.
   */
  method Survive(fm: Formats, fs: SimFS, settings: Settings, decode: Decoder, log: seq<Entry>, lives: seq<Life>)
    returns (m: Machine, ok: bool, results: seq<Result>)
    requires FormatsOk(fm) && fm.readTable == TablePublish.TableReader(fm.crc, settings.hash)
    requires fs.Valid() && !fs.crashed && fs.State() == Fs(map[], map[], map[], [])
    requires Contiguous(log) && |log| <= MAX_UINT64
    modifies fs
    ensures m.decode == decode && Recorded(decode, m.engine, log)
    ensures ok ==> m.Valid() && !m.replaying && m.AsState() == Replayed(decode, log) && results == Answers(decode, log)
    ensures ok ==> m.engine.history == Writes(decode, log) && Accepted(decode, log)
    ensures Roomy(fm, Writes(decode, log)) && (|lives| + 1) * (2 * |log| + 1) < MAX_UINT64 ==>
      (ok <==> Accepted(decode, log))
  {
    hide Writes, Resting, Recorded, TablePublish.TableReader, Replayed, Roomy, Accepted, Contiguous, FormatsOk,
      Machine.Valid, Spending;
    var high, im := LiveThrough(fm, fs, settings, decode, log, lives);
    OneMoreLife(|lives|, 2 * |log| + 1);
    m, ok, results := Revive(fm, fs, settings, decode, log, high, im);
  }

  /** An entry makes at most one write. */
  lemma {:induction false} WritesCounted(decode: Decoder, log: seq<Entry>)
    ensures |Writes(decode, log)| <= |log|
    decreases |log|
  {
    hide Replayed, WriteOf;
    if log != [] { WritesCounted(decode, log[..|log| - 1]); }
  }

  lemma Scaled(a: nat, b: nat, size: nat)
    requires a <= b
    ensures a * size <= b * size
  {}

  lemma LogHasRoom(crc: SSTable.Crc, hash: Hash, decode: Decoder, log: seq<Entry>, size: nat)
    requires Contiguous(log) && |log| <= MAX_UINT64 && |log| * size <= SSTable.SMALL
    requires forall w :: w in Writes(decode, log) ==> |TableFormat.RecordBytes(w)| <= size
    ensures var fm := Formats(EditCodec.PLAIN, crc, TablePublish.TableReader(crc, hash));
      FormatsOk(fm) && Roomy(fm, Writes(decode, log))
  {
    hide Writes, FormatsOk, Roomy, TableFormat.RecordBytes, TablePublish.TableReader, Contiguous;
    var writes := Writes(decode, log);
    WritesCounted(decode, log);
    Scaled(|writes|, |log|, size);
    forall w | w in writes ensures w.seq_ <= MAX_UINT64 { WritesBelow(decode, log, w); }
    EditCodec.PlainHasRoom(crc, TablePublish.TableReader(crc, hash), writes, size);
  }

  /**
   The same with every format given: for a log whose records take at most 64 MiB together, the
   undisturbed process succeeds if and only if the map machine accepts the log.
   */
  method SurvivePlain(crc: SSTable.Crc, fs: SimFS, settings: Settings, decode: Decoder, log: seq<Entry>,
                      lives: seq<Life>, ghost size: nat)
    returns (m: Machine, ok: bool, results: seq<Result>)
    requires fs.Valid() && !fs.crashed && fs.State() == Fs(map[], map[], map[], [])
    requires Contiguous(log) && |log| <= MAX_UINT64 && |log| * size <= SSTable.SMALL
    requires forall w :: w in Writes(decode, log) ==> |TableFormat.RecordBytes(w)| <= size
    requires (|lives| + 1) * (2 * |log| + 1) < MAX_UINT64
    modifies fs
    ensures m.decode == decode && Recorded(decode, m.engine, log) && (ok <==> Accepted(decode, log))
    ensures ok ==> m.AsState() == Replayed(decode, log) && results == Answers(decode, log)
    ensures ok ==> m.engine.history == Writes(decode, log)
  {
    hide Writes, Recorded, TablePublish.TableReader, Replayed, Roomy, Accepted, Contiguous, FormatsOk, Machine.Valid,
      TableFormat.RecordBytes;
    LogHasRoom(crc, settings.hash, decode, log, size);
    var fm := Formats(EditCodec.PLAIN, crc, TablePublish.TableReader(crc, settings.hash));
    m, ok, results := Survive(fm, fs, settings, decode, log, lives);
  }
}
