/**
 Incremental persistence. Between host cycles a node and its storage hold the same hard
 state and log. Whatever the next input is, the batch reported by Ready brings the storage
 back to that state, and every record prefix of the batch is one of four known disks.
 */
module Persistence {
  import opened RaftTypes
  import opened RaftSpec
  import opened Storage

  /** The state the host sees between two inputs. */
  ghost predicate Synced(s: NodeState, d: Durable) {
    && s.hard == d.hard && s.log == d.log
    && s.messages == [] && !s.hardStateDirty
    && s.unstableIndex == |s.log| + 1
    && s.ack == NO_ACK
    && Contiguous(s.log)
  }

  /** What s still has to persist on top of the storage d. */
  ghost predicate Unsaved(s: NodeState, d: Durable) {
    && Contiguous(s.log) && Contiguous(d.log)
    && 1 <= s.unstableIndex <= |d.log| + 1
    && s.unstableIndex <= |s.log| + 1
    && (forall k :: 0 <= k < s.unstableIndex - 1 ==> s.log[k] == d.log[k])
    && (s.unstableIndex == |s.log| + 1 ==> s.log == d.log)
    && (s.unstableIndex <= |d.log| ==> s.log[s.unstableIndex - 1].term != d.log[s.unstableIndex - 1].term)
    && (!s.hardStateDirty ==> s.hard == d.hard)
    && s.ack == NO_ACK
  }

  /** Fields that decide what is persisted. */
  ghost predicate SameStored(a: NodeState, b: NodeState) {
    a.hard == b.hard && a.log == b.log && a.unstableIndex == b.unstableIndex
    && a.hardStateDirty == b.hardStateDirty && a.ack == b.ack && a.cfg == b.cfg
  }

  lemma {:induction false} BroadcastStores(s: NodeState, k: nat, probe: bool, onlyIdle: bool)
    requires k <= |s.cfg.peers|
    ensures SameStored(s, BroadcastUpTo(s, k, probe, onlyIdle))
  {
    if k > 0 { BroadcastStores(s, k - 1, probe, onlyIdle); }
  }

  lemma {:induction false} RequestVotesStores(s: NodeState, k: nat)
    requires k <= |s.cfg.peers|
    ensures SameStored(s, RequestVotesUpTo(s, k))
  {
    if k > 0 { RequestVotesStores(s, k - 1); }
  }

  lemma AppendLocalUnsaved(s: NodeState, d: Durable, typ: EntryType, data: seq<Byte>)
    requires Unsaved(s, d)
    ensures Unsaved(AppendLocal(s, typ, data), d)
  {}

  lemma BecomeLeaderUnsaved(s: NodeState, d: Durable)
    requires Unsaved(s, d)
    ensures Unsaved(BecomeLeader(s), d)
  {
    AppendLocalUnsaved(ZeroProgress(s), d, Noop, []);
    var s1 := AdvanceCommit(AppendLocal(ZeroProgress(s), Noop, []));
    BroadcastStores(s1, |s1.cfg.peers|, true, false);
  }

  lemma {:induction false} FirstConflictIs(log: seq<Entry>, entries: seq<Entry>, i: nat)
    requires i <= |entries|
    ensures var r := FirstConflict(log, entries, i);
      && (forall k :: i <= k < r ==> TermAt(log, entries[k].index) == Some(entries[k].term))
      && (r < |entries| ==> TermAt(log, entries[r].index) != Some(entries[r].term))
    decreases |entries| - i
  {
    if i < |entries| && TermAt(log, entries[i].index) == Some(entries[i].term) {
      FirstConflictIs(log, entries, i + 1);
    }
  }

  /** The conflict rule leaves a contiguous log: it cuts at the conflict and appends the rest. */
  lemma AppendShape(log: seq<Entry>, entries: seq<Entry>, prev: nat)
    requires Contiguous(log) && Numbered(entries, prev) && prev <= |log|
    ensures var i := FirstConflict(log, entries, 0);
      && (i < |entries| ==> prev + i <= |log| && AppendFromLeader(log, entries, prev) == log[..prev + i] + entries[i..])
      && Contiguous(AppendFromLeader(log, entries, prev))
      && |AppendFromLeader(log, entries, prev)| >= prev + |entries|
  {
    FirstConflictIs(log, entries, 0);
    var i := FirstConflict(log, entries, 0);
    if i > 0 { assert TermAt(log, entries[i - 1].index).Some?; }
  }

  lemma AdoptUnsaved(s: NodeState, d: Durable, b: Body)
    requires Unsaved(s, d) && s.unstableIndex == |s.log| + 1 && b.AppendEntries?
    requires ValidAppend(b) && b.prevLogIndex <= |s.log|
    ensures Unsaved(AdoptEntries(s, b), d)
  {
    AppendShape(s.log, b.entries, b.prevLogIndex);
    FirstConflictIs(s.log, b.entries, 0);
  }

  lemma AppendEntriesUnsaved(s: NodeState, d: Durable, m: Message)
    requires Unsaved(s, d) && s.unstableIndex == |s.log| + 1 && m.body.AppendEntries?
    ensures Unsaved(HandleAppendEntries(s, m), d)
  {
    var s1, b := YieldToLeader(s), m.body;
    if ValidAppend(b) && TermAt(s1.log, b.prevLogIndex) == Some(b.prevLogTerm) {
      AdoptUnsaved(s1, d, b);
      hide AdoptEntries, Unsaved;
      SameUnsaved(AdoptEntries(s1, b), HandleAppendEntries(s, m), d);
    }
  }

  lemma SameUnsaved(a: NodeState, b: NodeState, d: Durable)
    requires Unsaved(a, d) && SameStored(a, b)
    ensures Unsaved(b, d)
  {}

  lemma VoteRespUnsaved(s: NodeState, d: Durable, m: Message)
    requires Unsaved(s, d) && m.body.RequestVoteResp?
    ensures Unsaved(HandleRequestVoteResp(s, m), d)
  {
    if s.role == Candidate && m.body.granted && m.from in s.cfg.peers {
      var s1 := s.(votes := s.votes + {m.from});
      hide BecomeLeader;
      if HasMajority(s1) { BecomeLeaderUnsaved(s1, d); }
    }
  }

  lemma AppendRespStores(s: NodeState, m: Message)
    requires m.body.AppendEntriesResp?
    ensures SameStored(s, HandleAppendEntriesResp(s, m))
  {}

  lemma DispatchUnsaved(s: NodeState, d: Durable, m: Message)
    requires Unsaved(s, d) && s.unstableIndex == |s.log| + 1
    ensures Unsaved(Dispatch(s, m), d)
  {
    match m.body
    case NoBody =>
    case RequestVote(_, _, _, _) =>
    case AppendEntries(_, _, _, _, _, _) =>
      hide HandleAppendEntries;
      AppendEntriesUnsaved(s, d, m);
    case RequestVoteResp(_, _) =>
      hide HandleRequestVoteResp;
      VoteRespUnsaved(s, d, m);
    case AppendEntriesResp(_, _, _) =>
      hide HandleAppendEntriesResp;
      AppendRespStores(s, m);
  }

  lemma TickUnsaved(s: NodeState, d: Durable, draw: nat)
    requires Synced(s, d)
    ensures Unsaved(TickNode(s, draw), d)
  {
    if s.role == Leader {
      BroadcastStores(s.(heartbeatElapsed := 0), |s.cfg.peers|, false, false);
    } else {
      var s1 := Campaign(s.(electionElapsed := s.electionElapsed + 1), draw);
      hide BecomeLeader;
      BecomeLeaderUnsaved(s1, d);
      RequestVotesStores(s1, |s1.cfg.peers|);
    }
  }

  lemma ProposeUnsaved(s: NodeState, d: Durable, data: seq<Byte>)
    requires Synced(s, d)
    ensures Unsaved(ProposeData(s, data), d)
  {
    if s.role == Leader {
      AppendLocalUnsaved(s, d, Normal, data);
      var s1 := AdvanceCommit(AppendLocal(s, Normal, data));
      BroadcastStores(s1, |s1.cfg.peers|, false, true);
    }
  }

  lemma ReceiveUnsaved(s: NodeState, d: Durable, m: Message, draw: nat)
    requires Synced(s, d)
    ensures Unsaved(StepMessage(s, m, draw), d)
  {
    hide Dispatch;
    if MessageTerm(m) > s.hard.term { DispatchUnsaved(BecomeFollower(s, MessageTerm(m), draw), d, m); }
    else { DispatchUnsaved(s, d, m); }
  }

  /** Whatever the input, the node knows exactly what its storage lacks. */
  lemma HandleUnsaved(s: NodeState, d: Durable, input: Input)
    requires Synced(s, d)
    ensures Unsaved(Handle(s, input), d)
  {
    hide TickNode, StepMessage, ProposeData, Unsaved;
    match input
    case Tick(draw) => TickUnsaved(s, d, draw);
    case Receive(m, draw) => ReceiveUnsaved(s, d, m, draw);
    case Propose(data) => ProposeUnsaved(s, d, data);
  }

  lemma BatchEntries(s: NodeState, d: Durable)
    requires Unsaved(s, d)
    ensures ReadyOf(s).entries == s.log[s.unstableIndex - 1..]
    ensures ReadyOf(s).entries != [] ==> ReadyOf(s).entries[0].index == s.unstableIndex
    ensures TruncateFrom(d.log, s.unstableIndex) == d.log[..s.unstableIndex - 1]
  {
    ContiguousCut(d.log, s.unstableIndex);
    if s.unstableIndex <= |s.log| {
      assert Range(s.log, s.unstableIndex, |s.log| + 1) == s.log[s.unstableIndex - 1..];
    }
  }

  /** After Save the storage holds the node's hard state and whole log. */
  lemma SaveAgrees(s: NodeState, d: Durable)
    requires Unsaved(s, d)
    ensures var rd := ReadyOf(s); Save(d, rd.hardState, rd.entries) == Durable(s.hard, s.log)
  {
    BatchEntries(s, d);
    assert s.log[..s.unstableIndex - 1] == d.log[..s.unstableIndex - 1];
    assert s.log == s.log[..s.unstableIndex - 1] + s.log[s.unstableIndex - 1..];
  }

  /** Acknowledging the batch returns the node to the between-inputs state. */
  lemma AdvanceSyncs(s: NodeState, d: Durable)
    requires Unsaved(s, d)
    ensures var s2 := Advance(TakeReady(s)); Synced(s2, Durable(s.hard, s.log)) && s2.role == s.role && s2.cfg == s.cfg
  {
    BatchEntries(s, d);
  }

  /** The disk a torn Save can leave: nothing new, the hard state, the cut suffix, or everything. */
  datatype Torn = Nothing | HardOnly | Cut | Everything

  function TornDisk(s: NodeState, d: Durable, t: Torn): Durable
    requires 1 <= s.unstableIndex <= |d.log| + 1
  {
    match t
    case Nothing => d
    case HardOnly => Durable(s.hard, d.log)
    case Cut => Durable(s.hard, d.log[..s.unstableIndex - 1])
    case Everything => Durable(s.hard, s.log)
  }

  /** A batch is at most one hard state, then at most one cut, then at most one run of entries. */
  lemma BatchParts(s: NodeState, d: Durable) returns (hard: seq<Record>, cut: seq<Record>)
    requires Unsaved(s, d)
    ensures hard == (if s.hardStateDirty then [HardStateRecord(s.hard)] else [])
    ensures var rd := ReadyOf(s);
      var records := BatchRecords(d, rd.hardState, rd.entries);
      && hard + cut <= records && |records| <= |hard + cut| + 1 && (cut == [] ==> |records| <= |hard| + 1)
      && (cut != [] ==> cut == [TruncateRecord(s.unstableIndex)])
      && (|records| > |hard| + 1 ==> cut != [] && s.unstableIndex <= |d.log| && s.unstableIndex <= |s.log|)
  {
    BatchEntries(s, d);
    var entries := ReadyOf(s).entries;
    hard := if s.hardStateDirty then [HardStateRecord(s.hard)] else [];
    cut := if entries != [] && s.unstableIndex <= |d.log| then [TruncateRecord(s.unstableIndex)] else [];
  }

  lemma NothingApplied(d: Durable)
    ensures ApplyRecords(d, []) == d
  {}

  lemma HardApplied(s: NodeState, d: Durable, hard: seq<Record>)
    requires hard == (if s.hardStateDirty then [HardStateRecord(s.hard)] else [])
    requires !s.hardStateDirty ==> s.hard == d.hard
    ensures ApplyRecords(d, hard) == Durable(s.hard, d.log)
  {
    if hard != [] { assert hard[..0] == []; }
  }

  lemma CutApplied(d: Durable, from: nat)
    ensures ApplyRecords(d, [TruncateRecord(from)]) == d.(log := TruncateFrom(d.log, from))
  {
    assert [TruncateRecord(from)][..0] == [];
  }

  /** Every record prefix of an unsynced batch recovers to one of the four disks. */
  lemma TornSaveCases(s: NodeState, d: Durable, k: nat) returns (t: Torn)
    requires Unsaved(s, d)
    requires var rd := ReadyOf(s); k <= |BatchRecords(d, rd.hardState, rd.entries)|
    ensures var rd := ReadyOf(s);
      ApplyRecords(d, BatchRecords(d, rd.hardState, rd.entries)[..k]) == TornDisk(s, d, t)
    ensures t == Cut ==> s.unstableIndex <= |d.log| && s.unstableIndex <= |s.log|
  {
    hide BatchRecords, ApplyRecords, ApplyRecord, TruncateFrom;
    var rd := ReadyOf(s);
    BatchEntries(s, d);
    var records := BatchRecords(d, rd.hardState, rd.entries);
    var hard, cut := BatchParts(s, d);
    HardApplied(s, d, hard);
    if k == |records| {
      assert records[..k] == records;
      WholeBatchIsSave(d, rd.hardState, rd.entries);
      SaveAgrees(s, d);
      t := Everything;
    } else if k <= |hard| {
      assert records[..k] == hard[..k];
      assert k == |hard| ==> hard[..k] == hard;
      assert k == 0 ==> hard[..k] == [];
      NothingApplied(d);
      t := if k == 0 then Nothing else HardOnly;
    } else {
      assert records[..k] == hard + cut;
      ApplyRecordsConcat(d, hard, cut);
      CutApplied(Durable(s.hard, d.log), s.unstableIndex);
      t := Cut;
    }
  }
}
