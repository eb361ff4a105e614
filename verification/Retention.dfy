/**
 Applied entries stay stored. Over every run, whatever any incarnation of a node has applied is
 a prefix of that node's own durable log, through conflicts, torn saves and restarts. So the
 retained log covers everything a state machine may have kept, and replaying it is sound.
 */
module Retention {
  import opened RaftTypes
  import opened RaftSpec
  import opened Storage
  import opened Cluster
  import opened RaftHistory
  import opened RaftVolatile
  import opened RaftHandlers
  import opened ClusterInvariant
  import P = Persistence
  import Safety = ClusterSafety
  import opened KvMachine
  import StateMachine

  // ----- What one input does to the log -----

  /** The log grows, or a leader's entries are spliced into it. */
  ghost predicate LogMoves(s: NodeState, s': NodeState, m: Message) {
    || s.log <= s'.log
    || (m.body.AppendEntries? && ValidAppend(m.body) && m.body.prevLogIndex <= |s.log| && s'.hard.term == MessageTerm(m)
        && s'.log == AppendFromLeader(s.log, m.body.entries, m.body.prevLogIndex))
  }

  lemma LeaderExtends(s: NodeState)
    ensures s.log <= BecomeLeader(s).log
  {
    var s1 := AdvanceCommit(AppendLocal(ZeroProgress(s), Noop, []));
    P.BroadcastStores(s1, |s1.cfg.peers|, true, false);
  }

  lemma DispatchLog(s: NodeState, m: Message)
    requires MessageTerm(m) == s.hard.term
    ensures LogMoves(s, Dispatch(s, m), m)
  {
    hide BecomeLeader, SendAppend, AppendFromLeader, MessageTerm;
    match m.body
    case RequestVoteResp(_, _) =>
      LeaderExtends(s.(votes := s.votes + {m.from}));
    case AppendEntriesResp(_, _, _) => P.AppendRespStores(s, m);
    case _ =>
  }

  lemma StepLog(s: NodeState, m: Message, draw: nat)
    ensures LogMoves(s, StepMessage(s, m, draw), m)
  {
    hide Dispatch, LogMoves, MessageTerm;
    var term := MessageTerm(m);
    if term > s.hard.term { DispatchLog(BecomeFollower(s, term, draw), m); FollowLog(s, m, draw); }
    else if term == s.hard.term { DispatchLog(s, m); }
    else { SameLog(s, RejectLowerTerm(s, m), m); }
  }

  lemma FollowLog(s: NodeState, m: Message, draw: nat)
    requires LogMoves(BecomeFollower(s, MessageTerm(m), draw), Dispatch(BecomeFollower(s, MessageTerm(m), draw), m), m)
    ensures LogMoves(s, Dispatch(BecomeFollower(s, MessageTerm(m), draw), m), m)
  {
    hide Dispatch, AppendFromLeader, MessageTerm;
  }

  lemma SameLog(s: NodeState, s': NodeState, m: Message)
    requires s'.log == s.log
    ensures LogMoves(s, s', m)
  {}

  lemma TickLog(s: NodeState, draw: nat)
    ensures s.log <= TickNode(s, draw).log
  {
    hide BecomeLeader, BroadcastUpTo, RequestVotesUpTo;
    var beat := s.(heartbeatElapsed := 0);
    P.BroadcastStores(beat, |beat.cfg.peers|, false, false);
    var s1 := Campaign(s.(electionElapsed := s.electionElapsed + 1), draw);
    LeaderExtends(s1);
    P.RequestVotesStores(s1, |s1.cfg.peers|);
  }

  lemma ProposeLog(s: NodeState, data: seq<Byte>)
    ensures s.log <= ProposeData(s, data).log
  {
    hide BroadcastUpTo;
    var s1 := AdvanceCommit(AppendLocal(s, Normal, data));
    P.BroadcastStores(s1, |s1.cfg.peers|, false, true);
  }

  // ----- A committed prefix survives -----

  /** A leader of a term no lower than the commit's holds the committed prefix. */
  lemma CommittedInTerm(k: Core, a: seq<Entry>, u: nat, w: nat)
    requires CoreInv(k) && CommittedUpTo(k, a, |a|, u) && u <= w && w in k.h.logs
    ensures Agree(a, k.h.logs[w], |a|)
  {
    hide CoreInv;
    if a != [] {
      var t, i := CommittedWitness(k, a, |a|, u);
      if t < w { LeaderHolds(k, t, i, w); }
    }
  }

  lemma LeaderHolds(k: Core, t: nat, i: nat, w: nat)
    requires CoreInv(k) && Committed(k, t, i) && w in k.h.logs && t < w
    ensures Agree(k.h.logs[t], k.h.logs[w], i)
  {
    LeaderCompleteness(k, t, i, w);
    assert LeaderLogOk(k, w);
  }

  /** Splicing in a leader's entries keeps any prefix the leader holds too. */
  lemma SpliceKeeps(log: seq<Entry>, entries: seq<Entry>, prev: nat, ll: seq<Entry>, a: seq<Entry>)
    requires Contiguous(log) && Numbered(entries, prev) && prev <= |log| && a <= log && Agree(a, ll, |a|)
    requires prev + |entries| <= |ll| && forall j :: 0 <= j < |entries| ==> entries[j] == ll[prev + j]
    ensures a <= AppendFromLeader(log, entries, prev)
  {
    hide AppendFromLeader;
    P.AppendShape(log, entries, prev);
    P.FirstConflictIs(log, entries, 0);
    var i := FirstConflict(log, entries, 0);
    if i < |entries| {
      if prev + i < |a| { SameTermAt(log, entries, prev, ll, a, i); }
    } else {
      NoConflict(log, entries, prev);
    }
  }

  lemma SameTermAt(log: seq<Entry>, entries: seq<Entry>, prev: nat, ll: seq<Entry>, a: seq<Entry>, i: nat)
    requires Numbered(entries, prev) && a <= log && Agree(a, ll, |a|) && i < |entries| && prev + i < |a|
    requires entries[i] == ll[prev + i]
    ensures TermAt(log, entries[i].index) == Some(entries[i].term)
  {}

  lemma NoConflict(log: seq<Entry>, entries: seq<Entry>, prev: nat)
    requires Numbered(entries, prev) && FirstConflict(log, entries, 0) == |entries|
    ensures AppendFromLeader(log, entries, prev) == log
  {}

  /** A stored committed prefix is still stored after any input. */
  lemma HandleKeeps(k: Core, s: NodeState, input: Input, a: seq<Entry>)
    requires CoreInv(k) && Contiguous(s.log) && a <= s.log && CommittedUpTo(k, a, |a|, s.hard.term)
    requires input.Receive? ==> MsgOk(k, input.m)
    ensures a <= Handle(s, input).log
  {
    hide CoreInv, CommittedUpTo, TickNode, StepMessage, ProposeData, MsgOk, AppendFromLeader;
    match input
    case Tick(draw) => TickLog(s, draw);
    case Propose(data) => ProposeLog(s, data);
    case Receive(m, draw) =>
      StepLog(s, m, draw);
      Safety.HandleTerm(s, input);
      var s' := StepMessage(s, m, draw);
      if !(s.log <= s'.log) { AdoptKeeps(k, s, m, a); }
  }

  lemma AdoptKeeps(k: Core, s: NodeState, m: Message, a: seq<Entry>)
    requires CoreInv(k) && Contiguous(s.log) && a <= s.log && CommittedUpTo(k, a, |a|, s.hard.term)
    requires m.body.AppendEntries? && MsgOk(k, m) && ValidAppend(m.body) && m.body.prevLogIndex <= |s.log|
    requires s.hard.term <= MessageTerm(m)
    ensures a <= AppendFromLeader(s.log, m.body.entries, m.body.prevLogIndex)
  {
    hide CoreInv, CommittedUpTo, AppendFromLeader;
    MessageTermIs(k, m);
    CommittedInTerm(k, a, s.hard.term, m.term);
    SpliceKeeps(s.log, m.body.entries, m.body.prevLogIndex, k.h.logs[m.term], a);
  }

  // ----- Every step of every run -----

  /** The sequence is stored, and was committed in a term the disk has reached. */
  ghost predicate Retained(k: Core, d: Durable, a: seq<Entry>) { a <= d.log && CommittedUpTo(k, a, |a|, d.hard.term) }

  ghost predicate ProcRetains(k: Core, p: Proc) { forall a :: a in p.applied ==> Retained(k, p.disk, a) }

  ghost predicate AllRetained(c: System, k: Core) { forall q :: q in c.procs ==> ProcRetains(k, c.procs[q]) }

  lemma RetainedGrows(k: Core, k': Core, d: Durable, d': Durable, a: seq<Entry>)
    requires Retained(k, d, a) && k'.peers == k.peers && Grows(k.h, k'.h)
    requires a <= d'.log && d.hard.term <= d'.hard.term
    ensures Retained(k', d', a)
  {
    hide CommittedUpTo, Grows;
    CommittedUpToGrows(k, k', a, a, |a|, d.hard.term, d'.hard.term);
  }

  lemma ProcGrows(k: Core, k': Core, p: Proc)
    requires ProcRetains(k, p) && k'.peers == k.peers && Grows(k.h, k'.h)
    ensures ProcRetains(k', p)
  {
    hide Retained, Grows;
    forall a | a in p.applied
      ensures Retained(k', p.disk, a)
    {
      StaysPrefix(k, p.disk, a); RetainedGrows(k, k', p.disk, p.disk, a);
    }
  }

  lemma StaysPrefix(k: Core, d: Durable, a: seq<Entry>)
    requires Retained(k, d, a)
    ensures a <= d.log
  {}

  lemma OthersRetain(c: System, k: Core, c': System, k': Core, id: NodeID)
    requires AllRetained(c, k) && k'.peers == k.peers && Grows(k.h, k'.h)
    requires id in c'.procs && ProcRetains(k', c'.procs[id])
    requires c'.procs.Keys == c.procs.Keys && forall q :: q in c.procs && q != id ==> c'.procs[q] == c.procs[q]
    ensures AllRetained(c', k')
  {
    hide ProcRetains, Grows;
    forall q | q in c'.procs ensures ProcRetains(k', c'.procs[q]) {
      if q != id { ProcGrows(k, k', c.procs[q]); }
    }
  }

  /** Every disk a torn save can leave still holds what both the old and the new log hold. */
  lemma TornKeeps(s: NodeState, d: Durable, t: P.Torn, a: seq<Entry>)
    requires P.Unsaved(s, d) && a <= d.log && a <= s.log
    requires t == P.Cut ==> s.unstableIndex <= |d.log| && s.unstableIndex <= |s.log|
    ensures a <= P.TornDisk(s, d, t).log && (P.TornDisk(s, d, t).hard == d.hard || P.TornDisk(s, d, t).hard == s.hard)
  {
    assert forall i :: 0 <= i < |a| ==> s.log[i] == a[i] && d.log[i] == a[i];
  }

  lemma TornRetains(c: System, k: Core, id: NodeID, input: Input, records: nat) returns (k': Core)
    requires Inv(c, k) && AllRetained(c, k) && Enabled(c, Drive(id, input, TornSave(records)))
    ensures var c' := Exec(c, Drive(id, input, TornSave(records))); Continues(k, c', k') && AllRetained(c', k')
  {
    hide Inv, CoreInv, NodeOk, MsgOk, Handle, P.Unsaved, Retained, Grows, ReadyOf, ApplyRecords, BatchRecords,
      P.TornDisk;
    var p, step := c.procs[id], Drive(id, input, TornSave(records));
    var s := p.live.value;
    var s', c' := Handle(s, input), Exec(c, step);
    k' := DriveOk(c, k, id, input, TornSave(records));
    RunningFacts(c, k, id, s);
    P.HandleUnsaved(s, p.disk, input);
    UnsavedBounds(s', p.disk);
    var rd := ReadyOf(s');
    var t := P.TornSaveCases(s', p.disk, Min(records, |BatchRecords(p.disk, rd.hardState, rd.entries)|));
    Safety.HandleTerm(s, input);
    InputOk(c, k, id, input);
    forall a | a in p.applied ensures Retained(k', c'.procs[id].disk, a) {
      StillLogged(k, s, p.disk, input, a);
      TornKeeps(s', p.disk, t, a);
      RetainedGrows(k, k', p.disk, P.TornDisk(s', p.disk, t), a);
    }
    OthersRetain(c, k, c', k', id);
  }

  lemma InputOk(c: System, k: Core, id: NodeID, input: Input)
    requires Inv(c, k) && id in c.procs && (input.Receive? ==> input.m in c.net)
    ensures input.Receive? ==> MsgOk(k, input.m)
  {}

  lemma StillLogged(k: Core, s: NodeState, d: Durable, input: Input, a: seq<Entry>)
    requires CoreInv(k) && P.Synced(s, d) && Retained(k, d, a) && (input.Receive? ==> MsgOk(k, input.m))
    ensures a <= d.log && a <= Handle(s, input).log
  {
    hide CoreInv, MsgOk, Handle, CommittedUpTo;
    HandleKeeps(k, s, input, a);
  }

  /** A cycle whose Save completed: the old sequences are kept and the new one is stored. */
  lemma SavedRetains(c: System, k: Core, k': Core, id: NodeID, s: NodeState, s': NodeState, input: Input, n: nat)
    requires Running(c, k, id, s) && AllRetained(c, k) && s' == Handle(s, input) && Handled(c, k, k', id, s, s')
    requires input.Receive? ==> MsgOk(k, input.m)
    requires n <= s'.commitIndex - s.commitIndex
    ensures |ReadyOf(s').committed| == s'.commitIndex - s.commitIndex
    ensures forall a :: a in Deliver(c.procs[id].applied, ReadyOf(s').committed[..n]) ==>
      Retained(k', Durable(s'.hard, s'.log), a)
  {
    hide Inv, CoreInv, NodeOk, MsgOk, Handle, P.Unsaved, Retained, Grows, ReadyOf, Stage, CommittedUpTo, CommittedSeq;
    var p, d' := c.procs[id], Durable(s'.hard, s'.log);
    RunningFacts(c, k, id, s);
    HandledFacts(c, k, k', id, s, s');
    DeliverOk(c, k, k', id, s, s', n);
    Safety.HandleTerm(s, input);
    var batch := ReadyOf(s').committed[..n];
    forall a | a in Deliver(p.applied, batch) ensures Retained(k', d', a) {
      if a in p.applied {
        StillLogged(k, s, p.disk, input, a);
        RetainedGrows(k, k', p.disk, d', a);
      } else {
        PrefixRetained(k', d', s'.commitIndex, s.commitIndex + n);
      }
    }
  }

  lemma PrefixRetained(k: Core, d: Durable, n: nat, m: nat)
    requires CommittedUpTo(k, d.log, n, d.hard.term) && m <= n <= |d.log|
    ensures Retained(k, d, d.log[..m])
  {
    hide CommittedUpTo, Grows;
    CommittedSmaller(k, d.log, n, m, d.hard.term);
    GrowsReflexive(k.h);
    assert Agree(d.log, d.log[..m], m);
    CommittedUpToGrows(k, k, d.log, d.log[..m], m, d.hard.term, d.hard.term);
  }

  lemma DriveRetains(c: System, k: Core, id: NodeID, input: Input, out: Outcome) returns (k': Core)
    requires Inv(c, k) && AllRetained(c, k) && Enabled(c, Drive(id, input, out))
    ensures var c' := Exec(c, Drive(id, input, out)); Continues(k, c', k') && AllRetained(c', k')
  {
    hide Inv, CoreInv, NodeOk, MsgOk, Handle, P.Unsaved, Retained, Grows, ReadyOf, Save, Stage, Advance, TakeReady,
      CommittedSeq;
    if out.TornSave? {
      k' := TornRetains(c, k, id, input, out.records);
    } else {
      var p := c.procs[id];
      var s := p.live.value;
      var s' := Handle(s, input);
      InputOk(c, k, id, input);
      RunningFacts(c, k, id, s);
      P.HandleUnsaved(s, p.disk, input);
      var st := HandleStages(k, s, input);
      k' := st.full;
      HandledFacts(c, k, k', id, s, s');
      P.SaveAgrees(s', p.disk);
      var rd := ReadyOf(s');
      if out.Done? {
        DoneOk(c, k, k', id, s, s');
        DoneSendsAll(s');
        SavedRetains(c, k, k', id, s, s', input, s'.commitIndex - s.commitIndex);
        assert rd.committed[..|rd.committed|] == rd.committed;
      } else {
        DiedOk(c, k, k', id, s, s', out.sent, out.applied);
        var n := if out.sent < |rd.messages| then 0 else Min(out.applied, s'.commitIndex - s.commitIndex);
        SavedRetains(c, k, k', id, s, s', input, n);
        assert rd.committed[..0] == [];
      }
      OthersRetain(c, k, Exec(c, Drive(id, input, out)), k', id);
    }
  }

  lemma StepRetains(c: System, k: Core, step: Step) returns (k': Core)
    requires Inv(c, k) && AllRetained(c, k)
    ensures Continues(k, Exec(c, step), k') && AllRetained(Exec(c, step), k')
  {
    hide Inv, Retained, Handle, Finish, NewNode;
    if Enabled(c, step) && step.Drive? {
      k' := DriveRetains(c, k, step.id, step.input, step.outcome);
    } else {
      k' := StepOk(c, k, step);
      if Enabled(c, step) {
        var p, c' := c.procs[step.id], Exec(c, step);
        NothingRetained(k', p.disk);
        ProcGrows(k, k', p);
        OthersRetain(c, k, c', k', step.id);
      } else {
        forall q | q in c.procs ensures ProcRetains(k', c.procs[q]) { ProcGrows(k, k', c.procs[q]); }
      }
    }
  }

  lemma NothingRetained(k: Core, d: Durable)
    ensures Retained(k, d, [])
  {
    var none: seq<Entry> := [];
    assert CommittedUpTo(k, none, |none|, d.hard.term);
  }

  lemma {:induction false} RunRetains(cfg: Config, steps: seq<Step>) returns (k: Core)
    requires ValidCluster(cfg)
    ensures Inv(Run(Initial(cfg), steps), k) && AllRetained(Run(Initial(cfg), steps), k)
    decreases |steps|
  {
    hide Inv, Retained, Exec;
    if steps == [] {
      k := InitialInv(cfg);
    } else {
      k := RunRetains(cfg, steps[..|steps| - 1]);
      k := StepRetains(Run(Initial(cfg), steps[..|steps| - 1]), k, steps[|steps| - 1]);
    }
  }

  // ----- What replay relies on -----

  /** Whatever a node has ever applied is still a prefix of its stored log, which is numbered from 1. */
  lemma AppliedStaysStored(cfg: Config, steps: seq<Step>, p: NodeID, a: seq<Entry>)
    requires ValidCluster(cfg)
    requires var c := Run(Initial(cfg), steps); p in c.procs && a in c.procs[p].applied
    ensures var log := Run(Initial(cfg), steps).procs[p].disk.log; a <= log && Contiguous(log)
  {
    hide CoreInv, Run, Initial, NodeOk, CommittedUpTo, CommittedSeq, MsgOk;
    var k := RunRetains(cfg, steps);
    var c := Run(Initial(cfg), steps);
    assert ProcRetains(k, c.procs[p]) && ProcOk(c, k, p);
    StoredNumbered(k, p);
  }

  lemma StoredNumbered(k: Core, p: NodeID)
    requires CoreInv(k) && p in k.disk
    ensures Contiguous(k.disk[p].log)
  {
    assert GoodLog(k.h, k.disk[p].log);
  }

  /**
   The entries an incarnation applies are those its state machine can take next: numbered on
   from the last, and the same ones every earlier incarnation applied at those indexes.
   */
  lemma ReplayIsFed(cfg: Config, steps: seq<Step>, p: NodeID, past: seq<Entry>, now: seq<Entry>, i: nat)
    requires ValidCluster(cfg)
    requires var c := Run(Initial(cfg), steps); p in c.procs && past in c.procs[p].applied && now in c.procs[p].applied
    requires i < |now|
    ensures now[i].index == i + 1 && (i < |past| ==> now[i] == past[i])
    ensures past <= Run(Initial(cfg), steps).procs[p].disk.log
  {
    hide Run, Initial;
    Safety.StateMachineSafety(cfg, steps, p, p, now, past);
    AppliedStaysStored(cfg, steps, p, past);
  }

  /** The longest of some comparable sequences, which all the others begin. */
  lemma {:induction false} Longest(all: seq<seq<Entry>>) returns (log: seq<Entry>)
    requires all != [] && forall a, b :: a in all && b in all ==> Safety.Comparable(a, b)
    ensures log in all && forall a :: a in all ==> a <= log
    decreases |all|
  {
    var last := all[|all| - 1];
    log := last;
    if |all| > 1 {
      var front := all[..|all| - 1];
      assert forall a :: a in all <==> a in front || a == last;
      var longest := Longest(front);
      assert Safety.Comparable(longest, last);
      log := if |longest| >= |last| then longest else last;
    }
  }

  /**
   All of a node's incarnations, dead or alive, apply from the start of one log numbered from
   one, and the node's storage retains all of it: what `LsmRecovery.Survive` asks of a node.
   */
  lemma LivesShareOneLog(cfg: Config, steps: seq<Step>, p: NodeID) returns (log: seq<Entry>)
    requires ValidCluster(cfg) && p in Run(Initial(cfg), steps).procs
    ensures var pr := Run(Initial(cfg), steps).procs[p];
      Contiguous(log) && log <= pr.disk.log && forall a :: a in pr.applied ==> a <= log
  {
    hide Run, Initial;
    var pr := Run(Initial(cfg), steps).procs[p];
    log := [];
    if pr.applied != [] {
      forall a, b | a in pr.applied && b in pr.applied ensures Safety.Comparable(a, b) {
        Safety.StateMachineSafety(cfg, steps, p, p, a, b);
      }
      log := Longest(pr.applied);
      Safety.StateMachineSafety(cfg, steps, p, p, log, log);
      AppliedStaysStored(cfg, steps, p, log);
    }
  }

  /** Any two incarnations of any nodes that applied i entries have the same state and gave the same answers. */
  lemma ReplicasAgree(cfg: Config, steps: seq<Step>, decode: Decoder, p: NodeID, q: NodeID, a: seq<Entry>,
                      b: seq<Entry>, i: nat)
    requires ValidCluster(cfg)
    requires var c := Run(Initial(cfg), steps);
      p in c.procs && q in c.procs && a in c.procs[p].applied && b in c.procs[q].applied
    requires i <= |a| && i <= |b|
    ensures Replayed(decode, a[..i]) == Replayed(decode, b[..i])
    ensures StateMachine.Answers(decode, a[..i]) == StateMachine.Answers(decode, b[..i])
  {
    hide Run, Initial, Replayed, StateMachine.Answers;
    Safety.StateMachineSafety(cfg, steps, p, q, a, b);
    assert a[..i] == b[..i];
  }
}
