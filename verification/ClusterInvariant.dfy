/** The cluster invariant, and its preservation by every step of every run. */
module ClusterInvariant {
  import opened RaftTypes
  import opened RaftSpec
  import opened Storage
  import opened Cluster
  import opened RaftHistory
  import opened RaftVolatile
  import opened RaftHandlers
  import P = Persistence

  /** Node IDs are non-zero, distinct and sorted, and the commit rule is the real one. */
  ghost predicate ValidCluster(cfg: Config) {
    Ascending(cfg.peers) && 0 !in cfg.peers && cfg.rule == CurrentTermOnly
  }

  /** The entries of `a` are a committed prefix of the replicated log. */
  ghost predicate CommittedSeq(k: Core, a: seq<Entry>) {
    exists u: nat :: CommittedUpTo(k, a, |a|, u)
  }

  ghost predicate LiveOk(c: System, k: Core, id: NodeID, s: NodeState)
    requires id in c.procs
  {
    var p := c.procs[id];
    && NodeOk(k, s) && P.Synced(s, p.disk)
    && s.cfg == WithDefaults(NodeConfig(c, id))
    && s.lastApplied == s.commitIndex
    && p.applied != [] && p.applied[|p.applied| - 1] == s.log[..s.commitIndex]
  }

  ghost predicate ProcOk(c: System, k: Core, id: NodeID)
    requires id in c.procs
  {
    var p := c.procs[id];
    && id in k.disk && k.disk[id] == p.disk
    && (p.live.Some? ==> LiveOk(c, k, id, p.live.value))
    && forall a :: a in p.applied ==> CommittedSeq(k, a)
  }

  ghost predicate Inv(c: System, k: Core) {
    && ValidCluster(c.cfg)
    && k.peers == PeerSet(c.cfg.peers) && c.procs.Keys == k.peers
    && CoreInv(k)
    && (forall m :: m in c.net ==> MsgOk(k, m))
    && (forall id :: id in c.procs ==> ProcOk(c, k, id))
  }

  lemma InitialInv(cfg: Config) returns (k: Core)
    requires ValidCluster(cfg)
    ensures Inv(Initial(cfg), k)
  {
    k := Core(PeerSet(cfg.peers), map id | id in cfg.peers :: EMPTY, NO_HISTORY);
    assert k.disk.Keys == k.peers;
    assert KeepInv(k);
    assert Initial(cfg).procs.Keys == k.peers;
  }

  // ----- Committed prefixes -----

  lemma CommittedWitness(k: Core, log: seq<Entry>, n: nat, u: nat) returns (t: nat, i: nat)
    requires CommittedUpTo(k, log, n, u) && n > 0
    ensures t <= u && n <= i && Committed(k, t, i) && t in k.h.logs && Agree(log, k.h.logs[t], n)
  {
    t, i :| t <= u && n <= i && Committed(k, t, i) && Agree(log, k.h.logs[t], n);
  }

  /** Two committed prefixes agree as far as the shorter one goes. */
  lemma CommittedPrefixesAgree(k: Core, a: seq<Entry>, m: nat, u: nat, b: seq<Entry>, n: nat, w: nat)
    requires CoreInv(k) && CommittedUpTo(k, a, m, u) && CommittedUpTo(k, b, n, w) && m <= n
    ensures Agree(a, b, m)
  {
    hide CoreInv, Committed, CommittedUpTo;
    if m > 0 {
      var t, i := CommittedWitness(k, a, m, u);
      var r, j := CommittedWitness(k, b, n, w);
      if t <= r { CommittedAgree(k, t, i, r, j); } else { CommittedAgree(k, r, j, t, i); }
    }
  }

  lemma SeqGrows(k: Core, k': Core, a: seq<Entry>)
    requires k'.peers == k.peers && Grows(k.h, k'.h) && CommittedSeq(k, a)
    ensures CommittedSeq(k', a)
  {
    var u: nat :| CommittedUpTo(k, a, |a|, u);
    CommittedUpToGrows(k, k', a, a, |a|, u, u);
  }

  lemma PrefixCommitted(k: Core, log: seq<Entry>, n: nat, m: nat, u: nat)
    requires CommittedUpTo(k, log, n, u) && m <= n <= |log|
    ensures CommittedSeq(k, log[..m])
  {
    CommittedSmaller(k, log, n, m, u);
    assert Agree(log, log[..m], m);
    CommittedUpToGrows(k, k, log, log[..m], m, u, u);
    assert |log[..m]| == m;
  }

  // ----- A step of one process leaves the others in order -----

  lemma OtherProc(c: System, k: Core, c': System, k': Core, id: NodeID)
    requires id in c.procs && id in c'.procs && c'.procs[id] == c.procs[id] && c'.cfg == c.cfg
    requires ProcOk(c, k, id) && k'.peers == k.peers && Grows(k.h, k'.h)
    requires id in k'.disk && k'.disk[id] == c.procs[id].disk
    ensures ProcOk(c', k', id)
  {
    hide NodeOk, CommittedSeq, Grows;
    var p := c.procs[id];
    forall a | a in p.applied ensures CommittedSeq(k', a) { SeqGrows(k, k', a); }
    if p.live.Some? {
      NodeDisk(k, p.live.value);
      NodeOkGrows(k, k', p.live.value);
    }
  }

  /** One process moved, the history grew, and new messages keep their promises. */
  lemma StepFrame(c: System, k: Core, c': System, k': Core, id: NodeID, sent: set<Message>)
    requires Inv(c, k) && id in c.procs && id in c'.procs
    requires c' == c.(procs := c.procs[id := c'.procs[id]], net := c.net + sent)
    requires Stage(k, k', id, c'.procs[id].disk)
    requires ProcOk(c', k', id)
    requires forall m :: m in sent ==> MsgOk(k', m)
    ensures Inv(c', k')
  {
    hide CoreInv, MsgOk, ProcOk, Grows;
    forall m | m in c'.net ensures MsgOk(k', m) {
      if m in c.net { MsgOkGrows(k, k', m); }
    }
    forall q | q in c'.procs ensures ProcOk(c', k', q) {
      if q != id { ProcDisk(c, k, q); OtherProc(c, k, c', k', q); }
    }
  }

  lemma ProcDisk(c: System, k: Core, id: NodeID)
    requires id in c.procs && ProcOk(c, k, id)
    ensures id in k.disk && k.disk[id] == c.procs[id].disk
  {}

  // ----- Finishing a cycle -----

  /** The entries Ready hands out are exactly the committed ones not yet applied. */
  lemma CommittedBatch(s: NodeState)
    requires Contiguous(s.log) && s.lastApplied <= s.commitIndex <= |s.log| && s.ack == NO_ACK
    ensures ReadyOf(s).committed == s.log[s.lastApplied..s.commitIndex]
    ensures Advance(TakeReady(s)).lastApplied == s.commitIndex
  {}

  lemma AdvanceNode(k: Core, s: NodeState)
    requires NodeOk(k, s) && Advance(TakeReady(s)).messages == []
    ensures NodeOk(k, Advance(TakeReady(s)))
  {
    var s' := Advance(TakeReady(s));
    if s.role == Leader {
      forall p | p in s'.inflight ensures InflightOk(k, s', s'.inflight[p]) { assert InflightOk(k, s, s.inflight[p]); }
    }
  }

  /** Commit never moves back, so what was applied stays a prefix of what is committed. */
  lemma AppliedStays(k: Core, k': Core, s: NodeState, s': NodeState)
    requires NodeOk(k, s) && CoreInv(k') && NodeOk(k', s') && k'.peers == k.peers && Grows(k.h, k'.h)
    requires s.commitIndex <= s'.commitIndex
    ensures s.commitIndex <= |s.log| && s'.commitIndex <= |s'.log|
    ensures s.log[..s.commitIndex] + s'.log[s.commitIndex..s'.commitIndex] == s'.log[..s'.commitIndex]
  {
    hide CoreInv, Committed;
    CommittedUpToGrows(k, k', s.log, s.log, s.commitIndex, s.hard.term, s.hard.term);
    CommittedPrefixesAgree(k', s.log, s.commitIndex, s.hard.term, s'.log, s'.commitIndex, s'.hard.term);
  }

  /** What is known of a live process before a step. */
  ghost predicate Running(c: System, k: Core, id: NodeID, s: NodeState) {
    Inv(c, k) && id in c.procs && c.procs[id].live == Some(s)
  }

  lemma RunningFacts(c: System, k: Core, id: NodeID, s: NodeState)
    requires Running(c, k, id, s)
    ensures CoreInv(k) && NodeOk(k, s) && P.Synced(s, c.procs[id].disk)
    ensures s.cfg == WithDefaults(NodeConfig(c, id)) && s.cfg.id == id && s.lastApplied == s.commitIndex
    ensures s.commitIndex <= |s.log|
    ensures var applied := c.procs[id].applied; applied != [] && applied[|applied| - 1] == s.log[..s.commitIndex]
    ensures forall a :: a in c.procs[id].applied ==> CommittedSeq(k, a)
  {
    assert ProcOk(c, k, id) && LiveOk(c, k, id, s);
  }

  /** The state after the handler: what it left on disk is covered by k'. */
  ghost predicate Handled(c: System, k: Core, k': Core, id: NodeID, s: NodeState, s': NodeState)
    requires id in c.procs
  {
    && Stage(k, k', id, Durable(s'.hard, s'.log)) && NodeOk(k', s')
    && P.Unsaved(s', c.procs[id].disk)
    && s'.cfg == s.cfg && s'.commitIndex >= s.commitIndex && s'.lastApplied == s.lastApplied
  }

  lemma HandledFacts(c: System, k: Core, k': Core, id: NodeID, s: NodeState, s': NodeState)
    requires Running(c, k, id, s) && Handled(c, k, k', id, s, s')
    ensures CoreInv(k') && Grows(k.h, k'.h) && k'.peers == k.peers
    ensures id in k'.disk && k'.disk[id] == Durable(s'.hard, s'.log)
    ensures Contiguous(s'.log) && s'.ack == NO_ACK && s'.lastApplied == s.commitIndex <= s'.commitIndex <= |s'.log|
    ensures CommittedUpTo(k', s'.log, s'.commitIndex, s'.hard.term)
    ensures forall m :: m in s'.messages ==> MsgOk(k', m)
    ensures s'.cfg == WithDefaults(NodeConfig(c, id))
  {
    RunningFacts(c, k, id, s);
  }

  /** Handing out the first n committed entries leaves only committed prefixes applied. */
  lemma DeliverOk(c: System, k: Core, k': Core, id: NodeID, s: NodeState, s': NodeState, n: nat)
    requires Running(c, k, id, s) && Handled(c, k, k', id, s, s') && n <= s'.commitIndex - s.commitIndex
    ensures |ReadyOf(s').committed| == s'.commitIndex - s.commitIndex
    ensures var applied := Deliver(c.procs[id].applied, ReadyOf(s').committed[..n]);
      && s.commitIndex + n <= |s'.log|
      && applied != [] && applied[|applied| - 1] == s'.log[..s.commitIndex + n]
      && forall a :: a in applied ==> CommittedSeq(k', a)
  {
    hide Inv, CoreInv, NodeOk, CommittedSeq, CommittedUpTo, Grows, ReadyOf, Advance, TakeReady, Stage;
    RunningFacts(c, k, id, s);
    HandledFacts(c, k, k', id, s, s');
    CommittedBatch(s');
    AppliedStays(k, k', s, s');
    var before := c.procs[id].applied;
    var batch := ReadyOf(s').committed[..n];
    assert s.log[..s.commitIndex] + batch == s'.log[..s.commitIndex + n];
    PrefixCommitted(k', s'.log, s'.commitIndex, s.commitIndex + n, s'.hard.term);
    forall a | a in Deliver(before, batch) ensures CommittedSeq(k', a) {
      if a in before { SeqGrows(k, k', a); }
    }
  }

  function StepTo(c: System, id: NodeID, p: Proc, sent: set<Message>): System {
    c.(procs := c.procs[id := p], net := c.net + sent)
  }

  lemma DoneProc(c: System, k: Core, k': Core, id: NodeID, s: NodeState, s': NodeState)
    requires Running(c, k, id, s) && Handled(c, k, k', id, s, s')
    ensures ProcOk(StepTo(c, id, Finish(c.procs[id], s', Done), MessageSet(s'.messages)), k', id)
  {
    hide Inv, CoreInv, NodeOk, CommittedSeq, CommittedUpTo, Grows, ReadyOf, Advance, TakeReady, Save, P.Unsaved,
      Deliver;
    var d := c.procs[id].disk;
    HandledFacts(c, k, k', id, s, s');
    P.SaveAgrees(s', d);
    P.AdvanceSyncs(s', d);
    CommittedBatch(s');
    var n := s'.commitIndex - s.commitIndex;
    DeliverOk(c, k, k', id, s, s', n);
    assert ReadyOf(s').committed[..n] == ReadyOf(s').committed;
    AdvanceNode(k', s');
    AdvanceCommits(s');
  }

  lemma DoneOk(c: System, k: Core, k': Core, id: NodeID, s: NodeState, s': NodeState)
    requires Running(c, k, id, s) && Handled(c, k, k', id, s, s')
    ensures Inv(StepTo(c, id, Finish(c.procs[id], s', Done), MessageSet(s'.messages)), k')
  {
    DoneProc(c, k, k', id, s, s');
    hide Inv, CoreInv, NodeOk, ProcOk, MsgOk, ReadyOf, Advance, TakeReady, Save, P.Unsaved, Stage;
    HandledFacts(c, k, k', id, s, s');
    P.SaveAgrees(s', c.procs[id].disk);
    StepFrame(c, k, StepTo(c, id, Finish(c.procs[id], s', Done), MessageSet(s'.messages)), k', id,
              MessageSet(s'.messages));
  }

  lemma AdvanceCommits(s: NodeState)
    ensures Advance(TakeReady(s)).commitIndex == s.commitIndex && Advance(TakeReady(s)).log == s.log
  {}

  lemma DiedOk(c: System, k: Core, k': Core, id: NodeID, s: NodeState, s': NodeState, sent: nat, applied: nat)
    requires Running(c, k, id, s) && Handled(c, k, k', id, s, s')
    ensures var out := Died(sent, applied); Inv(StepTo(c, id, Finish(c.procs[id], s', out), Sent(s', out)), k')
  {
    hide Inv, CoreInv, NodeOk, MsgOk, CommittedSeq, CommittedUpTo, Grows, ReadyOf, Save, P.Unsaved, Deliver, Stage;
    var out := Died(sent, applied);
    var c' := StepTo(c, id, Finish(c.procs[id], s', out), Sent(s', out));
    HandledFacts(c, k, k', id, s, s');
    P.SaveAgrees(s', c.procs[id].disk);
    var rd := ReadyOf(s');
    var n := if sent < |rd.messages| then 0 else Min(applied, s'.commitIndex - s.commitIndex);
    DeliverOk(c, k, k', id, s, s', n);
    assert rd.committed[..0] == [];
    assert ProcOk(c', k', id);
    hide ProcOk;
    StepFrame(c, k, c', k', id, Sent(s', out));
  }

  /** A torn Save leaves one of the disks the stages cover. */
  lemma TornOk(c: System, k: Core, st: Stages, id: NodeID, s: NodeState, s': NodeState, records: nat) returns (k': Core)
    requires Running(c, k, id, s) && StagesOk(k, st, s, s') && P.Unsaved(s', c.procs[id].disk)
    ensures Inv(StepTo(c, id, Finish(c.procs[id], s', TornSave(records)), {}), k') && Grows(k.h, k'.h)
    ensures k'.peers == k.peers
  {
    hide Inv, CoreInv, NodeOk, CommittedSeq, Grows, ReadyOf, P.Unsaved, ApplyRecords, BatchRecords;
    var d := c.procs[id].disk;
    var rd := ReadyOf(s');
    var batch := BatchRecords(d, rd.hardState, rd.entries);
    var t := P.TornSaveCases(s', d, Min(records, |batch|));
    RunningFacts(c, k, id, s);
    NodeDisk(k, s);
    UnsavedBounds(s', d);
    k' := match t
      case Nothing => k
      case HardOnly => st.hard
      case Cut => st.cut
      case Everything => st.full;
    GrowsReflexive(k.h);
    var c' := StepTo(c, id, Finish(c.procs[id], s', TornSave(records)), {});
    assert k.disk == k.disk[id := d];
    assert Stage(k, k', id, P.TornDisk(s', d, t));
    forall a | a in c'.procs[id].applied ensures CommittedSeq(k', a) { SeqGrows(k, k', a); }
    hide Stage, StagesOk;
    StepFrame(c, k, c', k', id, {});
  }

  lemma UnsavedBounds(s: NodeState, d: Durable)
    requires P.Unsaved(s, d)
    ensures 1 <= s.unstableIndex <= |d.log| + 1
  {}

  // ----- Every step -----

  /** k' describes c' and remembers everything k did. */
  ghost predicate Continues(k: Core, c': System, k': Core) {
    Inv(c', k') && Grows(k.h, k'.h) && k'.peers == k.peers
  }

  lemma DriveOk(c: System, k: Core, id: NodeID, input: Input, out: Outcome) returns (k': Core)
    requires Inv(c, k) && Enabled(c, Drive(id, input, out))
    ensures Continues(k, Exec(c, Drive(id, input, out)), k')
  {
    hide CoreInv, NodeOk, MsgOk, ProcOk, Handle, Finish, Sent, P.Unsaved, Grows, ValidCluster;
    var p := c.procs[id];
    var s := p.live.value;
    if input.Receive? { assert MsgOk(k, input.m); }
    hide Inv;
    RunningFacts(c, k, id, s);
    P.HandleUnsaved(s, p.disk, input);
    var st := HandleStages(k, s, input);
    var s' := Handle(s, input);
    match out
    case TornSave(records) =>
      k' := TornOk(c, k, st, id, s, s', records);
      TornSendsNothing(s', records);
    case Done =>
      k' := st.full;
      DoneOk(c, k, k', id, s, s');
      DoneSendsAll(s');
    case Died(sent, applied) =>
      k' := st.full;
      DiedOk(c, k, k', id, s, s', sent, applied);
  }

  lemma TornSendsNothing(s: NodeState, records: nat)
    ensures Sent(s, TornSave(records)) == {}
  {}

  lemma DoneSendsAll(s: NodeState)
    ensures Sent(s, Done) == MessageSet(s.messages)
  {}

  /** A process that just stops keeps its disk and what it applied. */
  lemma CrashOk(c: System, k: Core, id: NodeID)
    requires Inv(c, k) && id in c.procs
    ensures Continues(k, Exec(c, Crash(id)), k)
  {
    hide CoreInv, NodeOk, MsgOk, CommittedSeq;
    GrowsReflexive(k.h);
    assert ProcOk(c, k, id);
    var c' := Exec(c, Crash(id));
    assert k.disk == k.disk[id := k.disk[id]];
    assert ProcOk(c', k, id);
    assert c' == c.(procs := c.procs[id := c'.procs[id]], net := c.net + {});
    hide Inv, ProcOk;
    StepFrame(c, k, c', k, id, {});
  }

  lemma BootedNode(k: Core, cfg: Config, d: Durable, draw: nat)
    requires CoreInv(k) && ConfigOk(k, WithDefaults(cfg)) && cfg.id in k.disk && k.disk[cfg.id] == d
    ensures var s := NewNode(cfg, d.hard, d.log, draw);
      NodeOk(k, s) && P.Synced(s, d) && s.cfg == WithDefaults(cfg) && s.lastApplied == s.commitIndex == 0
  {
    assert GoodLog(k.h, d.log);
  }

  /** A rebooted process starts a new incarnation that has applied nothing. */
  lemma RestartOk(c: System, k: Core, id: NodeID, draw: nat)
    requires Inv(c, k) && Enabled(c, Restart(id, draw))
    ensures Continues(k, Exec(c, Restart(id, draw)), k)
  {
    hide CoreInv, NodeOk, MsgOk, CommittedSeq, NewNode;
    GrowsReflexive(k.h);
    assert ProcOk(c, k, id);
    var c', p := Exec(c, Restart(id, draw)), c.procs[id];
    BootedNode(k, NodeConfig(c, id), p.disk, draw);
    assert k.disk == k.disk[id := k.disk[id]];
    EmptyCommitted(k);
    assert ProcOk(c', k, id);
    assert c' == c.(procs := c.procs[id := c'.procs[id]], net := c.net + {});
    hide Inv, ProcOk;
    StepFrame(c, k, c', k, id, {});
  }

  lemma EmptyCommitted(k: Core)
    ensures CommittedSeq(k, [])
  {
    var none: seq<Entry> := [];
    assert CommittedUpTo(k, none, |none|, 0);
  }

  lemma StepOk(c: System, k: Core, step: Step) returns (k': Core)
    requires Inv(c, k)
    ensures Continues(k, Exec(c, step), k')
  {
    if !Enabled(c, step) {
      GrowsReflexive(k.h);
      k' := k;
    } else {
      hide Inv, Exec;
      match step
      case Drive(id, input, out) => k' := DriveOk(c, k, id, input, out);
      case Crash(id) => CrashOk(c, k, id); k' := k;
      case Restart(id, draw) => RestartOk(c, k, id, draw); k' := k;
    }
  }

  /** Every reachable state has a history that satisfies the invariant, and histories only grow. */
  lemma {:induction false} RunOk(c: System, k: Core, steps: seq<Step>) returns (k': Core)
    requires Inv(c, k)
    ensures Continues(k, Run(c, steps), k')
    decreases |steps|
  {
    hide Inv, Exec, Grows;
    if steps == [] {
      GrowsReflexive(k.h);
      k' := k;
    } else {
      var before := RunOk(c, k, steps[..|steps| - 1]);
      k' := StepOk(Run(c, steps[..|steps| - 1]), before, steps[|steps| - 1]);
      GrowsTransitive(k.h, before.h, k'.h);
    }
  }
}
