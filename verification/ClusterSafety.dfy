/**
 What holds of every run of the cluster: any interleaving of ticks, proposals, message loss,
 duplication, reordering and delay, crashes inside and after Save, and restarts.
 */
module ClusterSafety {
  import opened RaftTypes
  import opened RaftSpec
  import opened Storage
  import opened Cluster
  import opened RaftHistory
  import opened RaftVolatile
  import opened RaftHandlers
  import opened ClusterInvariant
  import P = Persistence

  /** One sequence is a prefix of the other. */
  ghost predicate Comparable(a: seq<Entry>, b: seq<Entry>) { a <= b || b <= a }

  lemma Reachable(cfg: Config, steps: seq<Step>) returns (k: Core)
    requires ValidCluster(cfg)
    ensures Inv(Run(Initial(cfg), steps), k)
  {
    hide Inv, Initial, Grows;
    var start := InitialInv(cfg);
    k := RunOk(Initial(cfg), start, steps);
  }

  // ----- State Machine Safety -----

  lemma CommittedSeqsComparable(k: Core, a: seq<Entry>, b: seq<Entry>)
    requires CoreInv(k) && CommittedSeq(k, a) && CommittedSeq(k, b)
    ensures Comparable(a, b)
  {
    hide CoreInv, CommittedUpTo;
    var u: nat :| CommittedUpTo(k, a, |a|, u);
    var w: nat :| CommittedUpTo(k, b, |b|, w);
    if |a| <= |b| { CommittedPrefixesAgree(k, a, |a|, u, b, |b|, w); }
    else { CommittedPrefixesAgree(k, b, |b|, w, a, |a|, u); }
  }

  /** Entries are applied at indexes 1, 2, 3, … with no gap and no repeat. */
  lemma CommittedSeqNumbered(k: Core, a: seq<Entry>)
    requires CoreInv(k) && CommittedSeq(k, a)
    ensures Contiguous(a)
  {
    if a != [] {
      var u: nat :| CommittedUpTo(k, a, |a|, u);
      var t, i := CommittedWitness(k, a, |a|, u);
      assert LeaderLogOk(k, t);
    }
  }

  /** No two incarnations of any two nodes ever apply different entries at the same index. */
  lemma StateMachineSafety(cfg: Config, steps: seq<Step>, p: NodeID, q: NodeID, a: seq<Entry>, b: seq<Entry>)
    requires ValidCluster(cfg)
    requires var c := Run(Initial(cfg), steps);
      p in c.procs && q in c.procs && a in c.procs[p].applied && b in c.procs[q].applied
    ensures Comparable(a, b) && Contiguous(a)
  {
    hide CoreInv, CommittedSeq, Run, Initial;
    var k := Reachable(cfg, steps);
    var c := Run(Initial(cfg), steps);
    assert ProcOk(c, k, p) && ProcOk(c, k, q);
    CommittedSeqsComparable(k, a, b);
    CommittedSeqNumbered(k, a);
  }

  /** What an incarnation has applied is never withdrawn. */
  lemma {:induction false} AppliedOnlyExtends(c: System, steps: seq<Step>, p: NodeID, x: nat)
    requires p in c.procs && x < |c.procs[p].applied|
    ensures p in Run(c, steps).procs && x < |Run(c, steps).procs[p].applied|
    ensures c.procs[p].applied[x] <= Run(c, steps).procs[p].applied[x]
    decreases |steps|
  {
    if steps != [] {
      AppliedOnlyExtends(c, steps[..|steps| - 1], p, x);
      StepExtends(Run(c, steps[..|steps| - 1]), steps[|steps| - 1], p, x);
    }
  }

  lemma StepExtends(c: System, step: Step, p: NodeID, x: nat)
    requires p in c.procs && x < |c.procs[p].applied|
    ensures p in Exec(c, step).procs && x < |Exec(c, step).procs[p].applied|
    ensures c.procs[p].applied[x] <= Exec(c, step).procs[p].applied[x]
  {
    hide Handle, NewNode, ReadyOf, Advance, TakeReady, Save, BatchRecords, ApplyRecords;
  }

  // ----- Election Safety -----

  lemma AppendFromLeaderOf(k: Core, m: Message)
    requires MsgOk(k, m) && m.body.AppendEntries?
    ensures m.body.appendTerm == m.term && m.term in k.h.elections && m.from == k.h.elections[m.term].leader
  {}

  /** At most one node ever emits AppendEntries in a term. */
  lemma ElectionSafety(cfg: Config, steps: seq<Step>, m: Message, n: Message)
    requires ValidCluster(cfg)
    requires var net := Run(Initial(cfg), steps).net; m in net && n in net
    requires m.body.AppendEntries? && n.body.AppendEntries? && m.body.appendTerm == n.body.appendTerm
    ensures m.from == n.from
  {
    hide CoreInv, MsgOk, ProcOk, Run, Initial;
    var k := Reachable(cfg, steps);
    AppendFromLeaderOf(k, m);
    AppendFromLeaderOf(k, n);
  }

  /** No two processes lead the same term at once. */
  lemma OneLivingLeader(cfg: Config, steps: seq<Step>, p: NodeID, q: NodeID)
    requires ValidCluster(cfg)
    requires var c := Run(Initial(cfg), steps);
      && p in c.procs && c.procs[p].live.Some? && c.procs[p].live.value.role == Leader
      && q in c.procs && c.procs[q].live.Some? && c.procs[q].live.value.role == Leader
      && c.procs[p].live.value.hard.term == c.procs[q].live.value.hard.term
    ensures p == q
  {
    hide Inv, CoreInv, NodeOk, Run, Initial;
    var k := Reachable(cfg, steps);
    var c := Run(Initial(cfg), steps);
    RunningFacts(c, k, p, c.procs[p].live.value);
    RunningFacts(c, k, q, c.procs[q].live.value);
    NodeDisk(k, c.procs[p].live.value);
    NodeDisk(k, c.procs[q].live.value);
  }

  // ----- Log Matching -----

  /** Two stored logs that agree on the term at an index are identical through that index. */
  lemma LogMatching(cfg: Config, steps: seq<Step>, p: NodeID, q: NodeID, i: nat)
    requires ValidCluster(cfg)
    requires var c := Run(Initial(cfg), steps);
      && p in c.procs && q in c.procs && i < |c.procs[p].disk.log| && i < |c.procs[q].disk.log|
      && c.procs[p].disk.log[i].term == c.procs[q].disk.log[i].term
    ensures var c := Run(Initial(cfg), steps); c.procs[p].disk.log[..i + 1] == c.procs[q].disk.log[..i + 1]
  {
    hide Run, Initial, MsgOk, LiveOk, CommittedSeq;
    var k := Reachable(cfg, steps);
    var c := Run(Initial(cfg), steps);
    assert ProcOk(c, k, p) && ProcOk(c, k, q);
    StoredLogsMatch(k, p, q, i);
  }

  lemma StoredLogsMatch(k: Core, p: NodeID, q: NodeID, i: nat)
    requires CoreInv(k) && p in k.disk && q in k.disk
    requires i < |k.disk[p].log| && i < |k.disk[q].log| && k.disk[p].log[i].term == k.disk[q].log[i].term
    ensures k.disk[p].log[..i + 1] == k.disk[q].log[..i + 1]
  {
    assert GoodLog(k.h, k.disk[p].log) && GoodLog(k.h, k.disk[q].log);
    LogsMatch(k, k.disk[p].log, k.disk[q].log, i);
  }

  // ----- Leader Completeness -----

  /**
   Everything node p ever knew to be committed is in the log of every leader of a later term in
   the same run, also one that led and died before p knew; and of its own term from then on.
   */
  lemma CommittedReachesLeaders(cfg: Config, steps: seq<Step>, i: nat, j: nat, p: NodeID, q: NodeID)
    requires ValidCluster(cfg) && i <= |steps| && j <= |steps|
    requires var c := Run(Initial(cfg), steps[..i]); p in c.procs && c.procs[p].live.Some?
    requires var c := Run(Initial(cfg), steps[..j]); q in c.procs && c.procs[q].live.Some?
    requires var c, c' := Run(Initial(cfg), steps[..i]), Run(Initial(cfg), steps[..j]);
      var s, l := c.procs[p].live.value, c'.procs[q].live.value;
      l.role == Leader && (l.hard.term > s.hard.term || (l.hard.term == s.hard.term && i <= j))
    ensures var c, c' := Run(Initial(cfg), steps[..i]), Run(Initial(cfg), steps[..j]);
      var s, l := c.procs[p].live.value, c'.procs[q].live.value;
      s.commitIndex <= |s.log| && s.log[..s.commitIndex] <= l.log
  {
    hide Inv, CoreInv, NodeOk, Run, Initial, Grows, CommittedSeq;
    var s, l := Run(Initial(cfg), steps[..i]).procs[p].live.value, Run(Initial(cfg), steps[..j]).procs[q].live.value;
    if i <= j {
      var k, k' := TwoTimes(cfg, steps, i, j);
      RunningFacts(Run(Initial(cfg), steps[..i]), k, p, s);
      RunningFacts(Run(Initial(cfg), steps[..j]), k', q, l);
      CommittedInLaterLeader(k, k', s, l);
    } else {
      var k, k' := TwoTimes(cfg, steps, j, i);
      RunningFacts(Run(Initial(cfg), steps[..j]), k, q, l);
      RunningFacts(Run(Initial(cfg), steps[..i]), k', p, s);
      CommittedInEarlierLeader(k, k', l, s);
    }
  }

  /** The invariant at two times of one run, and what happened between only adds to the history. */
  lemma TwoTimes(cfg: Config, steps: seq<Step>, i: nat, j: nat) returns (k: Core, k': Core)
    requires ValidCluster(cfg) && i <= j <= |steps|
    ensures Inv(Run(Initial(cfg), steps[..i]), k) && Inv(Run(Initial(cfg), steps[..j]), k')
    ensures k'.peers == k.peers && Grows(k.h, k'.h)
  {
    hide Inv, Run, Initial, Grows;
    k := Reachable(cfg, steps[..i]);
    k' := RunOk(Run(Initial(cfg), steps[..i]), k, steps[i..j]);
    RunConcat(Initial(cfg), steps[..i], steps[i..j]);
    assert steps[..i] + steps[i..j] == steps[..j];
  }

  /** A leader whose term is later held the entry from its election on. */
  lemma CommittedInEarlierLeader(k: Core, k': Core, l: NodeState, s: NodeState)
    requires CoreInv(k) && NodeOk(k, l) && l.role == Leader && CoreInv(k') && NodeOk(k', s) && Grows(k.h, k'.h)
    requires l.hard.term > s.hard.term
    ensures s.commitIndex <= |s.log| && s.log[..s.commitIndex] <= l.log
  {
    hide CoreInv, NodeOk, Committed, CommittedUpTo;
    NodeCommitted(k', s);
    if s.commitIndex > 0 {
      var t, i := CommittedWitness(k', s.log, s.commitIndex, s.hard.term);
      LeaderHolds(k, l);
      StartedWith(k, l);
      assert l.hard.term in k'.h.elections && k'.h.elections[l.hard.term] == k.h.elections[l.hard.term];
      LeaderCompleteness(k', t, i, l.hard.term);
    }
  }

  lemma StartedWith(k: Core, l: NodeState)
    requires CoreInv(k) && Leading(k, l)
    ensures l.hard.term in k.h.elections && k.h.elections[l.hard.term].log <= l.log
  {
    hide NodeOk;
    assert LeaderLogOk(k, l.hard.term);
  }

  lemma CommittedInLaterLeader(k: Core, k': Core, s: NodeState, l: NodeState)
    requires NodeOk(k, s) && CoreInv(k') && NodeOk(k', l) && k'.peers == k.peers && Grows(k.h, k'.h)
    requires l.role == Leader && l.hard.term >= s.hard.term
    ensures s.commitIndex <= |s.log| && s.log[..s.commitIndex] <= l.log
  {
    hide CoreInv, NodeOk, Committed, CommittedUpTo, Grows;
    NodeCommitted(k, s);
    if s.commitIndex > 0 {
      var t, i := CommittedWitness(k, s.log, s.commitIndex, s.hard.term);
      CommittedGrows(k, k', t, i);
      LogGrows(k, k', t);
      LeaderHolds(k', l);
      hide Leading;
      CommittedHeldByLeader(k', t, i, l);
    }
  }

  lemma NodeCommitted(k: Core, s: NodeState)
    requires NodeOk(k, s)
    ensures s.commitIndex <= |s.log| && CommittedUpTo(k, s.log, s.commitIndex, s.hard.term)
  {}

  lemma LogGrows(k: Core, k': Core, t: nat)
    requires Grows(k.h, k'.h) && t in k.h.logs
    ensures t in k'.h.logs && Agree(k.h.logs[t], k'.h.logs[t], |k.h.logs[t]|)
  {}

  lemma CommittedHeldByLeader(k: Core, t: nat, i: nat, l: NodeState)
    requires CoreInv(k) && Committed(k, t, i) && t <= l.hard.term && Leading(k, l)
    ensures Agree(k.h.logs[t], l.log, i)
  {
    assert l.hard.term in k.h.elections;
    hide NodeOk;
    if t < l.hard.term {
      LeaderCompleteness(k, t, i, l.hard.term);
      assert LeaderLogOk(k, l.hard.term);
    }
  }

  // ----- Proposals -----

  /** What a leader's proposal leaves in memory: one entry more, same leader and term. */
  lemma ProposalAppends(s: NodeState, data: seq<Byte>)
    requires s.role == Leader
    ensures var s' := Advance(TakeReady(Handle(s, Propose(data))));
      s'.role == Leader && s'.hard == s.hard && |s'.log| == |s.log| + 1 && s'.log[..|s.log|] == s.log
  {
    hide BroadcastUpTo, AdvanceCommit;
    var s1 := AppendLocal(s, Normal, data);
    CommitKeepsLog(s1);
    var s2 := AdvanceCommit(s1);
    BroadcastRole(s2, |s2.cfg.peers|, false, true);
    P.BroadcastStores(s2, |s2.cfg.peers|, false, true);
  }

  lemma CommitKeepsLog(s: NodeState)
    ensures var s' := AdvanceCommit(s); s'.log == s.log && s'.role == s.role && s'.hard == s.hard && s'.cfg == s.cfg
  {}

  /**
   A proposal is promised the position after the leader's log, in its term. No other proposal of
   any incarnation is promised the same index and term, so one waiter at most registers there.
   */
  lemma ProposalsDistinct(cfg: Config, steps: seq<Step>, i: nat, j: nat, p: NodeID, q: NodeID, data: seq<Byte>)
    requires ValidCluster(cfg) && i < j <= |steps| && steps[i] == Drive(p, Propose(data), Done)
    requires var c := Run(Initial(cfg), steps[..i]);
      p in c.procs && c.procs[p].live.Some? && c.procs[p].live.value.role == Leader
    requires var c := Run(Initial(cfg), steps[..j]);
      q in c.procs && c.procs[q].live.Some? && c.procs[q].live.value.role == Leader
    ensures var c, c' := Run(Initial(cfg), steps[..i]), Run(Initial(cfg), steps[..j]);
      var s, l := c.procs[p].live.value, c'.procs[q].live.value;
      l.hard.term == s.hard.term ==> p == q && |l.log| + 1 > |s.log| + 1
  {
    hide Inv, CoreInv, NodeOk, Run, Initial, Grows, CommittedSeq, Handle, Advance, TakeReady, ReadyOf;
    var c := Run(Initial(cfg), steps[..i]);
    var s, l := c.procs[p].live.value, Run(Initial(cfg), steps[..j]).procs[q].live.value;
    RunStep(Initial(cfg), steps, i);
    var s1 := Advance(TakeReady(Handle(s, Propose(data))));
    ProposalAppends(s, data);
    var k, k' := TwoTimes(cfg, steps, i + 1, j);
    RunningFacts(Run(Initial(cfg), steps[..i + 1]), k, p, s1);
    RunningFacts(Run(Initial(cfg), steps[..j]), k', q, l);
    if l.hard.term == s.hard.term { LeadersLogGrows(k, k', s1, l); }
  }

  lemma RunStep(c: System, steps: seq<Step>, i: nat)
    requires i < |steps|
    ensures Run(c, steps[..i + 1]) == Exec(Run(c, steps[..i]), steps[i])
  {
    hide Exec;
    assert steps[..i + 1][..i] == steps[..i];
  }

  lemma LeadersLogGrows(k: Core, k': Core, s: NodeState, l: NodeState)
    requires CoreInv(k) && NodeOk(k, s) && s.role == Leader && CoreInv(k') && NodeOk(k', l) && l.role == Leader
    requires s.hard.term == l.hard.term && Grows(k.h, k'.h)
    ensures s.cfg.id == l.cfg.id && |l.log| >= |s.log|
  {
    hide CoreInv, NodeOk;
    LeaderHolds(k, s);
    LeaderHolds(k', l);
    LogGrows(k, k', s.hard.term);
    NodeDisk(k, s);
    NodeDisk(k', l);
  }

  // ----- Commit index -----

  /** Within an incarnation the commit index never moves back and what it covers never changes. */
  lemma CommitNeverRetracted(cfg: Config, steps: seq<Step>, p: NodeID, input: Input)
    requires ValidCluster(cfg)
    requires var c := Run(Initial(cfg), steps); Enabled(c, Drive(p, input, Done))
    ensures var s := Run(Initial(cfg), steps).procs[p].live.value; var s' := Handle(s, input);
      && s.commitIndex <= s'.commitIndex <= |s'.log| && s.commitIndex <= |s.log|
      && s.log[..s.commitIndex] == s'.log[..s.commitIndex]
      && s.commitIndex < s'.unstableIndex
  {
    hide Inv, CoreInv, NodeOk, Run, Initial, Grows, MsgOk, Handle, ProcOk, P.Unsaved;
    var c := Run(Initial(cfg), steps);
    var k := Reachable(cfg, steps);
    var s := c.procs[p].live.value;
    var s' := Handle(s, input);
    RunningFacts(c, k, p, s);
    if input.Receive? { NetOk(c, k, input.m); }
    P.HandleUnsaved(s, c.procs[p].disk, input);
    var st := HandleStages(k, s, input);
    AppliedStays(k, st.full, s, s');
    var n := s.commitIndex;
    assert s'.log[..n] == (s.log[..n] + s'.log[n..s'.commitIndex])[..n];
    CutAboveCommit(s, s', c.procs[p].disk);
  }

  lemma NetOk(c: System, k: Core, m: Message)
    requires Inv(c, k) && m in c.net
    ensures MsgOk(k, m)
  {}

  /** Nothing at or below the commit index is rewritten: the log only diverges from the disk above it. */
  lemma CutAboveCommit(s: NodeState, s': NodeState, d: Durable)
    requires P.Synced(s, d) && P.Unsaved(s', d)
    requires s.commitIndex <= |s.log| && s.commitIndex <= |s'.log| && s.log[..s.commitIndex] == s'.log[..s.commitIndex]
    ensures s.commitIndex < s'.unstableIndex
  {
    var u, n := s'.unstableIndex, s.commitIndex;
    assert forall i :: 0 <= i < n ==> s.log[..n][i] == s'.log[..n][i];
  }

  /** No request ever announces a commit index beyond the entries it vouches for. */
  lemma LeaderCommitCovered(cfg: Config, steps: seq<Step>, m: Message)
    requires ValidCluster(cfg) && m in Run(Initial(cfg), steps).net && m.body.AppendEntries?
    ensures m.body.leaderCommit <= m.body.prevLogIndex + |m.body.entries|
  {
    hide Inv, Run, Initial;
    var k := Reachable(cfg, steps);
    NetOk(Run(Initial(cfg), steps), k, m);
  }

  // ----- Storage -----

  /** Between cycles the storage holds exactly the node's hard state and log, and the
      incarnation has applied exactly its committed prefix. */
  lemma IncrementalPersistence(cfg: Config, steps: seq<Step>, p: NodeID)
    requires ValidCluster(cfg)
    requires var c := Run(Initial(cfg), steps); p in c.procs && c.procs[p].live.Some?
    ensures var pr := Run(Initial(cfg), steps).procs[p]; var s := pr.live.value;
      && pr.disk == Durable(s.hard, s.log) && ReadyOf(s) == Ready(None, [], [], [])
      && s.commitIndex <= |s.log|
      && pr.applied != [] && pr.applied[|pr.applied| - 1] == s.log[..s.commitIndex] && Contiguous(s.log)
  {
    hide Inv, Run, Initial, NodeOk, CoreInv;
    var k := Reachable(cfg, steps);
    var c := Run(Initial(cfg), steps);
    RunningFacts(c, k, p, c.procs[p].live.value);
  }

  /** Whatever part of a batch survives a torn Save, the disk still holds everything the node
      knew to be committed, and no stored entry is newer than the stored term. */
  lemma TornSaveTolerated(cfg: Config, steps: seq<Step>, p: NodeID, input: Input, records: nat)
    requires ValidCluster(cfg)
    requires var c := Run(Initial(cfg), steps); Enabled(c, Drive(p, input, TornSave(records)))
    ensures var c := Run(Initial(cfg), steps);
      var s := c.procs[p].live.value;
      var c' := Exec(c, Drive(p, input, TornSave(records)));
      && p in c'.procs && c'.procs[p].live == None && c'.net == c.net
      && s.commitIndex <= |s.log| && s.log[..s.commitIndex] <= c'.procs[p].disk.log
      && c'.procs[p].disk.hard.term >= s.hard.term
      && forall e :: e in c'.procs[p].disk.log ==> e.term <= c'.procs[p].disk.hard.term
  {
    var c := Run(Initial(cfg), steps);
    var step := Drive(p, input, TornSave(records));
    var c' := Exec(c, step);
    assert c'.procs[p].live == None && c'.net == c.net by { hide *; TornStops(c, p, input, records); }
    hide Inv, CoreInv, NodeOk, Run, Initial, Handle, Exec, ApplyRecords, BatchRecords, ReadyOf, P.Unsaved;
    var s, d := c.procs[p].live.value, c.procs[p].disk;
    var s' := Handle(s, input);
    CommitNeverRetracted(cfg, steps, p, input);
    var k := Reachable(cfg, steps);
    RunningFacts(c, k, p, s);
    P.HandleUnsaved(s, d, input);
    UnsavedBounds(s', d);
    var rd := ReadyOf(s');
    var t := P.TornSaveCases(s', d, Min(records, |BatchRecords(d, rd.hardState, rd.entries)|));
    TornStops(c, p, input, records);
    HandleTerm(s, input);
    assert c'.procs[p].disk == P.TornDisk(s', d, t);
    var k' := StepOk(c, k, step);
    StoredTerms(c', k', p);
  }

  lemma TornStops(c: System, p: NodeID, input: Input, records: nat)
    requires Enabled(c, Drive(p, input, TornSave(records)))
    ensures var c' := Exec(c, Drive(p, input, TornSave(records)));
      var s := Handle(c.procs[p].live.value, input);
      var rd := ReadyOf(s);
      var batch := BatchRecords(c.procs[p].disk, rd.hardState, rd.entries);
      && p in c'.procs && c'.procs[p].live == None && c'.net == c.net
      && c'.procs[p].disk == ApplyRecords(c.procs[p].disk, batch[..Min(records, |batch|)])
  {
    hide Handle, ReadyOf, BatchRecords, ApplyRecords;
  }

  lemma StoredTerms(c: System, k: Core, p: NodeID)
    requires Inv(c, k) && p in c.procs
    ensures forall e :: e in c.procs[p].disk.log ==> e.term <= c.procs[p].disk.hard.term
  {
    assert ProcOk(c, k, p);
    assert TermsBelow(k.disk[p].log, k.disk[p].hard.term + 1);
  }

  // ----- Terms and roles -----

  /** The term never decreases, and a node campaigns or leads only in a term it entered itself. */
  ghost predicate EntersTerm(s: NodeState, s': NodeState) {
    && s'.hard.term >= s.hard.term
    && (s'.role != Follower ==> s'.hard.term > s.hard.term || s.role != Follower)
  }

  lemma {:induction false} BroadcastRole(s: NodeState, k: nat, probe: bool, onlyIdle: bool)
    requires k <= |s.cfg.peers|
    ensures var s' := BroadcastUpTo(s, k, probe, onlyIdle); s'.hard == s.hard && s'.role == s.role
  {
    if k > 0 { BroadcastRole(s, k - 1, probe, onlyIdle); }
  }

  lemma {:induction false} RequestVotesRole(s: NodeState, k: nat)
    requires k <= |s.cfg.peers|
    ensures var s' := RequestVotesUpTo(s, k); s'.hard == s.hard && s'.role == s.role
  {
    if k > 0 { RequestVotesRole(s, k - 1); }
  }

  lemma BecomeLeaderTerm(s: NodeState)
    ensures BecomeLeader(s).hard == s.hard
  {
    var s1 := AdvanceCommit(AppendLocal(ZeroProgress(s), Noop, []));
    BroadcastRole(s1, |s1.cfg.peers|, true, false);
  }

  lemma AppendRespRole(s: NodeState, m: Message)
    requires m.body.AppendEntriesResp?
    ensures var s' := HandleAppendEntriesResp(s, m); s'.hard == s.hard && s'.role == s.role
  {}

  lemma DispatchTerm(s: NodeState, m: Message)
    ensures EntersTerm(s, Dispatch(s, m))
  {
    match m.body
    case NoBody =>
    case RequestVote(_, _, _, _) =>
    case AppendEntries(_, _, _, _, _, _) =>
    case RequestVoteResp(_, _) =>
      hide BecomeLeader;
      BecomeLeaderTerm(s.(votes := s.votes + {m.from}));
    case AppendEntriesResp(_, _, _) =>
      hide HandleAppendEntriesResp;
      AppendRespRole(s, m);
  }

  lemma TickTerm(s: NodeState, draw: nat)
    ensures EntersTerm(s, TickNode(s, draw))
  {
    if s.role == Leader {
      BroadcastRole(s.(heartbeatElapsed := 0), |s.cfg.peers|, false, false);
    } else {
      hide BecomeLeader;
      var s1 := Campaign(s.(electionElapsed := s.electionElapsed + 1), draw);
      BecomeLeaderTerm(s1);
      RequestVotesRole(s1, |s1.cfg.peers|);
    }
  }

  lemma HandleTerm(s: NodeState, input: Input)
    ensures EntersTerm(s, Handle(s, input))
  {
    match input
    case Tick(draw) =>
      hide TickNode;
      TickTerm(s, draw);
    case Receive(m, draw) =>
      hide Dispatch;
      DispatchTerm(s, m);
      DispatchTerm(BecomeFollower(s, MessageTerm(m), draw), m);
    case Propose(data) =>
      hide BroadcastUpTo;
      var s1 := AdvanceCommit(AppendLocal(s, Normal, data));
      BroadcastRole(s1, |s1.cfg.peers|, false, true);
  }

  /** Process p is past incarnation n and term t: a later incarnation only leads later terms. */
  ghost predicate PastTerm(c: System, p: NodeID, n: nat, t: nat) {
    && p in c.procs && c.procs[p].disk.hard.term >= t && |c.procs[p].applied| >= n
    && (c.procs[p].live.Some? && |c.procs[p].applied| > n && c.procs[p].live.value.role != Follower
        ==> c.procs[p].live.value.hard.term > t)
  }

  lemma DriveKeepsPast(c: System, k: Core, p: NodeID, input: Input, out: Outcome, n: nat, t: nat)
    requires Inv(c, k) && PastTerm(c, p, n, t) && Enabled(c, Drive(p, input, out))
    ensures PastTerm(Exec(c, Drive(p, input, out)), p, n, t)
  {
    hide Inv, CoreInv, NodeOk, Handle, ApplyRecords, BatchRecords, ReadyOf, Save, P.Unsaved, Advance, TakeReady,
      Deliver;
    var s, d := c.procs[p].live.value, c.procs[p].disk;
    var s' := Handle(s, input);
    RunningFacts(c, k, p, s);
    HandleTerm(s, input);
    P.HandleUnsaved(s, d, input);
    P.SaveAgrees(s', d);
    UnsavedBounds(s', d);
    DeliverLength(c.procs[p].applied, ReadyOf(s').committed);
    match out
    case Done => P.AdvanceSyncs(s', d);
    case TornSave(records) =>
      var rd := ReadyOf(s');
      var torn := P.TornSaveCases(s', d, Min(records, |BatchRecords(d, rd.hardState, rd.entries)|));
    case Died(sent, applied) =>
      DeliverLength(c.procs[p].applied, []);
      DeliverLength(c.procs[p].applied, ReadyOf(s').committed[..Min(applied, |ReadyOf(s').committed|)]);
  }

  lemma DeliverLength(applied: seq<seq<Entry>>, entries: seq<Entry>)
    ensures |Deliver(applied, entries)| == |applied|
  {}

  lemma StepKeepsPast(c: System, k: Core, step: Step, p: NodeID, n: nat, t: nat)
    requires Inv(c, k) && PastTerm(c, p, n, t)
    ensures PastTerm(Exec(c, step), p, n, t)
  {
    hide Inv, Finish, Sent, Handle;
    if step.Drive? && step.id == p && Enabled(c, step) {
      hide Exec;
      DriveKeepsPast(c, k, p, step.input, step.outcome, n, t);
    }
  }

  lemma {:induction false} RunKeepsPast(c: System, k: Core, steps: seq<Step>, p: NodeID, n: nat, t: nat)
    requires Inv(c, k) && PastTerm(c, p, n, t)
    ensures PastTerm(Run(c, steps), p, n, t)
    decreases |steps|
  {
    hide Inv, Grows, Exec, PastTerm;
    if steps != [] {
      var before, step := steps[..|steps| - 1], steps[|steps| - 1];
      RunKeepsPast(c, k, before, p, n, t);
      var k1 := RunOk(c, k, before);
      StepKeepsPast(Run(c, before), k1, step, p, n, t);
    }
  }

  /** No node leads the same term in two incarnations. */
  lemma OneIncarnationLeads(cfg: Config, past: seq<Step>, more: seq<Step>, p: NodeID)
    requires ValidCluster(cfg)
    requires var c := Run(Initial(cfg), past);
      p in c.procs && c.procs[p].live.Some? && c.procs[p].live.value.role == Leader
    requires var c' := Run(Initial(cfg), past + more);
      p in c'.procs && c'.procs[p].live.Some? && c'.procs[p].live.value.role == Leader
    requires |Run(Initial(cfg), past).procs[p].applied| < |Run(Initial(cfg), past + more).procs[p].applied|
    ensures var c, c' := Run(Initial(cfg), past), Run(Initial(cfg), past + more);
      c.procs[p].live.value.hard.term < c'.procs[p].live.value.hard.term
  {
    hide Inv, CoreInv, NodeOk, Run, Initial;
    var k := Reachable(cfg, past);
    var c := Run(Initial(cfg), past);
    RunningFacts(c, k, p, c.procs[p].live.value);
    RunConcat(Initial(cfg), past, more);
    RunKeepsPast(c, k, more, p, |c.procs[p].applied|, c.procs[p].live.value.hard.term);
  }
}
