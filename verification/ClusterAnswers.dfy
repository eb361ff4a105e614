/**
 How a node of a running cluster answers: when exactly a vote is granted, when exactly entries
 are accepted and what the log then holds, and what a proposal leaves on disk.
 */
module ClusterAnswers {
  import opened RaftTypes
  import opened RaftSpec
  import opened Storage
  import opened Cluster
  import opened RaftHistory
  import opened RaftVolatile
  import opened RaftHandlers
  import opened ClusterInvariant
  import opened ClusterDuties
  import D = RaftDuties
  import S = ClusterSafety
  import P = Persistence

  /** The node's state between two cycles: everything stored, sent and applied. */
  ghost function AtRest(s: NodeState): NodeState {
    s.(messages := [], hardStateDirty := false, unstableIndex := |s.log| + 1, lastApplied := s.commitIndex,
       ack := NO_ACK)
  }

  /** A completed cycle stores and sends exactly what handling the input left to store and send. */
  lemma CycleCompletes(c: System, k: Core, p: NodeID, input: Input)
    requires Inv(c, k) && Enabled(c, Drive(p, input, Done))
    ensures var c', s' := Exec(c, Drive(p, input, Done)), Handle(StateOf(c, p), input);
      && Live(c', p) && StateOf(c', p) == AtRest(s')
      && c'.procs == c.procs[p := c'.procs[p]]
      && c'.procs[p].disk == Durable(s'.hard, s'.log)
      && c'.net == c.net + MessageSet(s'.messages)
  {
    hide Inv, Handle, ReadyOf, Advance, TakeReady, Save, P.Unsaved, CoreInv, NodeOk, CommittedSeq;
    var s, d := StateOf(c, p), c.procs[p].disk;
    var s' := Handle(s, input);
    RunningFacts(c, k, p, s);
    P.HandleUnsaved(s, d, input);
    P.SaveAgrees(s', d);
    P.AdvanceSyncs(s', d);
    if input.Receive? { S.NetOk(c, k, input.m); }
    var st := HandleStages(k, s, input);
    CommittedWithin(st.full, s');
    UnsavedFacts(s', d);
    CommittedBatch(s');
    AdvanceFrame(s');
  }

  lemma CommittedWithin(k: Core, s: NodeState)
    requires NodeOk(k, s)
    ensures s.commitIndex <= |s.log|
  {}

  lemma UnsavedFacts(s: NodeState, d: Durable)
    requires P.Unsaved(s, d)
    ensures Contiguous(s.log) && s.ack == NO_ACK
  {}

  lemma AdvanceFrame(s: NodeState)
    ensures var s' := Advance(TakeReady(s));
      s' == s.(messages := s'.messages, hardStateDirty := s'.hardStateDirty, unstableIndex := s'.unstableIndex,
               lastApplied := s'.lastApplied, ack := NO_ACK)
  {}

  // ----- Votes -----

  /** A log ending in lastTerm at lastIndex is no older than `log`. */
  ghost predicate NotOlder(lastTerm: nat, lastIndex: nat, log: seq<Entry>) {
    var term := if log == [] then 0 else log[|log| - 1].term;
    lastTerm > term || (lastTerm == term && lastIndex >= |log|)
  }

  /**
   A vote is granted exactly when the candidate's term is new, or is the node's own and its vote
   is free or already the candidate's, and the candidate's log is not older. The vote is on disk
   before the answer is in the network; a refused candidate still raises the term. Granting and a
   new term restart the election timer, and nothing else here does.
   */
  lemma VoteAnswered(cfg: Config, steps: seq<Step>, p: NodeID, m: Message, draw: nat)
    requires ValidCluster(cfg) && Live(Run(Initial(cfg), steps), p)
    requires m in Run(Initial(cfg), steps).net && m.to == p && m.body.RequestVote?
    ensures var c := Run(Initial(cfg), steps);
      var s, c' := StateOf(c, p), Exec(c, Drive(p, Receive(m, draw), Done));
      var free := m.term > s.hard.term || (m.term == s.hard.term && s.hard.votedFor in {0, m.from});
      && Live(c', p) && c'.procs[p].disk.log == s.log
      && (free && NotOlder(m.body.lastLogTerm, m.body.lastLogIndex, s.log) ==>
            && c'.procs[p].disk.hard == HardState(m.term, m.from)
            && c'.net == c.net + {Message(p, m.from, m.term, RequestVoteResp(m.term, true))})
      && (!(free && NotOlder(m.body.lastLogTerm, m.body.lastLogIndex, s.log)) ==>
            var term := if m.term > s.hard.term then m.term else s.hard.term;
            && c'.procs[p].disk.hard == (if m.term > s.hard.term then HardState(m.term, 0) else s.hard)
            && c'.net == c.net + {Message(p, m.from, term, RequestVoteResp(term, false))})
      && (m.term > s.hard.term ==> StateOf(c', p).role == Follower)
      && StateOf(c', p).electionElapsed ==
           (if m.term > s.hard.term || (free && NotOlder(m.body.lastLogTerm, m.body.lastLogIndex, s.log)) then 0
            else s.electionElapsed)
  {
    hide Inv, Run, Initial, CoreInv, ProcOk;
    var c := Run(Initial(cfg), steps);
    var k := S.Reachable(cfg, steps);
    assert Enabled(c, Drive(p, Receive(m, draw), Done));
    S.NetOk(c, k, m);
    LiveConfigured(c, k, p);
    VoteHandled(k, StateOf(c, p), m, draw);
    hide Handle, MsgOk, NotOlder, Exec;
    CycleCompletes(c, k, p, Receive(m, draw));
  }

  lemma VoteHandled(k: Core, s: NodeState, m: Message, draw: nat)
    requires m.body.RequestVote? && MsgOk(k, m) && s.messages == []
    ensures var s' := Handle(s, Receive(m, draw));
      var free := m.term > s.hard.term || (m.term == s.hard.term && s.hard.votedFor in {0, m.from});
      && s'.log == s.log
      && (free && NotOlder(m.body.lastLogTerm, m.body.lastLogIndex, s.log) ==>
            && s'.hard == HardState(m.term, m.from)
            && MessageSet(s'.messages) == {Message(s.cfg.id, m.from, m.term, RequestVoteResp(m.term, true))})
      && (!(free && NotOlder(m.body.lastLogTerm, m.body.lastLogIndex, s.log)) ==>
            var term := if m.term > s.hard.term then m.term else s.hard.term;
            && s'.hard == (if m.term > s.hard.term then HardState(m.term, 0) else s.hard)
            && MessageSet(s'.messages) == {Message(s.cfg.id, m.from, term, RequestVoteResp(term, false))})
      && (m.term > s.hard.term ==> s'.role == Follower)
      && s'.electionElapsed ==
           (if m.term > s.hard.term || (free && NotOlder(m.body.lastLogTerm, m.body.lastLogIndex, s.log)) then 0
            else s.electionElapsed)
  {
    hide HandleAppendEntries, HandleRequestVoteResp, HandleAppendEntriesResp, TickNode, ProposeData, MessageSet;
    var s1 := if m.term > s.hard.term then BecomeFollower(s, m.term, draw) else s;
    OneReply(s, m.from, RequestVoteResp(s.hard.term, false));
    OneReply(CastVote(s1, m.body), m.from, RequestVoteResp(s1.hard.term, Grants(s1, m.body)));
  }

  lemma OneReply(s: NodeState, to: NodeID, body: Body)
    requires s.messages == []
    ensures MessageSet(Reply(s, to, body).messages) == {Message(s.cfg.id, to, s.hard.term, body)}
  {}

  /**
   A candidate counts a vote granted in its term by a peer, once for each peer, and leads exactly
   when the votes are then a majority. Any other answer to a request for votes changes nothing.
   */
  lemma VoteCounted(cfg: Config, steps: seq<Step>, p: NodeID, m: Message, draw: nat)
    requires ValidCluster(cfg) && Live(Run(Initial(cfg), steps), p)
    requires m in Run(Initial(cfg), steps).net && m.to == p && m.body.RequestVoteResp?
    requires m.term <= StateOf(Run(Initial(cfg), steps), p).hard.term
    ensures var c := Run(Initial(cfg), steps);
      var s, c' := StateOf(c, p), Exec(c, Drive(p, Receive(m, draw), Done));
      && Live(c', p) && var s' := StateOf(c', p);
      && if s.role == Candidate && m.term == s.hard.term && m.body.granted && m.from in cfg.peers then
           && s'.hard == s.hard
           && if 2 * |s.votes + {m.from}| > |cfg.peers| then s'.role == Leader
              else s'.role == Candidate && s'.votes == s.votes + {m.from} && s'.log == s.log && c'.net == c.net
         else s' == s && c'.net == c.net
  {
    hide Inv, Run, Initial, Exec, Handle, MsgOk, CoreInv, NodeOk, CommittedSeq, D.Diligent, D.Configured;
    var c := Run(Initial(cfg), steps);
    var k := S.Reachable(cfg, steps);
    var s := StateOf(c, p);
    assert Enabled(c, Drive(p, Receive(m, draw), Done));
    S.NetOk(c, k, m);
    VoteRespTerm(k, m);
    LiveFacts(cfg, steps, p);
    RunningFacts(c, k, p, s);
    CountHandled(s, m, draw);
    CycleCompletes(c, k, p, Receive(m, draw));
  }

  lemma VoteRespTerm(k: Core, m: Message)
    requires MsgOk(k, m) && m.body.RequestVoteResp?
    ensures m.body.voteRespTerm == m.term
  {}

  lemma CountHandled(s: NodeState, m: Message, draw: nat)
    requires s.messages == [] && m.body.RequestVoteResp? && m.body.voteRespTerm == m.term <= s.hard.term
    ensures var s' := Handle(s, Receive(m, draw));
      if s.role == Candidate && m.term == s.hard.term && m.body.granted && m.from in s.cfg.peers then
        && s'.hard == s.hard
        && if 2 * |s.votes + {m.from}| > |s.cfg.peers| then s'.role == Leader
           else s' == s.(votes := s.votes + {m.from}) && MessageSet(s'.messages) == {}
      else s' == s && MessageSet(s'.messages) == {}
  {
    hide BecomeLeader;
    LeaderBegins(s.(votes := s.votes + {m.from}));
  }

  // ----- Beginning to lead -----

  /** Among the first k peers, those without an open request got one. */
  ghost predicate Opened(s: NodeState, s': NodeState, k: nat, probe: bool)
    requires k <= |s.cfg.peers|
  {
    && D.SameProgress(s, s')
    && (forall q :: q !in s'.inflight ==> Get(s'.nextIndex, q) == Get(s.nextIndex, q))
    && (forall q :: q in s'.inflight && q !in s.inflight ==> s'.inflight[q] == NewInflight(s, ClampNext(s, q), probe))
    && forall j :: 0 <= j < k && s.cfg.peers[j] != s.cfg.id ==> s.cfg.peers[j] in s'.inflight
  }

  /** A broadcast opens a fresh request to every idle peer, with the current commit index. */
  lemma {:induction false} BroadcastOpens(s: NodeState, k: nat, probe: bool)
    requires k <= |s.cfg.peers|
    ensures Opened(s, BroadcastUpTo(s, k, probe, false), k, probe)
  {
    if k > 0 {
      BroadcastOpens(s, k - 1, probe);
      hide SendAppend, Opened;
      OpenOne(s, BroadcastUpTo(s, k - 1, probe, false), k, probe);
    }
  }

  lemma OpenOne(s: NodeState, s1: NodeState, k: nat, probe: bool)
    requires 1 <= k <= |s.cfg.peers| && Opened(s, s1, k - 1, probe)
    ensures var peer := s.cfg.peers[k - 1];
      Opened(s, if peer == s.cfg.id then s1 else SendAppend(s1, peer, probe), k, probe)
  {
    hide SendAppend;
    var peer := s.cfg.peers[k - 1];
    EmitFrame(s1, peer, probe);
    assert peer !in s1.inflight ==> ClampNext(s1, peer) == ClampNext(s, peer);
  }

  lemma EmitFrame(s: NodeState, peer: NodeID, probe: bool)
    ensures var s' := SendAppend(s, peer, probe);
      && D.SameProgress(s, s')
      && (peer in s.inflight ==> s'.inflight == s.inflight && s'.nextIndex == s.nextIndex)
      && (peer !in s.inflight ==>
            && s'.inflight == s.inflight[peer := NewInflight(s, ClampNext(s, peer), probe)]
            && s'.nextIndex == s.nextIndex[peer := ClampNext(s, peer)])
  {}

  /** A new leader stores an empty entry of its term after its log and probes every peer at the old end. */
  lemma LeaderBegins(s: NodeState)
    ensures var s' := BecomeLeader(s);
      && s'.role == Leader && s'.hard == s.hard && s'.cfg == s.cfg
      && s'.log == s.log + [Entry(|s.log| + 1, s.hard.term, Noop, [])]
      && forall q :: q in s.cfg.peers && q != s.cfg.id ==>
           q in s'.inflight && s'.inflight[q] == Inflight(|s.log|, LastTerm(s.log), |s.log|, s'.commitIndex, false)
  {
    hide BroadcastUpTo, ScanCommit;
    var s1 := AppendLocal(ZeroProgress(s), Noop, []);
    S.CommitKeepsLog(s1);
    var s2 := AdvanceCommit(s1);
    S.BroadcastRole(s2, |s2.cfg.peers|, true, false);
    P.BroadcastStores(s2, |s2.cfg.peers|, true, false);
    BroadcastOpens(s2, |s2.cfg.peers|, true);
  }

  /**
   Whatever makes a node leader, its log is then the one it campaigned with and an empty entry of
   its term, and every other peer is sent a request without entries that asks for the old end.
   */
  lemma LeadershipStored(cfg: Config, steps: seq<Step>, p: NodeID, input: Input)
    requires ValidCluster(cfg) && Enabled(Run(Initial(cfg), steps), Drive(p, input, Done))
    requires var c := Run(Initial(cfg), steps);
      var c' := Exec(c, Drive(p, input, Done));
      StateOf(c, p).role != Leader && Live(c', p) && StateOf(c', p).role == Leader
    ensures var c := Run(Initial(cfg), steps);
      var s, c' := StateOf(c, p), Exec(c, Drive(p, input, Done));
      && c'.procs[p].disk.log == s.log + [Entry(|s.log| + 1, c'.procs[p].disk.hard.term, Noop, [])]
      && c'.procs[p].disk.hard.votedFor == p
      && var term, commit := c'.procs[p].disk.hard.term, StateOf(c', p).commitIndex;
      && var lastTerm := if s.log == [] then 0 else s.log[|s.log| - 1].term;
      && forall q :: q in cfg.peers && q != p ==>
           Message(p, q, term, AppendEntries(term, p, |s.log|, lastTerm, [], commit)) in c'.net
  {
    hide Inv, Run, Initial, Exec, Handle, CoreInv, CommittedSeq, MsgOk, CommittedUpTo, D.Diligent, D.Configured;
    var c := Run(Initial(cfg), steps);
    var k := S.Reachable(cfg, steps);
    var s, c' := StateOf(c, p), Exec(c, Drive(p, input, Done));
    RunningFacts(c, k, p, s);
    LiveFacts(cfg, steps, p);
    CycleCompletes(c, k, p, input);
    BecomesLeader(s, input);
    DutiesKept(cfg, steps);
    DriveDiligent(c, k, p, input, Done);
    ProbesSent(StateOf(c', p), s.log, c'.net);
  }

  /** The open requests of a new leader were really sent. */
  lemma ProbesSent(s: NodeState, log: seq<Entry>, net: set<Message>)
    requires D.Diligent(s, net) && s.role == Leader && log <= s.log
    requires forall q :: q in s.cfg.peers && q != s.cfg.id ==>
      q in s.inflight && s.inflight[q] == Inflight(|log|, LastTerm(log), |log|, s.commitIndex, false)
    ensures forall q :: q in s.cfg.peers && q != s.cfg.id ==>
      var probe := AppendEntries(s.hard.term, s.cfg.id, |log|, LastTerm(log), [], s.commitIndex);
      Message(s.cfg.id, q, s.hard.term, probe) in net
  {
    hide D.NothingWaiting;
    forall q | q in s.cfg.peers && q != s.cfg.id
      ensures Message(s.cfg.id, q, s.hard.term,
                      AppendEntries(s.hard.term, s.cfg.id, |log|, LastTerm(log), [], s.commitIndex)) in net
    {
      assert D.Served(s, q, net);
      assert s.log[|log|..|log|] == [];
    }
  }

  ghost predicate Begun(s: NodeState, s': NodeState) {
    && s'.log == s.log + [Entry(|s.log| + 1, s'.hard.term, Noop, [])] && s'.hard.votedFor == s.cfg.id == s'.cfg.id
    && s'.cfg == s.cfg
    && forall q :: q in s.cfg.peers && q != s.cfg.id ==>
         q in s'.inflight && s'.inflight[q] == Inflight(|s.log|, LastTerm(s.log), |s.log|, s'.commitIndex, false)
  }

  lemma BecomesLeader(s: NodeState, input: Input)
    requires s.role != Leader && Handle(s, input).role == Leader
    requires s.role == Candidate ==> s.hard.votedFor == s.cfg.id
    ensures Begun(s, Handle(s, input))
  {
    hide BecomeLeader, RequestVotesUpTo, Dispatch;
    match input
    case Propose(_) => assert false;
    case Tick(draw) =>
      var s1 := Campaign(s.(electionElapsed := s.electionElapsed + 1), draw);
      LeaderBegins(s1);
      D.RequestsSent(s1, |s1.cfg.peers|);
    case Receive(m, draw) =>
      MessageElects(if MessageTerm(m) > s.hard.term then BecomeFollower(s, MessageTerm(m), draw) else s, m);
  }

  lemma MessageElects(s: NodeState, m: Message)
    requires s.role != Leader && (s.role == Candidate ==> s.hard.votedFor == s.cfg.id)
    ensures Dispatch(s, m).role == Leader ==> Begun(s, Dispatch(s, m))
  {
    hide BecomeLeader, HandleAppendEntries, HandleAppendEntriesResp, HandleRequestVote;
    if m.body.RequestVoteResp? { LeaderBegins(s.(votes := s.votes + {m.from})); }
    OnlyVotesElect(s, m);
  }

  lemma OnlyVotesElect(s: NodeState, m: Message)
    requires s.role != Leader
    ensures m.body.AppendEntries? ==> HandleAppendEntries(s, m).role == Follower
    ensures m.body.AppendEntriesResp? ==> HandleAppendEntriesResp(s, m) == s
    ensures m.body.RequestVote? ==> HandleRequestVote(s, m).role == s.role
  {
    hide FirstConflict;
  }

  // ----- Ticks -----

  /**
   A tick restarts nothing and tells nobody anything until a timer runs out. Then a leader sends
   every other peer a request, also one that is already open, and anyone else enters the next term
   and votes for itself.
   */
  lemma TickAnswered(cfg: Config, steps: seq<Step>, p: NodeID, draw: nat)
    requires ValidCluster(cfg) && Live(Run(Initial(cfg), steps), p)
    ensures var c := Run(Initial(cfg), steps);
      var s, c' := StateOf(c, p), Exec(c, Drive(p, Tick(draw), Done));
      && Live(c', p) && var s' := StateOf(c', p);
      && if s.role == Leader then
           && s'.role == Leader && s'.hard == s.hard && s'.log == s.log
           && if s.heartbeatElapsed + 1 < s.cfg.heartbeatTicks
              then s' == s.(heartbeatElapsed := s.heartbeatElapsed + 1) && c'.net == c.net
              else s'.heartbeatElapsed == 0 && forall q :: q in cfg.peers && q != p ==>
                     exists m :: m in Handle(s, Tick(draw)).messages && m.from == p && m.to == q && CarriesOn(s', q, m)
         else
           if s.electionElapsed + 1 < s.electionTimeout
           then s' == s.(electionElapsed := s.electionElapsed + 1) && c'.net == c.net
           else s'.hard == HardState(s.hard.term + 1, p) && s'.role != Follower && s'.electionElapsed == 0
  {
    hide Inv, Run, Initial, Exec, Handle, CoreInv, NodeOk, CommittedSeq;
    var c := Run(Initial(cfg), steps);
    var k := S.Reachable(cfg, steps);
    var s := StateOf(c, p);
    assert Enabled(c, Drive(p, Tick(draw), Done));
    LiveFacts(cfg, steps, p);
    RunningFacts(c, k, p, s);
    CycleCompletes(c, k, p, Tick(draw));
    if s.role == Leader { BeatHandled(s, draw, c.net); } else { TickHandled(s, draw); }
  }

  lemma TickHandled(s: NodeState, draw: nat)
    requires s.role != Leader && s.messages == []
    ensures var s' := Handle(s, Tick(draw));
      if s.electionElapsed + 1 < s.electionTimeout
      then s' == s.(electionElapsed := s.electionElapsed + 1) && MessageSet(s'.messages) == {}
      else s'.hard == HardState(s.hard.term + 1, s.cfg.id) && s'.role != Follower && s'.electionElapsed == 0
  {
    hide BecomeLeader, RequestVotesUpTo;
    var s1 := Campaign(s.(electionElapsed := s.electionElapsed + 1), draw);
    LeaderBegins(s1);
    LeaderTimers(s1);
    D.RequestsSent(s1, |s1.cfg.peers|);
  }

  lemma LeaderTimers(s: NodeState)
    ensures BecomeLeader(s).electionElapsed == s.electionElapsed
  {
    var s1 := AdvanceCommit(AppendLocal(ZeroProgress(s), Noop, []));
    BroadcastTimers(s1, |s1.cfg.peers|, true, false);
  }

  lemma {:induction false} BroadcastTimers(s: NodeState, k: nat, probe: bool, onlyIdle: bool)
    requires k <= |s.cfg.peers|
    ensures var s' := BroadcastUpTo(s, k, probe, onlyIdle);
      s'.electionElapsed == s.electionElapsed && s'.heartbeatElapsed == s.heartbeatElapsed
  {
    if k > 0 { BroadcastTimers(s, k - 1, probe, onlyIdle); }
  }

  lemma BeatHandled(s: NodeState, draw: nat, net: set<Message>)
    requires s.role == Leader && s.messages == [] && D.Leads(s, net)
    ensures var s' := Handle(s, Tick(draw));
      && s'.role == Leader && s'.hard == s.hard && s'.log == s.log
      && if s.heartbeatElapsed + 1 < s.cfg.heartbeatTicks
         then s' == s.(heartbeatElapsed := s.heartbeatElapsed + 1) && MessageSet(s'.messages) == {}
         else s'.heartbeatElapsed == 0 && forall q :: q in s.cfg.peers && q != s.cfg.id ==>
                exists m :: m in s'.messages && m.from == s.cfg.id && m.to == q && CarriesOn(s', q, m)
  {
    if s.heartbeatElapsed + 1 >= s.cfg.heartbeatTicks {
      hide BroadcastUpTo, D.NothingWaiting;
      var s1 := s.(heartbeatElapsed := 0);
      D.TimersAside(s, s1, net);
      assert s1.messages == [];
      BeatReaches(s1, |s1.cfg.peers|, net);
    }
  }

  /** Every peer reached so far was sent its open request in this broadcast. */
  ghost predicate ReachedUpTo(s: NodeState, s': NodeState, k: nat, net: set<Message>)
    requires k <= |s.cfg.peers|
  {
    && D.SameProgress(s, s') && D.AllTracked(s', net + MessageSet(s'.messages))
    && forall i :: 0 <= i < k && s.cfg.peers[i] != s.cfg.id ==> Reached(s', s.cfg.peers[i])
  }

  lemma {:induction false} BeatReaches(s: NodeState, k: nat, net: set<Message>)
    requires k <= |s.cfg.peers| && s.messages == [] && D.AllTracked(s, net)
    ensures ReachedUpTo(s, BroadcastUpTo(s, k, false, false), k, net)
  {
    if k == 0 {
      assert net + MessageSet(s.messages) == net;
    } else {
      BeatReaches(s, k - 1, net);
      hide SendAppend, ReachedUpTo;
      ReachOne(s, BroadcastUpTo(s, k - 1, false, false), k, net);
    }
  }

  lemma ReachOne(s: NodeState, s1: NodeState, k: nat, net: set<Message>)
    requires 1 <= k <= |s.cfg.peers| && ReachedUpTo(s, s1, k - 1, net)
    ensures var peer := s.cfg.peers[k - 1];
      ReachedUpTo(s, if peer == s.cfg.id then s1 else SendAppend(s1, peer, false), k, net)
  {
    hide SendAppend, D.Tracked, Reached;
    var peer := s.cfg.peers[k - 1];
    if peer != s.cfg.id {
      var s' := SendAppend(s1, peer, false);
      D.SendServes(s1, peer, false, net);
      SendReaches(s1, peer, net);
      forall q | q in s.cfg.peers && q != s.cfg.id && q != peer
        ensures D.Tracked(s', q, net + MessageSet(s'.messages)) && (Reached(s1, q) ==> Reached(s', q))
      {
        D.SendSpares(s1, peer, false, q, net);
        if Reached(s1, q) { StaysReached(s1, peer, q); }
      }
    }
  }

  /** Among the messages of this step is one that carries on the log for q. */
  ghost predicate Reached(s: NodeState, q: NodeID) {
    exists m :: m in s.messages && m.from == s.cfg.id && m.to == q && CarriesOn(s, q, m)
  }

  lemma SendReaches(s: NodeState, q: NodeID, net: set<Message>)
    requires D.Tracked(s, q, net + MessageSet(s.messages))
    ensures Reached(SendAppend(s, q, false), q)
  {
    D.SendServes(s, q, false, net);
    var s' := SendAppend(s, q, false);
    EmitsLast(s, q);
    hide SendAppend;
    var m, r := s'.messages[|s'.messages| - 1], s'.inflight[q];
    assert m in s'.messages;
    assert m.body.entries == s'.log[r.prevIndex..r.lastIndex];
    assert CarriesOn(s', q, m);
  }

  /** The last message sent is the open request. */
  lemma EmitsLast(s: NodeState, q: NodeID)
    ensures var s' := SendAppend(s, q, false);
      && q in s'.inflight && s'.messages != []
      && var r := s'.inflight[q];
      && var entries := if r.hasEntries then Range(s'.log, r.prevIndex + 1, r.lastIndex + 1) else [];
      && s'.messages[|s'.messages| - 1] ==
           Message(s'.cfg.id, q, s'.hard.term,
                   AppendEntries(s'.hard.term, s'.cfg.id, r.prevIndex, r.prevTerm, entries, r.leaderCommit))
  {
    hide Range, ClampNext;
  }

  lemma StaysReached(s: NodeState, peer: NodeID, q: NodeID)
    requires q != peer && Reached(s, q)
    ensures Reached(SendAppend(s, peer, false), q)
  {
    var m :| m in s.messages && m.from == s.cfg.id && m.to == q && CarriesOn(s, q, m);
    var s' := SendAppend(s, peer, false);
    assert m in s'.messages && CarriesOn(s', q, m);
  }

  // ----- Entries -----

  /** The log holds the entry the request builds on, and its last index can be named. */
  ghost predicate BuildsOn(log: seq<Entry>, b: Body)
    requires b.AppendEntries?
  {
    && b.prevLogIndex + |b.entries| <= MAX_UINT64
    && (b.prevLogIndex == 0 || (b.prevLogIndex <= |log| && log[b.prevLogIndex - 1].term == b.prevLogTerm))
  }

  /** The log after accepting the request: kept when it already holds the entries, cut to them otherwise. */
  ghost function Accepted(log: seq<Entry>, b: Body): seq<Entry>
    requires b.AppendEntries? && b.prevLogIndex <= |log|
  {
    var last := b.prevLogIndex + |b.entries|;
    if last <= |log| && log[b.prevLogIndex..last] == b.entries then log else log[..b.prevLogIndex] + b.entries
  }

  /**
   Entries are accepted exactly when their term is not past and the node holds the entry they
   build on. The log then holds them where the leader does, the commit index follows the leader's,
   and all of it is on disk before the acknowledgement, which names the last index covered.
   */
  lemma AppendAnswered(cfg: Config, steps: seq<Step>, p: NodeID, m: Message, draw: nat)
    requires ValidCluster(cfg) && Live(Run(Initial(cfg), steps), p)
    requires m in Run(Initial(cfg), steps).net && m.to == p && m.body.AppendEntries?
    ensures var c := Run(Initial(cfg), steps);
      var s, c' := StateOf(c, p), Exec(c, Drive(p, Receive(m, draw), Done));
      var term, last := if m.term > s.hard.term then m.term else s.hard.term, m.body.prevLogIndex + |m.body.entries|;
      && Live(c', p) && var s' := StateOf(c', p);
      && c'.procs[p].disk.hard == (if m.term > s.hard.term then HardState(m.term, 0) else s.hard)
      && (m.term >= s.hard.term ==> s'.role == Follower && s'.electionElapsed == 0)
      && (m.term >= s.hard.term && BuildsOn(s.log, m.body) ==>
            && c'.procs[p].disk.log == Accepted(s.log, m.body)
            && s'.commitIndex == (if m.body.leaderCommit > s.commitIndex then m.body.leaderCommit else s.commitIndex)
            && c'.net == c.net + {Message(p, m.from, term, AppendEntriesResp(term, true, last))})
      && (!(m.term >= s.hard.term && BuildsOn(s.log, m.body)) ==>
            && c'.procs[p].disk.log == s.log && s'.commitIndex == s.commitIndex
            && c'.net == c.net + {Message(p, m.from, term, AppendEntriesResp(term, false, 0))})
  {
    hide Inv, Run, Initial, CoreInv, ProcOk, MsgOk, Accepted, BuildsOn, Handle, Exec, NodeOk, CommittedSeq;
    var c := Run(Initial(cfg), steps);
    var k := S.Reachable(cfg, steps);
    var s := StateOf(c, p);
    assert Enabled(c, Drive(p, Receive(m, draw), Done));
    S.NetOk(c, k, m);
    RunningFacts(c, k, p, s);
    AppendHandled(k, s, m, draw);
    CycleCompletes(c, k, p, Receive(m, draw));
  }

  lemma RequestNumbered(k: Core, m: Message)
    requires CoreInv(k) && m.body.AppendEntries? && MsgOk(k, m)
    ensures Numbered(m.body.entries, m.body.prevLogIndex) && m.body.appendTerm == m.term
    ensures m.body.prevLogIndex == 0 ==> m.body.prevLogTerm == 0
  {
    assert LeaderLogOk(k, m.term);
  }

  /** What handling the request m leaves, with `accepted` telling whether its entries are taken. */
  ghost predicate Answered(s: NodeState, s': NodeState, m: Message, accepted: bool)
    requires m.body.AppendEntries? && (accepted ==> m.body.prevLogIndex <= |s.log|)
  {
    var term, last := if m.term > s.hard.term then m.term else s.hard.term, m.body.prevLogIndex + |m.body.entries|;
    && s'.hard == (if m.term > s.hard.term then HardState(m.term, 0) else s.hard)
    && (m.term >= s.hard.term ==> s'.role == Follower && s'.electionElapsed == 0)
    && s'.log == (if accepted then Accepted(s.log, m.body) else s.log)
    && s'.commitIndex == (if accepted && m.body.leaderCommit > s.commitIndex then m.body.leaderCommit
                          else s.commitIndex)
    && var answer := if accepted then AppendEntriesResp(term, true, last) else AppendEntriesResp(term, false, 0);
    && MessageSet(s'.messages) == {Message(s.cfg.id, m.from, term, answer)}
  }

  lemma AppendHandled(k: Core, s: NodeState, m: Message, draw: nat)
    requires CoreInv(k) && NodeOk(k, s) && m.body.AppendEntries? && MsgOk(k, m) && s.messages == []
    ensures Answered(s, Handle(s, Receive(m, draw)), m, m.term >= s.hard.term && BuildsOn(s.log, m.body))
  {
    hide HandleAppendEntries, MessageSet, Accepted, CoreInv, NodeOk, MsgOk, BuildsOn;
    RequestNumbered(k, m);
    OneReply(s, m.from, AppendEntriesResp(s.hard.term, false, 0));
    assert m.term < s.hard.term ==> Handle(s, Receive(m, draw)) == RejectLowerTerm(s, m);
    var s1 := if m.term > s.hard.term then BecomeFollower(s, m.term, draw) else s;
    if m.term >= s.hard.term {
      assert Handle(s, Receive(m, draw)) == HandleAppendEntries(s1, m);
      if BuildsOn(s.log, m.body) {
        AcceptedLog(k, s, m);
        AcceptHandled(k, s1, m);
      } else {
        RefuseHandled(s1, m);
      }
    }
  }

  lemma RefuseHandled(s: NodeState, m: Message)
    requires m.body.AppendEntries? && s.messages == [] && !BuildsOn(s.log, m.body)
    ensures var s' := HandleAppendEntries(s, m);
      && s'.hard == s.hard && s'.role == Follower && s'.electionElapsed == 0 && s'.log == s.log
      && s'.commitIndex == s.commitIndex
      && var answer := AppendEntriesResp(s.hard.term, false, 0);
      && MessageSet(s'.messages) == {Message(s.cfg.id, m.from, s.hard.term, answer)}
  {
    hide MessageSet, AdoptEntries;
    OneReply(YieldToLeader(s), m.from, AppendEntriesResp(s.hard.term, false, 0));
  }

  lemma AcceptHandled(k: Core, s: NodeState, m: Message)
    requires CoreInv(k) && m.body.AppendEntries? && MsgOk(k, m) && s.messages == []
    requires BuildsOn(s.log, m.body)
    ensures ValidAppend(m.body)
    ensures var s', last := HandleAppendEntries(s, m), m.body.prevLogIndex + |m.body.entries|;
      && s'.hard == s.hard && s'.role == Follower && s'.electionElapsed == 0
      && s'.log == AppendFromLeader(s.log, m.body.entries, m.body.prevLogIndex)
      && s'.commitIndex == (if m.body.leaderCommit > s.commitIndex then m.body.leaderCommit else s.commitIndex)
      && var answer := AppendEntriesResp(s.hard.term, true, last);
      && MessageSet(s'.messages) == {Message(s.cfg.id, m.from, s.hard.term, answer)}
  {
    hide CoreInv, MsgOk, MessageSet, AppendFromLeader, FirstChanged;
    RequestNumbered(k, m);
    CommitFits(k, m);
    var answer := AppendEntriesResp(s.hard.term, true, m.body.prevLogIndex + |m.body.entries|);
    OneReply(AdoptEntries(YieldToLeader(s), m.body), m.from, answer);
  }

  lemma CommitFits(k: Core, m: Message)
    requires m.body.AppendEntries? && MsgOk(k, m)
    ensures m.body.leaderCommit <= m.body.prevLogIndex + |m.body.entries|
  {}

  /** Terms that agree name the same entries, so comparing terms cuts exactly where the logs differ. */
  lemma AcceptedLog(k: Core, s: NodeState, m: Message)
    requires CoreInv(k) && NodeOk(k, s) && m.body.AppendEntries? && MsgOk(k, m) && BuildsOn(s.log, m.body)
    ensures ValidAppend(m.body)
    ensures AppendFromLeader(s.log, m.body.entries, m.body.prevLogIndex) == Accepted(s.log, m.body)
  {
    hide CoreInv, NodeOk, MsgOk, GoodLog, AppendFromLeader, FirstConflict, FirstChanged, Accepted, PieceOf;
    NodeDisk(k, s);
    AppendRequestFacts(k, m);
    DiskAndLeaderGood(k, s.cfg.id);
    LeaderLogGood(k, m.term);
    RequestNumbered(k, m);
    var b, ll := m.body, k.h.logs[m.term];
    AdoptedLog(k, s.log, ll, b);
    RequestMatches(k, s.log, ll, b);
    AcceptedCut(s.log, ll, b, b.prevLogIndex + FirstConflict(s.log, b.entries, 0));
  }

  lemma AcceptedCut(log: seq<Entry>, ll: seq<Entry>, b: Body, n: nat)
    requires b.AppendEntries? && PieceOf(b, ll) && b.prevLogIndex <= |log|
    requires b.prevLogIndex <= n <= b.prevLogIndex + |b.entries| && Agree(log, ll, n)
    requires n < b.prevLogIndex + |b.entries| && n < |log| ==> log[n] != ll[n]
    ensures var last := b.prevLogIndex + |b.entries|;
      Accepted(log, b) == if n == last then log else ll[..last]
  {
    hide TermAt;
    var last, prev := b.prevLogIndex + |b.entries|, b.prevLogIndex;
    assert ll[prev..last] == b.entries;
    if n < last {
      assert ll[..last] == log[..prev] + b.entries;
      if last <= |log| { assert log[prev..last][n - prev] == log[n]; }
    } else {
      assert log[prev..last] == b.entries;
    }
  }

  lemma LeaderLogGood(k: Core, t: nat)
    requires CoreInv(k) && t in k.h.logs
    ensures GoodLog(k.h, k.h.logs[t])
  {
    assert LeaderLogOk(k, t);
  }

  // ----- Acknowledgements -----

  /** The request that continues the leader's log at index n, announcing its commit index. */
  ghost function Continuation(s: NodeState, q: NodeID, n: nat, commit: nat): Message
    requires n <= |s.log|
  {
    var prevTerm := if n == 0 then 0 else s.log[n - 1].term;
    Message(s.cfg.id, q, s.hard.term, AppendEntries(s.hard.term, s.cfg.id, n, prevTerm, s.log[n..], commit))
  }

  /**
   How a leader takes an answer to its open request r to q. An acknowledgement of exactly that
   request is recorded, and q is sent the rest of the log, or at once the new commit index if this
   is what moved it; otherwise q becomes idle. A refusal makes the leader try one entry earlier,
   but never below what q is known to hold. Any other answer changes nothing.
   */
  ghost predicate Takes(s: NodeState, s': NodeState, q: NodeID, r: Inflight, b: Body, sent: set<Message>)
    requires b.AppendEntriesResp? && r.prevIndex <= r.lastIndex <= |s.log|
  {
    if b.success && b.matchIndex == r.lastIndex && r.lastIndex != MAX_UINT64 then
      && Get(s'.matchIndex, q) == r.lastIndex && s'.log == s.log
      && (q in s'.inflight <==> r.lastIndex < |s.log| || s'.commitIndex > s.commitIndex)
      && sent == if q in s'.inflight then {Continuation(s, q, r.lastIndex, s'.commitIndex)} else {}
    else if b.success then s' == s && sent == {}
    else
      && s'.matchIndex == s.matchIndex && s'.log == s.log && s'.commitIndex == s.commitIndex && q in s'.inflight
      && var n := if r.prevIndex > Get(s.matchIndex, q) then r.prevIndex - 1 else r.prevIndex;
      && sent == {Continuation(s, q, n, s.commitIndex)}
  }

  lemma AckAnswered(cfg: Config, steps: seq<Step>, p: NodeID, m: Message, draw: nat)
    requires ValidCluster(cfg) && Live(Run(Initial(cfg), steps), p)
    requires m in Run(Initial(cfg), steps).net && m.to == p && m.body.AppendEntriesResp?
    requires var s := StateOf(Run(Initial(cfg), steps), p);
      s.role == Leader && m.term == s.hard.term && m.from in cfg.peers && m.from != p && m.from in s.inflight
    ensures var c := Run(Initial(cfg), steps);
      var s, c', q := StateOf(c, p), Exec(c, Drive(p, Receive(m, draw), Done)), m.from;
      && s.inflight[q].prevIndex <= s.inflight[q].lastIndex <= |s.log| && Live(c', p)
      && exists sent :: c'.net == c.net + sent && Takes(s, StateOf(c', p), q, s.inflight[q], m.body, sent)
  {
    hide Inv, Run, Initial, Exec, Takes, Handle, D.Outstanding;
    var c := Run(Initial(cfg), steps);
    var k := S.Reachable(cfg, steps);
    assert Enabled(c, Drive(p, Receive(m, draw), Done));
    AckContext(cfg, steps, k, p, m);
    AckHandled(StateOf(c, p), m, draw, c.net);
    CycleCompletes(c, k, p, Receive(m, draw));
    RestTakes(StateOf(c, p), Handle(StateOf(c, p), Receive(m, draw)), m.from, m.body);
  }

  lemma AckContext(cfg: Config, steps: seq<Step>, k: Core, p: NodeID, m: Message)
    requires ValidCluster(cfg) && Live(Run(Initial(cfg), steps), p) && Inv(Run(Initial(cfg), steps), k)
    requires m in Run(Initial(cfg), steps).net && m.body.AppendEntriesResp?
    requires var s := StateOf(Run(Initial(cfg), steps), p);
      s.role == Leader && m.from in cfg.peers && m.from != p && m.from in s.inflight
    ensures var c := Run(Initial(cfg), steps);
      var s := StateOf(c, p);
      && s.messages == [] && AtRest(s) == s && m.body.appendRespTerm == m.term
      && s.cfg.id == p && s.cfg.peers == cfg.peers && D.Tracked(s, m.from, c.net)
      && s.inflight[m.from].prevIndex <= s.inflight[m.from].lastIndex <= |s.log|
  {
    hide Inv, Run, Initial, CoreInv, NodeOk, CommittedSeq, MsgOk, D.NothingWaiting, D.Configured, ValidCluster;
    var c := Run(Initial(cfg), steps);
    var s := StateOf(c, p);
    S.NetOk(c, k, m);
    RespTerm(k, m);
    LiveFacts(cfg, steps, p);
    RunningFacts(c, k, p, s);
    assert D.Served(s, m.from, c.net);
  }

  lemma RespTerm(k: Core, m: Message)
    requires MsgOk(k, m) && m.body.AppendEntriesResp?
    ensures m.body.appendRespTerm == m.term
  {}

  lemma AckHandled(s: NodeState, m: Message, draw: nat, sent: set<Message>)
    requires s.role == Leader && s.messages == [] && m.body.AppendEntriesResp?
    requires m.term == s.hard.term == m.body.appendRespTerm
    requires m.from in s.cfg.peers && m.from != s.cfg.id && m.from in s.inflight && D.Tracked(s, m.from, sent)
    ensures var s' := Handle(s, Receive(m, draw));
      Takes(s, s', m.from, s.inflight[m.from], m.body, MessageSet(s'.messages))
  {
    hide OnSuccess, SendAppend, BackOff, Takes, D.Tracked;
    assert Handle(s, Receive(m, draw)) == HandleAppendEntriesResp(s, m);
    if m.body.success { SuccessTakes(s, m.from, m.body, sent); } else { RefusalTakes(s, m.from, m.body, sent); }
  }

  lemma SuccessTakes(s: NodeState, q: NodeID, b: Body, sent: set<Message>)
    requires s.messages == [] && b.AppendEntriesResp? && b.success && q in s.inflight && D.Tracked(s, q, sent)
    requires s.role == Leader
    ensures var s' := OnSuccess(s, q, b.matchIndex); Takes(s, s', q, s.inflight[q], b, MessageSet(s'.messages))
  {
    hide SendAppend, ScanCommit, Continuation;
    var r, s' := s.inflight[q], OnSuccess(s, q, b.matchIndex);
    if Acknowledges(s, q, b.matchIndex) {
      var s1 := RecordMatch(s, q, b.matchIndex);
      var s2 := AdvanceCommit(s1);
      ScanRises(s1, |s1.log|);
      OneRequest(s2, q, r.lastIndex);
      SameContinuation(s, s2, q, r.lastIndex);
    }
  }

  lemma SameContinuation(s: NodeState, s': NodeState, q: NodeID, n: nat)
    requires n <= |s.log| && s'.log == s.log && s'.hard == s.hard && s'.cfg == s.cfg
    ensures forall commit: nat :: Continuation(s', q, n, commit) == Continuation(s, q, n, commit)
  {}

  lemma RefusalTakes(s: NodeState, q: NodeID, b: Body, sent: set<Message>)
    requires s.messages == [] && b.AppendEntriesResp? && !b.success && q in s.inflight && D.Tracked(s, q, sent)
    ensures var s' := SendAppend(BackOff(s, q), q, false);
      Takes(s, s', q, s.inflight[q], b, MessageSet(s'.messages))
  {
    hide SendAppend, Continuation;
    var r := s.inflight[q];
    var n := if r.prevIndex > Get(s.matchIndex, q) then r.prevIndex - 1 else r.prevIndex;
    OneRequest(BackOff(s, q), q, n);
    SameContinuation(s, BackOff(s, q), q, n);
  }

  lemma {:induction false} ScanRises(s: NodeState, index: nat)
    ensures ScanCommit(s, index) >= s.commitIndex
  {
    if index > s.commitIndex { ScanRises(s, index - 1); }
  }

  /** An idle peer is sent the rest of the log from its next index on. */
  lemma OneRequest(s: NodeState, q: NodeID, n: nat)
    requires q !in s.inflight && s.messages == [] && n <= |s.log| && Get(s.nextIndex, q) == n + 1
    ensures var s' := SendAppend(s, q, false);
      && MessageSet(s'.messages) == {Continuation(s, q, n, s.commitIndex)} && q in s'.inflight
      && s'.matchIndex == s.matchIndex && s'.log == s.log && s'.commitIndex == s.commitIndex
  {
    var s' := SendAppend(s, q, false);
    assert s'.messages == [s'.messages[0]];
    assert s'.messages[0].body.entries == s.log[n..];
  }

  lemma RestTakes(s: NodeState, s': NodeState, q: NodeID, b: Body)
    requires b.AppendEntriesResp? && q in s.inflight && s.inflight[q].prevIndex <= s.inflight[q].lastIndex <= |s.log|
    requires Takes(s, s', q, s.inflight[q], b, MessageSet(s'.messages)) && AtRest(s) == s
    ensures Takes(s, AtRest(s'), q, s.inflight[q], b, MessageSet(s'.messages))
  {}

  // ----- Proposals -----

  /** A leader stores a proposal after its whole log, in its own term; any other node ignores it. */
  lemma ProposalStored(cfg: Config, steps: seq<Step>, p: NodeID, data: seq<Byte>)
    requires ValidCluster(cfg) && Live(Run(Initial(cfg), steps), p)
    ensures var c := Run(Initial(cfg), steps);
      var s, c' := StateOf(c, p), Exec(c, Drive(p, Propose(data), Done));
      && Live(c', p) && StateOf(c', p).role == s.role
      && c'.procs[p].disk.hard == s.hard
      && (s.role == Leader ==> c'.procs[p].disk.log == s.log + [Entry(|s.log| + 1, s.hard.term, Normal, data)])
      && (s.role != Leader ==> c'.procs[p].disk.log == s.log && c'.net == c.net)
  {
    hide Inv, Run, Initial, Handle, Exec;
    var c := Run(Initial(cfg), steps);
    var k := S.Reachable(cfg, steps);
    assert Enabled(c, Drive(p, Propose(data), Done));
    LiveConfigured(c, k, p);
    CycleCompletes(c, k, p, Propose(data));
    ProposalHandled(StateOf(c, p), data);
  }

  lemma ProposalHandled(s: NodeState, data: seq<Byte>)
    requires s.messages == []
    ensures var s' := Handle(s, Propose(data));
      && s'.role == s.role && s'.hard == s.hard
      && (s.role == Leader ==> s'.log == s.log + [Entry(|s.log| + 1, s.hard.term, Normal, data)])
      && (s.role != Leader ==> s' == s && MessageSet(s'.messages) == {})
  {
    hide BroadcastUpTo, AdvanceCommit;
    var s1 := AppendLocal(s, Normal, data);
    S.CommitKeepsLog(s1);
    var s2 := AdvanceCommit(s1);
    S.BroadcastRole(s2, |s2.cfg.peers|, false, true);
    P.BroadcastStores(s2, |s2.cfg.peers|, false, true);
  }
}
