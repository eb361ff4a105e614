/**
 Every input handler of the node keeps the node in order and produces, for each point a
 torn Save can stop at, a durable core that satisfies `CoreInv`.
 */
module RaftHandlers {
  import opened RaftTypes
  import opened RaftSpec
  import opened Storage
  import opened RaftHistory
  import opened RaftCoreSteps
  import opened RaftVolatile
  import P = Persistence

  /** c' is a legal successor of c in which v's disk holds d. */
  ghost predicate Stage(c: Core, c': Core, v: NodeID, d: Durable) {
    CoreInv(c') && Grows(c.h, c'.h) && c'.peers == c.peers && v in c.disk && c'.disk == c.disk[v := d]
  }

  /** Cores for the three disks a cycle can leave: hard state only, suffix cut, everything. */
  datatype Stages = Stages(hard: Core, cut: Core, full: Core)

  ghost predicate StagesOk(c: Core, st: Stages, s: NodeState, s': NodeState) {
    var v := s.cfg.id;
    && v in c.disk
    && var log := c.disk[v].log;
    && 1 <= s'.unstableIndex <= |log| + 1
    && Stage(c, st.hard, v, Durable(s'.hard, log))
    && Stage(c, st.cut, v, Durable(s'.hard, log[..s'.unstableIndex - 1]))
    && Stage(c, st.full, v, Durable(s'.hard, s'.log))
    && NodeOk(st.full, s')
    && s'.commitIndex >= s.commitIndex && s'.cfg == s.cfg && s'.lastApplied == s.lastApplied
  }

  /** A node between inputs, as far as storage is concerned. */
  ghost predicate Steady(c: Core, s: NodeState) {
    CoreInv(c) && NodeOk(c, s) && s.unstableIndex == |s.log| + 1
  }

  /** Nothing durable changed. */
  lemma Unchanged(c: Core, s: NodeState, s': NodeState)
    requires CoreInv(c) && s.cfg.id in c.disk && NodeOk(c, s') && s'.cfg == s.cfg
    requires s'.log == c.disk[s.cfg.id].log && s'.unstableIndex == |s'.log| + 1
    requires s'.commitIndex >= s.commitIndex && s'.lastApplied == s.lastApplied
    ensures StagesOk(c, Stages(c, c, c), s, s')
  {
    hide CoreInv, NodeOk;
    assert s'.log[..|s'.log|] == s'.log;
    assert c.disk[s.cfg.id := c.disk[s.cfg.id]] == c.disk;
    assert c.disk[s.cfg.id] == Durable(s'.hard, s'.log) by { NodeDisk(c, s'); }
  }

  lemma NodeDisk(c: Core, s: NodeState)
    requires NodeOk(c, s)
    ensures s.cfg.id in c.disk && c.disk[s.cfg.id] == Durable(s.hard, s.log)
    ensures s.role == Leader ==> s.hard.term in c.h.elections && c.h.elections[s.hard.term].leader == s.cfg.id
  {}

  /** Only the hard state changed. */
  lemma HardChanged(c: Core, c': Core, s: NodeState, s': NodeState)
    requires s.cfg.id in c.disk && NodeOk(c', s') && s'.cfg == s.cfg
    requires s'.log == c.disk[s.cfg.id].log && s'.unstableIndex == |s'.log| + 1
    requires Stage(c, c', s.cfg.id, Durable(s'.hard, s'.log))
    requires s'.commitIndex >= s.commitIndex && s'.lastApplied == s.lastApplied
    ensures StagesOk(c, Stages(c', c', c'), s, s')
  {
    hide CoreInv, NodeOk;
    assert s'.log[..|s'.log|] == s'.log;
  }

  /** One entry was appended after the hard-state change recorded in c1. */
  lemma LogGrew(c: Core, c1: Core, c2: Core, s: NodeState, s': NodeState)
    requires s.cfg.id in c.disk && NodeOk(c2, s') && s'.cfg == s.cfg
    requires s'.unstableIndex == |c.disk[s.cfg.id].log| + 1
    requires Stage(c, c1, s.cfg.id, Durable(s'.hard, c.disk[s.cfg.id].log))
    requires Stage(c, c2, s.cfg.id, Durable(s'.hard, s'.log))
    requires s'.commitIndex >= s.commitIndex && s'.lastApplied == s.lastApplied
    ensures StagesOk(c, Stages(c1, c1, c2), s, s')
  {
    hide CoreInv, NodeOk;
    var log := c.disk[s.cfg.id].log;
    assert log[..|log|] == log;
  }

  lemma StageTrans(a: Core, b: Core, c: Core, v: NodeID, d: Durable, d': Durable)
    requires Stage(a, b, v, d) && Stage(b, c, v, d')
    ensures Stage(a, c, v, d')
  {
    hide CoreInv;
    GrowsTransitive(a.h, b.h, c.h);
  }

  // ----- Elections -----

  lemma VotesAreQuorum(c: Core, s: NodeState)
    requires ConfigOk(c, s.cfg) && HasMajority(s) && s.votes <= c.peers
    ensures Quorum(s.votes, c.peers)
  {
    PeersCount(s.cfg.peers);
  }

  /** A candidate with a quorum of votes is the first leader of its term. */
  lemma FreshTerm(c: Core, s: NodeState)
    requires CoreInv(c) && NodeOk(c, s) && s.role == Candidate && Quorum(s.votes, c.peers)
    ensures s.hard.term !in c.h.elections && s.hard.term != 0
  {
    var t := s.hard.term;
    if t in c.h.elections {
      assert ElectionOk(c, t) && LeaderLogOk(c, t);
      OneLeader(c, t, s.votes, c.h.elections[t].voters, s.cfg.id, c.h.elections[t].leader);
      assert false;
    }
    var v := QuorumsMeet(s.votes, s.votes, c.peers);
    assert (c.h.votes[(v, t)], t) in c.h.cands;
  }

  ghost function NoopEntry(s: NodeState): Entry { Entry(|s.log| + 1, s.hard.term, Noop, []) }

  /** The state of a new leader before it starts sending. */
  function Crowned(s: NodeState): NodeState { AppendLocal(ZeroProgress(s), Noop, []) }

  lemma CrownedLeads(c: Core, c': Core, s: NodeState)
    requires NodeOk(c, s) && s.role == Candidate && Grows(c.h, c'.h) && c'.peers == c.peers
    requires var v, t, log := s.cfg.id, s.hard.term, s.log + [NoopEntry(s)];
      && v in c'.disk && c'.disk[v] == Durable(s.hard, log)
      && t in c'.h.elections && c'.h.elections[t].leader == v
      && t in c'.h.logs && c'.h.logs[t] == log
      && Acked(c'.h, v, t, |log|)
    ensures Leading(c', Crowned(s))
  {
    var s', t := Crowned(s), s.hard.term;
    hide MsgOk, CommittedUpTo, Grows, CandidateOk;
    CommittedUpToGrows(c, c', s.log, s'.log, s.commitIndex, t, t);
    MessagesGrow(c, c', s.messages);
    assert LeaderOk(c', s');
  }

  /** A new leader counts only itself. */
  lemma CrownedHolders(s: NodeState, index: nat)
    requires ValidConfig(s.cfg) && index > 0
    ensures Replicas(s.cfg.peers, Crowned(s).matchIndex, index) <= 1
  {
    var m := Crowned(s).matchIndex;
    assert forall p :: p in s.cfg.peers && p != s.cfg.id ==> Get(m, p) == 0;
    hide Crowned, Replicas, Get;
    ReplicasCount(s.cfg.peers, m, index);
    var hs := Holders(s.cfg.peers, m, index);
    assert hs <= {s.cfg.id};
    Subset(hs, {s.cfg.id});
  }

  /** With another peer to hear from, a new leader commits nothing by itself. */
  lemma CrownedCommitsAlone(s: NodeState)
    requires ValidConfig(s.cfg) && s.commitIndex <= |s.log|
    ensures ProbesSafe(AdvanceCommit(Crowned(s)), 0)
    ensures AdvanceCommit(Crowned(s)).commitIndex >= s.commitIndex
  {
    var s1 := Crowned(s);
    ScanIs(s1, |s1.log|);
    hide ScanCommit, Replicas;
    if AdvanceCommit(s1).commitIndex != s1.commitIndex { CrownedHolders(s, AdvanceCommit(s1).commitIndex); }
  }

  /** Winning an election: the term gets its leader and its NOOP. */
  lemma BecomeLeaderOk(c: Core, s: NodeState) returns (c': Core)
    requires CoreInv(c) && NodeOk(c, s) && s.role == Candidate && HasMajority(s)
    ensures Stage(c, c', s.cfg.id, Durable(s.hard, s.log + [NoopEntry(s)]))
    ensures NodeOk(c', BecomeLeader(s)) && BecomeLeader(s).log == s.log + [NoopEntry(s)]
    ensures var r := BecomeLeader(s);
      && r.hard == s.hard && r.cfg == s.cfg && r.lastApplied == s.lastApplied
      && r.commitIndex >= s.commitIndex && r.unstableIndex == Min(|s.log| + 1, s.unstableIndex)
  {
    c' := WonElection(c, s);
    CrownedCommitsAlone(s);
    hide NodeOk, ProbesSafe, CoreInv;
    var s1 := AdvanceCommit(Crowned(s));
    AdvanceCommitOk(c', Crowned(s));
    NodeConfigured(c', s1);
    BroadcastOk(c', s1, |s1.cfg.peers|, true, false);
  }

  lemma CandidateWins(c: Core, s: NodeState)
    requires NodeOk(c, s) && s.role == Candidate && Quorum(s.votes, c.peers)
    requires s.hard.term !in c.h.elections && s.hard.term != 0
    ensures Wins(c, s.cfg.id, s.votes, NoopEntry(s))
  {}

  lemma WonElection(c: Core, s: NodeState) returns (c': Core)
    requires CoreInv(c) && NodeOk(c, s) && s.role == Candidate && HasMajority(s)
    ensures Stage(c, c', s.cfg.id, Durable(s.hard, s.log + [NoopEntry(s)]))
    ensures Leading(c', Crowned(s))
  {
    VotesAreQuorum(c, s);
    FreshTerm(c, s);
    NodeDisk(c, s);
    CandidateWins(c, s);
    hide CoreInv, NodeOk, Crowned, Wins;
    ElectKeeps(c, s.cfg.id, s.votes, NoopEntry(s));
    c' := Elect(c, s.cfg.id, s.votes, NoopEntry(s));
    CrownedLeads(c, c', s);
  }

  lemma {:induction false} RequestVotesOk(c: Core, s: NodeState, k: nat)
    requires NodeOk(c, s) && s.role == Candidate && s.cfg.id != 0 && k <= |s.cfg.peers|
    ensures NodeOk(c, RequestVotesUpTo(s, k))
    ensures RequestVotesUpTo(s, k) == s.(messages := RequestVotesUpTo(s, k).messages)
  {
    if k > 0 {
      RequestVotesOk(c, s, k - 1);
      var s1, s2 := RequestVotesUpTo(s, k - 1), RequestVotesUpTo(s, k);
      if s.cfg.peers[k - 1] != s.cfg.id {
        var m := s2.messages[|s1.messages|];
        assert MsgOk(c, m);
        hide MsgOk, CommittedUpTo;
        forall x | x in s2.messages ensures MsgOk(c, x) { assert x in s1.messages || x == m; }
      }
    }
  }

  lemma CampaignOk(c: Core, s: NodeState, draw: nat)
    requires CoreInv(c) && NodeOk(c, s)
    ensures Stage(c, Stand(c, s.cfg.id), s.cfg.id, Durable(Campaign(s, draw).hard, s.log))
    ensures NodeOk(Stand(c, s.cfg.id), Campaign(s, draw))
  {
    hide CoreInv, Stand, NodeOk, ConfigOk, Grows;
    NodeConfigured(c, s);
    NodeDisk(c, s);
    StandKeeps(c, s.cfg.id);
    StandIs(c, s.cfg.id);
    CampaignNode(c, Stand(c, s.cfg.id), s, draw);
  }

  lemma CampaignNode(c: Core, c': Core, s: NodeState, draw: nat)
    requires NodeOk(c, s) && c'.peers == c.peers && Grows(c.h, c'.h) && s.cfg.id in c.peers
    requires var v, t := s.cfg.id, s.hard.term + 1;
      && v in c'.disk && c'.disk[v] == Durable(HardState(t, v), s.log)
      && (v, t) in c'.h.cands && c'.h.cands[(v, t)] == s.log
      && (v, t) in c'.h.votes && c'.h.votes[(v, t)] == v
    ensures NodeOk(c', Campaign(s, draw))
  {
    hide MsgOk, CommittedUpTo, Grows, LeaderOk;
    CommittedUpToGrows(c, c', s.log, s.log, s.commitIndex, s.hard.term, s.hard.term + 1);
    MessagesGrow(c, c', s.messages);
  }

  lemma StartElectionOk(c: Core, s: NodeState, draw: nat) returns (st: Stages)
    requires Steady(c, s)
    ensures StagesOk(c, st, s, StartElection(s, draw))
  {
    var s1 := Campaign(s, draw);
    var c1 := Stand(c, s.cfg.id);
    CampaignOk(c, s, draw);
    hide CoreInv, NodeOk;
    NodeDisk(c, s);
    if HasMajority(s1) {
      var c2 := BecomeLeaderOk(c1, s1);
      hide BecomeLeader;
      StageTrans(c, c1, c2, s.cfg.id, Durable(s1.hard, s1.log), Durable(s1.hard, s1.log + [NoopEntry(s1)]));
      LogGrew(c, c1, c2, s, StartElection(s, draw));
      st := Stages(c1, c1, c2);
    } else {
      assert s1.cfg.id != 0 by { NodeConfigured(c1, s1); }
      RequestVotesOk(c1, s1, |s1.cfg.peers|);
      HardChanged(c, c1, s, StartElection(s, draw));
      st := Stages(c1, c1, c1);
    }
  }

  lemma NodeConfigured(c: Core, s: NodeState)
    requires NodeOk(c, s)
    ensures ConfigOk(c, s.cfg) && s.cfg.id in c.peers && s.cfg.id != 0
    ensures s.role != Follower ==> s.hard.votedFor == s.cfg.id
  {
    assert s.cfg.id in PeerSet(s.cfg.peers);
  }

  // ----- Observing a term -----

  lemma FollowOk(c: Core, s: NodeState, term: nat, draw: nat)
    requires CoreInv(c) && NodeOk(c, s) && term > s.hard.term
    ensures Stage(c, Bump(c, s.cfg.id, term), s.cfg.id, Durable(HardState(term, 0), s.log))
    ensures NodeOk(Bump(c, s.cfg.id, term), BecomeFollower(s, term, draw))
  {
    hide CoreInv, NodeOk;
    NodeDisk(c, s);
    BumpKeeps(c, s.cfg.id, term);
    FollowNode(c, Bump(c, s.cfg.id, term), s, term, draw);
  }

  lemma FollowNode(c: Core, c': Core, s: NodeState, term: nat, draw: nat)
    requires NodeOk(c, s) && c'.peers == c.peers && c'.h == c.h && term > s.hard.term
    requires s.cfg.id in c'.disk && c'.disk[s.cfg.id] == Durable(HardState(term, 0), s.log)
    ensures NodeOk(c', BecomeFollower(s, term, draw))
  {
    hide MsgOk, CommittedUpTo, LeaderOk, CandidateOk;
    CommittedUpToGrows(c, c', s.log, s.log, s.commitIndex, s.hard.term, term);
    MessagesGrow(c, c', s.messages);
  }

  lemma ReplyOk(c: Core, s: NodeState, to: NodeID, body: Body)
    requires NodeOk(c, s) && MsgOk(c, Message(s.cfg.id, to, s.hard.term, body))
    ensures NodeOk(c, Reply(s, to, body))
  {
    var s' := Reply(s, to, body);
    hide MsgOk, CommittedUpTo;
    forall m | m in s'.messages ensures MsgOk(c, m) {
      assert m in s.messages || m == Message(s.cfg.id, to, s.hard.term, body);
    }
    if s.role == Leader {
      forall p | p in s'.inflight ensures InflightOk(c, s', s'.inflight[p]) { assert InflightOk(c, s, s.inflight[p]); }
    }
  }

  // ----- Voting -----

  lemma VoteOnRecord(c: Core, v: NodeID)
    requires CoreInv(c) && v in c.disk
    ensures var hard := c.disk[v].hard;
      hard.votedFor != 0 ==> (v, hard.term) in c.h.votes && c.h.votes[(v, hard.term)] == hard.votedFor
  {}

  lemma GrowsReflexive(h: History)
    ensures Grows(h, h)
  {}

  lemma VoteNode(c: Core, c': Core, s: NodeState, s': NodeState)
    requires NodeOk(c, s) && s.role == Follower && c'.peers == c.peers && Grows(c.h, c'.h)
    requires s' == s.(hard := s'.hard, hardStateDirty := s'.hardStateDirty, electionElapsed := s'.electionElapsed)
    requires s'.hard.term == s.hard.term && s.cfg.id in c'.disk && c'.disk[s.cfg.id] == Durable(s'.hard, s.log)
    ensures NodeOk(c', s')
  {
    hide MsgOk, CommittedUpTo, Grows;
    CommittedUpToGrows(c, c', s.log, s.log, s.commitIndex, s.hard.term, s.hard.term);
    MessagesGrow(c, c', s.messages);
  }

  /** Voting: a fresh vote is stored before it is promised; an old one is only repeated. */
  lemma RequestVoteOk(c: Core, s: NodeState, m: Message) returns (c': Core)
    requires CoreInv(c) && NodeOk(c, s) && m.body.RequestVote? && MsgOk(c, m) && m.term == s.hard.term
    ensures Stage(c, c', s.cfg.id, Durable(HandleRequestVote(s, m).hard, s.log))
    ensures NodeOk(c', HandleRequestVote(s, m))
  {
    hide CoreInv, NodeOk, Grows;
    NodeConfigured(c, s);
    NodeDisk(c, s);
    var v, s1 := s.cfg.id, CastVote(s, m.body);
    if Grants(s, m.body) && s.hard.votedFor == 0 {
      VoteKeeps(c, v, m.from);
      c' := Vote(c, v, m.from);
      VoteNode(c, c', s, s1);
    } else {
      c' := c;
      assert c.disk[v := c.disk[v]] == c.disk;
      RestNode(c, s, s1);
      VoteOnRecord(c, v);
      assert Grows(c.h, c.h) by { GrowsReflexive(c.h); }
    }
    ReplyOk(c', s1, m.from, RequestVoteResp(s.hard.term, Grants(s, m.body)));
  }

  /** Timers do not matter. */
  lemma RestNode(c: Core, s: NodeState, s': NodeState)
    requires NodeOk(c, s)
    requires s' == s.(electionElapsed := s'.electionElapsed, heartbeatElapsed := s'.heartbeatElapsed)
    ensures NodeOk(c, s')
  {
    hide MsgOk, CommittedUpTo;
    if s.role == Leader {
      forall p | p in s'.inflight ensures InflightOk(c, s', s'.inflight[p]) { assert InflightOk(c, s, s.inflight[p]); }
    }
  }

  lemma RequestVoteStages(c: Core, s: NodeState, m: Message) returns (st: Stages)
    requires Steady(c, s) && m.body.RequestVote? && MsgOk(c, m) && m.term == s.hard.term
    ensures StagesOk(c, st, s, HandleRequestVote(s, m))
  {
    hide CoreInv, NodeOk, MsgOk, Grants, Stage;
    NodeDisk(c, s);
    var c' := RequestVoteOk(c, s, m);
    HardChanged(c, c', s, HandleRequestVote(s, m));
    st := Stages(c', c', c');
  }

  lemma VoteRespStages(c: Core, s: NodeState, m: Message) returns (st: Stages)
    requires Steady(c, s) && m.body.RequestVoteResp? && MsgOk(c, m) && m.term == s.hard.term && m.to == s.cfg.id
    ensures StagesOk(c, st, s, HandleRequestVoteResp(s, m))
  {
    hide CoreInv, NodeOk, BecomeLeader, Stage;
    NodeDisk(c, s);
    st := Stages(c, c, c);
    if s.role != Candidate || !m.body.granted || m.from !in s.cfg.peers {
      Unchanged(c, s, s);
    } else {
      var s1 := s.(votes := s.votes + {m.from});
      VoteCounted(c, s, m.from);
      if HasMajority(s1) {
        var c2 := BecomeLeaderOk(c, s1);
        SameStage(c, s.cfg.id);
        LogGrew(c, c, c2, s, HandleRequestVoteResp(s, m));
        st := Stages(c, c, c2);
      } else {
        Unchanged(c, s, s1);
      }
    }
  }

  lemma SameStage(c: Core, v: NodeID)
    requires CoreInv(c) && v in c.disk
    ensures Stage(c, c, v, c.disk[v])
  {
    hide CoreInv;
    assert c.disk[v := c.disk[v]] == c.disk;
  }

  lemma VoteCounted(c: Core, s: NodeState, v: NodeID)
    requires NodeOk(c, s) && s.role == Candidate && v in s.cfg.peers
    requires (v, s.hard.term) in c.h.votes && c.h.votes[(v, s.hard.term)] == s.cfg.id
    ensures NodeOk(c, s.(votes := s.votes + {v}))
  {
    assert v in PeerSet(s.cfg.peers);
    hide MsgOk, CommittedUpTo;
  }

  // ----- Leading -----

  lemma LeaderAppends(c: Core, s: NodeState, data: seq<Byte>) returns (c': Core)
    requires CoreInv(c) && Leading(c, s)
    ensures Stage(c, c', s.cfg.id, Durable(s.hard, AppendLocal(s, Normal, data).log))
    ensures Leading(c', AppendLocal(s, Normal, data))
  {
    hide CoreInv, NodeOk, Grows, Leading;
    LeadingDisk(c, s);
    var e := Entry(|s.log| + 1, s.hard.term, Normal, data);
    LeadAppendKeeps(c, s.cfg.id, e);
    c' := LeadAppend(c, s.cfg.id, e);
    ProgressKept(c, c', s, AppendLocal(s, Normal, data));
  }

  lemma LeadingDisk(c: Core, s: NodeState)
    requires Leading(c, s)
    ensures s.cfg.id in c.disk && c.disk[s.cfg.id] == Durable(s.hard, s.log)
    ensures s.hard.term in c.h.elections && c.h.elections[s.hard.term].leader == s.cfg.id
  {
    hide NodeOk;
    NodeDisk(c, s);
  }

  lemma ProgressKept(c: Core, c': Core, s: NodeState, s': NodeState)
    requires Leading(c, s) && c'.peers == c.peers && Grows(c.h, c'.h)
    requires s' == s.(log := s'.log, unstableIndex := s'.unstableIndex, matchIndex := s'.matchIndex,
                      nextIndex := s'.nextIndex)
    requires Agree(s.log, s'.log, |s.log|)
    requires var v, t := s.cfg.id, s.hard.term;
      && v in c'.disk && c'.disk[v] == Durable(s.hard, s'.log)
      && t in c'.h.logs && c'.h.logs[t] == s'.log && t in c'.h.elections && c'.h.elections[t].leader == v
      && Acked(c'.h, v, t, |s'.log|)
      && (s'.matchIndex == s.matchIndex || s'.matchIndex == s.matchIndex[v := |s'.log|])
    ensures Leading(c', s')
  {
    hide MsgOk, CommittedUpTo;
    CommittedUpToGrows(c, c', s.log, s'.log, s.commitIndex, s.hard.term, s.hard.term);
    MessagesGrow(c, c', s.messages);
    forall p | p in s.inflight ensures InflightOk(c', s', s'.inflight[p]) {
      assert InflightOk(c, s, s.inflight[p]);
      CommittedUpToGrows(c, c', s.log, s'.log, s.inflight[p].leaderCommit, s.hard.term, s.hard.term);
    }
    forall p | p in s'.matchIndex ensures s'.matchIndex[p] == 0 || Acked(c'.h, p, s.hard.term, s'.matchIndex[p]) {
      if p in s.matchIndex && s'.matchIndex[p] == s.matchIndex[p] {
        assert s.matchIndex[p] == 0 || Acked(c.h, p, s.hard.term, s.matchIndex[p]);
      }
    }
  }

  lemma ProposeStages(c: Core, s: NodeState, data: seq<Byte>) returns (st: Stages)
    requires Steady(c, s)
    ensures StagesOk(c, st, s, ProposeData(s, data))
  {
    hide CoreInv, NodeOk, Stage, Leading;
    NodeDisk(c, s);
    st := Stages(c, c, c);
    if s.role != Leader {
      Unchanged(c, s, s);
    } else {
      LeaderHolds(c, s);
      var c1 := LeaderAppends(c, s, data);
      var s1 := AdvanceCommit(AppendLocal(s, Normal, data));
      AdvanceCommitOk(c1, AppendLocal(s, Normal, data));
      BroadcastAll(c1, s1, false, true);
      SameStage(c, s.cfg.id);
      LogGrew(c, c, c1, s, ProposeData(s, data));
      st := Stages(c, c, c1);
    }
  }

  lemma BroadcastAll(c: Core, s: NodeState, probe: bool, onlyIdle: bool)
    requires Leading(c, s) && (probe ==> ProbesSafe(s, 0))
    ensures NodeOk(c, Broadcast(s, probe, onlyIdle)) && SendsOnly(s, Broadcast(s, probe, onlyIdle))
  {
    hide NodeOk;
    NodeConfigured(c, s);
    BroadcastOk(c, s, |s.cfg.peers|, probe, onlyIdle);
  }

  lemma TickStages(c: Core, s: NodeState, draw: nat) returns (st: Stages)
    requires Steady(c, s)
    ensures StagesOk(c, st, s, TickNode(s, draw))
  {
    hide CoreInv, NodeOk, Stage, Leading, Broadcast, StartElection;
    NodeDisk(c, s);
    st := Stages(c, c, c);
    if s.role == Leader {
      var elapsed := s.heartbeatElapsed + 1;
      var s1 := s.(heartbeatElapsed := if elapsed >= s.cfg.heartbeatTicks then 0 else elapsed);
      RestNode(c, s, s1);
      LeaderHolds(c, s1);
      BroadcastAll(c, s1, false, false);
      Unchanged(c, s, TickNode(s, draw));
    } else {
      var s1 := s.(electionElapsed := s.electionElapsed + 1);
      RestNode(c, s, s1);
      if s1.electionElapsed >= s1.electionTimeout {
        st := StartElectionOk(c, s1, draw);
      } else {
        Unchanged(c, s, s1);
      }
    }
  }

  lemma PeerFreed(c: Core, s: NodeState, peer: NodeID, s': NodeState)
    requires Leading(c, s)
    requires s' == s.(inflight := s.inflight - {peer}, matchIndex := s'.matchIndex, nextIndex := s'.nextIndex)
    requires s'.matchIndex == s.matchIndex
      || exists i :: s'.matchIndex == s.matchIndex[peer := i] && Acked(c.h, peer, s.hard.term, i)
    ensures Leading(c, s')
  {
    hide MsgOk, CommittedUpTo;
    forall p | p in s'.inflight ensures InflightOk(c, s', s'.inflight[p]) { assert InflightOk(c, s, s.inflight[p]); }
  }

  lemma OnSuccessOk(c: Core, s: NodeState, peer: NodeID, acked: nat)
    requires Leading(c, s) && peer in c.peers && peer != s.cfg.id && Acked(c.h, peer, s.hard.term, acked)
    ensures NodeOk(c, OnSuccess(s, peer, acked))
    ensures var r := OnSuccess(s, peer, acked);
      && SendsOnly(s.(matchIndex := r.matchIndex, commitIndex := r.commitIndex), r)
      && r.commitIndex >= s.commitIndex
  {
    if Acknowledges(s, peer, acked) {
      var s1 := RecordMatch(s, peer, acked);
      PeerFreed(c, s, peer, s1);
      hide NodeOk, CommittedUpTo, ScanCommit;
      AdvanceCommitOk(c, s1);
      SendOk(c, AdvanceCommit(s1), peer, false);
    }
  }

  lemma AppendRespOk(c: Core, s: NodeState, m: Message)
    requires Leading(c, s) && m.body.AppendEntriesResp? && MsgOk(c, m) && m.term == s.hard.term
    ensures NodeOk(c, HandleAppendEntriesResp(s, m))
    ensures var r := HandleAppendEntriesResp(s, m);
      && SendsOnly(s.(matchIndex := r.matchIndex, commitIndex := r.commitIndex), r)
      && r.commitIndex >= s.commitIndex
  {
    var peer := m.from;
    if m.from in s.cfg.peers && m.from != s.cfg.id && m.from in s.inflight {
      assert peer in c.peers by { NodeConfigured(c, s); assert peer in PeerSet(s.cfg.peers); }
      if m.body.success {
        OnSuccessOk(c, s, peer, m.body.matchIndex);
        hide OnSuccess, NodeOk;
      } else {
        hide NodeOk, CommittedUpTo;
        var s1 := BackOff(s, peer);
        PeerFreed(c, s, peer, s1);
        SendOk(c, s1, peer, false);
      }
    }
  }

  lemma AppendRespStages(c: Core, s: NodeState, m: Message) returns (st: Stages)
    requires Steady(c, s) && m.body.AppendEntriesResp? && MsgOk(c, m) && m.term == s.hard.term
    ensures StagesOk(c, st, s, HandleAppendEntriesResp(s, m))
  {
    hide CoreInv, NodeOk, MsgOk, Leading;
    NodeDisk(c, s);
    if s.role == Leader {
      LeaderHolds(c, s);
      AppendRespOk(c, s, m);
      hide HandleAppendEntriesResp;
      Unchanged(c, s, HandleAppendEntriesResp(s, m));
    } else {
      Unchanged(c, s, s);
    }
    st := Stages(c, c, c);
  }

  // ----- Following -----

  /** The request is a piece of the leader's log ll. */
  ghost predicate PieceOf(b: Body, ll: seq<Entry>)
    requires b.AppendEntries?
  {
    && b.prevLogIndex + |b.entries| <= |ll|
    && TermAt(ll, b.prevLogIndex) == Some(b.prevLogTerm)
    && forall k :: 0 <= k < |b.entries| ==> b.entries[k] == ll[b.prevLogIndex + k]
  }

  lemma ConflictPoint(log: seq<Entry>, ll: seq<Entry>, b: Body)
    requires b.AppendEntries? && ValidAppend(b) && PieceOf(b, ll) && TermAt(log, b.prevLogIndex) == Some(b.prevLogTerm)
    ensures var n := b.prevLogIndex + FirstConflict(log, b.entries, 0);
      && n <= |log|
      && (n > 0 ==> log[n - 1].term == ll[n - 1].term)
      && (n < b.prevLogIndex + |b.entries| && n < |log| ==> log[n].term != ll[n].term)
  {
    var prev, i := b.prevLogIndex, FirstConflict(log, b.entries, 0);
    P.FirstConflictIs(log, b.entries, 0);
    if i > 0 {
      assert b.entries[i - 1].index == prev + i;
      assert b.entries[i - 1] == ll[prev + i - 1];
    }
    if i < |b.entries| {
      assert b.entries[i].index == prev + i + 1;
      assert b.entries[i] == ll[prev + i];
    }
  }

  /** Up to the first conflict the follower's log is the leader's; at the conflict it differs. */
  lemma RequestMatches(c: Core, log: seq<Entry>, ll: seq<Entry>, b: Body)
    requires GoodLog(c.h, log) && GoodLog(c.h, ll) && b.AppendEntries? && ValidAppend(b) && PieceOf(b, ll)
    requires TermAt(log, b.prevLogIndex) == Some(b.prevLogTerm)
    ensures var n := b.prevLogIndex + FirstConflict(log, b.entries, 0);
      && Agree(log, ll, n)
      && (n < b.prevLogIndex + |b.entries| && n < |log| ==> log[n].term != ll[n].term)
  {
    hide GoodLog;
    ConflictPoint(log, ll, b);
    var n := b.prevLogIndex + FirstConflict(log, b.entries, 0);
    if n > 0 { LogsMatch(c, log, ll, n - 1); }
  }

  /** Replacing the suffix from the conflict on yields the leader's prefix. */
  lemma SplicedLog(log: seq<Entry>, ll: seq<Entry>, b: Body, i: nat)
    requires b.AppendEntries? && PieceOf(b, ll) && i <= |b.entries| && Agree(log, ll, b.prevLogIndex + i)
    ensures log[..b.prevLogIndex + i] + b.entries[i..] == ll[..b.prevLogIndex + |b.entries|]
  {}

  /** The follower's log after the request, and where the leader's log takes over. */
  lemma AdoptedLog(c: Core, log: seq<Entry>, ll: seq<Entry>, b: Body)
    requires GoodLog(c.h, log) && GoodLog(c.h, ll) && b.AppendEntries? && ValidAppend(b) && PieceOf(b, ll)
    requires TermAt(log, b.prevLogIndex) == Some(b.prevLogTerm)
    ensures var i, last := FirstConflict(log, b.entries, 0), b.prevLogIndex + |b.entries|;
      && (i == |b.entries| ==> AppendFromLeader(log, b.entries, b.prevLogIndex) == log && Agree(log, ll, last))
      && (i < |b.entries| ==> AppendFromLeader(log, b.entries, b.prevLogIndex) == ll[..last])
      && FirstChanged(log, b.entries) == if i == |b.entries| then 0 else b.prevLogIndex + i + 1
  {
    hide GoodLog, FirstConflict, TermAt, PieceOf;
    RequestMatches(c, log, ll, b);
    SplicedLog(log, ll, b, FirstConflict(log, b.entries, 0));
  }

  /** A committed prefix lies within the log of every leader of a term at least as high. */
  lemma CommittedInLeader(c: Core, log: seq<Entry>, n: nat, u: nat)
    requires CoreInv(c) && CommittedUpTo(c, log, n, u) && u in c.h.logs
    ensures Agree(log, c.h.logs[u], n)
  {
    if n > 0 {
      var t: nat, i: nat :| t <= u && n <= i && Committed(c, t, i) && Agree(log, c.h.logs[t], n);
      if t < u {
        LeaderCompleteness(c, t, i, u);
        assert LeaderLogOk(c, u);
      }
    }
  }

  /** A follower cuts its log where it leaves its leader's, stores the leader's entries, and acknowledges. */
  lemma FollowLeader(c: Core, v: NodeID, n: nat, last: nat) returns (cut: Core, full: Core)
    requires CoreInv(c) && v in c.disk && c.disk[v].hard.term in c.h.logs
    requires var log, ll := c.disk[v].log, c.h.logs[c.disk[v].hard.term];
      && n <= last <= |ll| && Agree(log, ll, n) && (n < |log| ==> n < |ll| && log[n].term != ll[n].term)
    ensures var d, ll := c.disk[v], c.h.logs[c.disk[v].hard.term];
      && Stage(c, cut, v, d.(log := d.log[..n]))
      && Stage(c, full, v, d.(log := ll[..last]))
      && Acked(full.h, v, d.hard.term, last)
      && full.h.logs == c.h.logs
  {
    hide CoreInv;
    GrowsReflexive(c.h);
    SameStage(c, v);
    cut := c;
    assert c.disk[v].log[..|c.disk[v].log|] == c.disk[v].log;
    if n < |c.disk[v].log| {
      TruncateKeeps(c, v, n);
      cut := Truncate(c, v, n);
    }
    ExtendKeeps(cut, v, last);
    full := Acknowledge(Extend(cut, v, last), v, last);
  }

  lemma Acknowledge(c: Core, v: NodeID, last: nat) returns (c': Core)
    requires CoreInv(c) && v in c.disk && c.disk[v].hard.term in c.h.logs
    requires Agree(c.h.logs[c.disk[v].hard.term], c.disk[v].log, last)
    ensures Stage(c, c', v, c.disk[v]) && Acked(c'.h, v, c.disk[v].hard.term, last)
    ensures c'.h.logs == c.h.logs
  {
    hide CoreInv, Grows;
    AckKeeps(c, v, last);
    c' := Ack(c, v, last);
    assert c.disk[v := c.disk[v]] == c.disk;
  }

  /** The follower's log agrees with its leader's for n entries; a request through `last` makes it log'. */
  ghost predicate Adopted(log: seq<Entry>, ll: seq<Entry>, n: nat, last: nat, log': seq<Entry>, unstable: nat) {
    && n <= last <= |ll| && Agree(log, ll, n)
    && if n == last then log' == log && unstable == |log| + 1
       else log' == ll[..last] && unstable == n + 1 && (n < |log| ==> log[n].term != ll[n].term)
  }

  lemma AdoptShape(c: Core, s: NodeState, b: Body, ll: seq<Entry>) returns (n: nat)
    requires GoodLog(c.h, s.log) && GoodLog(c.h, ll) && b.AppendEntries? && ValidAppend(b) && PieceOf(b, ll)
    requires TermAt(s.log, b.prevLogIndex) == Some(b.prevLogTerm) && s.unstableIndex == |s.log| + 1
    ensures var s' := AdoptEntries(s, b);
      Adopted(s.log, ll, n, b.prevLogIndex + |b.entries|, s'.log, s'.unstableIndex)
  {
    hide GoodLog;
    RequestMatches(c, s.log, ll, b);
    AdoptedLog(c, s.log, ll, b);
    n := b.prevLogIndex + FirstConflict(s.log, b.entries, 0);
  }

  /** The durable effect of a follower's append, stage by stage. */
  lemma AdoptCore(c: Core, v: NodeID, n: nat, last: nat, log': seq<Entry>, unstable: nat)
    returns (cut: Core, full: Core)
    requires CoreInv(c) && v in c.disk && c.disk[v].hard.term in c.h.logs
    requires Adopted(c.disk[v].log, c.h.logs[c.disk[v].hard.term], n, last, log', unstable)
    ensures 1 <= unstable <= |c.disk[v].log| + 1
    ensures Stage(c, cut, v, c.disk[v].(log := c.disk[v].log[..unstable - 1]))
    ensures Stage(c, full, v, c.disk[v].(log := log'))
    ensures Acked(full.h, v, c.disk[v].hard.term, last)
    ensures Agree(log', c.h.logs[c.disk[v].hard.term], last)
  {
    hide CoreInv, Stage;
    var log := c.disk[v].log;
    assert log[..|log|] == log;
    if n < last {
      cut, full := FollowLeader(c, v, n, last);
    } else {
      SameStage(c, v);
      cut := c;
      full := Acknowledge(c, v, last);
    }
  }

  lemma DiskAndLeaderGood(c: Core, v: NodeID)
    requires CoreInv(c) && v in c.disk
    ensures GoodLog(c.h, c.disk[v].log)
    ensures c.disk[v].hard.term in c.h.logs ==> GoodLog(c.h, c.h.logs[c.disk[v].hard.term])
  {
    assert c.disk[v].hard.term in c.h.logs ==> LeaderLogOk(c, c.disk[v].hard.term);
  }

  /** Adopting a request never drops a committed entry and never lowers the commit index. */
  lemma CommitSpared(c: Core, s: NodeState, b: Body, ll: seq<Entry>, n: nat)
    requires b.AppendEntries? && ValidAppend(b) && b.leaderCommit <= b.prevLogIndex + |b.entries|
    requires s.commitIndex <= |s.log| && Agree(s.log, ll, s.commitIndex)
    requires var s' := AdoptEntries(s, b);
      Adopted(s.log, ll, n, b.prevLogIndex + |b.entries|, s'.log, s'.unstableIndex)
    ensures var s' := AdoptEntries(s, b);
      && s'.commitIndex == (if b.leaderCommit > s.commitIndex then b.leaderCommit else s.commitIndex)
      && (n == b.prevLogIndex + |b.entries| || s.commitIndex <= n)
      && Agree(s.log, s'.log, s.commitIndex)
      && Agree(ll, s'.log, b.prevLogIndex + |b.entries|)
  {
    hide ValidAppend, AppendFromLeader, FirstChanged;
  }

  lemma AdoptNode(c: Core, full: Core, s: NodeState, b: Body, n: nat)
    requires CoreInv(c) && NodeOk(c, s) && s.role == Follower && s.hard.term in c.h.logs
    requires full.peers == c.peers && Grows(c.h, full.h)
    requires b.AppendEntries? && ValidAppend(b) && b.leaderCommit <= b.prevLogIndex + |b.entries|
    requires var s', ll := AdoptEntries(s, b), c.h.logs[s.hard.term];
      && Adopted(s.log, ll, n, b.prevLogIndex + |b.entries|, s'.log, s'.unstableIndex)
      && s.cfg.id in full.disk && full.disk[s.cfg.id] == Durable(s.hard, s'.log)
      && CommittedUpTo(c, ll, b.leaderCommit, s.hard.term)
    ensures NodeOk(full, AdoptEntries(s, b)) && AdoptEntries(s, b).commitIndex >= s.commitIndex
  {
    hide CoreInv, MsgOk, CommittedUpTo, Grows, Adopted, ValidAppend;
    var s', ll, t := AdoptEntries(s, b), c.h.logs[s.hard.term], s.hard.term;
    CommittedInLeader(c, s.log, s.commitIndex, t);
    CommitSpared(c, s, b, ll, n);
    MessagesGrow(c, full, s.messages);
    if b.leaderCommit > s.commitIndex {
      CommittedUpToGrows(c, full, ll, s'.log, b.leaderCommit, t, t);
    } else {
      CommittedUpToGrows(c, full, s.log, s'.log, s.commitIndex, t, t);
    }
  }

  lemma YieldOk(c: Core, s: NodeState)
    requires NodeOk(c, s)
    ensures NodeOk(c, YieldToLeader(s))
  {
    hide MsgOk, CommittedUpTo;
  }

  lemma AppendRequestFacts(c: Core, m: Message)
    requires m.body.AppendEntries? && MsgOk(c, m)
    ensures m.term in c.h.logs && PieceOf(m.body, c.h.logs[m.term])
    ensures m.body.leaderCommit <= m.body.prevLogIndex + |m.body.entries|
    ensures CommittedUpTo(c, c.h.logs[m.term], m.body.leaderCommit, m.term)
  {}

  lemma AdoptStages(c: Core, s: NodeState, m: Message) returns (st: Stages)
    requires Steady(c, s) && s.role == Follower && m.body.AppendEntries? && MsgOk(c, m) && m.term == s.hard.term
    requires ValidAppend(m.body) && TermAt(s.log, m.body.prevLogIndex) == Some(m.body.prevLogTerm)
    ensures StagesOk(c, st, s, Reply(AdoptEntries(s, m.body), m.from,
                                     AppendEntriesResp(s.hard.term, true, m.body.prevLogIndex + |m.body.entries|)))
  {
    hide CoreInv, NodeOk, MsgOk, AdoptEntries, ValidAppend, PieceOf, CommittedUpTo, GoodLog, Adopted;
    var b := m.body;
    var last := b.prevLogIndex + |b.entries|;
    NodeDisk(c, s);
    AppendRequestFacts(c, m);
    DiskAndLeaderGood(c, s.cfg.id);
    var n := AdoptShape(c, s, b, c.h.logs[m.term]);
    var s1 := AdoptEntries(s, b);
    var cut, full := AdoptCore(c, s.cfg.id, n, last, s1.log, s1.unstableIndex);
    AdoptNode(c, full, s, b, n);
    AdoptFrame(s, b);
    AckPromised(full, s1, m.from, last);
    SameStage(c, s.cfg.id);
    st := Stages(c, cut, full);
  }

  lemma AdoptFrame(s: NodeState, b: Body)
    requires b.AppendEntries? && ValidAppend(b)
    ensures var s' := AdoptEntries(s, b); s'.hard == s.hard && s'.cfg == s.cfg && s'.lastApplied == s.lastApplied
  {}

  lemma AckPromised(c: Core, s: NodeState, to: NodeID, last: nat)
    requires NodeOk(c, s) && Acked(c.h, s.cfg.id, s.hard.term, last)
    ensures NodeOk(c, Reply(s, to, AppendEntriesResp(s.hard.term, true, last)))
  {
    hide NodeOk;
    ReplyOk(c, s, to, AppendEntriesResp(s.hard.term, true, last));
  }

  lemma Refused(c: Core, s: NodeState, to: NodeID, body: Body)
    requires NodeOk(c, s)
    requires body == AppendEntriesResp(s.hard.term, false, 0) || body == RequestVoteResp(s.hard.term, false)
    ensures NodeOk(c, Reply(s, to, body))
  {
    hide NodeOk;
    ReplyOk(c, s, to, body);
  }

  lemma AppendEntriesStages(c: Core, s: NodeState, m: Message) returns (st: Stages)
    requires Steady(c, s) && m.body.AppendEntries? && MsgOk(c, m) && m.term == s.hard.term
    ensures StagesOk(c, st, s, HandleAppendEntries(s, m))
  {
    hide CoreInv, NodeOk, MsgOk, AdoptEntries;
    NodeDisk(c, s);
    YieldOk(c, s);
    var s1 := YieldToLeader(s);
    if ValidAppend(m.body) && TermAt(s1.log, m.body.prevLogIndex) == Some(m.body.prevLogTerm) {
      st := AdoptStages(c, s1, m);
    } else {
      Refused(c, s1, m.from, AppendEntriesResp(s.hard.term, false, 0));
      Unchanged(c, s, HandleAppendEntries(s, m));
      st := Stages(c, c, c);
    }
  }

  // ----- Any input -----

  lemma MessageTermIs(c: Core, m: Message)
    requires MsgOk(c, m)
    ensures MessageTerm(m) == m.term
  {}

  lemma DispatchStages(c: Core, s: NodeState, m: Message) returns (st: Stages)
    requires Steady(c, s) && MsgOk(c, m) && m.term == s.hard.term && m.to == s.cfg.id
    ensures StagesOk(c, st, s, Dispatch(s, m))
  {
    hide MsgOk, StagesOk, HandleRequestVote, HandleRequestVoteResp, HandleAppendEntries, HandleAppendEntriesResp;
    match m.body
    case NoBody =>
      hide CoreInv, NodeOk;
      NodeDisk(c, s);
      Unchanged(c, s, s);
      st := Stages(c, c, c);
    case RequestVote(_, _, _, _) => hide Steady; st := RequestVoteStages(c, s, m);
    case AppendEntries(_, _, _, _, _, _) => hide Steady; st := AppendEntriesStages(c, s, m);
    case RequestVoteResp(_, _) => hide Steady; st := VoteRespStages(c, s, m);
    case AppendEntriesResp(_, _, _) => hide Steady; st := AppendRespStages(c, s, m);
  }

  /** A higher term is stored with whatever else the message causes. */
  lemma StagesAfterBump(c: Core, c1: Core, st: Stages, s: NodeState, s1: NodeState, s': NodeState)
    requires Stage(c, c1, s.cfg.id, Durable(s1.hard, s.log)) && StagesOk(c1, st, s1, s')
    requires s1.cfg == s.cfg && s1.commitIndex == s.commitIndex && s1.lastApplied == s.lastApplied
    requires s.cfg.id in c.disk && c.disk[s.cfg.id].log == s.log
    ensures StagesOk(c, st, s, s')
  {
    hide CoreInv, NodeOk;
    GrowsTransitive(c.h, c1.h, st.hard.h);
    GrowsTransitive(c.h, c1.h, st.cut.h);
    GrowsTransitive(c.h, c1.h, st.full.h);
  }

  lemma ReceiveStages(c: Core, s: NodeState, m: Message, draw: nat) returns (st: Stages)
    requires Steady(c, s) && MsgOk(c, m) && m.to == s.cfg.id
    ensures StagesOk(c, st, s, StepMessage(s, m, draw))
  {
    hide CoreInv, NodeOk, MsgOk, Dispatch, Stage, StagesOk;
    MessageTermIs(c, m);
    NodeDisk(c, s);
    if m.term < s.hard.term {
      st := Stages(c, c, c);
      if m.body.RequestVote? { Refused(c, s, m.from, RequestVoteResp(s.hard.term, false)); }
      if m.body.AppendEntries? { Refused(c, s, m.from, AppendEntriesResp(s.hard.term, false, 0)); }
      Unchanged(c, s, StepMessage(s, m, draw));
    } else if m.term > s.hard.term {
      FollowOk(c, s, m.term, draw);
      var c1, s1 := Bump(c, s.cfg.id, m.term), BecomeFollower(s, m.term, draw);
      StageFacts(c, c1, s.cfg.id, Durable(s1.hard, s.log));
      MsgOkGrows(c, c1, m);
      st := DispatchStages(c1, s1, m);
      StagesAfterBump(c, c1, st, s, s1, StepMessage(s, m, draw));
    } else {
      st := DispatchStages(c, s, m);
    }
  }

  lemma StageFacts(c: Core, c': Core, v: NodeID, d: Durable)
    requires Stage(c, c', v, d)
    ensures CoreInv(c') && Grows(c.h, c'.h) && c'.peers == c.peers
  {}

  /** Whatever the input, every disk the cycle can leave is covered and the node stays in order. */
  lemma HandleStages(c: Core, s: NodeState, input: Input) returns (st: Stages)
    requires Steady(c, s)
    requires input.Receive? ==> MsgOk(c, input.m) && input.m.to == s.cfg.id
    ensures StagesOk(c, st, s, Handle(s, input))
  {
    hide Steady, MsgOk, StagesOk, TickNode, StepMessage, ProposeData;
    match input
    case Tick(draw) => st := TickStages(c, s, draw);
    case Receive(m, draw) => st := ReceiveStages(c, s, m, draw);
    case Propose(data) => st := ProposeStages(c, s, data);
  }
}
