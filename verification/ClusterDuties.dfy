/**
 What no node of a running cluster leaves undone, in every state of every run: commitment
 follows acknowledgement, every follower is being served, every election is really held and
 counted, votes are cast and entries accepted whenever the protocol allows it.
 */
module ClusterDuties {
  import opened RaftTypes
  import opened RaftSpec
  import opened Storage
  import opened Cluster
  import opened RaftHistory
  import opened RaftVolatile
  import opened ClusterInvariant
  import opened RaftDuties
  import S = ClusterSafety
  import P = Persistence

  ghost predicate Live(c: System, p: NodeID) { p in c.procs && c.procs[p].live.Some? }

  ghost function StateOf(c: System, p: NodeID): NodeState
    requires Live(c, p)
  {
    c.procs[p].live.value
  }

  ghost predicate AllDiligent(c: System) { forall p :: Live(c, p) ==> Diligent(StateOf(c, p), c.net) }

  lemma LiveConfigured(c: System, k: Core, p: NodeID)
    requires Inv(c, k) && Live(c, p)
    ensures var s := StateOf(c, p);
      && Configured(s.cfg) && s.cfg.id == p && s.cfg.peers == c.cfg.peers && s.messages == []
      && (s.role != Follower ==> s.hard.votedFor == s.cfg.id)
  {
    hide CoreInv, MsgOk, CommittedSeq, CommittedUpTo;
    RunningFacts(c, k, p, StateOf(c, p));
  }

  lemma DriveDiligent(c: System, k: Core, id: NodeID, input: Input, out: Outcome)
    requires Inv(c, k) && AllDiligent(c) && Enabled(c, Drive(id, input, out))
    ensures AllDiligent(Exec(c, Drive(id, input, out)))
  {
    hide Inv, Handle, Diligent, Configured, Save, BatchRecords, ApplyRecords, ReadyOf, Advance, TakeReady, Deliver;
    var c' := Exec(c, Drive(id, input, out));
    forall p | Live(c', p) ensures Diligent(StateOf(c', p), c'.net) {
      if p != id {
        assert Live(c, p);
        StaysDiligent(StateOf(c, p), c.net, c'.net);
      } else {
        var s := StateOf(c, id);
        assert Live(c, id);
        LiveConfigured(c, k, id);
        HandleDiligent(s, input, c.net);
        AdvanceDiligent(Handle(s, input), c'.net);
      }
    }
  }

  lemma StepDiligent(c: System, k: Core, step: Step)
    requires Inv(c, k) && AllDiligent(c)
    ensures AllDiligent(Exec(c, step))
  {
    if Enabled(c, step) && step.Drive? {
      hide Inv, Exec, AllDiligent, Enabled;
      DriveDiligent(c, k, step.id, step.input, step.outcome);
    } else {
      hide Inv, Diligent, NewNode, Handle;
      var c' := Exec(c, step);
      forall p | Live(c', p) ensures Diligent(StateOf(c', p), c'.net) {
        if step.Restart? && Enabled(c, step) && p == step.id {
          BootedDiligent(NodeConfig(c, p), c.procs[p].disk.hard, c.procs[p].disk.log, step.draw, c.net);
        } else {
          assert Live(c, p);
        }
      }
    }
  }

  /** In every reachable state every live node has done all it owes. */
  lemma {:induction false} DutiesKept(cfg: Config, steps: seq<Step>)
    requires ValidCluster(cfg)
    ensures AllDiligent(Run(Initial(cfg), steps))
    decreases |steps|
  {
    hide Inv, Exec, Diligent, ValidCluster;
    if steps != [] {
      var before := steps[..|steps| - 1];
      DutiesKept(cfg, before);
      var k := S.Reachable(cfg, before);
      hide AllDiligent;
      StepDiligent(Run(Initial(cfg), before), k, steps[|steps| - 1]);
    }
  }

  /** What a live node of a run looks like. */
  lemma LiveFacts(cfg: Config, steps: seq<Step>, p: NodeID)
    requires ValidCluster(cfg) && Live(Run(Initial(cfg), steps), p)
    ensures var c := Run(Initial(cfg), steps);
      var s := StateOf(c, p);
      && Diligent(s, c.net) && Configured(s.cfg) && s.cfg.id == p && s.cfg.peers == cfg.peers && s.messages == []
  {
    hide Inv, Initial, Diligent, Configured, ValidCluster;
    DutiesKept(cfg, steps);
    var k := S.Reachable(cfg, steps);
    LiveConfigured(Run(Initial(cfg), steps), k, p);
    RunConfig(Initial(cfg), steps);
    StartsWith(cfg);
  }

  lemma {:induction false} RunConfig(c: System, steps: seq<Step>)
    ensures Run(c, steps).cfg == c.cfg && Run(c, steps).procs.Keys == c.procs.Keys
    decreases |steps|
  {
    hide Handle, Finish, Sent, NewNode;
    if steps != [] { RunConfig(c, steps[..|steps| - 1]); }
  }

  // ----- The leader's duties -----

  /** No entry of the leader's own term is known to be on a majority of the peers and not committed. */
  lemma MajorityIsCommitted(cfg: Config, steps: seq<Step>, p: NodeID, i: nat)
    requires ValidCluster(cfg) && Live(Run(Initial(cfg), steps), p)
    requires var s := StateOf(Run(Initial(cfg), steps), p);
      s.role == Leader && s.commitIndex < i <= |s.log| && s.log[i - 1].term == s.hard.term
    ensures var s := StateOf(Run(Initial(cfg), steps), p);
      2 * |set q | q in cfg.peers && q in s.matchIndex && s.matchIndex[q] >= i| <= |cfg.peers|
  {
    hide Run, Initial, AllServed, Configured, ValidCluster;
    LiveFacts(cfg, steps, p);
    var s := StateOf(Run(Initial(cfg), steps), p);
    var held := set q | q in cfg.peers && q in s.matchIndex && s.matchIndex[q] >= i;
    assert Holders(s.cfg.peers, s.matchIndex, i) == held;
  }

  /**
   A leader forgets no peer: one that is not known to hold the whole log has a request in the
   network that carries the leader's own entries, from the position being tried for that peer on.
   */
  lemma EveryPeerServed(cfg: Config, steps: seq<Step>, p: NodeID, q: NodeID)
    requires ValidCluster(cfg) && Live(Run(Initial(cfg), steps), p)
    requires StateOf(Run(Initial(cfg), steps), p).role == Leader && q in cfg.peers && q != p
    ensures var c := Run(Initial(cfg), steps);
      var s := StateOf(c, p);
      && Get(s.matchIndex, p) == |s.log|
      && (q !in s.inflight ==> Get(s.matchIndex, q) == |s.log|)
      && (q in s.inflight ==> exists m :: m in c.net && m.from == p && m.to == q && CarriesOn(s, q, m))
  {
    hide Run, Initial, NothingWaiting, Configured, ValidCluster;
    LiveFacts(cfg, steps, p);
    var c := Run(Initial(cfg), steps);
    var s := StateOf(c, p);
    assert Served(s, q, c.net);
    if q in s.inflight {
      var r := s.inflight[q];
      var m := Message(p, q, s.hard.term,
                       AppendEntries(s.hard.term, p, r.prevIndex, r.prevTerm, s.log[r.prevIndex..r.lastIndex],
                                     r.leaderCommit));
      assert CarriesOn(s, q, m);
    }
  }

  /** The request continues the log of leader s at the position tried for q. */
  ghost predicate CarriesOn(s: NodeState, q: NodeID, m: Message) {
    && m.term == s.hard.term && m.body.AppendEntries? && m.body.appendTerm == s.hard.term
    && Get(s.matchIndex, q) <= m.body.prevLogIndex && m.body.prevLogIndex + 1 == Get(s.nextIndex, q)
    && m.body.prevLogIndex + |m.body.entries| <= |s.log|
    && m.body.entries == s.log[m.body.prevLogIndex..m.body.prevLogIndex + |m.body.entries|]
    && m.body.prevLogTerm == if m.body.prevLogIndex == 0 then 0 else s.log[m.body.prevLogIndex - 1].term
  }

  /** What a leader counts on is there: a peer of its term stores the leader's log up to its match index. */
  lemma MatchIsStored(cfg: Config, steps: seq<Step>, p: NodeID, q: NodeID)
    requires ValidCluster(cfg) && Live(Run(Initial(cfg), steps), p) && q in Run(Initial(cfg), steps).procs
    requires var c := Run(Initial(cfg), steps);
      StateOf(c, p).role == Leader && c.procs[q].disk.hard.term == StateOf(c, p).hard.term
    ensures var c := Run(Initial(cfg), steps);
      var s := StateOf(c, p);
      var n := Get(s.matchIndex, q);
      n <= |s.log| && n <= |c.procs[q].disk.log| && c.procs[q].disk.log[..n] == s.log[..n]
  {
    hide Run, Initial, CoreInv, NodeOk, MsgOk, LiveOk, CommittedSeq;
    var c := Run(Initial(cfg), steps);
    var k := S.Reachable(cfg, steps);
    var s := StateOf(c, p);
    RunningFacts(c, k, p, s);
    assert ProcOk(c, k, q);
    MatchStored(k, s, q);
  }

  lemma MatchStored(k: Core, s: NodeState, q: NodeID)
    requires CoreInv(k) && NodeOk(k, s) && s.role == Leader && q in k.disk && k.disk[q].hard.term == s.hard.term
    ensures var n := Get(s.matchIndex, q);
      n <= |s.log| && n <= |k.disk[q].log| && k.disk[q].log[..n] == s.log[..n]
  {
    hide CommittedUpTo, InflightOk, VotesInv, CandsInv, LogsInv, DiskInv, AcksInv, CarryInv, MsgOk, CandidateOk;
    LeaderHolds(k, s);
    var n := Get(s.matchIndex, q);
    if n > 0 {
      assert StillStores(k.h, q, k.disk[q]);
      assert Acked(k.h, q, s.hard.term, n) && Kept(k.h, s.hard.term, n, s.hard.term + 1);
    }
  }

  // ----- Elections and timers -----

  /** A candidate has asked every other peer, for its own log, and is not yet elected by the votes it counted. */
  lemma CandidateAsksAll(cfg: Config, steps: seq<Step>, p: NodeID)
    requires ValidCluster(cfg) && Live(Run(Initial(cfg), steps), p)
    requires StateOf(Run(Initial(cfg), steps), p).role == Candidate
    ensures var c := Run(Initial(cfg), steps);
      var s := StateOf(c, p);
      && 2 * |s.votes| <= |cfg.peers| && p in s.votes
      && var lastTerm := if s.log == [] then 0 else s.log[|s.log| - 1].term;
      && var ask := RequestVote(s.hard.term, p, |s.log|, lastTerm);
      && forall q :: q in cfg.peers && q != p ==> Message(p, q, s.hard.term, ask) in c.net
  {
    hide Run, Initial, Configured, ValidCluster;
    LiveFacts(cfg, steps, p);
    var c := Run(Initial(cfg), steps);
    var s := StateOf(c, p);
    forall q | q in cfg.peers && q != p
      ensures Message(p, q, s.hard.term, RequestVote(s.hard.term, p, |s.log|, LastTerm(s.log))) in c.net
    {
      assert VoteRequest(s, q) in c.net;
    }
  }

  /** No election or heartbeat is overdue, and the election timeout lies within the configured span. */
  lemma TimersWithin(cfg: Config, steps: seq<Step>, p: NodeID)
    requires ValidCluster(cfg) && Live(Run(Initial(cfg), steps), p)
    ensures var s := StateOf(Run(Initial(cfg), steps), p);
      && s.electionElapsed < s.electionTimeout
      && (s.role == Leader ==> s.heartbeatElapsed < if cfg.heartbeatTicks == 0 then 2 else cfg.heartbeatTicks)
      && var lo := if cfg.electionMin == 0 then 10 else cfg.electionMin;
      && var hi := if cfg.electionMax == 0 then 20 else cfg.electionMax;
      && lo <= s.electionTimeout && (s.electionTimeout == lo || s.electionTimeout < hi)
  {
    hide Inv, Run, Initial, Leads, Asking, Configured, ValidCluster, CoreInv, NodeOk, CommittedSeq;
    LiveFacts(cfg, steps, p);
    var c := Run(Initial(cfg), steps);
    var k := S.Reachable(cfg, steps);
    RunningFacts(c, k, p, StateOf(c, p));
    RunConfig(Initial(cfg), steps);
    StartsWith(cfg);
  }

  /** The timeout is randomized over the whole span: each of its values comes up for some draw. */
  lemma EveryTimeoutPossible(cfg: Config, steps: seq<Step>, p: NodeID, timeout: nat)
    requires p in Run(Initial(cfg), steps).procs && !Live(Run(Initial(cfg), steps), p)
    requires var lo := if cfg.electionMin == 0 then 10 else cfg.electionMin;
      var hi := if cfg.electionMax == 0 then 20 else cfg.electionMax;
      lo <= timeout < hi
    ensures var lo := if cfg.electionMin == 0 then 10 else cfg.electionMin;
      var c := Exec(Run(Initial(cfg), steps), Restart(p, timeout - lo));
      Live(c, p) && StateOf(c, p).electionTimeout == timeout && StateOf(c, p).electionElapsed == 0
  {
    hide Run, Initial, Handle;
    RunConfig(Initial(cfg), steps);
    StartsWith(cfg);
  }

  lemma StartsWith(cfg: Config)
    ensures Initial(cfg).cfg == cfg
  {}
}
