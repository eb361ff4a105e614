/**
 The cluster is never stuck: from every state a run can reach there is a continuation that
 elects a leader and has every node apply a new proposal. The continuation is built here:
 reboot everyone, let the node with the newest log campaign, collect the votes, propose, bring
 every follower up to date, and announce the commit index.
 */
module ClusterProgress {
  import opened RaftTypes
  import opened RaftSpec
  import opened Storage
  import opened Cluster
  import opened ClusterInvariant
  import opened RaftDuties
  import opened ClusterDuties
  import opened ClusterAnswers
  import S = ClusterSafety
  import H = RaftHistory
  import V = RaftVolatile
  import P = Persistence

  ghost function At(cfg: Config, steps: seq<Step>): System { Run(Initial(cfg), steps) }

  lemma AtNext(cfg: Config, steps: seq<Step>, step: Step)
    ensures At(cfg, steps + [step]) == Exec(At(cfg, steps), step)
  {
    hide Exec;
    assert (steps + [step])[..|steps|] == steps;
  }

  /** Only the processes in `moved` changed, and nothing sent was lost. */
  ghost predicate Apart(c: System, c': System, moved: set<NodeID>) {
    && c'.procs.Keys == c.procs.Keys && c.net <= c'.net
    && forall q :: q in c.procs && q !in moved ==> c'.procs[q] == c.procs[q]
  }

  lemma ApartChain(a: System, b: System, c: System, moved: set<NodeID>)
    requires Apart(a, b, moved) && Apart(b, c, moved)
    ensures Apart(a, c, moved)
  {}

  /** One undisturbed cycle of node p. */
  lemma Cycle(cfg: Config, steps: seq<Step>, p: NodeID, input: Input) returns (steps': seq<Step>)
    requires ValidCluster(cfg) && Live(At(cfg, steps), p)
    requires input.Receive? ==> input.m in At(cfg, steps).net && input.m.to == p
    ensures steps' == steps + [Drive(p, input, Done)] && At(cfg, steps') == Exec(At(cfg, steps), steps'[|steps|])
    ensures var c, c' := At(cfg, steps), At(cfg, steps');
      var s' := Handle(StateOf(c, p), input);
      && Live(c', p) && StateOf(c', p) == AtRest(s') && Apart(c, c', {p})
      && c'.net == c.net + MessageSet(s'.messages)
  {
    hide Inv, Initial, Run, Handle, Exec;
    var k := S.Reachable(cfg, steps);
    var c := At(cfg, steps);
    assert Enabled(c, Drive(p, input, Done));
    CycleCompletes(c, k, p, input);
    steps' := steps + [Drive(p, input, Done)];
    AtNext(cfg, steps, Drive(p, input, Done));
  }

  // ----- Everyone boots -----

  lemma Boot(cfg: Config, steps: seq<Step>, q: NodeID) returns (steps': seq<Step>)
    requires q in At(cfg, steps).procs
    ensures steps <= steps' && Apart(At(cfg, steps), At(cfg, steps'), {q})
    ensures var c, c' := At(cfg, steps), At(cfg, steps');
      Live(c', q) && StateOf(c', q).role == Follower && c'.procs[q].disk == c.procs[q].disk
  {
    hide Initial, Run, Handle;
    var crash, restart := Crash(q), Restart(q, 0);
    AtNext(cfg, steps, crash);
    AtNext(cfg, steps + [crash], restart);
    steps' := steps + [crash] + [restart];
  }

  /** The first k peers run as followers; no disk changed since c. */
  ghost predicate Booted(cfg: Config, c: System, c': System, k: nat) {
    && k <= |cfg.peers| && c'.procs.Keys == c.procs.Keys
    && (forall q :: q in c.procs ==> c'.procs[q].disk == c.procs[q].disk)
    && forall j :: 0 <= j < k ==> Live(c', cfg.peers[j]) && StateOf(c', cfg.peers[j]).role == Follower
  }

  lemma {:induction false} BootAll(cfg: Config, steps: seq<Step>, k: nat) returns (steps': seq<Step>)
    requires k <= |cfg.peers|
    ensures steps <= steps' && Booted(cfg, At(cfg, steps), At(cfg, steps'), k)
  {
    hide At;
    if k == 0 {
      steps' := steps;
    } else {
      var steps1 := BootAll(cfg, steps, k - 1);
      PeersThere(cfg, steps1, cfg.peers[k - 1]);
      steps' := Boot(cfg, steps1, cfg.peers[k - 1]);
    }
  }

  lemma PeersThere(cfg: Config, steps: seq<Step>, q: NodeID)
    ensures q in At(cfg, steps).procs <==> q in cfg.peers
  {
    hide Run;
    RunConfig(Initial(cfg), steps);
    assert Initial(cfg).procs.Keys == set id | id in cfg.peers;
  }

  // ----- The newest log -----

  ghost predicate NewerThan(a: seq<Entry>, b: seq<Entry>) { NotOlder(LastTerm(a), |a|, b) }

  lemma {:induction false} NewestLog(cfg: Config, c: System, k: nat) returns (p: NodeID)
    requires 1 <= k <= |cfg.peers| && forall q :: q in cfg.peers ==> q in c.procs
    ensures p in cfg.peers
    ensures forall j :: 0 <= j < k ==> NewerThan(c.procs[p].disk.log, c.procs[cfg.peers[j]].disk.log)
  {
    p := cfg.peers[k - 1];
    if k > 1 {
      var r := NewestLog(cfg, c, k - 1);
      if NewerThan(c.procs[r].disk.log, c.procs[p].disk.log) {
        p := r;
      }
    }
  }

  ghost function TermBound(cfg: Config, c: System, k: nat): (t: nat)
    requires k <= |cfg.peers| && forall q :: q in cfg.peers ==> q in c.procs
    ensures forall j :: 0 <= j < k ==> c.procs[cfg.peers[j]].disk.hard.term < t
  {
    if k == 0 then 0
    else
      var t, u := TermBound(cfg, c, k - 1), c.procs[cfg.peers[k - 1]].disk.hard.term;
      if u < t then t else u + 1
  }

  // ----- Campaigning -----

  /** A tick below the timeout only counts; at the timeout the node enters the next term as candidate. */
  lemma TickCounts(s: NodeState, draw: nat)
    requires s.role != Leader && Configured(s.cfg)
    ensures var s' := Handle(s, Tick(draw));
      if s.electionElapsed + 1 < s.electionTimeout then s' == s.(electionElapsed := s.electionElapsed + 1)
      else
        && s'.hard.term == s.hard.term + 1
        && if |s.cfg.peers| == 1 then s'.role == Leader && |s'.log| == |s.log| + 1
           else s'.role == Candidate && s'.log == s.log
  {
    hide BecomeLeader, RequestVotesUpTo;
    var s1 := Campaign(s.(electionElapsed := s.electionElapsed + 1), draw);
    RequestsSent(s1, |s1.cfg.peers|);
    LeaderBegins(s1);
  }

  /** Node p campaigns in term t, or already leads because there is nobody else. */
  ghost predicate Campaigning(cfg: Config, c: System, p: NodeID, t: nat, log: seq<Entry>) {
    && Live(c, p) && var s := StateOf(c, p);
    && s.hard.term == t
    && if |cfg.peers| == 1 then s.role == Leader && |s.log| == |log| + 1 else s.role == Candidate && s.log == log
  }

  ghost function TicksLeft(s: NodeState): int { s.electionTimeout - s.electionElapsed }

  /** Left to itself, a node that does not lead campaigns in ever higher terms. */
  lemma {:induction false} Campaigns(cfg: Config, steps: seq<Step>, p: NodeID, bound: nat)
    returns (steps': seq<Step>, t: nat)
    requires ValidCluster(cfg) && Live(At(cfg, steps), p)
    requires var s := StateOf(At(cfg, steps), p); s.role != Leader && s.hard.term < bound
    ensures steps <= steps' && Apart(At(cfg, steps), At(cfg, steps'), {p})
    ensures Campaigning(cfg, At(cfg, steps'), p, t, StateOf(At(cfg, steps), p).log) && (|cfg.peers| == 1 || t >= bound)
    decreases bound - StateOf(At(cfg, steps), p).hard.term, TicksLeft(StateOf(At(cfg, steps), p))
  {
    hide At, Handle, ValidCluster, Diligent, Configured;
    var c := At(cfg, steps);
    var s := StateOf(c, p);
    LiveAt(cfg, steps, p);
    TickCounts(s, 0);
    steps' := Cycle(cfg, steps, p, Tick(0));
    var s' := StateOf(At(cfg, steps'), p);
    t := s'.hard.term;
    if s'.role != Leader && (s'.hard.term == s.hard.term || s'.hard.term < bound) {
      var first := steps';
      TimerShort(s, c.net);
      steps', t := Campaigns(cfg, first, p, bound);
      ApartChain(c, At(cfg, first), At(cfg, steps'), {p});
    }
  }

  lemma TimerShort(s: NodeState, sent: set<Message>)
    requires Diligent(s, sent)
    ensures s.electionElapsed < s.electionTimeout
  {}

  lemma LiveAt(cfg: Config, steps: seq<Step>, p: NodeID)
    requires ValidCluster(cfg) && Live(At(cfg, steps), p)
    ensures var c := At(cfg, steps);
      var s := StateOf(c, p);
      && Diligent(s, c.net) && Configured(s.cfg) && s.cfg.id == p && s.cfg.peers == cfg.peers && s.messages == []
      && p in cfg.peers
  {
    hide Run, Initial, Diligent, Configured, ValidCluster;
    LiveFacts(cfg, steps, p);
    PeersThere(cfg, steps, p);
  }

  // ----- Collecting the votes -----

  /** Node q follows in term t. */
  ghost predicate Follows(c: System, q: NodeID, t: nat) {
    Live(c, q) && StateOf(c, q).role == Follower && StateOf(c, q).hard.term == t
  }

  /** Node q can still be won over by the holder of `log` in term t. */
  ghost predicate Winnable(c: System, q: NodeID, t: nat, log: seq<Entry>) {
    Live(c, q) && StateOf(c, q).hard.term < t && NewerThan(log, StateOf(c, q).log)
  }

  /** The first k peers follow p in term t; the others can be won; p leads or holds the votes so far. */
  ghost predicate Polled(cfg: Config, c: System, p: NodeID, t: nat, log: seq<Entry>, k: nat) {
    && k <= |cfg.peers| && Live(c, p)
    && (forall j :: 0 <= j < k && cfg.peers[j] != p ==> Follows(c, cfg.peers[j], t))
    && (forall j :: k <= j < |cfg.peers| && cfg.peers[j] != p ==> Winnable(c, cfg.peers[j], t, log))
    && (forall q :: q in cfg.peers && q != p ==> Ask(p, q, t, log) in c.net)
    && var s := StateOf(c, p);
    && s.hard.term == t
    && (s.role == Leader ==> |s.log| == |log| + 1)
    && (s.role != Leader ==>
          s.role == Candidate && s.log == log && forall j :: 0 <= j < k ==> cfg.peers[j] in s.votes)
  }

  ghost function Ask(p: NodeID, q: NodeID, t: nat, log: seq<Entry>): Message {
    Message(p, q, t, RequestVote(t, p, |log|, LastTerm(log)))
  }

  /** A granted vote is counted, elects, or comes too late to matter. */
  lemma GrantHandled(s: NodeState, q: NodeID, draw: nat)
    requires s.role != Follower && q in s.cfg.peers
    ensures var s' := Handle(s, Receive(Message(q, s.cfg.id, s.hard.term, RequestVoteResp(s.hard.term, true)), draw));
      && s'.hard == s.hard
      && (s.role == Leader ==> s'.role == Leader && s'.log == s.log)
      && (s.role == Candidate && s'.role == Leader ==> |s'.log| == |s.log| + 1)
      && (s'.role != Leader ==> s'.role == Candidate && s'.log == s.log && s'.votes == s.votes + {q})
  {
    hide BecomeLeader;
    LeaderBegins(s.(votes := s.votes + {q}));
  }

  lemma AskWins(cfg: Config, steps: seq<Step>, p: NodeID, q: NodeID, t: nat, log: seq<Entry>)
    returns (steps': seq<Step>)
    requires ValidCluster(cfg) && Winnable(At(cfg, steps), q, t, log) && Ask(p, q, t, log) in At(cfg, steps).net
    ensures steps <= steps' && Apart(At(cfg, steps), At(cfg, steps'), {q}) && Follows(At(cfg, steps'), q, t)
    ensures Message(q, p, t, RequestVoteResp(t, true)) in At(cfg, steps').net
  {
    hide Run, Initial, Handle, Exec;
    var m := Ask(p, q, t, log);
    VoteAnswered(cfg, steps, q, m, 0);
    steps' := Cycle(cfg, steps, q, Receive(m, 0));
    StoredIsHeld(cfg, steps', q);
  }

  /** Between cycles, memory and disk agree. */
  lemma StoredIsHeld(cfg: Config, steps: seq<Step>, q: NodeID)
    requires ValidCluster(cfg) && Live(At(cfg, steps), q)
    ensures var c := At(cfg, steps);
      && c.procs[q].disk == Durable(StateOf(c, q).hard, StateOf(c, q).log)
      && StateOf(c, q).commitIndex <= |StateOf(c, q).log|
      && var applied := c.procs[q].applied;
      && applied != [] && applied[|applied| - 1] == StateOf(c, q).log[..StateOf(c, q).commitIndex]
  {
    hide Run, Initial, ReadyOf;
    S.IncrementalPersistence(cfg, steps, q);
  }

  lemma {:induction false} CollectVotes(cfg: Config, steps: seq<Step>, p: NodeID, t: nat, log: seq<Entry>, k: nat)
    returns (steps': seq<Step>)
    requires ValidCluster(cfg) && k <= |cfg.peers| && Polled(cfg, At(cfg, steps), p, t, log, 0)
    ensures steps <= steps' && Polled(cfg, At(cfg, steps'), p, t, log, k)
  {
    hide At, ValidCluster, Winnable, Follows, Ask;
    if k == 0 {
      steps' := steps;
    } else {
      var steps1 := CollectVotes(cfg, steps, p, t, log, k - 1);
      steps' := steps1;
      var q := cfg.peers[k - 1];
      if q == p {
        OwnVote(cfg, steps1, p);
      } else {
        steps' := CollectOne(cfg, steps1, p, t, log, k - 1);
      }
    }
  }

  lemma OwnVote(cfg: Config, steps: seq<Step>, p: NodeID)
    requires ValidCluster(cfg) && Live(At(cfg, steps), p)
    ensures var s := StateOf(At(cfg, steps), p); s.role == Candidate ==> p in s.votes
  {
    hide Run, Initial, ValidCluster;
    if StateOf(At(cfg, steps), p).role == Candidate { CandidateAsksAll(cfg, steps, p); }
  }

  lemma CollectOne(cfg: Config, steps: seq<Step>, p: NodeID, t: nat, log: seq<Entry>, k: nat)
    returns (steps': seq<Step>)
    requires ValidCluster(cfg) && k < |cfg.peers| && cfg.peers[k] != p && Polled(cfg, At(cfg, steps), p, t, log, k)
    ensures steps <= steps' && Polled(cfg, At(cfg, steps'), p, t, log, k + 1)
  {
    var q := cfg.peers[k];
    var steps1 := AskWins(cfg, steps, p, q, t, log);
    var c, c1 := At(cfg, steps), At(cfg, steps1);
    hide At, Handle, Ask, NewerThan, Diligent, Configured, Follows, Winnable;
    LiveAt(cfg, steps1, p);
    GrantHandled(StateOf(c1, p), q, 0);
    steps' := Cycle(cfg, steps1, p, Receive(Message(q, p, t, RequestVoteResp(t, true)), 0));
    OthersWait(cfg, c, c1, At(cfg, steps'), p, t, log, k);
  }

  /** Winning peer k over leaves the peers before and after it as they were. */
  lemma OthersWait(cfg: Config, c: System, c1: System, c': System, p: NodeID, t: nat, log: seq<Entry>, k: nat)
    requires ValidCluster(cfg) && k < |cfg.peers| && cfg.peers[k] != p && Polled(cfg, c, p, t, log, k)
    requires Apart(c, c1, {cfg.peers[k]}) && Apart(c1, c', {p}) && Follows(c1, cfg.peers[k], t)
    ensures forall j :: 0 <= j < k + 1 && cfg.peers[j] != p ==> Follows(c', cfg.peers[j], t)
    ensures forall j :: k + 1 <= j < |cfg.peers| && cfg.peers[j] != p ==> Winnable(c', cfg.peers[j], t, log)
  {
    hide NewerThan, Ask;
    forall j | 0 <= j < k + 1 && cfg.peers[j] != p ensures Follows(c', cfg.peers[j], t) {
      assert j < k ==> cfg.peers[j] != cfg.peers[k] && Follows(c, cfg.peers[j], t);
    }
    forall j | k + 1 <= j < |cfg.peers| && cfg.peers[j] != p ensures Winnable(c', cfg.peers[j], t, log) {
      assert cfg.peers[j] != cfg.peers[k] && Winnable(c, cfg.peers[j], t, log);
    }
  }

  /** Once every peer has answered, p leads and everyone else follows. */
  ghost predicate Led(cfg: Config, c: System, p: NodeID, t: nat) {
    && Live(c, p) && StateOf(c, p).role == Leader && StateOf(c, p).hard.term == t
    && forall q :: q in cfg.peers && q != p ==> Follows(c, q, t)
  }

  lemma AllVotesElect(cfg: Config, steps: seq<Step>, p: NodeID, t: nat, log: seq<Entry>)
    requires ValidCluster(cfg) && cfg.peers != [] && Polled(cfg, At(cfg, steps), p, t, log, |cfg.peers|)
    ensures Led(cfg, At(cfg, steps), p, t) && |StateOf(At(cfg, steps), p).log| == |log| + 1
  {
    hide Run, Initial, Follows;
    var s := StateOf(At(cfg, steps), p);
    if s.role != Leader {
      CandidateAsksAll(cfg, steps, p);
      V.PeersCount(cfg.peers);
      assert V.PeerSet(cfg.peers) <= s.votes;
      H.Subset(V.PeerSet(cfg.peers), s.votes);
      assert false;
    }
  }

  // ----- Bringing a follower up to date -----

  /** What one answered request to q does to the leader's view: state s becomes s'. */
  ghost predicate Answers(s: NodeState, s': NodeState, q: NodeID, accepted: bool)
    requires q in s.inflight
  {
    var r := s.inflight[q];
    && s'.hard == s.hard && s'.role == s.role && s'.log == s.log && s'.commitIndex >= s.commitIndex
    && (forall o :: o != q ==> (o in s'.inflight <==> o in s.inflight))
    && if accepted then
         && Get(s'.matchIndex, q) == r.lastIndex
         && (q in s'.inflight ==>
               && (r.lastIndex < |s.log| || s'.commitIndex > s.commitIndex)
               && s'.inflight[q].prevIndex == r.lastIndex && s'.inflight[q].lastIndex == |s.log|)
       else
         && s'.commitIndex == s.commitIndex && Get(s'.matchIndex, q) == Get(s.matchIndex, q)
         && q in s'.inflight && s'.inflight[q].prevIndex == r.prevIndex - 1
  }

  lemma SuccessAnswers(s: NodeState, q: NodeID, sent: set<Message>)
    requires s.role == Leader && q in s.cfg.peers && q != s.cfg.id && q in s.inflight && Tracked(s, q, sent)
    requires |s.log| < MAX_UINT64
    ensures var answer := AppendEntriesResp(s.hard.term, true, s.inflight[q].lastIndex);
      Answers(s, Handle(s, Receive(Message(q, s.cfg.id, s.hard.term, answer), 0)), q, true)
  {
    hide ScanCommit;
    var r := s.inflight[q];
    var s1 := RecordMatch(s, q, r.lastIndex);
    ScanRises(s1, |s1.log|);
    var m := Message(q, s.cfg.id, s.hard.term, AppendEntriesResp(s.hard.term, true, r.lastIndex));
    assert Handle(s, Receive(m, 0)) == OnSuccess(s, q, r.lastIndex);
    assert Acknowledges(s, q, r.lastIndex);
  }

  lemma AnswersAtRest(s: NodeState, s': NodeState, q: NodeID, accepted: bool)
    requires q in s.inflight && Answers(s, s', q, accepted)
    ensures Answers(s, AtRest(s'), q, accepted) && s'.hard == s.hard && s'.role == s.role
  {}

  lemma RejectAnswers(s: NodeState, q: NodeID, sent: set<Message>)
    requires s.role == Leader && q in s.cfg.peers && q != s.cfg.id && q in s.inflight && Tracked(s, q, sent)
    requires s.inflight[q].prevIndex > Get(s.matchIndex, q)
    ensures var answer := AppendEntriesResp(s.hard.term, false, 0);
      Answers(s, Handle(s, Receive(Message(q, s.cfg.id, s.hard.term, answer), 0)), q, false)
  {
    var m := Message(q, s.cfg.id, s.hard.term, AppendEntriesResp(s.hard.term, false, 0));
    assert Handle(s, Receive(m, 0)) == SendAppend(BackOff(s, q), q, false);
  }

  /** The open request of leader state s to q, as it was sent. */
  ghost function Request(s: NodeState, q: NodeID): Message
    requires q in s.inflight && s.inflight[q].prevIndex <= s.inflight[q].lastIndex <= |s.log|
  {
    var r := s.inflight[q];
    Message(s.cfg.id, q, s.hard.term,
            AppendEntries(s.hard.term, s.cfg.id, r.prevIndex, r.prevTerm, s.log[r.prevIndex..r.lastIndex],
                          r.leaderCommit))
  }

  lemma OpenRequest(cfg: Config, steps: seq<Step>, p: NodeID, q: NodeID)
    requires ValidCluster(cfg) && Live(At(cfg, steps), p) && StateOf(At(cfg, steps), p).role == Leader
    requires q in cfg.peers && q != p && q in StateOf(At(cfg, steps), p).inflight
    ensures var c := At(cfg, steps);
      var s := StateOf(c, p);
      && Tracked(s, q, c.net) && s.cfg.id == p && s.cfg.peers == cfg.peers
      && s.inflight[q].prevIndex <= s.inflight[q].lastIndex <= |s.log|
      && Get(s.matchIndex, q) <= s.inflight[q].prevIndex
      && TermAt(s.log, s.inflight[q].prevIndex) == Some(s.inflight[q].prevTerm)
      && Request(s, q) in c.net
  {
    hide At, NothingWaiting, Configured, ValidCluster;
    LiveAt(cfg, steps, p);
    assert Served(StateOf(At(cfg, steps), p), q, At(cfg, steps).net);
  }

  /** A request that starts where the peer is known to agree is accepted. */
  lemma MatchBuildsOn(cfg: Config, steps: seq<Step>, p: NodeID, q: NodeID, t: nat)
    requires ValidCluster(cfg) && Led(cfg, At(cfg, steps), p, t) && q in cfg.peers && q != p
    ensures var s, log := StateOf(At(cfg, steps), p), StateOf(At(cfg, steps), q).log;
      var n := Get(s.matchIndex, q);
      n <= |s.log| && n <= |log| && log[..n] == s.log[..n]
  {
    hide Run, Initial;
    StoredIsHeld(cfg, steps, q);
    MatchIsStored(cfg, steps, p, q);
  }

  /** The follower answers the open request; a refusal means it differed beyond what was known to match. */
  lemma DeliverRequest(cfg: Config, steps: seq<Step>, p: NodeID, q: NodeID, t: nat)
    returns (steps': seq<Step>, accepted: bool)
    requires ValidCluster(cfg) && Led(cfg, At(cfg, steps), p, t) && q in cfg.peers && q != p
    requires var s := StateOf(At(cfg, steps), p); q in s.inflight && |s.log| < MAX_UINT64
    ensures steps <= steps' && Apart(At(cfg, steps), At(cfg, steps'), {q}) && Led(cfg, At(cfg, steps'), p, t)
    ensures var c', s := At(cfg, steps'), StateOf(At(cfg, steps), p);
      var last := s.inflight[q].lastIndex;
      && (!accepted ==> s.inflight[q].prevIndex > Get(s.matchIndex, q))
      && (accepted ==> StateOf(c', q).commitIndex >= s.inflight[q].leaderCommit)
      && var answer := if accepted then AppendEntriesResp(t, true, last) else AppendEntriesResp(t, false, 0);
      && Message(q, p, t, answer) in c'.net
  {
    hide Run, Initial, Handle, Exec, Tracked, Accepted;
    var c := At(cfg, steps);
    var s, sq := StateOf(c, p), StateOf(c, q);
    OpenRequest(cfg, steps, p, q);
    var m := Request(s, q);
    AppendAnswered(cfg, steps, q, m, 0);
    steps' := Cycle(cfg, steps, q, Receive(m, 0));
    StoredIsHeld(cfg, steps', q);
    accepted := BuildsOn(sq.log, m.body);
    MatchBuildsOn(cfg, steps, p, q, t);
    var n := Get(s.matchIndex, q);
    assert n > 0 ==> sq.log[..n][n - 1] == sq.log[n - 1] && s.log[..n][n - 1] == s.log[n - 1];
    forall o | o in cfg.peers && o != p ensures Follows(At(cfg, steps'), o, t) { assert Follows(c, o, t); }
  }

  lemma Exchange(cfg: Config, steps: seq<Step>, p: NodeID, q: NodeID, t: nat)
    returns (steps': seq<Step>, accepted: bool)
    requires ValidCluster(cfg) && Led(cfg, At(cfg, steps), p, t) && q in cfg.peers && q != p
    requires var s := StateOf(At(cfg, steps), p); q in s.inflight && |s.log| < MAX_UINT64
    ensures steps <= steps' && Led(cfg, At(cfg, steps'), p, t)
    ensures Answers(StateOf(At(cfg, steps), p), StateOf(At(cfg, steps'), p), q, accepted)
  {
    hide At, Handle, ValidCluster, Tracked, Answers, Request;
    var c := At(cfg, steps);
    var s := StateOf(c, p);
    var steps1;
    OpenRequest(cfg, steps, p, q);
    steps1, accepted := DeliverRequest(cfg, steps, p, q, t);
    if accepted { SuccessAnswers(s, q, c.net); } else { RejectAnswers(s, q, c.net); }
    var answer := if accepted then AppendEntriesResp(t, true, s.inflight[q].lastIndex)
                  else AppendEntriesResp(t, false, 0);
    var m := Message(q, p, t, answer);
    steps' := Cycle(cfg, steps1, p, Receive(m, 0));
    AnswersAtRest(s, Handle(s, Receive(m, 0)), q, accepted);
    forall o | o in cfg.peers && o != p ensures Follows(At(cfg, steps'), o, t) {
      assert Follows(At(cfg, steps1), o, t);
    }
  }

  /** How far the exchange with q is from its end; nothing is left once no request is open. */
  ghost function Distance(s: NodeState, q: NodeID): (int, int, int, int, int) {
    if q !in s.inflight then (0, 0, 0, 0, 0)
    else
      var r, n := s.inflight[q], Get(s.matchIndex, q);
      (1, |s.log| - n, |s.log| - s.commitIndex, r.prevIndex - n, if r.lastIndex < |s.log| then 1 else 0)
  }

  /** Answering its requests, q catches up: rejections walk back to a shared entry, then the rest is sent. */
  lemma {:induction false} CatchUp(cfg: Config, steps: seq<Step>, p: NodeID, q: NodeID, t: nat)
    returns (steps': seq<Step>)
    requires ValidCluster(cfg) && Led(cfg, At(cfg, steps), p, t) && q in cfg.peers && q != p
    requires |StateOf(At(cfg, steps), p).log| < MAX_UINT64
    ensures steps <= steps' && Led(cfg, At(cfg, steps'), p, t)
    ensures var s, s' := StateOf(At(cfg, steps), p), StateOf(At(cfg, steps'), p);
      s'.log == s.log && q !in s'.inflight && forall o :: o !in s.inflight ==> o !in s'.inflight
    decreases Distance(StateOf(At(cfg, steps), p), q).0, Distance(StateOf(At(cfg, steps), p), q).1,
      Distance(StateOf(At(cfg, steps), p), q).2, Distance(StateOf(At(cfg, steps), p), q).3,
      Distance(StateOf(At(cfg, steps), p), q).4
  {
    hide At, ValidCluster, Tracked, Follows;
    steps' := steps;
    var s := StateOf(At(cfg, steps), p);
    if q in s.inflight {
      OpenRequest(cfg, steps, p, q);
      var first, accepted := Exchange(cfg, steps, p, q, t);
      var s1 := StateOf(At(cfg, first), p);
      if q in s1.inflight { OpenRequest(cfg, first, p, q); }
      StoredIsHeld(cfg, steps, p);
      StoredIsHeld(cfg, first, p);
      steps' := CatchUp(cfg, first, p, q, t);
    }
  }

  /** No request is open to any of the first k peers. */
  ghost predicate Idle(cfg: Config, s: NodeState, k: nat)
    requires k <= |cfg.peers|
  {
    forall j :: 0 <= j < k && cfg.peers[j] != s.cfg.id ==> cfg.peers[j] !in s.inflight
  }

  lemma {:induction false} CatchUpAll(cfg: Config, steps: seq<Step>, p: NodeID, t: nat, k: nat)
    returns (steps': seq<Step>)
    requires ValidCluster(cfg) && Led(cfg, At(cfg, steps), p, t) && k <= |cfg.peers|
    requires |StateOf(At(cfg, steps), p).log| < MAX_UINT64
    ensures steps <= steps' && Led(cfg, At(cfg, steps'), p, t)
    ensures var s, s' := StateOf(At(cfg, steps), p), StateOf(At(cfg, steps'), p);
      s'.log == s.log && Idle(cfg, s', k)
  {
    hide At, ValidCluster, Follows, Diligent, Configured;
    if k == 0 {
      steps' := steps;
    } else {
      var steps1 := CatchUpAll(cfg, steps, p, t, k - 1);
      steps' := steps1;
      LiveAt(cfg, steps1, p);
      if cfg.peers[k - 1] != p { steps' := CatchUp(cfg, steps1, p, cfg.peers[k - 1], t); }
      LiveAt(cfg, steps', p);
    }
  }

  /** With every peer caught up, everything is committed. */
  lemma AllCommitted(cfg: Config, steps: seq<Step>, p: NodeID, t: nat)
    requires ValidCluster(cfg) && Led(cfg, At(cfg, steps), p, t)
    requires var s := StateOf(At(cfg, steps), p);
      Idle(cfg, s, |cfg.peers|) && s.log != [] && s.log[|s.log| - 1].term == t
    ensures var s := StateOf(At(cfg, steps), p);
      s.commitIndex == |s.log| && forall q :: q in cfg.peers ==> Get(s.matchIndex, q) == |s.log|
  {
    hide Run, Initial, Follows, Diligent, Configured;
    var s := StateOf(At(cfg, steps), p);
    LiveAt(cfg, steps, p);
    forall q | q in cfg.peers ensures Get(s.matchIndex, q) == |s.log| {
      if q != p { EveryPeerServed(cfg, steps, p, q); } else { OwnMatch(s, At(cfg, steps).net); }
    }
    StoredIsHeld(cfg, steps, p);
    V.PeersCount(cfg.peers);
    assert V.PeerSet(cfg.peers) == set q | q in cfg.peers && q in s.matchIndex && s.matchIndex[q] >= |s.log|;
    if s.commitIndex < |s.log| { MajorityIsCommitted(cfg, steps, p, |s.log|); }
  }

  lemma OwnMatch(s: NodeState, sent: set<Message>)
    requires Diligent(s, sent) && s.role == Leader
    ensures Get(s.matchIndex, s.cfg.id) == |s.log|
  {}

  // ----- Announcing the commit index -----

  /** Every peer holds the whole log of the leader s, which is committed; `open` tells whether they are being told. */
  ghost predicate Complete(cfg: Config, s: NodeState, open: bool) {
    && s.commitIndex == |s.log|
    && forall q :: q in cfg.peers && q != s.cfg.id ==>
         && Get(s.matchIndex, q) == |s.log|
         && (q in s.inflight <==> open)
         && (open ==> s.inflight[q].prevIndex == s.inflight[q].leaderCommit == |s.log|)
  }

  lemma HeartbeatHandled(cfg: Config, s: NodeState, sent: set<Message>)
    requires s.role == Leader && s.cfg.peers == cfg.peers && Complete(cfg, s, false)
    requires AllTracked(s, sent)
    ensures var s' := Handle(s, Tick(0));
      && s'.role == Leader && s'.hard == s.hard && s'.log == s.log && s'.cfg == s.cfg
      && if s.heartbeatElapsed + 1 < s.cfg.heartbeatTicks
         then s' == s.(heartbeatElapsed := s.heartbeatElapsed + 1) && Complete(cfg, s', false)
         else Complete(cfg, s', true)
  {
    hide BroadcastUpTo;
    var s1 := s.(heartbeatElapsed := 0);
    BroadcastOpens(s1, |s1.cfg.peers|, false);
    forall q | q in cfg.peers && q != s.cfg.id ensures ClampNext(s1, q) == |s.log| + 1 { assert Tracked(s, q, sent); }
  }

  lemma {:induction false} Heartbeat(cfg: Config, steps: seq<Step>, p: NodeID, t: nat) returns (steps': seq<Step>)
    requires ValidCluster(cfg) && Led(cfg, At(cfg, steps), p, t) && Complete(cfg, StateOf(At(cfg, steps), p), false)
    ensures steps <= steps' && Led(cfg, At(cfg, steps'), p, t)
    ensures var s, s' := StateOf(At(cfg, steps), p), StateOf(At(cfg, steps'), p);
      s'.log == s.log && Complete(cfg, s', true)
    decreases var s := StateOf(At(cfg, steps), p); s.cfg.heartbeatTicks as int - s.heartbeatElapsed as int
  {
    hide At, Handle, ValidCluster, NothingWaiting, Tracked, Configured;
    var c := At(cfg, steps);
    var s := StateOf(c, p);
    LiveAt(cfg, steps, p);
    assert AllTracked(s, c.net) by {
      forall q | q in s.cfg.peers && q != s.cfg.id ensures Tracked(s, q, c.net) { assert Served(s, q, c.net); }
    }
    HeartbeatHandled(cfg, s, c.net);
    steps' := Cycle(cfg, steps, p, Tick(0));
    forall o | o in cfg.peers && o != p ensures Follows(At(cfg, steps'), o, t) { assert Follows(c, o, t); }
    if s.heartbeatElapsed + 1 < s.cfg.heartbeatTicks { steps' := Heartbeat(cfg, steps', p, t); }
  }

  /** The first k peers know that everything is committed. */
  ghost predicate Told(cfg: Config, c: System, p: NodeID, n: nat, k: nat)
    requires k <= |cfg.peers|
  {
    forall j :: 0 <= j < k && cfg.peers[j] != p ==>
      Live(c, cfg.peers[j]) && StateOf(c, cfg.peers[j]).commitIndex >= n
  }

  lemma {:induction false} TellAll(cfg: Config, steps: seq<Step>, p: NodeID, t: nat, k: nat)
    returns (steps': seq<Step>)
    requires ValidCluster(cfg) && Led(cfg, At(cfg, steps), p, t) && k <= |cfg.peers|
    requires var s := StateOf(At(cfg, steps), p); |s.log| < MAX_UINT64 && Complete(cfg, s, true) && s.cfg.id == p
    ensures steps <= steps' && Led(cfg, At(cfg, steps'), p, t)
    ensures StateOf(At(cfg, steps'), p) == StateOf(At(cfg, steps), p)
    ensures Told(cfg, At(cfg, steps'), p, |StateOf(At(cfg, steps), p).log|, k)
  {
    hide At, ValidCluster;
    if k == 0 {
      steps' := steps;
    } else {
      var steps1 := TellAll(cfg, steps, p, t, k - 1);
      steps' := steps1;
      var q := cfg.peers[k - 1];
      if q != p {
        PeersThere(cfg, steps1, q);
        var accepted;
        steps', accepted := DeliverRequest(cfg, steps1, p, q, t);
        ToldMore(cfg, At(cfg, steps1), At(cfg, steps'), p, |StateOf(At(cfg, steps), p).log|, k);
      }
    }
  }

  lemma ToldMore(cfg: Config, c: System, c': System, p: NodeID, n: nat, k: nat)
    requires 1 <= k <= |cfg.peers| && cfg.peers[k - 1] != p && Told(cfg, c, p, n, k - 1)
    requires Apart(c, c', {cfg.peers[k - 1]})
    requires Live(c', cfg.peers[k - 1]) && StateOf(c', cfg.peers[k - 1]).commitIndex >= n
    ensures Told(cfg, c', p, n, k)
  {}

  // ----- The continuation -----

  /** From any state with everyone booted, some node becomes leader and everyone else follows it. */
  lemma Elect(cfg: Config, steps: seq<Step>) returns (steps': seq<Step>, p: NodeID, t: nat)
    requires ValidCluster(cfg) && cfg.peers != []
    requires forall q :: q in cfg.peers ==> Live(At(cfg, steps), q) && StateOf(At(cfg, steps), q).role == Follower
    ensures steps <= steps' && Led(cfg, At(cfg, steps'), p, t) && p in cfg.peers && p in At(cfg, steps).procs
    ensures |StateOf(At(cfg, steps'), p).log| == |At(cfg, steps).procs[p].disk.log| + 1
  {
    hide At, ValidCluster, Handle, Diligent, Configured, NewerThan;
    var c := At(cfg, steps);
    p := NewestLog(cfg, c, |cfg.peers|);
    var bound := TermBound(cfg, c, |cfg.peers|);
    forall q | q in cfg.peers
      ensures c.procs[q].disk == Durable(StateOf(c, q).hard, StateOf(c, q).log)
      ensures StateOf(c, q).hard.term < bound && NewerThan(c.procs[p].disk.log, StateOf(c, q).log)
    {
      StoredIsHeld(cfg, steps, q);
      var j :| 0 <= j < |cfg.peers| && cfg.peers[j] == q;
    }
    var log := StateOf(c, p).log;
    var steps1;
    steps1, t := Campaigns(cfg, steps, p, bound);
    var c1 := At(cfg, steps1);
    if |cfg.peers| == 1 {
      steps' := steps1;
      assert forall q :: q in cfg.peers ==> q == p;
    } else {
      AsksSent(cfg, steps1, p, t, log);
      forall q | q in cfg.peers && q != p ensures Winnable(c1, q, t, log) { assert Live(c, q); }
      steps' := CollectVotes(cfg, steps1, p, t, log, |cfg.peers|);
      AllVotesElect(cfg, steps', p, t, log);
    }
  }

  lemma AsksSent(cfg: Config, steps: seq<Step>, p: NodeID, t: nat, log: seq<Entry>)
    requires ValidCluster(cfg) && |cfg.peers| != 1 && Campaigning(cfg, At(cfg, steps), p, t, log)
    ensures forall q :: q in cfg.peers && q != p ==> Ask(p, q, t, log) in At(cfg, steps).net
  {
    hide Run, Initial, ValidCluster;
    CandidateAsksAll(cfg, steps, p);
  }

  /** A led cluster takes a proposal and every node applies it. */
  lemma Commit(cfg: Config, steps: seq<Step>, p: NodeID, t: nat, data: seq<Byte>) returns (steps': seq<Step>)
    requires ValidCluster(cfg) && Led(cfg, At(cfg, steps), p, t)
    requires |StateOf(At(cfg, steps), p).log| + 1 < MAX_UINT64
    ensures steps <= steps' && Led(cfg, At(cfg, steps'), p, t)
    ensures var c' := At(cfg, steps');
      var log := StateOf(At(cfg, steps), p).log + [Entry(|StateOf(At(cfg, steps), p).log| + 1, t, Normal, data)];
      && StateOf(c', p).log == log && StateOf(c', p).commitIndex == |log|
      && Told(cfg, c', p, |log|, |cfg.peers|)
      && forall q :: q in cfg.peers ==> Get(StateOf(c', p).matchIndex, q) == |log|
  {
    hide Run, Initial, ValidCluster, Handle, Diligent, Configured, Exec;
    ProposalStored(cfg, steps, p, data);
    var proposed := Cycle(cfg, steps, p, Propose(data));
    StoredIsHeld(cfg, proposed, p);
    forall o | o in cfg.peers && o != p ensures Follows(At(cfg, proposed), o, t) {
      assert Follows(At(cfg, steps), o, t);
    }
    hide At, Follows;
    var caught := CatchUpAll(cfg, proposed, p, t, |cfg.peers|);
    AllCommitted(cfg, caught, p, t);
    LiveAt(cfg, caught, p);
    var beaten := Heartbeat(cfg, caught, p, t);
    LiveAt(cfg, beaten, p);
    steps' := TellAll(cfg, beaten, p, t, |cfg.peers|);
    OwnMatchAt(cfg, steps', p);
  }

  lemma OwnMatchAt(cfg: Config, steps: seq<Step>, p: NodeID)
    requires ValidCluster(cfg) && Live(At(cfg, steps), p) && StateOf(At(cfg, steps), p).role == Leader
    ensures var s := StateOf(At(cfg, steps), p); Get(s.matchIndex, p) == |s.log|
  {
    hide At, Diligent, Configured, ValidCluster;
    LiveAt(cfg, steps, p);
    OwnMatch(StateOf(At(cfg, steps), p), At(cfg, steps).net);
  }

  /** Every stored log leaves room for two more entries below the last index there is. */
  ghost predicate RoomForTwo(c: System) { forall q :: q in c.procs ==> |c.procs[q].disk.log| + 2 < MAX_UINT64 }

  /**
   From every state of every run, as long as no log is two entries short of the last index, the
   cluster can go on: some continuation elects a leader that appends the proposed data to its log,
   and every node applies that log.
   */
  lemma AlwaysAWayForward(cfg: Config, steps: seq<Step>, data: seq<Byte>)
    returns (more: seq<Step>, p: NodeID, log: seq<Entry>)
    requires ValidCluster(cfg) && cfg.peers != []
    requires RoomForTwo(Run(Initial(cfg), steps))
    ensures var c := Run(Initial(cfg), steps + more);
      && Live(c, p) && StateOf(c, p).role == Leader && StateOf(c, p).log == log
      && log != [] && log[|log| - 1] == Entry(|log|, StateOf(c, p).hard.term, Normal, data)
      && forall q :: q in cfg.peers ==>
           Live(c, q) && c.procs[q].applied != [] && log <= c.procs[q].applied[|c.procs[q].applied| - 1]
  {
    hide Run, Initial, ValidCluster, Follows, Told;
    var booted := BootAll(cfg, steps, |cfg.peers|);
    var elected, t;
    elected, p, t := Elect(cfg, booted);
    PeersThere(cfg, steps, p);
    assert At(cfg, booted).procs[p].disk == At(cfg, steps).procs[p].disk;
    var steps' := Commit(cfg, elected, p, t, data);
    var c := At(cfg, steps');
    log := StateOf(c, p).log;
    forall q | q in cfg.peers
      ensures Live(c, q) && c.procs[q].applied != [] && log <= c.procs[q].applied[|c.procs[q].applied| - 1]
    {
      Applies(cfg, steps', p, q, t);
    }
    more := steps'[|steps|..];
    assert steps + more == steps';
  }

  lemma Applies(cfg: Config, steps: seq<Step>, p: NodeID, q: NodeID, t: nat)
    requires ValidCluster(cfg) && Led(cfg, At(cfg, steps), p, t) && q in cfg.peers
    requires var c, s := At(cfg, steps), StateOf(At(cfg, steps), p);
      && s.commitIndex == |s.log| && Told(cfg, c, p, |s.log|, |cfg.peers|)
      && Get(s.matchIndex, q) == |s.log|
    ensures var c := At(cfg, steps);
      && Live(c, q) && c.procs[q].applied != []
      && StateOf(c, p).log <= c.procs[q].applied[|c.procs[q].applied| - 1]
  {
    hide At, ValidCluster;
    var j :| 0 <= j < |cfg.peers| && cfg.peers[j] == q;
    StoredIsHeld(cfg, steps, q);
    var n := |StateOf(At(cfg, steps), p).log|;
    if q != p { MatchBuildsOn(cfg, steps, p, q, t); }
    assert StateOf(At(cfg, steps), q).log[..StateOf(At(cfg, steps), q).commitIndex][..n] ==
      StateOf(At(cfg, steps), q).log[..n];
  }
}
