/**
 What the messages in the network and the volatile state of a running node owe to the
 durable core: promises made by messages, and the leader's progress bookkeeping.
 */
module RaftVolatile {
  import opened RaftTypes
  import opened RaftSpec
  import opened Storage
  import opened RaftHistory

  /** The first n entries of `log` are committed, by a leader of term at most u. */
  ghost predicate CommittedUpTo(c: Core, log: seq<Entry>, n: nat, u: nat) {
    n == 0 || exists t: nat, i: nat :: t <= u && n <= i && Committed(c, t, i) && Agree(log, c.h.logs[t], n)
  }

  ghost predicate VoteRequestOk(c: Core, m: Message)
    requires m.body.RequestVote?
  {
    && m.body.voteTerm == m.term
    && m.body.candidateId == m.from && m.from != 0
    && (m.from, m.term) in c.h.cands
    && var log := c.h.cands[(m.from, m.term)];
    && m.body.lastLogIndex == |log| && m.body.lastLogTerm == LastTerm(log)
  }

  ghost predicate AppendRequestOk(c: Core, m: Message)
    requires m.body.AppendEntries?
  {
    var b := m.body;
    && b.appendTerm == m.term
    && m.term in c.h.elections && c.h.elections[m.term].leader == m.from && m.to != m.from
    && m.term in c.h.logs
    && var log := c.h.logs[m.term];
    && b.prevLogIndex + |b.entries| <= |log|
    && TermAt(log, b.prevLogIndex) == Some(b.prevLogTerm)
    && (forall k :: 0 <= k < |b.entries| ==> b.entries[k] == log[b.prevLogIndex + k])
    && b.leaderCommit <= b.prevLogIndex + |b.entries|
    && CommittedUpTo(c, log, b.leaderCommit, m.term)
  }

  ghost predicate MsgOk(c: Core, m: Message) {
    match m.body
    case NoBody => true
    case RequestVote(_, _, _, _) => VoteRequestOk(c, m)
    case RequestVoteResp(t, granted) =>
      t == m.term && (granted ==> (m.from, t) in c.h.votes && c.h.votes[(m.from, t)] == m.to)
    case AppendEntries(_, _, _, _, _, _) => AppendRequestOk(c, m)
    case AppendEntriesResp(t, success, i) => t == m.term && (success ==> Acked(c.h, m.from, t, i))
  }

  ghost predicate InflightOk(c: Core, s: NodeState, p: Inflight) {
    && p.prevIndex <= p.lastIndex <= |s.log|
    && TermAt(s.log, p.prevIndex) == Some(p.prevTerm)
    && (!p.hasEntries ==> p.lastIndex == p.prevIndex)
    && p.leaderCommit <= p.lastIndex
    && CommittedUpTo(c, s.log, p.leaderCommit, s.hard.term)
  }

  ghost predicate CandidateOk(c: Core, s: NodeState) {
    var key := (s.cfg.id, s.hard.term);
    && key in c.h.cands && c.h.cands[key] == s.log
    && s.votes <= c.peers
    && forall v :: v in s.votes ==> (v, s.hard.term) in c.h.votes && c.h.votes[(v, s.hard.term)] == s.cfg.id
  }

  ghost predicate LeaderOk(c: Core, s: NodeState) {
    && s.hard.term in c.h.elections && c.h.elections[s.hard.term].leader == s.cfg.id
    && (forall p :: p in s.matchIndex ==> s.matchIndex[p] == 0 || Acked(c.h, p, s.hard.term, s.matchIndex[p]))
    && (forall p :: p in s.inflight ==> p in c.peers && p != s.cfg.id && InflightOk(c, s, s.inflight[p]))
  }

  ghost function PeerSet(peers: seq<NodeID>): set<NodeID> { set p | p in peers }

  ghost predicate ConfigOk(c: Core, cfg: Config) {
    ValidConfig(cfg) && PeerSet(cfg.peers) == c.peers && cfg.rule == CurrentTermOnly
  }

  /** A running node whose durable part is on its disk in c. */
  ghost predicate NodeOk(c: Core, s: NodeState) {
    && ConfigOk(c, s.cfg)
    && s.cfg.id in c.disk && c.disk[s.cfg.id] == Durable(s.hard, s.log)
    && s.commitIndex <= |s.log|
    && CommittedUpTo(c, s.log, s.commitIndex, s.hard.term)
    && (s.role != Follower ==> s.hard.votedFor == s.cfg.id)
    && (s.role == Candidate ==> CandidateOk(c, s))
    && (s.role == Leader ==> LeaderOk(c, s))
    && forall m :: m in s.messages ==> MsgOk(c, m)
  }

  // ----- History only adds to what is promised -----

  lemma CommittedGrows(c: Core, c': Core, t: nat, i: nat)
    requires c'.peers == c.peers && Grows(c.h, c'.h) && Committed(c, t, i)
    ensures Committed(c', t, i)
  {
    assert Ackers(c, t, i) <= Ackers(c', t, i);
    Subset(Ackers(c, t, i), Ackers(c', t, i));
  }

  lemma CommittedUpToGrows(c: Core, c': Core, log: seq<Entry>, log': seq<Entry>, n: nat, u: nat, u': nat)
    requires c'.peers == c.peers && Grows(c.h, c'.h) && CommittedUpTo(c, log, n, u)
    requires u <= u' && Agree(log, log', n)
    ensures CommittedUpTo(c', log', n, u')
  {
    if n > 0 {
      var t: nat, i: nat :| t <= u && n <= i && Committed(c, t, i) && Agree(log, c.h.logs[t], n);
      CommittedGrows(c, c', t, i);
      assert Agree(log', c'.h.logs[t], n);
    }
  }

  lemma CommittedSmaller(c: Core, log: seq<Entry>, n: nat, m: nat, u: nat)
    requires CommittedUpTo(c, log, n, u) && m <= n
    ensures CommittedUpTo(c, log, m, u)
  {
    if m > 0 {
      var t: nat, i: nat :| t <= u && n <= i && Committed(c, t, i) && Agree(log, c.h.logs[t], n);
      assert Agree(log, c.h.logs[t], m);
    }
  }

  lemma MsgOkGrows(c: Core, c': Core, m: Message)
    requires c'.peers == c.peers && Grows(c.h, c'.h) && MsgOk(c, m)
    ensures MsgOk(c', m)
  {
    if m.body.AppendEntries? {
      CommittedUpToGrows(c, c', c.h.logs[m.term], c'.h.logs[m.term], m.body.leaderCommit, m.term, m.term);
    }
  }

  lemma MessagesGrow(c: Core, c': Core, ms: seq<Message>)
    requires c'.peers == c.peers && Grows(c.h, c'.h) && forall m :: m in ms ==> MsgOk(c, m)
    ensures forall m :: m in ms ==> MsgOk(c', m)
  {
    forall m | m in ms ensures MsgOk(c', m) { MsgOkGrows(c, c', m); }
  }

  /** A node untouched by a step of another node is still in order. */
  lemma NodeOkGrows(c: Core, c': Core, s: NodeState)
    requires c'.peers == c.peers && Grows(c.h, c'.h) && NodeOk(c, s)
    requires s.cfg.id in c'.disk && c'.disk[s.cfg.id] == c.disk[s.cfg.id]
    ensures NodeOk(c', s)
  {
    CommittedUpToGrows(c, c', s.log, s.log, s.commitIndex, s.hard.term, s.hard.term);
    MessagesGrow(c, c', s.messages);
    if s.role == Leader {
      forall p | p in s.inflight ensures InflightOk(c', s, s.inflight[p]) {
        CommittedUpToGrows(c, c', s.log, s.log, s.inflight[p].leaderCommit, s.hard.term, s.hard.term);
      }
    }
  }

  // ----- Sending -----

  /** A leader in order, whose log is exactly what its term is recorded to hold. */
  ghost predicate Leading(c: Core, s: NodeState) {
    && NodeOk(c, s) && s.role == Leader
    && s.hard.term in c.h.logs && c.h.logs[s.hard.term] == s.log
  }

  lemma LeaderHolds(c: Core, s: NodeState)
    requires CoreInv(c) && NodeOk(c, s) && s.role == Leader
    ensures Leading(c, s)
  {
    assert LeaderLogOk(c, s.hard.term);
  }

  /** (Re)transmitting a request is a promise the leader can keep. */
  lemma EmitOk(c: Core, s: NodeState, peer: NodeID, p: Inflight)
    requires Leading(c, s) && peer != s.cfg.id && InflightOk(c, s, p)
    ensures Leading(c, EmitAppend(s, peer, p))
  {
    var s' := EmitAppend(s, peer, p);
    var m := s'.messages[|s.messages|];
    RequestKept(c, s, peer, p);
    assert forall x :: x in s.messages ==> MsgOk(c, x);
    hide MsgOk, NodeOk, InflightOk;
    forall x | x in s'.messages ensures MsgOk(c, x) { assert x in s.messages || x == m; }
    SameProgress(c, s, s');
  }

  lemma RequestKept(c: Core, s: NodeState, peer: NodeID, p: Inflight)
    requires LeaderOk(c, s) && s.hard.term in c.h.logs && c.h.logs[s.hard.term] == s.log
    requires peer != s.cfg.id && InflightOk(c, s, p)
    ensures MsgOk(c, EmitAppend(s, peer, p).messages[|s.messages|])
  {}

  lemma SameProgress(c: Core, s: NodeState, s': NodeState)
    requires Leading(c, s) && s' == s.(messages := s'.messages, nextIndex := s'.nextIndex)
    requires forall m :: m in s'.messages ==> MsgOk(c, m)
    ensures Leading(c, s')
  {
    hide MsgOk, CommittedUpTo;
    forall p | p in s'.inflight ensures InflightOk(c, s', s'.inflight[p]) { assert InflightOk(c, s, s.inflight[p]); }
  }

  /** Fields the send loop does not touch. */
  ghost predicate SendsOnly(a: NodeState, b: NodeState) {
    b == a.(messages := b.messages, nextIndex := b.nextIndex, inflight := b.inflight)
  }

  lemma SendOk(c: Core, s: NodeState, peer: NodeID, probe: bool)
    requires Leading(c, s) && peer in c.peers && peer != s.cfg.id
    requires probe && peer !in s.inflight ==> s.commitIndex < ClampNext(s, peer)
    ensures Leading(c, SendAppend(s, peer, probe)) && SendsOnly(s, SendAppend(s, peer, probe))
  {
    if peer in s.inflight {
      EmitOk(c, s, peer, s.inflight[peer]);
    } else {
      var next := ClampNext(s, peer);
      var p := NewInflight(s, next, probe);
      var s1 := s.(nextIndex := s.nextIndex[peer := next], inflight := s.inflight[peer := p]);
      assert InflightOk(c, s, p);
      InflightAdded(c, s, s1, peer, p);
      EmitOk(c, s1, peer, p);
    }
  }

  lemma InflightAdded(c: Core, s: NodeState, s1: NodeState, peer: NodeID, p: Inflight)
    requires Leading(c, s) && peer in c.peers && peer != s.cfg.id && InflightOk(c, s, p)
    requires s1 == s.(nextIndex := s1.nextIndex, inflight := s.inflight[peer := p])
    ensures Leading(c, s1)
  {
    hide MsgOk, CommittedUpTo;
    forall q | q in s1.inflight ensures q in c.peers && q != s.cfg.id && InflightOk(c, s1, s1.inflight[q]) {
      assert q in s.inflight ==> InflightOk(c, s, s.inflight[q]);
    }
  }

  /** The probes of a new leader name the log end it was elected with, at or above its commit index. */
  ghost predicate ProbesSafe(s: NodeState, k: nat) {
    forall j :: k <= j < |s.cfg.peers| && s.cfg.peers[j] != s.cfg.id ==>
      s.cfg.peers[j] !in s.inflight && s.commitIndex < ClampNext(s, s.cfg.peers[j])
  }

  lemma {:induction false} BroadcastOk(c: Core, s: NodeState, k: nat, probe: bool, onlyIdle: bool)
    requires Leading(c, s) && k <= |s.cfg.peers| && (probe ==> ProbesSafe(s, 0))
    requires Ascending(s.cfg.peers) && PeerSet(s.cfg.peers) == c.peers
    ensures var r := BroadcastUpTo(s, k, probe, onlyIdle);
      Leading(c, r) && SendsOnly(s, r) && (probe ==> ProbesSafe(r, k))
  {
    hide Leading, Ascending, SendAppend;
    if k > 0 {
      BroadcastOk(c, s, k - 1, probe, onlyIdle);
      var s1 := BroadcastUpTo(s, k - 1, probe, onlyIdle);
      var peer := s.cfg.peers[k - 1];
      assert peer in PeerSet(s.cfg.peers);
      hide ProbesSafe, NodeOk;
      if peer != s.cfg.id {
        SendKeepsProbes(s1, k - 1, probe);
        if !onlyIdle || peer !in s1.inflight { SendOk(c, s1, peer, probe); }
      }
    }
  }

  lemma SendKeepsProbes(s: NodeState, k: nat, probe: bool)
    requires Ascending(s.cfg.peers) && k < |s.cfg.peers| && (probe ==> ProbesSafe(s, k))
    ensures probe ==> ProbesSafe(s, k + 1) && ProbesSafe(SendAppend(s, s.cfg.peers[k], probe), k + 1)
    ensures probe && s.cfg.peers[k] != s.cfg.id ==> s.commitIndex < ClampNext(s, s.cfg.peers[k])
  {
    if probe {
      var s' := SendAppend(s, s.cfg.peers[k], probe);
      forall j | k + 1 <= j < |s.cfg.peers| && s.cfg.peers[j] != s.cfg.id
        ensures s.cfg.peers[j] !in s'.inflight && s'.commitIndex < ClampNext(s', s.cfg.peers[j])
      {
        assert s.cfg.peers[k] != s.cfg.peers[j];
      }
    }
  }

  // ----- Counting replicas -----

  ghost function Holders(peers: seq<NodeID>, matchIndex: map<NodeID, nat>, index: nat): set<NodeID> {
    set p | p in peers && Get(matchIndex, p) >= index
  }

  lemma HoldersSplit(rest: seq<NodeID>, p: NodeID, matchIndex: map<NodeID, nat>, index: nat)
    requires p !in rest
    ensures |Holders(rest + [p], matchIndex, index)|
         == |Holders(rest, matchIndex, index)| + if Get(matchIndex, p) >= index then 1 else 0
  {
    hide Get;
    var hs := Holders(rest, matchIndex, index);
    if Get(matchIndex, p) >= index {
      assert Holders(rest + [p], matchIndex, index) == hs + {p};
    } else {
      assert Holders(rest + [p], matchIndex, index) == hs;
    }
  }

  lemma {:induction false} ReplicasCount(peers: seq<NodeID>, matchIndex: map<NodeID, nat>, index: nat)
    requires Ascending(peers)
    ensures Replicas(peers, matchIndex, index) == |Holders(peers, matchIndex, index)|
  {
    hide Get, Holders;
    if peers == [] {
      EmptyHolders(matchIndex, index);
    } else {
      var rest, p := peers[..|peers| - 1], peers[|peers| - 1];
      ReplicasCount(rest, matchIndex, index);
      assert p !in rest;
      assert peers == rest + [p];
      HoldersSplit(rest, p, matchIndex, index);
    }
  }

  lemma EmptyHolders(matchIndex: map<NodeID, nat>, index: nat)
    ensures |Holders([], matchIndex, index)| == 0
  {
    assert Holders([], matchIndex, index) == {};
  }

  lemma {:induction false} PeersCount(peers: seq<NodeID>)
    requires Ascending(peers)
    ensures |PeerSet(peers)| == |peers|
  {
    if peers == [] {
      assert PeerSet(peers) == {};
    } else {
      var rest, p := peers[..|peers| - 1], peers[|peers| - 1];
      PeersCount(rest);
      assert peers == rest + [p];
      assert p !in rest;
      assert PeerSet(peers) == PeerSet(rest) + {p};
    }
  }

  /** Counting a majority of matching peers commits the leader's own entry. */
  lemma CountCommits(c: Core, s: NodeState, index: nat)
    requires Leading(c, s) && Committable(s, index)
    ensures Committed(c, s.hard.term, index)
    ensures CommittedUpTo(c, s.log, index, s.hard.term)
  {
    ReplicasCount(s.cfg.peers, s.matchIndex, index);
    PeersCount(s.cfg.peers);
    var hs := Holders(s.cfg.peers, s.matchIndex, index);
    HoldersAcked(c, s, index);
    Subset(hs, Ackers(c, s.hard.term, index));
    assert Committed(c, s.hard.term, index) && Agree(s.log, c.h.logs[s.hard.term], index);
  }

  lemma HoldersAcked(c: Core, s: NodeState, index: nat)
    requires LeaderOk(c, s) && PeerSet(s.cfg.peers) == c.peers && index > 0
    ensures Holders(s.cfg.peers, s.matchIndex, index) <= Ackers(c, s.hard.term, index)
  {
    forall p | p in Holders(s.cfg.peers, s.matchIndex, index) ensures p in Ackers(c, s.hard.term, index) {
      assert p in s.matchIndex && s.matchIndex[p] != 0;
      assert Acked(c.h, p, s.hard.term, s.matchIndex[p]);
      assert p in PeerSet(s.cfg.peers);
    }
  }

  lemma {:induction false} ScanIs(s: NodeState, index: nat)
    requires index <= |s.log| || index <= s.commitIndex
    ensures var r := ScanCommit(s, index);
      && r >= s.commitIndex
      && (r != s.commitIndex ==> Committable(s, r))
  {
    if index > s.commitIndex && !Committable(s, index) { ScanIs(s, index - 1); }
  }

  lemma AdvanceCommitOk(c: Core, s: NodeState)
    requires Leading(c, s)
    ensures Leading(c, AdvanceCommit(s)) && AdvanceCommit(s).commitIndex >= s.commitIndex
    ensures AdvanceCommit(s) == s.(commitIndex := AdvanceCommit(s).commitIndex)
  {
    ScanIs(s, |s.log|);
    var s' := AdvanceCommit(s);
    if s'.commitIndex != s.commitIndex { CountCommits(c, s, s'.commitIndex); }
    hide CommittedUpTo, MsgOk;
    assert LeaderOk(c, s') by {
      forall p | p in s.inflight ensures InflightOk(c, s', s.inflight[p]) { assert InflightOk(c, s, s.inflight[p]); }
    }
  }
}
