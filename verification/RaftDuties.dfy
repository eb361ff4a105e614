/**
 What a running node never leaves undone. A leader has committed whatever a majority of its
 peers is known to hold, and every peer is either caught up or has a request on its way; a
 candidate has asked every peer and would lead if a majority had answered; no timer runs past
 its limit. Every input keeps these duties.
 */
module RaftDuties {
  import opened RaftTypes
  import opened RaftSpec
  import opened Cluster
  import V = RaftVolatile

  /** No entry of the leader's own term above the commit index is known to be on a majority. */
  ghost predicate NothingWaiting(s: NodeState) {
    forall i :: s.commitIndex < i <= |s.log| && s.log[i - 1].term == s.hard.term
      ==> 2 * |V.Holders(s.cfg.peers, s.matchIndex, i)| <= |s.cfg.peers|
  }

  /** The request r to peer q is in `sent` and carries the leader's entries after r.prevIndex. */
  ghost predicate Outstanding(s: NodeState, q: NodeID, r: Inflight, sent: set<Message>) {
    && r.prevIndex <= r.lastIndex <= |s.log| && (r.hasEntries || r.lastIndex == r.prevIndex)
    && TermAt(s.log, r.prevIndex) == Some(r.prevTerm)
    && Get(s.matchIndex, q) <= r.prevIndex && Get(s.nextIndex, q) == r.prevIndex + 1
    && var entries := s.log[r.prevIndex..r.lastIndex];
    && Message(s.cfg.id, q, s.hard.term,
               AppendEntries(s.hard.term, s.cfg.id, r.prevIndex, r.prevTerm, entries, r.leaderCommit)) in sent
  }

  /** What the leader believes of peer q is consistent, and its open request was really sent. */
  ghost predicate Tracked(s: NodeState, q: NodeID, sent: set<Message>) {
    && Get(s.matchIndex, q) < Get(s.nextIndex, q) <= |s.log| + 1
    && Get(s.matchIndex, q) != MAX_UINT64
    && (q in s.inflight ==> Outstanding(s, q, s.inflight[q], sent))
  }

  /** Peer q holds the whole log, or a request to it is open. */
  ghost predicate Served(s: NodeState, q: NodeID, sent: set<Message>) {
    Tracked(s, q, sent) && (q in s.inflight || Get(s.matchIndex, q) == |s.log|)
  }

  ghost predicate AllTracked(s: NodeState, sent: set<Message>) {
    forall q :: q in s.cfg.peers && q != s.cfg.id ==> Tracked(s, q, sent)
  }

  ghost predicate AllServed(s: NodeState, sent: set<Message>) {
    forall q :: q in s.cfg.peers && q != s.cfg.id ==> Served(s, q, sent)
  }

  ghost function VoteRequest(s: NodeState, q: NodeID): Message {
    Message(s.cfg.id, q, s.hard.term, RequestVote(s.hard.term, s.cfg.id, |s.log|, LastTerm(s.log)))
  }

  /** Every other peer was asked, and the votes counted so far are no majority. */
  ghost predicate Asking(s: NodeState, sent: set<Message>) {
    && 2 * |s.votes| <= |s.cfg.peers| && s.cfg.id in s.votes
    && forall q :: q in s.cfg.peers && q != s.cfg.id ==> VoteRequest(s, q) in sent
  }

  ghost predicate Leads(s: NodeState, sent: set<Message>) {
    && s.cfg.id in s.matchIndex && s.matchIndex[s.cfg.id] == |s.log|
    && NothingWaiting(s) && AllServed(s, sent)
  }

  /** Timers are below their limits; the randomized timeout is within the configured span. */
  ghost predicate Timely(s: NodeState) {
    && s.cfg.electionMin <= s.electionTimeout
    && (s.electionTimeout == s.cfg.electionMin || s.electionTimeout < s.cfg.electionMax)
    && s.electionElapsed < s.electionTimeout
    && (s.role == Leader ==> s.heartbeatElapsed < s.cfg.heartbeatTicks)
  }

  ghost predicate Diligent(s: NodeState, sent: set<Message>) {
    && Timely(s)
    && (s.role == Candidate ==> Asking(s, sent))
    && (s.role == Leader ==> Leads(s, sent))
  }

  /** A configuration as NewNode leaves it, with the real commit rule. */
  ghost predicate Configured(cfg: Config) {
    ValidConfig(cfg) && cfg.rule == CurrentTermOnly && cfg.electionMin > 0 && cfg.heartbeatTicks > 0
  }

  // ----- Counting -----

  lemma {:induction false} ScanFindsHighest(s: NodeState, index: nat)
    requires index <= |s.log|
    ensures var n := ScanCommit(s, index);
      n >= s.commitIndex && forall i :: n < i <= index ==> !Committable(s, i)
    decreases index
  {
    if index > s.commitIndex && !Committable(s, index) { ScanFindsHighest(s, index - 1); }
  }

  /** After counting, nothing a majority holds is left uncommitted. */
  lemma CommitLeavesNothing(s: NodeState)
    requires Configured(s.cfg) && s.role == Leader
    ensures NothingWaiting(AdvanceCommit(s))
  {
    ScanFindsHighest(s, |s.log|);
    var s' := AdvanceCommit(s);
    forall i | s'.commitIndex < i <= |s'.log| && s'.log[i - 1].term == s'.hard.term
      ensures 2 * |V.Holders(s'.cfg.peers, s'.matchIndex, i)| <= |s'.cfg.peers|
    {
      V.ReplicasCount(s.cfg.peers, s.matchIndex, i);
      assert !Committable(s, i);
    }
  }

  // ----- Sending -----

  /** Fields on which commitment and matching depend. */
  ghost predicate SameProgress(s: NodeState, s': NodeState) {
    && s'.cfg == s.cfg && s'.hard == s.hard && s'.role == s.role && s'.log == s.log
    && s'.commitIndex == s.commitIndex && s'.matchIndex == s.matchIndex
    && s'.electionTimeout == s.electionTimeout && s'.electionElapsed == s.electionElapsed
    && s'.heartbeatElapsed == s.heartbeatElapsed
  }

  lemma SendServes(s: NodeState, peer: NodeID, probe: bool, net: set<Message>)
    requires Tracked(s, peer, net + MessageSet(s.messages))
    ensures var s' := SendAppend(s, peer, probe);
      && SameProgress(s, s') && MessageSet(s.messages) <= MessageSet(s'.messages)
      && peer in s'.inflight && Served(s', peer, net + MessageSet(s'.messages))
  {
    var s' := SendAppend(s, peer, probe);
    var r := s'.inflight[peer];
    var entries := s.log[r.prevIndex..r.lastIndex];
    assert s'.messages[|s'.messages| - 1].body.entries == entries;
    assert s'.messages[|s'.messages| - 1] in s'.messages;
  }

  lemma SendSpares(s: NodeState, peer: NodeID, probe: bool, q: NodeID, net: set<Message>)
    requires q != peer && Tracked(s, q, net + MessageSet(s.messages))
    ensures var s' := SendAppend(s, peer, probe);
      Tracked(s', q, net + MessageSet(s'.messages)) && (q in s'.inflight <==> q in s.inflight)
  {}

  lemma {:induction false} BroadcastServes(s: NodeState, k: nat, probe: bool, onlyIdle: bool, net: set<Message>)
    requires k <= |s.cfg.peers| && AllTracked(s, net + MessageSet(s.messages))
    ensures var s' := BroadcastUpTo(s, k, probe, onlyIdle);
      && SameProgress(s, s') && AllTracked(s', net + MessageSet(s'.messages))
      && forall i :: 0 <= i < k && s.cfg.peers[i] != s.cfg.id ==> s.cfg.peers[i] in s'.inflight
  {
    if k > 0 {
      hide SendAppend;
      BroadcastServes(s, k - 1, probe, onlyIdle, net);
      var s1 := BroadcastUpTo(s, k - 1, probe, onlyIdle);
      var peer := s.cfg.peers[k - 1];
      if peer != s.cfg.id && !(onlyIdle && peer in s1.inflight) {
        var s' := SendAppend(s1, peer, probe);
        SendServes(s1, peer, probe, net);
        forall q | q in s.cfg.peers && q != s.cfg.id
          ensures Tracked(s', q, net + MessageSet(s'.messages)) && (q in s1.inflight ==> q in s'.inflight)
        {
          if q != peer { SendSpares(s1, peer, probe, q, net); }
        }
      }
    }
  }

  lemma BroadcastServesAll(s: NodeState, probe: bool, onlyIdle: bool, net: set<Message>)
    requires AllTracked(s, net + MessageSet(s.messages))
    ensures var s' := Broadcast(s, probe, onlyIdle);
      SameProgress(s, s') && AllServed(s', net + MessageSet(s'.messages))
  {
    hide BroadcastUpTo;
    BroadcastServes(s, |s.cfg.peers|, probe, onlyIdle, net);
  }

  // ----- Leading -----

  lemma LeadsAfterBroadcast(s: NodeState, probe: bool, onlyIdle: bool, net: set<Message>)
    requires s.cfg.id in s.matchIndex && s.matchIndex[s.cfg.id] == |s.log|
    requires NothingWaiting(s) && AllTracked(s, net + MessageSet(s.messages))
    ensures var s' := Broadcast(s, probe, onlyIdle); SameProgress(s, s') && Leads(s', net + MessageSet(s'.messages))
  {
    hide Broadcast, NothingWaiting, Tracked;
    BroadcastServesAll(s, probe, onlyIdle, net);
    SameWaiting(s, Broadcast(s, probe, onlyIdle));
  }

  lemma SameWaiting(s: NodeState, s': NodeState)
    requires SameProgress(s, s') && NothingWaiting(s)
    ensures NothingWaiting(s')
  {}

  /** One more entry in the log leaves every open request as it was sent. */
  lemma TrackedAfterAppend(s: NodeState, typ: EntryType, data: seq<Byte>, q: NodeID, sent: set<Message>)
    requires Tracked(s, q, sent) && q != s.cfg.id && s.matchIndex != NoIndexes()
    ensures Tracked(AppendLocal(s, typ, data), q, sent)
  {
    var s' := AppendLocal(s, typ, data);
    if q in s.inflight {
      var r := s.inflight[q];
      assert s'.log[r.prevIndex..r.lastIndex] == s.log[r.prevIndex..r.lastIndex];
    }
  }

  /** Appending, counting and telling the peers puts a leader's duties in order. */
  lemma AppendLeads(s: NodeState, typ: EntryType, data: seq<Byte>, probe: bool, onlyIdle: bool, net: set<Message>)
    requires Configured(s.cfg) && s.role == Leader && s.cfg.id in s.matchIndex
    requires AllTracked(s, net + MessageSet(s.messages))
    ensures var s' := Broadcast(AdvanceCommit(AppendLocal(s, typ, data)), probe, onlyIdle);
      && Leads(s', net + MessageSet(s'.messages)) && s'.cfg == s.cfg && s'.role == Leader
      && s'.electionTimeout == s.electionTimeout && s'.electionElapsed == s.electionElapsed
      && s'.heartbeatElapsed == s.heartbeatElapsed
  {
    hide Broadcast, Tracked, ScanCommit, NothingWaiting;
    var s1 := AppendLocal(s, typ, data);
    var s2 := AdvanceCommit(s1);
    CommitLeavesNothing(s1);
    forall q | q in s.cfg.peers && q != s.cfg.id ensures Tracked(s2, q, net + MessageSet(s2.messages)) {
      TrackedAfterAppend(s, typ, data, q, net + MessageSet(s.messages));
      TrackedAfterCommit(s1, q, net + MessageSet(s.messages));
    }
    LeadsAfterBroadcast(s2, probe, onlyIdle, net);
  }

  lemma TrackedAfterCommit(s: NodeState, q: NodeID, sent: set<Message>)
    requires Tracked(s, q, sent)
    ensures Tracked(AdvanceCommit(s), q, sent)
  {}

  lemma BecomesDiligent(s: NodeState, net: set<Message>)
    requires Configured(s.cfg) && Timely(s.(role := Candidate))
    ensures var s' := BecomeLeader(s); Diligent(s', net + MessageSet(s'.messages)) && s'.role == Leader
  {
    hide Broadcast, AdvanceCommit, AppendLocal, Leads;
    var s1 := ZeroProgress(s);
    assert AllTracked(s1, net + MessageSet(s1.messages));
    AppendLeads(s1, Noop, [], true, false, net);
  }

  // ----- Asking for votes -----

  lemma {:induction false} RequestsSent(s: NodeState, k: nat)
    requires k <= |s.cfg.peers|
    ensures var s' := RequestVotesUpTo(s, k);
      && s' == s.(messages := s'.messages)
      && forall i :: 0 <= i < k && s.cfg.peers[i] != s.cfg.id ==> VoteRequest(s, s.cfg.peers[i]) in s'.messages
  {
    if k > 0 { RequestsSent(s, k - 1); }
  }

  lemma ElectionDiligent(s: NodeState, draw: nat, net: set<Message>)
    requires Configured(s.cfg)
    ensures var s' := StartElection(s, draw); Diligent(s', net + MessageSet(s'.messages)) && s'.role != Follower
  {
    hide BecomeLeader, RequestVotesUpTo, Leads;
    var s1 := Campaign(s, draw);
    if HasMajority(s1) {
      BecomesDiligent(s1, net);
    } else {
      RequestsSent(s1, |s1.cfg.peers|);
    }
  }

  // ----- Every input -----

  lemma TickDiligent(s: NodeState, draw: nat, net: set<Message>)
    requires Configured(s.cfg) && Diligent(s, net) && s.messages == []
    ensures var s' := TickNode(s, draw); Diligent(s', net + MessageSet(s'.messages))
  {
    hide Broadcast, StartElection, NothingWaiting, Tracked;
    assert net + MessageSet(s.messages) == net;
    if s.role == Leader {
      var s1 := s.(heartbeatElapsed := 0);
      TimersAside(s, s1, net);
      TimersAside(s, s.(heartbeatElapsed := s.heartbeatElapsed + 1), net);
      LeadsAfterBroadcast(s1, false, false, net);
    } else {
      ElectionDiligent(s.(electionElapsed := s.electionElapsed + 1), draw, net);
    }
  }

  /** Neither leading nor asking depends on the timers. */
  lemma TimersAside(s: NodeState, s': NodeState, sent: set<Message>)
    requires s' == s.(heartbeatElapsed := s'.heartbeatElapsed, electionElapsed := s'.electionElapsed)
    ensures Leads(s, sent) ==> Leads(s', sent) && AllTracked(s', sent)
    ensures Asking(s, sent) ==> Asking(s', sent)
  {
    if Leads(s, sent) {
      forall q | q in s'.cfg.peers && q != s'.cfg.id ensures Served(s', q, sent) { assert Served(s, q, sent); }
    }
    if Asking(s, sent) {
      forall q | q in s'.cfg.peers && q != s'.cfg.id ensures VoteRequest(s', q) in sent {
        assert VoteRequest(s, q) in sent;
      }
    }
  }

  lemma VoteCounted(s: NodeState, m: Message, net: set<Message>)
    requires Configured(s.cfg) && Diligent(s, net) && s.messages == [] && m.body.RequestVoteResp?
    ensures var s' := HandleRequestVoteResp(s, m); Diligent(s', net + MessageSet(s'.messages))
  {
    hide BecomeLeader, Leads;
    assert net + MessageSet(s.messages) == net;
    if s.role == Candidate && m.body.granted && m.from in s.cfg.peers {
      BecomesDiligent(s.(votes := s.votes + {m.from}), net);
    }
  }

  /** An acknowledged request leaves the peer caught up or sends it the rest. */
  lemma MatchTracked(s: NodeState, peer: NodeID, acked: nat, q: NodeID, sent: set<Message>)
    requires Tracked(s, q, sent) && Acknowledges(s, peer, acked)
    ensures Tracked(RecordMatch(s, peer, acked), q, sent)
  {}

  lemma SuccessLeads(s: NodeState, peer: NodeID, acked: nat, net: set<Message>)
    requires Configured(s.cfg) && s.role == Leader && Leads(s, net) && s.messages == []
    requires peer in s.cfg.peers && peer != s.cfg.id
    ensures var s' := OnSuccess(s, peer, acked);
      && Leads(s', net + MessageSet(s'.messages)) && s'.cfg == s.cfg && s'.role == Leader
      && s'.electionTimeout == s.electionTimeout && s'.electionElapsed == s.electionElapsed
      && s'.heartbeatElapsed == s.heartbeatElapsed
  {
    hide SendAppend, Tracked, ScanCommit, NothingWaiting;
    assert net + MessageSet(s.messages) == net;
    if Acknowledges(s, peer, acked) {
      var s1 := RecordMatch(s, peer, acked);
      var s2 := AdvanceCommit(s1);
      CommitLeavesNothing(s1);
      forall q | q in s.cfg.peers && q != s.cfg.id ensures Tracked(s2, q, net) {
        assert Served(s, q, net);
        MatchTracked(s, peer, acked, q, net);
        TrackedAfterCommit(s1, q, net);
      }
      var s' := OnSuccess(s, peer, acked);
      if acked + 1 <= |s2.log| || s2.commitIndex != s.commitIndex {
        SendOneLeads(s2, peer, net);
      } else {
        assert acked == |s.log| && Get(s'.matchIndex, peer) == acked;
        forall q | q in s.cfg.peers && q != s.cfg.id ensures Served(s', q, net) { assert Served(s, q, net); }
        assert net + MessageSet(s'.messages) == net;
      }
    }
  }

  /** Sending to one peer serves it and leaves the others served. */
  lemma SendOneLeads(s: NodeState, peer: NodeID, net: set<Message>)
    requires s.cfg.id in s.matchIndex && s.matchIndex[s.cfg.id] == |s.log| && NothingWaiting(s)
    requires peer in s.cfg.peers && peer != s.cfg.id && s.messages == []
    requires Tracked(s, peer, net)
    requires forall q :: q in s.cfg.peers && q != s.cfg.id && q != peer ==> Served(s, q, net)
    ensures var s' := SendAppend(s, peer, false); SameProgress(s, s') && Leads(s', net + MessageSet(s'.messages))
  {
    hide SendAppend, Tracked, NothingWaiting;
    assert net + MessageSet(s.messages) == net;
    var s' := SendAppend(s, peer, false);
    SendServes(s, peer, false, net);
    SameWaiting(s, s');
    forall q | q in s.cfg.peers && q != s.cfg.id ensures Served(s', q, net + MessageSet(s'.messages)) {
      if q != peer {
        assert Served(s, q, net);
        SendSpares(s, peer, false, q, net);
      }
    }
  }

  lemma RejectLeads(s: NodeState, peer: NodeID, net: set<Message>)
    requires s.role == Leader && Leads(s, net) && s.messages == []
    requires peer in s.cfg.peers && peer != s.cfg.id
    ensures var s' := SendAppend(BackOff(s, peer), peer, false);
      SameProgress(s, s') && Leads(s', net + MessageSet(s'.messages))
  {
    hide SendAppend, NothingWaiting;
    assert Served(s, peer, net);
    var s1 := BackOff(s, peer);
    SameWaiting(s, s1);
    forall q | q in s1.cfg.peers && q != s1.cfg.id && q != peer ensures Served(s1, q, net) {
      assert Served(s, q, net);
    }
    hide BackOff;
    SendOneLeads(s1, peer, net);
  }

  lemma AnswerDiligent(s: NodeState, m: Message, net: set<Message>)
    requires Configured(s.cfg) && Diligent(s, net) && s.messages == [] && m.body.AppendEntriesResp?
    ensures var s' := HandleAppendEntriesResp(s, m); Diligent(s', net + MessageSet(s'.messages))
  {
    hide SendAppend, BackOff, OnSuccess, Leads;
    assert net + MessageSet(s.messages) == net;
    if s.role == Leader && m.from in s.cfg.peers && m.from != s.cfg.id {
      SuccessLeads(s, m.from, m.body.matchIndex, net);
      RejectLeads(s, m.from, net);
    }
  }

  /** A reply adds to what was sent and changes nothing the node answers for. */
  lemma ReplyDiligent(s: NodeState, to: NodeID, body: Body, net: set<Message>)
    requires Diligent(s, net) && s.messages == []
    ensures var s' := Reply(s, to, body); Diligent(s', net + MessageSet(s'.messages))
  {
    var s' := Reply(s, to, body);
    if s.role == Leader {
      forall q | q in s'.cfg.peers && q != s'.cfg.id ensures Served(s', q, net + MessageSet(s'.messages)) {
        assert Served(s, q, net);
      }
    }
  }

  lemma FollowerDiligent(s: NodeState, sent: set<Message>)
    requires s.role == Follower && Timely(s)
    ensures Diligent(s, sent)
  {}

  lemma VoteDiligent(s: NodeState, m: Message, net: set<Message>)
    requires Diligent(s, net) && s.messages == [] && m.body.RequestVote?
    requires s.role != Follower ==> s.hard.votedFor == s.cfg.id != 0
    ensures var s' := HandleRequestVote(s, m); Diligent(s', net + MessageSet(s'.messages))
  {
    hide Grants, Leads, Asking;
    var s1 := CastVote(s, m.body);
    TimersAside(s, s.(electionElapsed := 0), net);
    assert Diligent(s1, net);
    ReplyDiligent(s1, m.from, RequestVoteResp(s.hard.term, Grants(s, m.body)), net);
  }

  lemma AppendDiligent(s: NodeState, m: Message, net: set<Message>)
    requires Configured(s.cfg) && Diligent(s, net) && s.messages == [] && m.body.AppendEntries?
    ensures var s' := HandleAppendEntries(s, m); Diligent(s', net + MessageSet(s'.messages))
  {
    hide FirstConflict, Leads;
    var s' := HandleAppendEntries(s, m);
    assert s'.role == Follower && Timely(s');
  }

  lemma DispatchDiligent(s: NodeState, m: Message, net: set<Message>)
    requires Configured(s.cfg) && Diligent(s, net) && s.messages == []
    requires s.role != Follower ==> s.hard.votedFor == s.cfg.id
    ensures var s' := Dispatch(s, m); Diligent(s', net + MessageSet(s'.messages))
  {
    hide HandleRequestVote, HandleAppendEntries, HandleRequestVoteResp, HandleAppendEntriesResp, Diligent;
    match m.body
    case NoBody => assert net + MessageSet(s.messages) == net;
    case RequestVote(_, _, _, _) => VoteDiligent(s, m, net);
    case AppendEntries(_, _, _, _, _, _) => AppendDiligent(s, m, net);
    case RequestVoteResp(_, _) => VoteCounted(s, m, net);
    case AppendEntriesResp(_, _, _) => AnswerDiligent(s, m, net);
  }

  lemma MessageDiligent(s: NodeState, m: Message, draw: nat, net: set<Message>)
    requires Configured(s.cfg) && Diligent(s, net) && s.messages == []
    requires s.role != Follower ==> s.hard.votedFor == s.cfg.id
    ensures var s' := StepMessage(s, m, draw); Diligent(s', net + MessageSet(s'.messages))
  {
    hide Dispatch, Leads, Asking;
    var term := MessageTerm(m);
    if term < s.hard.term {
      assert net + MessageSet(s.messages) == net;
      ReplyDiligent(s, m.from, RequestVoteResp(s.hard.term, false), net);
      ReplyDiligent(s, m.from, AppendEntriesResp(s.hard.term, false, 0), net);
    } else if term > s.hard.term {
      DispatchDiligent(BecomeFollower(s, term, draw), m, net);
    } else {
      DispatchDiligent(s, m, net);
    }
  }

  /** Whatever a node is given to handle, it leaves no duty open. */
  lemma HandleDiligent(s: NodeState, input: Input, net: set<Message>)
    requires Configured(s.cfg) && Diligent(s, net) && s.messages == []
    requires s.role != Follower ==> s.hard.votedFor == s.cfg.id
    ensures var s' := Handle(s, input); Diligent(s', net + MessageSet(s'.messages))
  {
    hide StepMessage, TickNode, Broadcast, AdvanceCommit, AppendLocal;
    match input
    case Tick(draw) => TickDiligent(s, draw, net);
    case Receive(m, draw) => MessageDiligent(s, m, draw, net);
    case Propose(data) =>
      assert net + MessageSet(s.messages) == net;
      if s.role == Leader {
        TimersAside(s, s, net);
        AppendLeads(s, Normal, data, false, true, net);
      }
  }

  /** Handing out what Ready holds changes nothing the node answers for. */
  lemma AdvanceDiligent(s: NodeState, sent: set<Message>)
    requires Diligent(s, sent)
    ensures Diligent(Advance(TakeReady(s)), sent)
  {
    hide ReadyOf;
    var s' := Advance(TakeReady(s));
    if s.role == Leader {
      SameWaiting(s, s');
      forall q | q in s'.cfg.peers && q != s'.cfg.id ensures Served(s', q, sent) { assert Served(s, q, sent); }
    } else if s.role == Candidate {
      forall q | q in s'.cfg.peers && q != s'.cfg.id ensures VoteRequest(s', q) in sent {
        assert VoteRequest(s, q) in sent;
      }
    }
  }

  lemma BootedDiligent(cfg: Config, hard: HardState, log: seq<Entry>, draw: nat, sent: set<Message>)
    ensures Diligent(NewNode(cfg, hard, log, draw), sent)
  {}

  /** What was sent stays sent. */
  lemma StaysDiligent(s: NodeState, sent: set<Message>, sent': set<Message>)
    requires Diligent(s, sent) && sent <= sent'
    ensures Diligent(s, sent')
  {
    if s.role == Leader {
      forall q | q in s.cfg.peers && q != s.cfg.id ensures Served(s, q, sent') { assert Served(s, q, sent); }
    }
  }
}
