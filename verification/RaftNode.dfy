/**
 The deterministic, synchronous Raft node, updated in place. Each method is proved to take
 the node's abstract state exactly where the matching function of `RaftSpec` says.
 */
module RaftNode {
  import opened RaftTypes
  import opened RaftSpec
  import opened RaftLog
  import P = Persistence

  class Node {
    const config: Config
    const log: Log

    var hardState: HardState
    var role: Role
    var electionElapsed: nat
    var heartbeatElapsed: nat
    var electionTimeout: nat
    var votes: set<NodeID>
    var unstableIndex: nat
    var commitIndex: nat
    var lastApplied: nat
    var nextIndex: map<NodeID, nat>
    var matchIndex: map<NodeID, nat>
    var inflight: map<NodeID, Inflight>
    var hardStateDirty: bool
    var messages: seq<Message>
    var readyAck: ReadyAck

    function State(): NodeState
      reads this, log
    {
      NodeState(config, hardState, role, electionElapsed, heartbeatElapsed, electionTimeout, votes, log.entries,
                unstableIndex, commitIndex, lastApplied, nextIndex, matchIndex, inflight, hardStateDirty, messages,
                readyAck)
    }

    ghost predicate Valid()
      reads this, log
    {
      Ascending(config.peers) && Contiguous(log.entries)
    }

    constructor (cfg: Config, hard: HardState, entries: seq<Entry>, draw: nat)
      requires Ascending(cfg.peers) && Contiguous(entries)
      ensures Valid() && fresh(log)
      ensures State() == NewNode(cfg, hard, entries, draw)
    {
      config := WithDefaults(cfg);
      log := new Log(entries);
      hardState, role := hard, Follower;
      electionElapsed, heartbeatElapsed, electionTimeout := 0, 0, 0;
      votes := {};
      commitIndex, lastApplied := 0, 0;
      nextIndex, matchIndex, inflight := NoIndexes(), NoIndexes(), NoInflight();
      hardStateDirty, messages, readyAck := false, [], NO_ACK;
      new;
      unstableIndex := log.LastIndex() + 1;
      ResetElectionTimeout(draw);
    }

    // ----- Entry points -----

    method Tick(draw: nat)
      requires Valid()
      modifies this, log
      ensures Valid() && State() == TickNode(old(State()), draw)
    {
      hide Contiguous, Ascending, NoIndexes, NoInflight, Broadcast, RaftSpec.StartElection;
      if role == Leader {
        heartbeatElapsed := heartbeatElapsed + 1;
        if heartbeatElapsed >= config.heartbeatTicks {
          heartbeatElapsed := 0;
          BroadcastAppend(false);
        }
        return;
      }
      electionElapsed := electionElapsed + 1;
      if electionElapsed >= electionTimeout {
        StartElection(draw);
      }
    }

    method Step(m: Message, draw: nat)
      requires Valid()
      modifies this, log
      ensures Valid() && State() == StepMessage(old(State()), m, draw)
    {
      hide Contiguous, Ascending, NoIndexes, NoInflight, RaftSpec.HandleRequestVote, RaftSpec.HandleAppendEntries,
        HandleRequestVoteResp, HandleAppendEntriesResp, RaftSpec.BecomeFollower;
      var term := MessageTerm(m);
      if term > hardState.term {
        BecomeFollower(term, draw);
      } else if term < hardState.term {
        RejectLowerTermRequest(m);
        return;
      }
      match m.body
      case NoBody =>
      case RequestVote(_, _, _, _) => HandleRequestVote(m);
      case AppendEntries(_, _, _, _, _, _) => HandleAppendEntries(m);
      case RequestVoteResp(_, _) => HandleRequestVoteResponse(m);
      case AppendEntriesResp(_, _, _) => HandleAppendEntriesResponse(m);
    }

    method Propose(data: seq<Byte>) returns (index: nat, term: nat, isLeader: bool)
      requires Valid()
      modifies this, log
      ensures Valid() && State() == ProposeData(old(State()), data)
      ensures isLeader == (old(role) == Leader) && term == old(hardState.term)
      ensures index == if isLeader then |old(log.entries)| + 1 else 0
    {
      if role != Leader {
        return 0, hardState.term, false;
      }
      index := AppendLocal(Normal, data);
      var _ := AdvanceCommit();
      ghost var s := State();
      BroadcastAvailableAppend();
      P.BroadcastStores(s, |s.cfg.peers|, false, true);
      return index, hardState.term, true;
    }

    // ----- Ready and Advance -----

    method Ready() returns (ready: RaftTypes.Ready)
      requires Valid()
      modifies this
      ensures Valid() && State() == TakeReady(old(State())) && ready == ReadyOf(old(State()))
    {
      ready := ReadyWithoutCapture();
      CaptureReady(ready);
    }

    method ReadyWithoutCapture() returns (ready: RaftTypes.Ready)
      requires Valid()
      ensures ready == ReadyOf(State())
    {
      hide Contiguous, Ascending, NoIndexes, NoInflight, Range;
      var unstable, committed := [], [];
      var lastIndex := log.LastIndex();
      if unstableIndex <= lastIndex {
        unstable := log.RangeEntries(unstableIndex, lastIndex + 1);
      }
      if lastApplied < commitIndex {
        committed := log.RangeEntries(lastApplied + 1, commitIndex + 1);
      }
      ready := RaftTypes.Ready(if hardStateDirty then Some(hardState) else None, unstable, messages, committed);
    }

    method CaptureReady(ready: RaftTypes.Ready)
      requires Valid()
      modifies this
      ensures Valid() && State() == old(State()).(ack := Capture(ready))
    {
      readyAck := Capture(ready);
    }

    method Advance()
      requires Valid()
      modifies this
      ensures Valid() && State() == RaftSpec.Advance(old(State()))
    {
      hide Contiguous, Ascending, NoIndexes, NoInflight, ReadyOf;
      if !readyAck.valid {
        var ready := ReadyWithoutCapture();
        CaptureReady(ready);
      }
      Acknowledge();
    }

    /** Drops what the captured batch covered. */
    method Acknowledge()
      requires Valid() && readyAck.valid
      modifies this
      ensures Valid() && State() == RaftSpec.Advance(old(State()))
    {
      hide Contiguous, Ascending, NoIndexes, NoInflight, ReadyOf, Capture;
      var ack := readyAck;
      if ack.hardState && hardStateDirty && hardState == ack.hard {
        hardStateDirty := false;
      }
      if ack.messageCount >= |messages| {
        messages := [];
      } else if ack.messageCount > 0 {
        messages := messages[ack.messageCount..];
      }
      if ack.entries && unstableIndex <= ack.stableTo {
        unstableIndex := ack.stableTo + 1;
      }
      if ack.committed && ack.appliedTo > lastApplied {
        lastApplied := ack.appliedTo;
      }
      readyAck := NO_ACK;
    }

    // ----- Elections -----

    method ResetElectionTimeout(draw: nat)
      requires Valid()
      modifies this
      ensures Valid() && State() == RaftSpec.ResetElectionTimeout(old(State()), draw)
    {
      var timeout := config.electionMin;
      var span := config.electionMax - config.electionMin;
      if span > 0 && draw < span {
        timeout := timeout + draw;
      }
      electionTimeout := timeout;
      electionElapsed := 0;
    }

    method StartElection(draw: nat)
      requires Valid()
      modifies this, log
      ensures Valid() && State() == RaftSpec.StartElection(old(State()), draw)
    {
      hide Contiguous, Ascending, Campaign, RaftSpec.BecomeLeader, RequestVotesUpTo;
      BecomeCandidate(draw);
      if HasMajority(State()) {
        BecomeLeader();
      } else {
        RequestVotes();
      }
    }

    method BecomeCandidate(draw: nat)
      requires Valid()
      modifies this
      ensures Valid() && State() == Campaign(old(State()), draw)
    {
      hide Contiguous, Ascending, RaftSpec.ResetElectionTimeout;
      hardState := HardState(hardState.term + 1, config.id);
      hardStateDirty := true;
      role := Candidate;
      heartbeatElapsed := 0;
      votes := {config.id};
      assert State() == old(State()).(hard := hardState, hardStateDirty := true, role := Candidate,
                                      heartbeatElapsed := 0, votes := votes);
      ResetElectionTimeout(draw);
    }

    method RequestVotes()
      requires Valid()
      modifies this
      ensures Valid() && State() == RequestVotesUpTo(old(State()), |config.peers|)
    {
      hide Contiguous, Ascending, NoIndexes, NoInflight;
      ghost var s := State();
      for k := 0 to |config.peers|
        invariant Valid() && State() == RequestVotesUpTo(s, k)
      {
        P.RequestVotesStores(s, k);
        var peer := config.peers[k];
        if peer != config.id {
          messages := messages + [Message(config.id, peer, hardState.term,
                                          RequestVote(hardState.term, config.id, log.LastIndex(), log.LastLogTerm()))];
        }
      }
    }

    method StepDown()
      requires Valid()
      modifies this
      ensures Valid() && State() == RaftSpec.StepDown(old(State()))
    {
      hide Contiguous, Ascending, NoIndexes, NoInflight;
      role := Follower;
      heartbeatElapsed := 0;
      votes := {};
      nextIndex, matchIndex, inflight := NoIndexes(), NoIndexes(), NoInflight();
    }

    method BecomeFollower(term: nat, draw: nat)
      requires Valid()
      modifies this
      ensures Valid() && State() == RaftSpec.BecomeFollower(old(State()), term, draw)
    {
      hide Contiguous, Ascending, NoIndexes, NoInflight, RaftSpec.ResetElectionTimeout, RaftSpec.StepDown;
      if term != hardState.term {
        hardState := HardState(term, 0);
        hardStateDirty := true;
        ResetElectionTimeout(draw);
      }
      StepDown();
    }

    method BecomeFollowerSameTerm()
      requires Valid()
      modifies this
      ensures Valid() && State() == RaftSpec.BecomeFollowerSameTerm(old(State()))
    {
      hide Contiguous, Ascending, NoIndexes, NoInflight, RaftSpec.StepDown;
      StepDown();
      electionElapsed := 0;
    }

    method BecomeLeader()
      requires Valid()
      modifies this, log
      ensures Valid() && State() == RaftSpec.BecomeLeader(old(State()))
    {
      hide Contiguous, Ascending, NoIndexes, NoInflight, ZeroProgress, RaftSpec.AppendLocal, RaftSpec.AdvanceCommit,
        Broadcast;
      TakeLead();
      var _ := AppendLocal(Noop, []);
      var _ := AdvanceCommit();
      BroadcastAppend(true);
    }

    method TakeLead()
      requires Valid()
      modifies this
      ensures Valid() && State() == ZeroProgress(old(State()))
    {
      hide Contiguous, Ascending, NoIndexes, NoInflight, Everywhere;
      role := Leader;
      heartbeatElapsed := 0;
      votes := {};
      ResetProgress();
    }

    /** Every peer's next index becomes the probe point; nothing is known to match. */
    method ResetProgress()
      requires Valid()
      modifies this`nextIndex, this`matchIndex, this`inflight
      ensures nextIndex == Everywhere(config.peers, |log.entries| + 1)
      ensures matchIndex == Everywhere(config.peers, 0)
      ensures inflight == NoInflight()
    {
      hide Contiguous, Ascending, NoInflight;
      var probeIndex := log.LastIndex();
      nextIndex, matchIndex, inflight := NoIndexes(), NoIndexes(), NoInflight();
      for k := 0 to |config.peers|
        invariant nextIndex.Keys == matchIndex.Keys == set p | p in config.peers[..k]
        invariant forall p :: p in nextIndex ==> nextIndex[p] == probeIndex + 1
        invariant forall p :: p in matchIndex ==> matchIndex[p] == 0
        invariant inflight == NoInflight()
      {
        nextIndex := nextIndex[config.peers[k] := probeIndex + 1];
        matchIndex := matchIndex[config.peers[k] := 0];
      }
    }

    method HandleRequestVote(m: Message)
      requires Valid() && m.body.RequestVote?
      modifies this
      ensures Valid() && State() == RaftSpec.HandleRequestVote(old(State()), m)
    {
      hide Contiguous, Ascending, NoIndexes, NoInflight;
      var canVote := hardState.votedFor == 0 || hardState.votedFor == m.body.candidateId;
      var granted := canVote && CandidateLogIsUpToDate(m.body.lastLogIndex, m.body.lastLogTerm);
      if granted {
        if hardState.votedFor == 0 {
          hardState := HardState(hardState.term, m.body.candidateId);
          hardStateDirty := true;
        }
        electionElapsed := 0;
      }
      Send(m.from, RequestVoteResp(hardState.term, granted));
    }

    predicate CandidateLogIsUpToDate(index: nat, term: nat)
      requires Valid()
      reads this, log
      ensures CandidateLogIsUpToDate(index, term) == UpToDate(log.entries, index, term)
    {
      term > log.LastLogTerm() || (term == log.LastLogTerm() && index >= log.LastIndex())
    }

    method HandleRequestVoteResponse(m: Message)
      requires Valid() && m.body.RequestVoteResp?
      modifies this, log
      ensures Valid() && State() == HandleRequestVoteResp(old(State()), m)
    {
      hide Contiguous, Ascending, NoIndexes, NoInflight, RaftSpec.BecomeLeader;
      var peer := IsPeer(m.from);
      if role != Candidate || !m.body.granted || !peer { return; }
      votes := votes + {m.from};
      if HasMajority(State()) {
        BecomeLeader();
      }
    }

    // ----- Replication -----

    method HandleAppendEntries(m: Message)
      requires Valid() && m.body.AppendEntries?
      modifies this, log
      ensures Valid() && State() == RaftSpec.HandleAppendEntries(old(State()), m)
    {
      hide Contiguous, Ascending, NoIndexes, NoInflight, RaftSpec.AdoptEntries, Numbered;
      var req := m.body;
      if role != Follower {
        BecomeFollowerSameTerm();
      }
      electionElapsed := 0;
      assert State() == YieldToLeader(old(State()));
      var requestLastIndex, valid := AppendRequestLastIndex(req);
      if !valid {
        Send(m.from, AppendEntriesResp(hardState.term, false, 0));
        return;
      }
      if !log.Matches(req.prevLogIndex, req.prevLogTerm) {
        Send(m.from, AppendEntriesResp(hardState.term, false, 0));
        return;
      }
      AdoptEntries(req, requestLastIndex);
      Send(m.from, AppendEntriesResp(hardState.term, true, requestLastIndex));
    }

    method AdoptEntries(req: Body, requestLastIndex: nat)
      requires Valid() && req.AppendEntries? && ValidAppend(req)
      requires requestLastIndex == req.prevLogIndex + |req.entries| && req.prevLogIndex <= |log.entries|
      modifies this`unstableIndex, this`commitIndex, log
      ensures Valid() && State() == RaftSpec.AdoptEntries(old(State()), req)
    {
      P.AppendShape(log.entries, req.entries, req.prevLogIndex);
      var changed := log.AppendFromLeader(req.entries, req.prevLogIndex);
      hide Contiguous, Ascending, NoIndexes, NoInflight, FirstChanged, RaftSpec.AppendFromLeader;
      if changed != 0 && changed < unstableIndex {
        unstableIndex := changed;
      }
      if req.leaderCommit > commitIndex {
        commitIndex := Min(req.leaderCommit, requestLastIndex);
      }
    }

    static method AppendRequestLastIndex(req: Body) returns (last: nat, valid: bool)
      requires req.AppendEntries?
      ensures valid == ValidAppend(req)
      ensures last == if valid then req.prevLogIndex + |req.entries| else 0
    {
      if |req.entries| > MAX_UINT64 - req.prevLogIndex { return 0, false; }
      last := req.prevLogIndex + |req.entries|;
      for i := 0 to |req.entries|
        invariant Numbered(req.entries[..i], req.prevLogIndex)
      {
        if req.entries[i].index != req.prevLogIndex + i + 1 { return 0, false; }
        assert req.entries[..i + 1] == req.entries[..i] + [req.entries[i]];
      }
      assert req.entries[..|req.entries|] == req.entries;
      return last, true;
    }

    method HandleAppendEntriesResponse(m: Message)
      requires Valid() && m.body.AppendEntriesResp?
      modifies this
      ensures Valid() && State() == HandleAppendEntriesResp(old(State()), m)
    {
      hide Contiguous, Ascending, RaftSpec.OnSuccess, BackOff, RaftSpec.SendAppend;
      var peer := m.from;
      var known := IsPeer(peer);
      if role != Leader || !known || peer == config.id { return; }
      if peer !in inflight { return; }
      if m.body.success {
        OnSuccess(peer, m.body.matchIndex);
      } else {
        OnReject(peer);
        SendAppend(peer, false);
      }
    }

    /** A success counts only if it names exactly the outstanding request. */
    method OnSuccess(peer: NodeID, acknowledged: nat)
      requires Valid() && peer in inflight
      modifies this
      ensures Valid() && State() == RaftSpec.OnSuccess(old(State()), peer, acknowledged)
    {
      hide Contiguous, Ascending, ScanCommit, RaftSpec.SendAppend;
      var pending := inflight[peer];
      if acknowledged != pending.lastIndex || acknowledged < Get(matchIndex, peer)
         || acknowledged > log.LastIndex() || acknowledged == MAX_UINT64 {
        return;
      }
      inflight := inflight - {peer};
      if acknowledged > Get(matchIndex, peer) {
        matchIndex := matchIndex[peer := acknowledged];
      }
      nextIndex := nextIndex[peer := Get(matchIndex, peer) + 1];
      assert State() == RecordMatch(old(State()), peer, acknowledged);
      var commitAdvanced := AdvanceCommit();
      if Get(nextIndex, peer) <= log.LastIndex() || commitAdvanced {
        SendAppend(peer, false);
      }
    }

    method OnReject(peer: NodeID)
      requires Valid()
      modifies this
      ensures Valid() && State() == BackOff(old(State()), peer)
    {
      hide Contiguous, Ascending;
      inflight := inflight - {peer};
      var retryFloor := 1;
      var matched := Get(matchIndex, peer);
      if matched != MAX_UINT64 && matched + 1 > retryFloor {
        retryFloor := matched + 1;
      }
      if Get(nextIndex, peer) > retryFloor {
        nextIndex := nextIndex[peer := Get(nextIndex, peer) - 1];
      }
    }

    method RejectLowerTermRequest(m: Message)
      requires Valid()
      modifies this
      ensures Valid() && State() == RejectLowerTerm(old(State()), m)
    {
      match m.body
      case RequestVote(_, _, _, _) => Send(m.from, RequestVoteResp(hardState.term, false));
      case AppendEntries(_, _, _, _, _, _) => Send(m.from, AppendEntriesResp(hardState.term, false, 0));
      case _ =>
    }

    method Send(to: NodeID, body: Body)
      requires Valid()
      modifies this
      ensures Valid() && State() == Reply(old(State()), to, body)
    {
      messages := messages + [Message(config.id, to, hardState.term, body)];
    }

    method AppendLocal(typ: EntryType, data: seq<Byte>) returns (index: nat)
      requires Valid()
      modifies this, log
      ensures Valid() && State() == RaftSpec.AppendLocal(old(State()), typ, data)
      ensures index == |old(log.entries)| + 1
    {
      index := log.AppendLocal(hardState.term, typ, data);
      if index < unstableIndex {
        unstableIndex := index;
      }
      if matchIndex != NoIndexes() {
        matchIndex := matchIndex[config.id := index];
        nextIndex := nextIndex[config.id := index + 1];
      }
    }

    method BroadcastAppend(probe: bool)
      requires Valid()
      modifies this
      ensures Valid() && State() == Broadcast(old(State()), probe, false)
    {
      hide Contiguous, Ascending, NoIndexes, NoInflight, RaftSpec.SendAppend;
      for k := 0 to |config.peers|
        invariant Valid() && State() == BroadcastUpTo(old(State()), k, probe, false)
      {
        var peer := config.peers[k];
        if peer != config.id {
          SendAppend(peer, probe);
        }
      }
    }

    /** Starts one request per follower that has none outstanding. */
    method BroadcastAvailableAppend()
      requires Valid()
      modifies this
      ensures Valid() && State() == Broadcast(old(State()), false, true)
    {
      hide Contiguous, Ascending, NoIndexes, NoInflight, RaftSpec.SendAppend;
      for k := 0 to |config.peers|
        invariant Valid() && State() == BroadcastUpTo(old(State()), k, false, true)
      {
        var peer := config.peers[k];
        if peer != config.id && peer !in inflight {
          SendAppend(peer, false);
        }
      }
    }

    method SendAppend(peer: NodeID, probe: bool)
      requires Valid()
      modifies this
      ensures Valid() && State() == RaftSpec.SendAppend(old(State()), peer, probe)
    {
      hide Contiguous, Ascending, NoIndexes, NoInflight, RaftSpec.EmitAppend;
      if peer in inflight {
        EmitAppend(peer, inflight[peer]);
        return;
      }
      var lastIndex := log.LastIndex();
      var next := Get(nextIndex, peer);
      if next < 1 { next := 1; }
      if next > lastIndex + 1 { next := lastIndex + 1; }
      nextIndex := nextIndex[peer := next];
      var prevTerm := log.Term(next - 1);
      if prevTerm == None { return; }
      var hasEntries := !probe && next <= lastIndex;
      var pending := Inflight(next - 1, prevTerm.value, if hasEntries then lastIndex else next - 1, commitIndex,
                              hasEntries);
      inflight := inflight[peer := pending];
      EmitAppend(peer, pending);
    }

    method EmitAppend(peer: NodeID, pending: Inflight)
      requires Valid()
      modifies this
      ensures Valid() && State() == RaftSpec.EmitAppend(old(State()), peer, pending)
    {
      var entries := [];
      if pending.hasEntries {
        entries := log.RangeEntries(pending.prevIndex + 1, pending.lastIndex + 1);
      }
      Send(peer, AppendEntries(hardState.term, config.id, pending.prevIndex, pending.prevTerm, entries,
                               pending.leaderCommit));
    }

    /** Scans down from the end of the log for the highest index the commit rule allows. */
    method AdvanceCommit() returns (advanced: bool)
      requires Valid()
      modifies this
      ensures Valid() && State() == RaftSpec.AdvanceCommit(old(State()))
      ensures advanced == (commitIndex != old(commitIndex))
    {
      if role != Leader { return false; }
      var majority := |config.peers| / 2 + 1;
      var index: nat := log.LastIndex();
      while index > commitIndex
        invariant State() == old(State()) && index <= |log.entries|
        invariant ScanCommit(old(State()), |log.entries|) == ScanCommit(old(State()), index)
      {
        var term := log.Term(index);
        if term != None && CommitTermEligible(config.rule, term.value, hardState.term) {
          var replicas := CountReplicas(index);
          if replicas >= majority {
            commitIndex := index;
            return true;
          }
        }
        index := index - 1;
      }
      return false;
    }

    method CountReplicas(index: nat) returns (replicas: nat)
      ensures replicas == Replicas(config.peers, matchIndex, index)
    {
      replicas := 0;
      for k := 0 to |config.peers|
        invariant replicas == Replicas(config.peers[..k], matchIndex, index)
      {
        assert config.peers[..k + 1][..k] == config.peers[..k];
        if Get(matchIndex, config.peers[k]) >= index {
          replicas := replicas + 1;
        }
      }
      assert config.peers[..|config.peers|] == config.peers;
    }

    /** Binary search over the sorted peer list. */
    method IsPeer(id: NodeID) returns (found: bool)
      requires Valid()
      ensures found == (id in config.peers)
    {
      var lo, hi := 0, |config.peers|;
      while lo < hi
        invariant 0 <= lo <= hi <= |config.peers|
        invariant forall k :: 0 <= k < lo ==> config.peers[k] < id
        invariant forall k :: hi <= k < |config.peers| ==> config.peers[k] >= id
      {
        var mid := (lo + hi) / 2;
        if config.peers[mid] >= id { hi := mid; } else { lo := mid + 1; }
      }
      found := lo < |config.peers| && config.peers[lo] == id;
    }
  }
}
