/**
 The Raft core as functions on values: one function per method of the node, each taking
 the node's state to its next state. `RaftNode.Node` is proved equal to these functions
 method by method; the cluster model and the safety proof are written over them.
 */
module RaftSpec {
  import opened RaftTypes

  datatype NodeState = NodeState(
    cfg: Config,
    hard: HardState,
    role: Role,
    electionElapsed: nat,
    heartbeatElapsed: nat,
    electionTimeout: nat,
    votes: set<NodeID>,
    log: seq<Entry>,
    unstableIndex: nat,
    commitIndex: nat,
    lastApplied: nat,
    nextIndex: map<NodeID, nat>,
    matchIndex: map<NodeID, nat>,
    inflight: map<NodeID, Inflight>,
    hardStateDirty: bool,
    messages: seq<Message>,
    ack: ReadyAck)

  /** What the host can feed a node; `draw` stands for the timeout jitter it draws. */
  datatype Input = Tick(draw: nat) | Receive(m: Message, draw: nat) | Propose(data: seq<Byte>)

  function Get(m: map<NodeID, nat>, id: NodeID): nat { if id in m then m[id] else 0 }

  /** The nil maps of a node that is not leading. */
  function NoIndexes(): map<NodeID, nat> { map[] }

  function NoInflight(): map<NodeID, Inflight> { map[] }

  function Min(a: nat, b: nat): nat { if a < b then a else b }

  // ----- Log -----

  function LastTerm(log: seq<Entry>): nat { if log == [] then 0 else log[|log| - 1].term }

  function TermAt(log: seq<Entry>, index: nat): Option<nat> {
    if index == 0 then Some(0) else if index <= |log| then Some(log[index - 1].term) else None
  }

  /** Entries in the half-open interval [lo, hi), stopping at the end of the log. */
  function Range(log: seq<Entry>, lo: nat, hi: nat): seq<Entry> {
    if 1 <= lo < hi && lo <= |log| then log[lo - 1..Min(hi - 1, |log|)] else []
  }

  /** Position of the first supplied entry the log lacks or holds with another term. */
  function FirstConflict(log: seq<Entry>, entries: seq<Entry>, i: nat): (r: nat)
    requires i <= |entries|
    ensures i <= r <= |entries|
    decreases |entries| - i
  {
    if i == |entries| then i
    else if TermAt(log, entries[i].index) == Some(entries[i].term) then FirstConflict(log, entries, i + 1)
    else i
  }

  /** Entries carry the indexes prev + 1, prev + 2, ... */
  predicate Numbered(entries: seq<Entry>, prev: nat) {
    forall k :: 0 <= k < |entries| ==> entries[k].index == prev + k + 1
  }

  function AppendFromLeader(log: seq<Entry>, entries: seq<Entry>, prev: nat): seq<Entry>
    requires Numbered(entries, prev)
  {
    var i := FirstConflict(log, entries, 0);
    if i == |entries| then log else log[..Min(prev + i, |log|)] + entries[i..]
  }

  function FirstChanged(log: seq<Entry>, entries: seq<Entry>): nat {
    var i := FirstConflict(log, entries, 0);
    if i == |entries| then 0 else entries[i].index
  }

  // ----- Construction and timers -----

  /** The jitter source returns a value below the span; a draw outside it stands for no jitter. */
  function ResetElectionTimeout(s: NodeState, draw: nat): NodeState {
    var jitter := if s.cfg.electionMin + draw < s.cfg.electionMax then draw else 0;
    s.(electionTimeout := s.cfg.electionMin + jitter, electionElapsed := 0)
  }

  function WithDefaults(cfg: Config): Config {
    cfg.(electionMin := if cfg.electionMin == 0 then 10 else cfg.electionMin,
         electionMax := if cfg.electionMax == 0 then 20 else cfg.electionMax,
         heartbeatTicks := if cfg.heartbeatTicks == 0 then 2 else cfg.heartbeatTicks)
  }

  function NewNode(cfg: Config, hard: HardState, log: seq<Entry>, draw: nat): NodeState {
    ResetElectionTimeout(
      NodeState(WithDefaults(cfg), hard, Follower, 0, 0, 0, {}, log, |log| + 1, 0, 0, NoIndexes(), NoIndexes(),
                NoInflight(), false, [], NO_ACK), draw)
  }

  // ----- Role changes -----

  /** Gives up whatever the node held as candidate or leader. */
  function StepDown(s: NodeState): NodeState {
    s.(role := Follower, heartbeatElapsed := 0, votes := {}, nextIndex := NoIndexes(), matchIndex := NoIndexes(),
       inflight := NoInflight())
  }

  function BecomeFollowerSameTerm(s: NodeState): NodeState { StepDown(s).(electionElapsed := 0) }

  function BecomeFollower(s: NodeState, term: nat, draw: nat): NodeState {
    StepDown(if term != s.hard.term
             then ResetElectionTimeout(s.(hard := HardState(term, 0), hardStateDirty := true), draw)
             else s)
  }

  function Majority(s: NodeState): nat { |s.cfg.peers| / 2 + 1 }

  predicate HasMajority(s: NodeState) { |s.votes| >= Majority(s) }

  function RequestVotesUpTo(s: NodeState, k: nat): NodeState
    requires k <= |s.cfg.peers|
  {
    if k == 0 then s
    else
      var s1 := RequestVotesUpTo(s, k - 1);
      if s.cfg.peers[k - 1] == s.cfg.id then s1
      else s1.(messages := s1.messages +
        [Message(s.cfg.id, s.cfg.peers[k - 1], s.hard.term,
                 RequestVote(s.hard.term, s.cfg.id, |s.log|, LastTerm(s.log)))])
  }

  function Campaign(s: NodeState, draw: nat): NodeState {
    ResetElectionTimeout(
      s.(hard := HardState(s.hard.term + 1, s.cfg.id), hardStateDirty := true, role := Candidate, heartbeatElapsed := 0,
         votes := {s.cfg.id}), draw)
  }

  function StartElection(s: NodeState, draw: nat): NodeState {
    var s1 := Campaign(s, draw);
    if HasMajority(s1) then BecomeLeader(s1) else RequestVotesUpTo(s1, |s1.cfg.peers|)
  }

  // ----- Leader -----

  function AppendLocal(s: NodeState, typ: EntryType, data: seq<Byte>): NodeState {
    var index := |s.log| + 1;
    var s1 := s.(log := s.log + [Entry(index, s.hard.term, typ, data)], unstableIndex := Min(index, s.unstableIndex));
    if s1.matchIndex == NoIndexes() then s1
    else s1.(matchIndex := s1.matchIndex[s.cfg.id := index], nextIndex := s1.nextIndex[s.cfg.id := index + 1])
  }

  predicate CommitTermEligible(rule: CommitRule, entryTerm: nat, currentTerm: nat) {
    match rule
    case CurrentTermOnly => entryTerm == currentTerm
    case AnyTerm => true
  }

  function Replicas(peers: seq<NodeID>, matchIndex: map<NodeID, nat>, index: nat): (n: nat)
    ensures n <= |peers|
  {
    if peers == [] then 0
    else Replicas(peers[..|peers| - 1], matchIndex, index)
         + if Get(matchIndex, peers[|peers| - 1]) >= index then 1 else 0
  }

  /** May the leader commit `index` by counting replicas? */
  predicate Committable(s: NodeState, index: nat) {
    && 1 <= index <= |s.log|
    && CommitTermEligible(s.cfg.rule, s.log[index - 1].term, s.hard.term)
    && Replicas(s.cfg.peers, s.matchIndex, index) >= Majority(s)
  }

  /** The highest committable index at or below `index`, or the current commit index. */
  function ScanCommit(s: NodeState, index: nat): nat {
    if index <= s.commitIndex then s.commitIndex
    else if Committable(s, index) then index
    else ScanCommit(s, index - 1)
  }

  function AdvanceCommit(s: NodeState): NodeState {
    if s.role != Leader then s else s.(commitIndex := ScanCommit(s, |s.log|))
  }

  function EmitAppend(s: NodeState, peer: NodeID, p: Inflight): NodeState {
    var entries := if p.hasEntries then Range(s.log, p.prevIndex + 1, p.lastIndex + 1) else [];
    s.(messages := s.messages +
      [Message(s.cfg.id, peer, s.hard.term,
               AppendEntries(s.hard.term, s.cfg.id, p.prevIndex, p.prevTerm, entries, p.leaderCommit))])
  }

  function ClampNext(s: NodeState, peer: NodeID): (next: nat)
    ensures 1 <= next <= |s.log| + 1
  {
    var next := Get(s.nextIndex, peer);
    if next < 1 then 1 else if next > |s.log| + 1 then |s.log| + 1 else next
  }

  function NewInflight(s: NodeState, next: nat, probe: bool): Inflight
    requires 1 <= next <= |s.log| + 1
  {
    var withEntries := !probe && next <= |s.log|;
    Inflight(next - 1, TermAt(s.log, next - 1).value, if withEntries then |s.log| else next - 1, s.commitIndex,
             withEntries)
  }

  function SendAppend(s: NodeState, peer: NodeID, probe: bool): NodeState {
    if peer in s.inflight then EmitAppend(s, peer, s.inflight[peer])
    else
      var next := ClampNext(s, peer);
      var p := NewInflight(s, next, probe);
      EmitAppend(s.(nextIndex := s.nextIndex[peer := next], inflight := s.inflight[peer := p]), peer, p)
  }

  /** Sends to the first k peers other than the node itself, skipping busy peers when asked. */
  function BroadcastUpTo(s: NodeState, k: nat, probe: bool, onlyIdle: bool): (r: NodeState)
    requires k <= |s.cfg.peers|
    ensures r.cfg == s.cfg
  {
    if k == 0 then s
    else
      var s1 := BroadcastUpTo(s, k - 1, probe, onlyIdle);
      var peer := s.cfg.peers[k - 1];
      if peer == s.cfg.id || (onlyIdle && peer in s1.inflight) then s1 else SendAppend(s1, peer, probe)
  }

  function Broadcast(s: NodeState, probe: bool, onlyIdle: bool): NodeState {
    BroadcastUpTo(s, |s.cfg.peers|, probe, onlyIdle)
  }

  function Everywhere(peers: seq<NodeID>, index: nat): map<NodeID, nat> { map p | p in peers :: index }

  function ZeroProgress(s: NodeState): NodeState {
    s.(role := Leader, heartbeatElapsed := 0, votes := {}, nextIndex := Everywhere(s.cfg.peers, |s.log| + 1),
       matchIndex := Everywhere(s.cfg.peers, 0), inflight := NoInflight())
  }

  function BecomeLeader(s: NodeState): NodeState {
    Broadcast(AdvanceCommit(AppendLocal(ZeroProgress(s), Noop, [])), true, false)
  }

  // ----- Message handlers -----

  function Reply(s: NodeState, to: NodeID, body: Body): NodeState {
    s.(messages := s.messages + [Message(s.cfg.id, to, s.hard.term, body)])
  }

  predicate UpToDate(log: seq<Entry>, index: nat, term: nat) {
    term > LastTerm(log) || (term == LastTerm(log) && index >= |log|)
  }

  predicate Grants(s: NodeState, b: Body)
    requires b.RequestVote?
  {
    && (s.hard.votedFor == 0 || s.hard.votedFor == b.candidateId)
    && UpToDate(s.log, b.lastLogIndex, b.lastLogTerm)
  }

  function CastVote(s: NodeState, b: Body): NodeState
    requires b.RequestVote?
  {
    if !Grants(s, b) then s
    else if s.hard.votedFor == 0
    then s.(hard := HardState(s.hard.term, b.candidateId), hardStateDirty := true, electionElapsed := 0)
    else s.(electionElapsed := 0)
  }

  function HandleRequestVote(s: NodeState, m: Message): NodeState
    requires m.body.RequestVote?
  {
    Reply(CastVote(s, m.body), m.from, RequestVoteResp(s.hard.term, Grants(s, m.body)))
  }

  function HandleRequestVoteResp(s: NodeState, m: Message): NodeState
    requires m.body.RequestVoteResp?
  {
    if s.role != Candidate || !m.body.granted || m.from !in s.cfg.peers then s
    else
      var s1 := s.(votes := s.votes + {m.from});
      if HasMajority(s1) then BecomeLeader(s1) else s1
  }

  /** The request's entries are numbered prevLogIndex + 1 onward and its last index does not wrap. */
  predicate ValidAppend(b: Body)
    requires b.AppendEntries?
  {
    && b.prevLogIndex + |b.entries| <= MAX_UINT64
    && Numbered(b.entries, b.prevLogIndex)
  }

  function AdoptEntries(s: NodeState, b: Body): NodeState
    requires b.AppendEntries? && ValidAppend(b)
  {
    var changed := FirstChanged(s.log, b.entries);
    var last := b.prevLogIndex + |b.entries|;
    s.(log := AppendFromLeader(s.log, b.entries, b.prevLogIndex),
       unstableIndex := if changed != 0 && changed < s.unstableIndex then changed else s.unstableIndex,
       commitIndex := if b.leaderCommit > s.commitIndex then Min(b.leaderCommit, last) else s.commitIndex)
  }

  function YieldToLeader(s: NodeState): NodeState {
    var s1 := if s.role != Follower then BecomeFollowerSameTerm(s) else s;
    s1.(electionElapsed := 0)
  }

  function HandleAppendEntries(s: NodeState, m: Message): NodeState
    requires m.body.AppendEntries?
  {
    var s1 := YieldToLeader(s);
    if ValidAppend(m.body) && TermAt(s1.log, m.body.prevLogIndex) == Some(m.body.prevLogTerm)
    then Reply(AdoptEntries(s1, m.body), m.from,
               AppendEntriesResp(s.hard.term, true, m.body.prevLogIndex + |m.body.entries|))
    else Reply(s1, m.from, AppendEntriesResp(s.hard.term, false, 0))
  }

  /** A success that does not name exactly the outstanding request changes nothing. */
  predicate Acknowledges(s: NodeState, peer: NodeID, acked: nat) {
    && peer in s.inflight
    && acked == s.inflight[peer].lastIndex
    && acked >= Get(s.matchIndex, peer)
    && acked <= |s.log|
    && acked != MAX_UINT64
  }

  function RecordMatch(s: NodeState, peer: NodeID, acked: nat): NodeState {
    s.(inflight := s.inflight - {peer},
       matchIndex := if acked > Get(s.matchIndex, peer) then s.matchIndex[peer := acked] else s.matchIndex,
       nextIndex := s.nextIndex[peer := acked + 1])
  }

  function OnSuccess(s: NodeState, peer: NodeID, acked: nat): NodeState {
    if !Acknowledges(s, peer, acked) then s
    else
      var s1 := AdvanceCommit(RecordMatch(s, peer, acked));
      if acked + 1 <= |s1.log| || s1.commitIndex != s.commitIndex then SendAppend(s1, peer, false) else s1
  }

  function BackOff(s: NodeState, peer: NodeID): NodeState {
    var matched := Get(s.matchIndex, peer);
    var floor := if matched != MAX_UINT64 && matched + 1 > 1 then matched + 1 else 1;
    var next := Get(s.nextIndex, peer);
    s.(inflight := s.inflight - {peer},
       nextIndex := if next > floor then s.nextIndex[peer := next - 1] else s.nextIndex)
  }

  function HandleAppendEntriesResp(s: NodeState, m: Message): NodeState
    requires m.body.AppendEntriesResp?
  {
    if s.role != Leader || m.from !in s.cfg.peers || m.from == s.cfg.id || m.from !in s.inflight then s
    else if m.body.success then OnSuccess(s, m.from, m.body.matchIndex)
    else SendAppend(BackOff(s, m.from), m.from, false)
  }

  function MessageTerm(m: Message): nat {
    var inner := match m.body
      case NoBody => 0
      case RequestVote(t, _, _, _) => t
      case RequestVoteResp(t, _) => t
      case AppendEntries(t, _, _, _, _, _) => t
      case AppendEntriesResp(t, _, _) => t;
    if inner > m.term then inner else m.term
  }

  function RejectLowerTerm(s: NodeState, m: Message): NodeState {
    match m.body
    case RequestVote(_, _, _, _) => Reply(s, m.from, RequestVoteResp(s.hard.term, false))
    case AppendEntries(_, _, _, _, _, _) => Reply(s, m.from, AppendEntriesResp(s.hard.term, false, 0))
    case _ => s
  }

  function Dispatch(s: NodeState, m: Message): NodeState {
    match m.body
    case NoBody => s
    case RequestVote(_, _, _, _) => HandleRequestVote(s, m)
    case AppendEntries(_, _, _, _, _, _) => HandleAppendEntries(s, m)
    case RequestVoteResp(_, _) => HandleRequestVoteResp(s, m)
    case AppendEntriesResp(_, _, _) => HandleAppendEntriesResp(s, m)
  }

  function StepMessage(s: NodeState, m: Message, draw: nat): NodeState {
    var term := MessageTerm(m);
    if term < s.hard.term then RejectLowerTerm(s, m)
    else if term > s.hard.term then Dispatch(BecomeFollower(s, term, draw), m)
    else Dispatch(s, m)
  }

  // ----- Entry points -----

  function TickNode(s: NodeState, draw: nat): NodeState {
    if s.role == Leader then
      if s.heartbeatElapsed + 1 >= s.cfg.heartbeatTicks
      then Broadcast(s.(heartbeatElapsed := 0), false, false)
      else s.(heartbeatElapsed := s.heartbeatElapsed + 1)
    else
      var s1 := s.(electionElapsed := s.electionElapsed + 1);
      if s1.electionElapsed >= s1.electionTimeout then StartElection(s1, draw) else s1
  }

  function ProposeData(s: NodeState, data: seq<Byte>): NodeState {
    if s.role != Leader then s
    else Broadcast(AdvanceCommit(AppendLocal(s, Normal, data)), false, true)
  }

  function Handle(s: NodeState, input: Input): NodeState {
    match input
    case Tick(draw) => TickNode(s, draw)
    case Receive(m, draw) => StepMessage(s, m, draw)
    case Propose(data) => ProposeData(s, data)
  }

  // ----- Ready and Advance -----

  function ReadyOf(s: NodeState): Ready {
    Ready(if s.hardStateDirty then Some(s.hard) else None,
          if s.unstableIndex <= |s.log| then Range(s.log, s.unstableIndex, |s.log| + 1) else [], s.messages,
          if s.lastApplied < s.commitIndex then Range(s.log, s.lastApplied + 1, s.commitIndex + 1) else [])
  }

  function Capture(rd: Ready): ReadyAck {
    ReadyAck(true, rd.hardState.Some?, if rd.hardState.Some? then rd.hardState.value else HardState(0, 0),
             |rd.messages|, |rd.entries| > 0, if |rd.entries| > 0 then rd.entries[|rd.entries| - 1].index else 0,
             |rd.committed| > 0, if |rd.committed| > 0 then rd.committed[|rd.committed| - 1].index else 0)
  }

  function TakeReady(s: NodeState): NodeState { s.(ack := Capture(ReadyOf(s))) }

  function Advance(s: NodeState): NodeState {
    var ack := if s.ack.valid then s.ack else Capture(ReadyOf(s));
    s.(hardStateDirty := s.hardStateDirty && !(ack.hardState && s.hard == ack.hard),
       messages := if ack.messageCount >= |s.messages| then [] else s.messages[ack.messageCount..],
       unstableIndex := if ack.entries && s.unstableIndex <= ack.stableTo then ack.stableTo + 1 else s.unstableIndex,
       lastApplied := if ack.committed && ack.appliedTo > s.lastApplied then ack.appliedTo else s.lastApplied,
       ack := NO_ACK)
  }
}
