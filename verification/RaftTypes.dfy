/** Values exchanged by the Raft core, its storage and its transport. */
module RaftTypes {

  datatype Option<+T> = None | Some(value: T)

  type Byte = b: int | 0 <= b < 256 witness 0

  /** Zero is "nobody": it never names a peer. */
  type NodeID = nat

  const MAX_UINT64: nat := 0xFFFF_FFFF_FFFF_FFFF
  const MAX_INT64: nat := 0x7FFF_FFFF_FFFF_FFFF
  const MAX_UINT32: nat := 0xFFFF_FFFF

  datatype EntryType = Unspecified | Normal | Noop | Other(code: nat)

  datatype Entry = Entry(index: nat, term: nat, typ: EntryType, data: seq<Byte>)

  datatype HardState = HardState(term: nat, votedFor: NodeID)

  datatype Body =
    | NoBody
    | RequestVote(voteTerm: nat, candidateId: NodeID, lastLogIndex: nat, lastLogTerm: nat)
    | RequestVoteResp(voteRespTerm: nat, granted: bool)
    | AppendEntries(appendTerm: nat, leaderId: NodeID, prevLogIndex: nat, prevLogTerm: nat, entries: seq<Entry>,
                    leaderCommit: nat)
    | AppendEntriesResp(appendRespTerm: nat, success: bool, matchIndex: nat)

  datatype Message = Message(from: NodeID, to: NodeID, term: nat, body: Body)

  datatype Role = Follower | Candidate | Leader

  /** The frozen description of the one outstanding AppendEntries to a peer. */
  datatype Inflight = Inflight(prevIndex: nat, prevTerm: nat, lastIndex: nat, leaderCommit: nat, hasEntries: bool)

  datatype ReadyAck = ReadyAck(valid: bool, hardState: bool, hard: HardState, messageCount: nat, entries: bool,
                               stableTo: nat, committed: bool, appliedTo: nat)

  const NO_ACK := ReadyAck(false, false, HardState(0, 0), 0, false, 0, false, 0)

  datatype Ready = Ready(hardState: Option<HardState>, entries: seq<Entry>, messages: seq<Message>,
                         committed: seq<Entry>)

  /** The two builds of the commit rule: the real one and the negative control. */
  datatype CommitRule = CurrentTermOnly | AnyTerm

  datatype Config = Config(id: NodeID, peers: seq<NodeID>, electionMin: nat, electionMax: nat, heartbeatTicks: nat,
                           rule: CommitRule)

  /** Indexes run 1, 2, 3, ... because the snapshot base is fixed at (0, 0). */
  ghost predicate Contiguous(log: seq<Entry>) {
    forall k :: 0 <= k < |log| ==> log[k].index == k + 1
  }

  ghost predicate Ascending(ids: seq<NodeID>) {
    forall i, j :: 0 <= i < j < |ids| ==> ids[i] < ids[j]
  }

  /** Peers are non-zero, distinct, in sorted order, and include the node itself. */
  ghost predicate ValidConfig(cfg: Config) {
    && Ascending(cfg.peers)
    && 0 !in cfg.peers
    && cfg.id in cfg.peers
  }
}
