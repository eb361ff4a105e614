/**
 Why a leader counts replicas only for entries of its own term: the history of Figure 8 of "In
 Search of an Understandable Consensus Algorithm (Extended Version)" satisfies every invariant of
 `RaftHistory`, and in it an entry of an older term that a majority stores is missing from the
 log of a later winner. A node under the variant rule commits that entry; under the real rule not.
 */
module RaftFigure8 {
  import opened RaftTypes
  import opened RaftSpec
  import opened Storage
  import opened RaftHistory

  const PEERS: seq<NodeID> := [1, 2, 3, 4, 5]

  function E(index: nat, term: nat): Entry { Entry(index, term, Noop, []) }

  // Node 1 wins terms 1 and 3, node 5 terms 2 and 4.

  function Winner(t: nat): NodeID { if t == 1 || t == 3 then 1 else 5 }

  function Voters(t: nat): set<NodeID> {
    if t == 1 || t == 3 then {1, 2, 3} else if t == 2 then {3, 4, 5} else {2, 4, 5}
  }

  /** The winner's log when it stood. */
  function Start(t: nat): seq<Entry> { if t == 3 then [E(1, 1)] else if t == 4 then [E(1, 2)] else [] }

  function Full(t: nat): seq<Entry> { Start(t) + [E(|Start(t)| + 1, t)] }

  predicate Pair(t: nat, last: nat) { 1 <= t <= last }

  /** Node 2 stores the entry of term 1 twice over; node 3 stores term 3's log. */
  predicate IsAck(v: NodeID, t: nat, last: nat) {
    Pair(t, last) && (v == Winner(t) || (v == 2 && (t == 1 || t == 3)) || (v == 3 && t == 3))
  }

  function AckOf(v: NodeID, t: nat): nat { if v == 2 then 1 else |Full(t)| }

  function DiskOf(v: NodeID, last: nat): Durable {
    if v == 1 || v == 3 then Durable(HardState(3, 1), Full(3))
    else if v == 2 then Durable(if last == 4 then HardState(4, 5) else HardState(3, 1), Full(1))
    else if v == 4 then Durable(HardState(if last == 4 then 4 else 2, 5), [])
    else if last == 4 then Durable(HardState(4, 5), Full(4))
    else Durable(HardState(2, 5), Full(2))
  }

  function Terms(last: nat): set<nat> { if last == 4 then {1, 2, 3, 4} else {1, 2, 3} }

  const IDS: set<NodeID> := {1, 2, 3, 4, 5}

  /** The pairs of a node and a term that satisfy p, with their values. */
  function Table<T>(last: nat, p: (NodeID, nat) -> bool, value: (NodeID, nat) -> T): (m: map<(NodeID, nat), T>)
    ensures forall v: NodeID, t: nat :: (v, t) in m <==> v in IDS && t in Terms(last) && p(v, t)
    ensures forall v: NodeID, t: nat :: (v, t) in m ==> m[(v, t)] == value(v, t)
  {
    map v: NodeID, t: nat | v in IDS && t in Terms(last) && p(v, t) :: (v, t) := value(v, t)
  }

  /** Everything that happened up to and including the election of the last term. */
  function At(last: nat): Core {
    Core(IDS, map v | v in IDS :: DiskOf(v, last),
         History(Table(last, (v: NodeID, t: nat) => v in Voters(t), (v: NodeID, t: nat) => Winner(t)),
                 Table(last, (v: NodeID, t: nat) => v == Winner(t), (v: NodeID, t: nat) => Start(t)),
                 map t | t in Terms(last) :: Election(Winner(t), Voters(t), Start(t)),
                 map t | t in Terms(last) :: Full(t), Table(last, (v: NodeID, t: nat) => IsAck(v, t, last), AckOf)))
  }

  // ----- The same, read field by field -----

  lemma TermsAre(last: nat)
    requires last == 3 || last == 4
    ensures forall t: nat :: t in Terms(last) <==> Pair(t, last)
  {}

  lemma DiskField(last: nat)
    ensures var c := At(last);
      c.peers == IDS && c.disk.Keys == IDS && forall v :: v in IDS ==> c.disk[v] == DiskOf(v, last)
  {
    hide Table, DiskOf, Full, Start, Voters, Winner, AckOf;
  }

  lemma VoteField(last: nat)
    requires last == 3 || last == 4
    ensures var votes := At(last).h.votes;
      && (forall v: NodeID, t: nat :: (v, t) in votes <==> Pair(t, last) && v in Voters(t))
      && forall v: NodeID, t: nat :: (v, t) in votes ==> votes[(v, t)] == Winner(t)
  {
    hide Table, DiskOf, Full, Start, Winner, AckOf, Terms;
    TermsAre(last);
  }

  lemma CandField(last: nat)
    requires last == 3 || last == 4
    ensures var cands := At(last).h.cands;
      && (forall v: NodeID, t: nat :: (v, t) in cands <==> Pair(t, last) && v == Winner(t))
      && forall v: NodeID, t: nat :: (v, t) in cands ==> cands[(v, t)] == Start(t)
  {
    hide Table, DiskOf, Full, Start, Voters, AckOf, Terms;
    TermsAre(last);
  }

  lemma LogField(last: nat)
    requires last == 3 || last == 4
    ensures var h := At(last).h;
      && (forall t: nat :: t in h.elections <==> Pair(t, last)) && (forall t: nat :: t in h.logs <==> Pair(t, last))
      && (forall t: nat :: t in h.elections ==> h.elections[t] == Election(Winner(t), Voters(t), Start(t)))
      && forall t: nat :: t in h.logs ==> h.logs[t] == Full(t)
  {
    hide Table, DiskOf, Full, Start, Voters, Winner, AckOf, Terms;
    TermsAre(last);
  }

  lemma AckField(last: nat)
    requires last == 3 || last == 4
    ensures var acks := At(last).h.acks;
      && (forall v: NodeID, t: nat :: (v, t) in acks <==> IsAck(v, t, last))
      && forall v: NodeID, t: nat :: (v, t) in acks ==> acks[(v, t)] == AckOf(v, t)
  {
    hide Table, DiskOf, Full, Start, Voters, AckOf, Terms;
    TermsAre(last);
  }

  lemma Majorities(t: nat)
    ensures |IDS| == 5 && |Voters(t)| == 3 && Voters(t) <= IDS
  {}

  /** The disks show the last vote of each node. */
  lemma VotersHold(last: nat)
    requires last == 3 || last == 4
    ensures forall v: NodeID, t: nat :: Pair(t, last) && v in Voters(t) ==>
      var hard := DiskOf(v, last).hard; v in IDS && t <= hard.term && (t == hard.term ==> hard.votedFor == Winner(t))
    ensures forall v :: v in IDS ==>
      var hard := DiskOf(v, last).hard; Pair(hard.term, last) && v in Voters(hard.term)
  {
    hide Full;
  }

  lemma VotesHold(last: nat)
    requires last == 3 || last == 4
    ensures VotesInv(At(last))
  {
    hide At, Full, Start, Voters;
    VoteField(last);
    CandField(last);
    DiskField(last);
    VotersHold(last);
  }

  lemma GoodLogs(last: nat)
    requires last == 3 || last == 4
    ensures GoodLog(At(last).h, []) && GoodLog(At(last).h, Full(1)) && GoodLog(At(last).h, Full(2))
    ensures GoodLog(At(last).h, Full(3)) && (last == 4 ==> GoodLog(At(last).h, Full(4)))
  {
    hide At, GoodLog;
    LogField(last);
    NoLog(At(last).h);
    OneEntry(At(last).h, 1);
    OneEntry(At(last).h, 2);
    TwoEntries(At(last).h, 1, 3);
    if last == 4 { TwoEntries(At(last).h, 2, 4); }
  }

  lemma NoLog(h: History)
    ensures GoodLog(h, [])
  {}

  lemma OneEntry(h: History, t: nat)
    requires t in h.logs && h.logs[t] == [E(1, t)]
    ensures GoodLog(h, [E(1, t)])
  {}

  lemma TwoEntries(h: History, t: nat, u: nat)
    requires t in h.logs && u in h.logs && h.logs[t] == [E(1, t)] && h.logs[u] == [E(1, t), E(2, u)]
    ensures GoodLog(h, [E(1, t), E(2, u)])
  {}

  lemma CandsHold(last: nat)
    requires last == 3 || last == 4
    ensures CandsInv(At(last))
  {
    hide At, GoodLog;
    CandField(last);
    DiskField(last);
    GoodLogs(last);
    assert Start(3) == Full(1) && Start(4) == Full(2);
  }

  lemma ElectionHolds(last: nat, u: nat)
    requires (last == 3 || last == 4) && Pair(u, last)
    ensures u in At(last).h.elections && ElectionOk(At(last), u)
  {
    hide At, Full, Start;
    LogField(last);
    VoteField(last);
    CandField(last);
    DiskField(last);
    Majorities(u);
  }

  lemma LeaderLogHolds(last: nat, u: nat)
    requires (last == 3 || last == 4) && Pair(u, last)
    ensures u in At(last).h.elections && u in At(last).h.logs && LeaderLogOk(At(last), u)
  {
    hide At, GoodLog;
    LogField(last);
    DiskField(last);
    AckField(last);
    GoodLogs(last);
  }

  lemma LogsHold(last: nat)
    requires last == 3 || last == 4
    ensures LogsInv(At(last))
  {
    hide At, ElectionOk, LeaderLogOk;
    LogField(last);
    var c := At(last);
    forall u | u in c.h.elections ensures ElectionOk(c, u) && u in c.h.logs && LeaderLogOk(c, u) {
      ElectionHolds(last, u);
      LeaderLogHolds(last, u);
    }
  }

  lemma DisksHold(last: nat)
    requires last == 3 || last == 4
    ensures DiskInv(At(last)) && AcksInv(At(last))
  {
    hide At, GoodLog;
    DiskField(last);
    AckField(last);
    LogField(last);
    GoodLogs(last);
  }

  lemma KeepHolds(last: nat)
    requires last == 3 || last == 4
    ensures KeepInv(At(last))
  {
    hide At;
    DiskField(last);
    AckField(last);
    LogField(last);
  }

  /** An entry of its own term that a voter stored before u was already lacking from a winner in between. */
  lemma NothingToCarry(last: nat, v: NodeID, u: nat, t: nat, i: nat)
    requires (last == 3 || last == 4) && Pair(u, last) && v in Voters(u) && t < u && i > 0
    ensures !(Acked(At(last).h, v, t, i) && Full(t)[i - 1].term == t && Kept(At(last).h, t, i, u))
  {
    hide At;
    AckField(last);
    LogField(last);
    assert !Agree(Full(1), Start(2), 1);
  }

  lemma CarryHolds(last: nat)
    requires last == 3 || last == 4
    ensures CarryInv(At(last))
  {
    hide At, Full, Start, Kept, Agree, Voters;
    VoteField(last);
    LogField(last);
    var h := At(last).h;
    forall v, u, t: nat, i: nat | (v, u) in h.votes && t < u && i > 0
      ensures !(Acked(h, v, t, i) && h.logs[t][i - 1].term == t && Kept(h, t, i, u))
    {
      NothingToCarry(last, v, u, t, i);
    }
  }

  lemma HistoryOk(last: nat)
    requires last == 3 || last == 4
    ensures CoreInv(At(last))
  {
    hide At, VotesInv, CandsInv, LogsInv, DiskInv, AcksInv, KeepInv, CarryInv;
    VotesHold(last);
    CandsHold(last);
    LogsHold(last);
    DisksHold(last);
    KeepHolds(last);
    CarryHolds(last);
  }

  /** The leader of term 3, who has heard of what nodes 2 and 3 store. */
  function Leader3(rule: CommitRule): NodeState {
    NodeState(Config(1, PEERS, 10, 20, 1, rule), HardState(3, 1), Leader, 0, 0, 10, {1, 2, 3}, Full(3), 3, 0, 0,
              map[1 := 3, 2 := 2, 3 := 3, 4 := 2, 5 := 2], map[1 := 2, 2 := 1, 3 := 2, 4 := 0, 5 := 0], map[], false,
              [], NO_ACK)
  }

  lemma Counted(rule: CommitRule)
    ensures Replicas(PEERS, Leader3(rule).matchIndex, 2) == 2 && Replicas(PEERS, Leader3(rule).matchIndex, 1) == 3
  {
    var m := Leader3(rule).matchIndex;
    assert PEERS[..4] == [1, 2, 3, 4] && PEERS[..4][..3] == [1, 2, 3] && [1, 2, 3][..2] == [1, 2] && [1, 2][..1] == [1];
    forall i | i == 1 || i == 2 ensures Replicas(PEERS, m, i) == if i == 1 then 3 else 2 {
      assert Replicas([1], m, i) == 1;
      assert Replicas([1, 2], m, i) == if i == 1 then 2 else 1;
      assert Replicas([1, 2, 3], m, i) == if i == 1 then 3 else 2;
      assert Replicas([1, 2, 3, 4], m, i) == Replicas([1, 2, 3], m, i);
    }
  }

  /** The variant rule commits the old entry; the real rule commits nothing yet. */
  lemma RulesDiffer()
    ensures AdvanceCommit(Leader3(AnyTerm)).commitIndex == 1 && AdvanceCommit(Leader3(CurrentTermOnly)).commitIndex == 0
  {
    hide Replicas;
    Counted(AnyTerm);
    Counted(CurrentTermOnly);
    assert ScanCommit(Leader3(CurrentTermOnly), 0) == 0;
  }

  lemma HistoryGrows()
    ensures Grows(At(3).h, At(4).h)
  {
    hide At, Full, Start, Voters;
    VoteField(3);
    VoteField(4);
    CandField(3);
    CandField(4);
    LogField(3);
    LogField(4);
    AcksGrow();
    var a, b := At(3).h, At(4).h;
    forall k | k in a.votes ensures k in b.votes && b.votes[k] == a.votes[k] { assert k == (k.0, k.1); }
    forall k | k in a.cands ensures k in b.cands && b.cands[k] == a.cands[k] { assert k == (k.0, k.1); }
  }

  lemma AcksGrow()
    ensures forall k :: k in At(3).h.acks ==> k in At(4).h.acks && At(4).h.acks[k] == At(3).h.acks[k]
  {
    hide At, Full, Start;
    AckField(3);
    AckField(4);
    var a, b := At(3).h, At(4).h;
    forall k | k in a.acks ensures k in b.acks && b.acks[k] == a.acks[k] { assert k == (k.0, k.1); }
  }

  lemma LeaderKnows(v: NodeID)
    requires v in IDS
    ensures var k, s := At(3), Leader3(AnyTerm);
      && 3 in k.h.logs && 1 in k.disk && k.h.logs[3] == s.log && k.disk[1] == Durable(s.hard, s.log)
      && v in s.matchIndex && (s.matchIndex[v] > 0 ==> Acked(k.h, v, 3, s.matchIndex[v]))
  {
    hide At;
    DiskField(3);
    AckField(3);
    LogField(3);
  }

  lemma LaterWinnerLacks()
    ensures 4 in At(4).h.elections && !Agree(Full(3), At(4).h.elections[4].log, 1)
  {
    hide At;
    LogField(4);
    assert Full(3)[0] != Start(4)[0];
  }

  /**
   The clause is needed: a leader that knows only what is true of a lawful history commits, under
   the variant rule, an entry that a winner of a later term of that history does not have.
   */
  lemma OldTermsMustNotBeCounted()
    ensures CoreInv(At(3)) && CoreInv(At(4)) && Grows(At(3).h, At(4).h)
    ensures var k, s := At(3), Leader3(AnyTerm);
      && s.hard.term in k.h.logs && k.h.logs[s.hard.term] == s.log
      && s.cfg.id in k.disk && k.disk[s.cfg.id] == Durable(s.hard, s.log)
      && forall v :: v in IDS ==>
           v in s.matchIndex && (s.matchIndex[v] > 0 ==> Acked(k.h, v, s.hard.term, s.matchIndex[v]))
    ensures AdvanceCommit(Leader3(AnyTerm)).commitIndex == 1 && AdvanceCommit(Leader3(CurrentTermOnly)).commitIndex == 0
    ensures 4 in At(4).h.elections && !Agree(Leader3(AnyTerm).log, At(4).h.elections[4].log, 1)
  {
    hide At, CoreInv, AdvanceCommit, Grows, Agree, Acked;
    HistoryOk(3);
    HistoryOk(4);
    HistoryGrows();
    RulesDiffer();
    LaterWinnerLacks();
    forall v | v in IDS
      ensures v in Leader3(AnyTerm).matchIndex
      ensures Leader3(AnyTerm).matchIndex[v] > 0 ==> Acked(At(3).h, v, 3, Leader3(AnyTerm).matchIndex[v])
    {
      LeaderKnows(v);
    }
    LeaderKnows(1);
  }
}
