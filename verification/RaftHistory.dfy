/**
 The safety argument of Raft over disks and a history. A `Core` is what the disks hold plus
 a record of what has ever happened: votes, candidacies, elections, the log of each term's
 leader, and acknowledgements. Each function below is one durable effect of the node code;
 `CoreInv` is preserved by all of them, and the paper's properties follow from `CoreInv`.
 */
module RaftHistory {
  import opened RaftTypes
  import opened Storage

  datatype Election = Election(leader: NodeID, voters: set<NodeID>, log: seq<Entry>)

  datatype History = History(
    votes: map<(NodeID, nat), NodeID>,        // (voter, term) -> candidate
    cands: map<(NodeID, nat), seq<Entry>>,    // (candidate, term) -> its log when it stood
    elections: map<nat, Election>,            // term -> winner and its log before the NOOP
    logs: map<nat, seq<Entry>>,               // term -> everything its leader has stored
    acks: map<(NodeID, nat), nat>)            // (node, term) -> highest index it acknowledged

  datatype Core = Core(peers: set<NodeID>, disk: map<NodeID, Durable>, h: History)

  const NO_HISTORY := History(map[], map[], map[], map[], map[])

  /** The two logs hold the same first n entries. */
  ghost predicate Agree(a: seq<Entry>, b: seq<Entry>, n: nat) {
    n <= |a| && n <= |b| && forall k :: 0 <= k < n ==> a[k] == b[k]
  }

  ghost predicate Quorum(q: set<NodeID>, peers: set<NodeID>) {
    q <= peers && 2 * |q| > |peers|
  }

  /** Every entry was stored by its term's leader, with everything before it. */
  ghost predicate GoodLog(h: History, log: seq<Entry>) {
    forall k :: 0 <= k < |log| ==>
      && log[k].index == k + 1
      && log[k].term in h.logs
      && Agree(log, h.logs[log[k].term], k + 1)
  }

  ghost predicate TermsBelow(log: seq<Entry>, bound: nat) {
    forall k :: 0 <= k < |log| ==> log[k].term < bound
  }

  ghost predicate VotesInv(c: Core) {
    && (forall v, t :: (v, t) in c.h.votes ==>
         && v in c.disk
         && c.h.votes[(v, t)] != 0
         && (c.h.votes[(v, t)], t) in c.h.cands
         && t <= c.disk[v].hard.term
         && (t == c.disk[v].hard.term ==> c.disk[v].hard.votedFor == c.h.votes[(v, t)]))
    && (forall v :: v in c.disk && c.disk[v].hard.votedFor != 0 ==> (v, c.disk[v].hard.term) in c.h.votes)
  }

  ghost predicate CandsInv(c: Core) {
    forall v, t :: (v, t) in c.h.cands ==>
      && v in c.disk
      && 0 < t <= c.disk[v].hard.term
      && GoodLog(c.h, c.h.cands[(v, t)])
      && TermsBelow(c.h.cands[(v, t)], t)
  }

  ghost predicate ElectionOk(c: Core, u: nat)
    requires u in c.h.elections
  {
    var el := c.h.elections[u];
    && Quorum(el.voters, c.peers)
    && (forall v :: v in el.voters ==> (v, u) in c.h.votes && c.h.votes[(v, u)] == el.leader)
    && (el.leader, u) in c.h.cands
    && c.h.cands[(el.leader, u)] == el.log
  }

  ghost predicate LeaderLogOk(c: Core, u: nat)
    requires u in c.h.elections && u in c.h.logs
  {
    var el, log := c.h.elections[u], c.h.logs[u];
    && |el.log| < |log|
    && Agree(el.log, log, |el.log|)
    && GoodLog(c.h, log)
    && (forall k :: 0 <= k < |log| ==> if k < |el.log| then log[k].term < u else log[k].term == u)
    && el.leader in c.disk
    && (c.disk[el.leader].hard.term == u ==> c.disk[el.leader].log == log)
    && (el.leader, u) in c.h.acks
    && c.h.acks[(el.leader, u)] == |log|
  }

  ghost predicate LogsInv(c: Core) {
    && c.h.elections.Keys == c.h.logs.Keys
    && 0 !in c.h.logs
    && (forall u :: u in c.h.elections ==> ElectionOk(c, u))
    && (forall u :: u in c.h.logs ==> LeaderLogOk(c, u))
  }

  ghost predicate DiskInv(c: Core) {
    && c.disk.Keys == c.peers
    && 0 !in c.peers
    && forall v :: v in c.disk ==>
         GoodLog(c.h, c.disk[v].log) && TermsBelow(c.disk[v].log, c.disk[v].hard.term + 1)
  }

  ghost predicate AcksInv(c: Core) {
    forall v, t :: (v, t) in c.h.acks ==>
      v in c.disk && t in c.h.logs && t <= c.disk[v].hard.term && c.h.acks[(v, t)] <= |c.h.logs[t]|
  }

  ghost predicate Acked(h: History, v: NodeID, t: nat, i: nat) {
    (v, t) in h.acks && i <= h.acks[(v, t)] && t in h.logs && i <= |h.logs[t]|
  }

  /** Every leader elected strictly between t and u started with the first i entries of t's leader. */
  ghost predicate Kept(h: History, t: nat, i: nat, u: nat)
    requires t in h.logs
  {
    forall w :: w in h.elections && t < w < u ==> Agree(h.logs[t], h.elections[w].log, i)
  }

  /** What the node acknowledged it still stores, unless an intervening leader lacked it. */
  ghost predicate StillStores(h: History, v: NodeID, d: Durable) {
    forall t: nat, i: nat ::
      Acked(h, v, t, i) && Kept(h, t, i, d.hard.term + 1) ==> Agree(h.logs[t], d.log, i)
  }

  ghost predicate KeepInv(c: Core) {
    forall v :: v in c.disk ==> StillStores(c.h, v, c.disk[v])
  }

  /** A vote for `cand` at u certifies that `cand` holds what the voter acknowledged before u. */
  ghost predicate VoteCarries(h: History, v: NodeID, u: nat, cand: NodeID) {
    (cand, u) in h.cands ==>
      forall t: nat, i: nat ::
        t < u && Acked(h, v, t, i) && i > 0 && h.logs[t][i - 1].term == t && Kept(h, t, i, u)
        ==> Agree(h.logs[t], h.cands[(cand, u)], i)
  }

  /** Votes that can still elect, or did elect, a leader carry what the voter acknowledged. */
  ghost predicate CarryInv(c: Core) {
    forall v, u :: (v, u) in c.h.votes && (u in c.h.elections ==> v in c.h.elections[u].voters)
                   ==> VoteCarries(c.h, v, u, c.h.votes[(v, u)])
  }

  ghost predicate CoreInv(c: Core) {
    && VotesInv(c) && CandsInv(c) && LogsInv(c) && DiskInv(c) && AcksInv(c)
    && KeepInv(c) && CarryInv(c)
  }

  /** Nothing recorded is ever forgotten or changed; leader logs and acknowledgements only grow. */
  ghost predicate Grows(a: History, b: History) {
    && (forall k :: k in a.votes ==> k in b.votes && b.votes[k] == a.votes[k])
    && (forall k :: k in a.cands ==> k in b.cands && b.cands[k] == a.cands[k])
    && (forall k :: k in a.elections ==> k in b.elections && b.elections[k] == a.elections[k])
    && (forall k :: k in a.logs ==> k in b.logs && Agree(a.logs[k], b.logs[k], |a.logs[k]|))
    && (forall k :: k in a.acks ==> k in b.acks && b.acks[k] >= a.acks[k])
  }

  lemma GrowsTransitive(a: History, b: History, c: History)
    requires Grows(a, b) && Grows(b, c)
    ensures Grows(a, c)
  {}

  lemma GoodLogGrows(a: History, b: History, log: seq<Entry>)
    requires GoodLog(a, log) && Grows(a, b)
    ensures GoodLog(b, log)
  {}

  // ----- Consequences of the invariant -----

  lemma QuorumsMeet(a: set<NodeID>, b: set<NodeID>, peers: set<NodeID>) returns (v: NodeID)
    requires Quorum(a, peers) && Quorum(b, peers)
    ensures v in a && v in b
  {
    if a * b == {} {
      assert |a + b| == |a| + |b|;
      Subset(a + b, peers);
      assert false;
    }
    v :| v in a * b;
  }

  lemma Subset(a: set<NodeID>, b: set<NodeID>)
    requires a <= b
    ensures |a| <= |b|
  {
    assert |b - a| + |a| == |b| by { assert (b - a) + a == b; }
  }

  /** Terms never decrease along a log. */
  lemma TermsAscend(c: Core, log: seq<Entry>, i: nat, j: nat)
    requires LogsInv(c) && GoodLog(c.h, log) && i <= j < |log|
    ensures log[i].term <= log[j].term
  {
    var t := log[j].term;
    assert LeaderLogOk(c, t);
    assert log[i] == c.h.logs[t][i];
  }

  /** Log Matching: a shared (index, term) makes two logs identical through that index. */
  lemma LogsMatch(c: Core, a: seq<Entry>, b: seq<Entry>, k: nat)
    requires GoodLog(c.h, a) && GoodLog(c.h, b)
    requires k < |a| && k < |b| && a[k].term == b[k].term
    ensures Agree(a, b, k + 1)
  {
    var l := c.h.logs[a[k].term];
    assert Agree(a, l, k + 1) && Agree(b, l, k + 1);
  }

  /** Election Safety: two quorums of one term elected the same node. */
  lemma OneLeader(c: Core, t: nat, a: set<NodeID>, b: set<NodeID>, x: NodeID, y: NodeID)
    requires Quorum(a, c.peers) && Quorum(b, c.peers)
    requires forall v :: v in a ==> (v, t) in c.h.votes && c.h.votes[(v, t)] == x
    requires forall v :: v in b ==> (v, t) in c.h.votes && c.h.votes[(v, t)] == y
    ensures x == y
  {
    var v := QuorumsMeet(a, b, c.peers);
  }

  ghost function Ackers(c: Core, t: nat, i: nat): set<NodeID> {
    set v | v in c.peers && (v, t) in c.h.acks && c.h.acks[(v, t)] >= i
  }

  /** The leader of t may commit index i: the entry is its own and a quorum stores it. */
  ghost predicate Committed(c: Core, t: nat, i: nat) {
    && t in c.h.logs
    && 0 < i <= |c.h.logs[t]|
    && c.h.logs[t][i - 1].term == t
    && Quorum(Ackers(c, t, i), c.peers)
  }

  /** Leader Completeness: every later leader starts with every committed entry. */
  lemma {:induction false} LeaderCompleteness(c: Core, t: nat, i: nat, u: nat)
    requires CoreInv(c) && Committed(c, t, i) && u in c.h.elections && t < u
    ensures Agree(c.h.logs[t], c.h.elections[u].log, i)
    decreases u
  {
    forall w | w in c.h.elections && t < w < u
      ensures Agree(c.h.logs[t], c.h.elections[w].log, i)
    {
      LeaderCompleteness(c, t, i, w);
    }
    assert ElectionOk(c, u);
    var v := QuorumsMeet(Ackers(c, t, i), c.h.elections[u].voters, c.peers);
    assert VoteCarries(c.h, v, u, c.h.elections[u].leader);
    assert Acked(c.h, v, t, i);
  }

  /** A quorum that stores i in the logs of two terms agrees on everything up to the smaller index. */
  lemma CommittedAgree(c: Core, t: nat, i: nat, u: nat, j: nat)
    requires CoreInv(c) && Committed(c, t, i) && Committed(c, u, j) && t <= u
    ensures Agree(c.h.logs[t], c.h.logs[u], i)
  {
    if t < u {
      LeaderCompleteness(c, t, i, u);
      assert LeaderLogOk(c, u);
    }
  }
}
