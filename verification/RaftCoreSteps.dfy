/** Every durable effect of the node code preserves `CoreInv` and only adds history. */
module RaftCoreSteps {
  import opened RaftTypes
  import opened RaftSpec
  import opened Storage
  import opened RaftHistory

  function SetDisk(c: Core, v: NodeID, d: Durable): Core { c.(disk := c.disk[v := d]) }

  // ----- What a step may do, and what then carries over -----

  /** Only v's disk changed, its term did not drop, and only v acknowledged something, at its term. */
  ghost predicate OnlyNode(c: Core, c': Core, v: NodeID) {
    && v in c.disk && v in c'.disk
    && c'.peers == c.peers
    && c'.disk == c.disk[v := c'.disk[v]]
    && c.disk[v].hard.term <= c'.disk[v].hard.term
    && Grows(c.h, c'.h)
    && (forall w, t :: (w, t) in c'.h.acks ==>
          || ((w, t) in c.h.acks && c'.h.acks[(w, t)] == c.h.acks[(w, t)])
          || (w == v && t == c'.disk[v].hard.term))
  }

  lemma CarriesGrows(a: History, b: History, v: NodeID, u: nat, cand: NodeID)
    requires Grows(a, b) && (cand, u) in a.cands && VoteCarries(a, v, u, cand)
    requires forall t :: t < u && (v, t) in b.acks ==> (v, t) in a.acks && a.acks[(v, t)] == b.acks[(v, t)]
    requires forall k :: k in a.acks ==> k.1 in a.logs && a.acks[k] <= |a.logs[k.1]|
    ensures VoteCarries(b, v, u, cand)
  {
    forall t: nat, i: nat |
      t < u && Acked(b, v, t, i) && i > 0 && b.logs[t][i - 1].term == t && Kept(b, t, i, u)
      ensures Agree(b.logs[t], b.cands[(cand, u)], i)
    {
      assert Acked(a, v, t, i) by { assert (v, t) in a.acks; }
      KeptShrinks(a, b, t, i, u);
    }
  }

  lemma KeptShrinks(a: History, b: History, t: nat, i: nat, u: nat)
    requires Grows(a, b) && t in a.logs && i <= |a.logs[t]| && t in b.logs && Kept(b, t, i, u)
    ensures Kept(a, t, i, u)
  {}

  /** Votes cast before the step still carry what they carried. */
  lemma CarryFrame(c: Core, c': Core, v: NodeID)
    requires CoreInv(c) && OnlyNode(c, c', v)
    requires forall w, u :: (w, u) in c'.h.votes && (w, u) !in c.h.votes
                            ==> u !in c'.h.elections ==> VoteCarries(c'.h, w, u, c'.h.votes[(w, u)])
    requires forall u :: u in c'.h.elections && u !in c.h.elections
                         ==> forall w :: w in c'.h.elections[u].voters ==> (w, u) in c.h.votes
    requires forall u :: u in c.h.elections ==> forall w :: w in c.h.elections[u].voters ==> (w, u) in c.h.votes
    ensures CarryInv(c')
  {
    hide KeepInv, DiskInv, LogsInv, CandsInv, VoteCarries;
    forall w, u | (w, u) in c'.h.votes && (u in c'.h.elections ==> w in c'.h.elections[u].voters)
      ensures VoteCarries(c'.h, w, u, c'.h.votes[(w, u)])
    {
      if (w, u) in c.h.votes {
        CarriesGrows(c.h, c'.h, w, u, c.h.votes[(w, u)]);
      }
    }
  }

  lemma StoresGrows(a: History, b: History, v: NodeID, d: Durable, d': Durable)
    requires Grows(a, b) && StillStores(a, v, d)
    requires d.hard.term <= d'.hard.term && Agree(d.log, d'.log, |d.log|)
    requires forall t :: (v, t) in b.acks ==> (v, t) in a.acks && a.acks[(v, t)] == b.acks[(v, t)]
    requires forall k :: k in a.acks ==> k.1 in a.logs && a.acks[k] <= |a.logs[k.1]|
    ensures StillStores(b, v, d')
  {
    forall t: nat, i: nat | Acked(b, v, t, i) && Kept(b, t, i, d'.hard.term + 1)
      ensures Agree(b.logs[t], d'.log, i)
    {
      assert Acked(a, v, t, i) by { assert (v, t) in a.acks; }
      KeptShrinks(a, b, t, i, d'.hard.term + 1);
      assert Kept(a, t, i, d.hard.term + 1);
    }
  }

  lemma KeepFrame(c: Core, c': Core, v: NodeID)
    requires CoreInv(c) && OnlyNode(c, c', v) && StillStores(c'.h, v, c'.disk[v])
    ensures KeepInv(c')
  {
    forall w | w in c'.disk ensures StillStores(c'.h, w, c'.disk[w]) {
      if w != v { StoresGrows(c.h, c'.h, w, c.disk[w], c'.disk[w]); }
    }
  }

  lemma CandsFrame(c: Core, c': Core, v: NodeID)
    requires CoreInv(c) && OnlyNode(c, c', v) && c'.h.cands == c.h.cands
    ensures CandsInv(c')
  {
    forall w, t | (w, t) in c'.h.cands ensures GoodLog(c'.h, c'.h.cands[(w, t)]) {
      GoodLogGrows(c.h, c'.h, c.h.cands[(w, t)]);
    }
  }

  lemma DiskFrame(c: Core, c': Core, v: NodeID)
    requires CoreInv(c) && OnlyNode(c, c', v)
    requires GoodLog(c'.h, c'.disk[v].log) && TermsBelow(c'.disk[v].log, c'.disk[v].hard.term + 1)
    ensures DiskInv(c')
  {
    forall w | w in c'.disk ensures GoodLog(c'.h, c'.disk[w].log) {
      if w != v { GoodLogGrows(c.h, c'.h, c.disk[w].log); }
    }
  }

  /** Leader logs other than v's current one are untouched. */
  lemma LogsFrame(c: Core, c': Core, v: NodeID, u: nat)
    requires CoreInv(c) && OnlyNode(c, c', v) && u in c.h.elections && c'.h.logs[u] == c.h.logs[u]
    requires c.h.elections[u].leader == v && c'.disk[v].hard.term == u ==>
      c'.disk[v].log == c.disk[v].log && c.disk[v].hard.term == u
    requires var k := (c.h.elections[u].leader, u); k in c.h.acks ==> c'.h.acks[k] == c.h.acks[k]
    ensures u in c'.h.elections && ElectionOk(c', u) && LeaderLogOk(c', u)
  {
    assert ElectionOk(c, u) && LeaderLogOk(c, u);
    var l := c.h.elections[u].leader;
    assert (l, u) in c.h.cands;
    assert l in c.disk && u <= c.disk[l].hard.term;
    hide VotesInv, LogsInv, DiskInv, KeepInv, CarryInv, CandsInv, AcksInv, GoodLog;
    GoodLogGrows(c.h, c'.h, c.h.logs[u]);
  }

  /** Leader logs stay in order when the only changed disk is not that of a current leader. */
  lemma SameLogs(c: Core, c': Core, v: NodeID)
    requires CoreInv(c) && OnlyNode(c, c', v) && c'.h == c.h
    requires var u := c'.disk[v].hard.term;
      u in c.h.elections && c.h.elections[u].leader == v ==> c'.disk[v] == c.disk[v]
    ensures LogsInv(c')
  {
    hide VotesInv, CandsInv, AcksInv, DiskInv, KeepInv, CarryInv, StillStores, GoodLog, ElectionOk, LeaderLogOk;
    forall u | u in c'.h.elections ensures ElectionOk(c', u) && LeaderLogOk(c', u) { LogsFrame(c, c', v, u); }
  }

  lemma SameRecords(c: Core, c': Core, v: NodeID)
    requires CoreInv(c) && OnlyNode(c, c', v) && c'.h == c.h
    requires var hard, hard' := c.disk[v].hard, c'.disk[v].hard;
      hard' == hard || (hard'.term > hard.term && hard'.votedFor == 0)
    ensures VotesInv(c') && AcksInv(c') && CarryInv(c')
  {
    hide CandsInv, LogsInv, DiskInv, KeepInv, VoteCarries;
  }

  /** A step that records nothing keeps the invariant if v's disk stays in order. */
  lemma SameHistory(c: Core, c': Core, v: NodeID)
    requires CoreInv(c) && OnlyNode(c, c', v) && c'.h == c.h
    requires var hard, hard' := c.disk[v].hard, c'.disk[v].hard;
      hard' == hard || (hard'.term > hard.term && hard'.votedFor == 0)
    requires GoodLog(c.h, c'.disk[v].log) && TermsBelow(c'.disk[v].log, c'.disk[v].hard.term + 1)
    requires StillStores(c.h, v, c'.disk[v])
    requires var u := c'.disk[v].hard.term;
      u in c.h.elections && c.h.elections[u].leader == v ==> c'.disk[v] == c.disk[v]
    ensures CoreInv(c')
  {
    hide VotesInv, CandsInv, AcksInv, DiskInv, KeepInv, CarryInv, LogsInv, StillStores, GoodLog, OnlyNode;
    SameRecords(c, c', v);
    CandsFrame(c, c', v);
    DiskFrame(c, c', v);
    KeepFrame(c, c', v);
    SameLogs(c, c', v);
  }

  // ----- The steps -----

  /** A higher term is observed: the vote is cleared. */
  function Bump(c: Core, v: NodeID, term: nat): Core
    requires v in c.disk
  {
    SetDisk(c, v, c.disk[v].(hard := HardState(term, 0)))
  }

  lemma BumpKeeps(c: Core, v: NodeID, term: nat)
    requires CoreInv(c) && v in c.disk && term > c.disk[v].hard.term
    ensures CoreInv(Bump(c, v, term))
  {
    var c' := Bump(c, v, term);
    StoresGrows(c.h, c.h, v, c.disk[v], c'.disk[v]);
    assert term in c.h.elections ==> c.h.elections[term].leader != v by {
      assert term in c.h.elections ==> ElectionOk(c, term);
    }
    SameHistory(c, c', v);
  }

  /** A vote is stored. */
  function Vote(c: Core, v: NodeID, cand: NodeID): Core
    requires v in c.disk
  {
    var term := c.disk[v].hard.term;
    SetDisk(c, v, c.disk[v].(hard := HardState(term, cand))).(h := c.h.(votes := c.h.votes[(v, term) := cand]))
  }

  lemma VoteKeeps(c: Core, v: NodeID, cand: NodeID)
    requires CoreInv(c) && v in c.disk && c.disk[v].hard.votedFor == 0 && cand != 0
    requires (cand, c.disk[v].hard.term) in c.h.cands
    requires var log := c.h.cands[(cand, c.disk[v].hard.term)]; UpToDate(c.disk[v].log, |log|, LastTerm(log))
    ensures CoreInv(Vote(c, v, cand)) && Grows(c.h, Vote(c, v, cand).h)
  {
    var c', u := Vote(c, v, cand), c.disk[v].hard.term;
    VoteRecorded(c, v, cand);
    assert u !in c.h.elections ==> VoteCarries(c'.h, v, u, cand) by {
      if u !in c.h.elections {
        VoteTransfers(c.h, c, v, cand);
        CarriesGrows(c.h, c'.h, v, u, cand);
      }
    }
    hide VotesInv, CandsInv, LogsInv, DiskInv, AcksInv, KeepInv, CarryInv, VoteCarries;
    DiskStays(c, c', v);
    CandsFrame(c, c', v);
    NewVotesOnly(c, c', v);
  }

  lemma VoteRecorded(c: Core, v: NodeID, cand: NodeID)
    requires VotesInv(c) && AcksInv(c) && v in c.disk && c.disk[v].hard.votedFor == 0 && cand != 0
    requires (cand, c.disk[v].hard.term) in c.h.cands
    ensures VotesInv(Vote(c, v, cand)) && AcksInv(Vote(c, v, cand)) && OnlyNode(c, Vote(c, v, cand), v)
  {
    assert (v, c.disk[v].hard.term) !in c.h.votes;
  }

  /** v's disk kept its log and term; what is recorded about it holds as before. */
  lemma DiskStays(c: Core, c': Core, v: NodeID)
    requires CoreInv(c) && OnlyNode(c, c', v) && c'.h.acks == c.h.acks
    requires c'.disk[v].log == c.disk[v].log && c'.disk[v].hard.term == c.disk[v].hard.term
    ensures DiskInv(c') && KeepInv(c')
  {
    GoodLogGrows(c.h, c'.h, c.disk[v].log);
    DiskFrame(c, c', v);
    StoresGrows(c.h, c'.h, v, c.disk[v], c'.disk[v]);
    KeepFrame(c, c', v);
  }

  /** No election, leader log or acknowledgement is new. */
  lemma NewVotesOnly(c: Core, c': Core, v: NodeID)
    requires CoreInv(c) && OnlyNode(c, c', v)
    requires c'.h.elections == c.h.elections && c'.h.logs == c.h.logs && c'.h.acks == c.h.acks
    requires c'.disk[v].log == c.disk[v].log && c'.disk[v].hard.term == c.disk[v].hard.term
    requires forall w, u :: (w, u) in c'.h.votes && (w, u) !in c.h.votes
                            ==> u !in c'.h.elections ==> VoteCarries(c'.h, w, u, c'.h.votes[(w, u)])
    ensures LogsInv(c') && CarryInv(c')
  {
    VotersVoted(c);
    hide VotesInv, CandsInv, AcksInv, DiskInv, KeepInv, CarryInv, VoteCarries, GoodLog;
    forall w | w in c.h.elections ensures ElectionOk(c', w) && LeaderLogOk(c', w) { LogsFrame(c, c', v, w); }
    CarryFrame(c, c', v);
  }

  lemma VotersVoted(c: Core)
    requires LogsInv(c)
    ensures forall u :: u in c.h.elections ==> forall w :: w in c.h.elections[u].voters ==> (w, u) in c.h.votes
  {
    forall u | u in c.h.elections ensures forall w :: w in c.h.elections[u].voters ==> (w, u) in c.h.votes {
      assert ElectionOk(c, u);
    }
  }

  /** The vote restriction at work: an up-to-date candidate holds what the voter holds. */
  lemma VoteTransfers(h: History, c: Core, v: NodeID, cand: NodeID)
    requires LogsInv(c) && c.h == h && v in c.disk && StillStores(h, v, c.disk[v]) && GoodLog(h, c.disk[v].log)
    requires var key := (cand, c.disk[v].hard.term);
      && key in h.cands && GoodLog(h, h.cands[key]) && TermsBelow(h.cands[key], key.1)
      && UpToDate(c.disk[v].log, |h.cands[key]|, LastTerm(h.cands[key]))
      && key.1 !in h.elections
    ensures VoteCarries(h, v, c.disk[v].hard.term, cand)
  {
    hide LogsInv, GoodLog, TermsBelow, UpToDate;
    var u := c.disk[v].hard.term;
    forall t: nat, i: nat |
      t < u && Acked(h, v, t, i) && i > 0 && h.logs[t][i - 1].term == t && Kept(h, t, i, u)
      ensures Agree(h.logs[t], h.cands[(cand, u)], i)
    {
      assert Kept(h, t, i, u + 1);
      UpToDateHolds(c, c.disk[v].log, h.cands[(cand, u)], t, i, u);
    }
  }

  lemma UpToDateHolds(c: Core, mine: seq<Entry>, theirs: seq<Entry>, t: nat, i: nat, u: nat)
    requires LogsInv(c) && GoodLog(c.h, mine) && GoodLog(c.h, theirs) && TermsBelow(theirs, u)
    requires UpToDate(mine, |theirs|, LastTerm(theirs))
    requires t in c.h.logs && 0 < i <= |c.h.logs[t]| && c.h.logs[t][i - 1].term == t
    requires Agree(c.h.logs[t], mine, i) && Kept(c.h, t, i, u)
    ensures Agree(c.h.logs[t], theirs, i)
  {
    assert mine[i - 1].term == t;
    TermsAscend(c, mine, i - 1, |mine| - 1);
    assert theirs != [];
    var last := theirs[|theirs| - 1].term;
    var ll := c.h.logs[last];
    assert Agree(theirs, ll, |theirs|);
    if last == LastTerm(mine) {
      assert Agree(mine, ll, |mine|);
    } else {
      assert LeaderLogOk(c, last);
      assert Agree(c.h.logs[t], c.h.elections[last].log, i);
    }
  }

  /** A node stands for election in the next term, voting for itself. */
  function Stand(c: Core, v: NodeID): Core
    requires v in c.disk
  {
    Vote(Register(Bump(c, v, c.disk[v].hard.term + 1), v), v, v)
  }

  function Register(c: Core, v: NodeID): Core
    requires v in c.disk
  {
    c.(h := c.h.(cands := c.h.cands[(v, c.disk[v].hard.term) := c.disk[v].log]))
  }

  lemma StandKeeps(c: Core, v: NodeID)
    requires CoreInv(c) && v in c.disk && v != 0
    ensures CoreInv(Stand(c, v)) && Grows(c.h, Stand(c, v).h)
  {
    var term := c.disk[v].hard.term + 1;
    var c1 := Bump(c, v, term);
    BumpKeeps(c, v, term);
    assert (v, term) !in c.h.cands;
    RegisterKeeps(c1, v);
    VoteKeeps(Register(c1, v), v, v);
  }

  lemma RegisterKeeps(c: Core, v: NodeID)
    requires CoreInv(c) && v in c.disk && (v, c.disk[v].hard.term) !in c.h.cands
    requires TermsBelow(c.disk[v].log, c.disk[v].hard.term) && c.disk[v].hard.term != 0
    ensures CoreInv(Register(c, v)) && Grows(c.h, Register(c, v).h)
  {
    var c' := Register(c, v);
    assert GoodLog(c.h, c.disk[v].log);
    Registered(c, v);
    hide VotesInv, CandsInv, LogsInv, DiskInv, AcksInv, KeepInv, CarryInv, VoteCarries, GoodLog;
    assert OnlyNode(c, c', v);
    DiskStays(c, c', v);
    NewVotesOnly(c, c', v);
  }

  lemma Registered(c: Core, v: NodeID)
    requires VotesInv(c) && AcksInv(c) && CandsInv(c) && v in c.disk && (v, c.disk[v].hard.term) !in c.h.cands
    requires GoodLog(c.h, c.disk[v].log) && TermsBelow(c.disk[v].log, c.disk[v].hard.term) && c.disk[v].hard.term != 0
    ensures VotesInv(Register(c, v)) && AcksInv(Register(c, v)) && CandsInv(Register(c, v))
  {
    var c' := Register(c, v);
    forall w, t | (w, t) in c'.h.cands ensures GoodLog(c'.h, c'.h.cands[(w, t)]) {
      if (w, t) in c.h.cands { GoodLogGrows(c.h, c'.h, c.h.cands[(w, t)]); }
      else { GoodLogGrows(c.h, c'.h, c.disk[v].log); }
    }
  }

  /** What standing for election leaves on disk and on record. */
  lemma StandIs(c: Core, v: NodeID)
    requires v in c.disk
    ensures var c', t := Stand(c, v), c.disk[v].hard.term + 1;
      && c'.peers == c.peers && c'.disk == c.disk[v := Durable(HardState(t, v), c.disk[v].log)]
      && (v, t) in c'.h.cands && c'.h.cands[(v, t)] == c.disk[v].log
      && (v, t) in c'.h.votes && c'.h.votes[(v, t)] == v
  {}

  /** A candidate with a quorum stores its term's first entry. */
  function Elect(c: Core, v: NodeID, voters: set<NodeID>, e: Entry): Core
    requires v in c.disk
  {
    var term, log := c.disk[v].hard.term, c.disk[v].log + [e];
    SetDisk(c, v, c.disk[v].(log := log)).(h := c.h.(
      elections := c.h.elections[term := Election(v, voters, c.disk[v].log)],
      logs := c.h.logs[term := log],
      acks := c.h.acks[(v, term) := |log|]))
  }

  ghost predicate Wins(c: Core, v: NodeID, voters: set<NodeID>, e: Entry) {
    && v in c.disk && Quorum(voters, c.peers)
    && var term := c.disk[v].hard.term;
    && (v, term) in c.h.cands && c.h.cands[(v, term)] == c.disk[v].log
    && e.term == term && e.index == |c.disk[v].log| + 1
    && term !in c.h.elections && term != 0
    && forall w :: w in voters ==> (w, term) in c.h.votes && c.h.votes[(w, term)] == v
  }

  lemma ElectKeeps(c: Core, v: NodeID, voters: set<NodeID>, e: Entry)
    requires CoreInv(c) && Wins(c, v, voters, e)
    ensures CoreInv(Elect(c, v, voters, e)) && Grows(c.h, Elect(c, v, voters, e).h)
  {
    assert TermsBelow(c.disk[v].log, c.disk[v].hard.term);
    assert c.disk[v].hard.term !in c.h.logs && (v, c.disk[v].hard.term) !in c.h.acks;
    ElectShape(c, v, voters, e);
    assert 0 !in c.h.logs && c.h.elections.Keys == c.h.logs.Keys;
    hide VotesInv, CandsInv, AcksInv, DiskInv, KeepInv, CarryInv, LogsInv, GoodLog, ElectionOk, LeaderLogOk, Wins;
    LeaderGrew(c, Elect(c, v, voters, e), v);
  }

  lemma ElectShape(c: Core, v: NodeID, voters: set<NodeID>, e: Entry)
    requires Wins(c, v, voters, e) && GoodLog(c.h, c.disk[v].log) && TermsBelow(c.disk[v].log, c.disk[v].hard.term)
    requires var term := c.disk[v].hard.term; term !in c.h.logs && (v, term) !in c.h.acks
    ensures var c', term := Elect(c, v, voters, e), c.disk[v].hard.term;
      && OnlyNode(c, c', v) && GoodLog(c'.h, c'.disk[v].log)
      && ElectionOk(c', term) && LeaderLogOk(c', term)
  {
    var c', term := Elect(c, v, voters, e), c.disk[v].hard.term;
    hide GoodLog;
    ExtendGood(c, c', v, e);
    OwnTermOk(c', v, |c.disk[v].log|);
  }

  /** A leader's stored log is in order when only its own term follows the log it was elected with. */
  lemma OwnTermOk(c: Core, v: NodeID, n: nat)
    requires v in c.disk
    requires var term, log := c.disk[v].hard.term, c.disk[v].log;
      && term in c.h.elections && term in c.h.logs && c.h.elections[term].leader == v
      && c.h.logs[term] == log && GoodLog(c.h, log)
      && n == |c.h.elections[term].log| < |log| && Agree(c.h.elections[term].log, log, n)
      && TermsBelow(c.h.elections[term].log, term)
      && (forall k :: n <= k < |log| ==> log[k].term == term)
      && (v, term) in c.h.acks && c.h.acks[(v, term)] == |log|
    ensures LeaderLogOk(c, c.disk[v].hard.term)
  {
    hide GoodLog;
  }

  /** Nothing about votes changed. */
  lemma VotesStay(c: Core, c': Core, v: NodeID)
    requires VotesInv(c) && OnlyNode(c, c', v)
    requires c'.h.votes == c.h.votes && c'.h.cands == c.h.cands && c'.disk[v].hard == c.disk[v].hard
    ensures VotesInv(c')
  {
    hide Grows;
  }

  /** v acknowledges exactly its own log. */
  lemma AcksGrown(c: Core, c': Core, v: NodeID)
    requires AcksInv(c) && OnlyNode(c, c', v)
    requires var term := c'.disk[v].hard.term;
      term in c'.h.logs && (v, term) in c'.h.acks && c'.h.acks[(v, term)] <= |c'.h.logs[term]|
    ensures AcksInv(c')
  {}

  lemma OwnVoters(c: Core, u: nat)
    requires u in c.h.elections && ElectionOk(c, u)
    ensures forall w :: w in c.h.elections[u].voters ==> (w, u) in c.h.votes
  {}

  /** v's log is now its term's leader log, one entry longer than before. */
  lemma LeaderGrew(c: Core, c': Core, v: NodeID)
    requires CoreInv(c) && OnlyNode(c, c', v)
    requires c'.h.votes == c.h.votes && c'.h.cands == c.h.cands && c'.disk[v].hard == c.disk[v].hard
    requires Agree(c.disk[v].log, c'.disk[v].log, |c.disk[v].log|)
    requires GoodLog(c'.h, c'.disk[v].log) && TermsBelow(c'.disk[v].log, c'.disk[v].hard.term + 1)
    requires var term := c.disk[v].hard.term;
      && c'.h.elections.Keys == c.h.elections.Keys + {term} && c'.h.logs.Keys == c'.h.elections.Keys && 0 !in c'.h.logs
      && c'.h.elections[term].leader == v
      && (forall u :: u in c.h.elections ==> u == term || c'.h.logs[u] == c.h.logs[u])
      && c'.h.logs[term] == c'.disk[v].log
      && (v, term) in c'.h.acks && c'.h.acks[(v, term)] == |c'.disk[v].log|
      && ElectionOk(c', term) && LeaderLogOk(c', term)
    ensures CoreInv(c')
  {
    hide VotesInv, CandsInv, LogsInv, AcksInv, DiskInv, KeepInv, CarryInv, GoodLog, TermsBelow, ElectionOk, LeaderLogOk,
      Grows;
    VotersVoted(c);
    OwnVoters(c', c.disk[v].hard.term);
    VotesStay(c, c', v);
    AcksGrown(c, c', v);
    DiskFrame(c, c', v);
    CandsFrame(c, c', v);
    LeaderStores(c, c', v);
    KeepFrame(c, c', v);
    CarryFrame(c, c', v);
    LogsAfterGrowth(c, c', v);
  }

  lemma LogsAfterGrowth(c: Core, c': Core, v: NodeID)
    requires CoreInv(c) && OnlyNode(c, c', v) && c'.disk[v].hard == c.disk[v].hard
    requires var term := c.disk[v].hard.term;
      && c'.h.elections.Keys == c.h.elections.Keys + {term} && c'.h.logs.Keys == c'.h.elections.Keys && 0 !in c'.h.logs
      && (forall u :: u in c.h.elections ==> u == term || c'.h.logs[u] == c.h.logs[u])
      && ElectionOk(c', term) && LeaderLogOk(c', term)
    ensures LogsInv(c')
  {
    hide VotesInv, CandsInv, AcksInv, DiskInv, KeepInv, CarryInv, GoodLog;
    forall u | u in c'.h.elections ensures ElectionOk(c', u) && LeaderLogOk(c', u) {
      if u != c.disk[v].hard.term { LogsFrame(c, c', v, u); }
    }
  }

  /** The leader's log with one more entry of its own term is still a good log. */
  lemma ExtendGood(c: Core, c': Core, v: NodeID, e: Entry)
    requires v in c.disk && v in c'.disk && Grows(c.h, c'.h) && GoodLog(c.h, c.disk[v].log)
    requires c'.disk[v].log == c.disk[v].log + [e] && e.index == |c.disk[v].log| + 1
    requires e.term in c'.h.logs && c'.h.logs[e.term] == c'.disk[v].log
    ensures GoodLog(c'.h, c'.disk[v].log)
  {
    GoodLogGrows(c.h, c'.h, c.disk[v].log);
    var log := c'.disk[v].log;
    forall k | 0 <= k < |log|
      ensures log[k].index == k + 1 && log[k].term in c'.h.logs && Agree(log, c'.h.logs[log[k].term], k + 1)
    {
      if k < |c.disk[v].log| { assert log[k] == c.disk[v].log[k]; }
    }
  }

  /** After extending its log the leader stores what it acknowledged in any term. */
  lemma LeaderStores(c: Core, c': Core, v: NodeID)
    requires CoreInv(c) && OnlyNode(c, c', v) && c'.disk[v].hard.term == c.disk[v].hard.term
    requires Agree(c.disk[v].log, c'.disk[v].log, |c.disk[v].log|)
    requires var term := c'.disk[v].hard.term; term in c'.h.logs && c'.h.logs[term] == c'.disk[v].log
    ensures StillStores(c'.h, v, c'.disk[v])
  {
    var d' := c'.disk[v];
    forall t: nat, i: nat | Acked(c'.h, v, t, i) && Kept(c'.h, t, i, d'.hard.term + 1)
      ensures Agree(c'.h.logs[t], d'.log, i)
    {
      if t != d'.hard.term {
        assert (v, t) in c.h.acks && Acked(c.h, v, t, i);
        KeptShrinks(c.h, c'.h, t, i, d'.hard.term + 1);
        assert StillStores(c.h, v, c.disk[v]);
      }
    }
  }

  /** A leader stores one more entry of its term. */
  function LeadAppend(c: Core, v: NodeID, e: Entry): Core
    requires v in c.disk
  {
    var term, log := c.disk[v].hard.term, c.disk[v].log + [e];
    SetDisk(c, v, c.disk[v].(log := log)).(h := c.h.(
      logs := c.h.logs[term := log], acks := c.h.acks[(v, term) := |log|]))
  }

  ghost predicate Leads(c: Core, v: NodeID, e: Entry) {
    && v in c.disk
    && var term := c.disk[v].hard.term;
    && term in c.h.elections && c.h.elections[term].leader == v
    && e.term == term && e.index == |c.disk[v].log| + 1
  }

  lemma LeadAppendKeeps(c: Core, v: NodeID, e: Entry)
    requires CoreInv(c) && Leads(c, v, e)
    ensures CoreInv(LeadAppend(c, v, e)) && Grows(c.h, LeadAppend(c, v, e).h)
  {
    var term := c.disk[v].hard.term;
    assert LeaderLogOk(c, term) && ElectionOk(c, term);
    assert GoodLog(c.h, c.disk[v].log) && TermsBelow(c.disk[v].log, term + 1);
    assert 0 !in c.h.logs && c.h.elections.Keys == c.h.logs.Keys;
    hide VotesInv, CandsInv, AcksInv, DiskInv, KeepInv, CarryInv, LogsInv, GoodLog, ElectionOk, LeaderLogOk;
    LeadShape(c, v, e);
    LeaderGrew(c, LeadAppend(c, v, e), v);
  }

  lemma LeadShape(c: Core, v: NodeID, e: Entry)
    requires Leads(c, v, e) && GoodLog(c.h, c.disk[v].log)
    requires var term := c.disk[v].hard.term; term in c.h.logs && LeaderLogOk(c, term) && ElectionOk(c, term)
    ensures var c', term := LeadAppend(c, v, e), c.disk[v].hard.term;
      && OnlyNode(c, c', v) && GoodLog(c'.h, c'.disk[v].log)
      && ElectionOk(c', term) && LeaderLogOk(c', term)
  {
    var c', term := LeadAppend(c, v, e), c.disk[v].hard.term;
    hide GoodLog;
    ExtendGood(c, c', v, e);
    OwnTermOk(c', v, |c.h.elections[term].log|);
  }

  /** A follower drops its suffix from the first entry that conflicts with its leader's log. */
  function Truncate(c: Core, v: NodeID, n: nat): Core
    requires v in c.disk && n <= |c.disk[v].log|
  {
    SetDisk(c, v, c.disk[v].(log := c.disk[v].log[..n]))
  }

  lemma TruncateKeeps(c: Core, v: NodeID, n: nat)
    requires CoreInv(c) && v in c.disk && n < |c.disk[v].log|
    requires var term := c.disk[v].hard.term;
      && term in c.h.logs && n < |c.h.logs[term]|
      && c.disk[v].log[n].term != c.h.logs[term][n].term
    ensures CoreInv(Truncate(c, v, n))
  {
    var c', term := Truncate(c, v, n), c.disk[v].hard.term;
    PrefixGood(c.h, c.disk[v].log, n);
    ConflictSpares(c, v, n);
    assert c.h.elections[term].leader != v by { assert LeaderLogOk(c, term); }
    SameHistory(c, c', v);
  }

  lemma PrefixGood(h: History, log: seq<Entry>, n: nat)
    requires GoodLog(h, log) && n <= |log|
    ensures GoodLog(h, log[..n])
  {
    forall k | 0 <= k < n
      ensures var p := log[..n]; p[k].index == k + 1 && p[k].term in h.logs && Agree(p, h.logs[p[k].term], k + 1)
    {
      assert log[..n][k] == log[k];
    }
  }

  /** Nothing acknowledged and kept by every later leader lies at or above a conflict. */
  lemma ConflictSpares(c: Core, v: NodeID, n: nat)
    requires CoreInv(c) && v in c.disk && n < |c.disk[v].log|
    requires var term := c.disk[v].hard.term;
      && term in c.h.logs && n < |c.h.logs[term]|
      && c.disk[v].log[n].term != c.h.logs[term][n].term
    ensures StillStores(c.h, v, c.disk[v].(log := c.disk[v].log[..n]))
  {
    hide VotesInv, CandsInv, DiskInv, CarryInv, GoodLog, Agree;
    var d := c.disk[v];
    var term := d.hard.term;
    forall t: nat, i: nat | Acked(c.h, v, t, i) && Kept(c.h, t, i, term + 1)
      ensures Agree(c.h.logs[t], d.log[..n], i)
    {
      assert StillStores(c.h, v, d);
      KeptByLeader(c, t, i, term);
      ConflictBounds(c.h.logs[t], d.log, c.h.logs[term], i, n);
    }
  }

  /** What every leader since kept, the leader of the term has. */
  lemma KeptByLeader(c: Core, t: nat, i: nat, term: nat)
    requires LogsInv(c) && term in c.h.logs && t in c.h.logs && i <= |c.h.logs[t]| && t <= term
    requires Kept(c.h, t, i, term + 1)
    ensures Agree(c.h.logs[t], c.h.logs[term], i)
  {
    hide GoodLog, ElectionOk;
    assert LeaderLogOk(c, term);
    if t < term { assert Agree(c.h.logs[t], c.h.elections[term].log, i); }
  }

  /** Two logs that share the first i entries of a third first differ at i or later. */
  lemma ConflictBounds(a: seq<Entry>, log: seq<Entry>, leader: seq<Entry>, i: nat, n: nat)
    requires Agree(a, log, i) && Agree(a, leader, i) && n < |log| && n < |leader| && log[n].term != leader[n].term
    ensures Agree(a, log[..n], i)
  {
    assert forall k :: 0 <= k < i ==> log[k] == leader[k];
  }

  /** A follower whose log is a prefix of its leader's stores more of it. */
  function Extend(c: Core, v: NodeID, n: nat): Core
    requires v in c.disk && c.disk[v].hard.term in c.h.logs && n <= |c.h.logs[c.disk[v].hard.term]|
  {
    SetDisk(c, v, c.disk[v].(log := c.h.logs[c.disk[v].hard.term][..n]))
  }

  lemma ExtendKeeps(c: Core, v: NodeID, n: nat)
    requires CoreInv(c) && v in c.disk && c.disk[v].hard.term in c.h.logs
    requires var ll := c.h.logs[c.disk[v].hard.term];
      |c.disk[v].log| <= n <= |ll| && Agree(c.disk[v].log, ll, |c.disk[v].log|)
    ensures CoreInv(Extend(c, v, n))
  {
    var c', term := Extend(c, v, n), c.disk[v].hard.term;
    assert LeaderLogOk(c, term);
    hide VotesInv, CandsInv, KeepInv, CarryInv;
    PrefixGood(c.h, c.h.logs[term], n);
    StoredStays(c, c', v);
    assert c.h.elections[term].leader == v ==> c'.disk[v].log == c.disk[v].log;
    hide CoreInv;
    SameHistory(c, c', v);
  }

  lemma StoredStays(c: Core, c': Core, v: NodeID)
    requires CoreInv(c) && v in c.disk && v in c'.disk && c'.h == c.h
    requires c'.disk[v].hard == c.disk[v].hard && Agree(c.disk[v].log, c'.disk[v].log, |c.disk[v].log|)
    ensures StillStores(c.h, v, c'.disk[v])
  {
    hide VotesInv, CandsInv, LogsInv, DiskInv, CarryInv;
    StoresGrows(c.h, c.h, v, c.disk[v], c'.disk[v]);
  }

  /** A node tells its term's leader that it stores the first n entries. */
  function Ack(c: Core, v: NodeID, n: nat): Core
    requires v in c.disk
  {
    var key := (v, c.disk[v].hard.term);
    var prior := if key in c.h.acks then c.h.acks[key] else 0;
    c.(h := c.h.(acks := c.h.acks[key := if n > prior then n else prior]))
  }

  lemma AckKeeps(c: Core, v: NodeID, n: nat)
    requires CoreInv(c) && v in c.disk && c.disk[v].hard.term in c.h.logs
    requires Agree(c.h.logs[c.disk[v].hard.term], c.disk[v].log, n)
    ensures CoreInv(Ack(c, v, n)) && Grows(c.h, Ack(c, v, n).h)
  {
    var c' := Ack(c, v, n);
    AckShape(c, v, n);
    hide VotesInv, CandsInv, AcksInv, DiskInv, KeepInv, CarryInv, LogsInv, VoteCarries, StillStores, GoodLog, OnlyNode,
      Ack;
    AckStores(c, v, n);
    KeepFrame(c, c', v);
    CandsFrame(c, c', v);
    StoredLogGood(c, v);
    GoodLogGrows(c.h, c'.h, c.disk[v].log);
    DiskFrame(c, c', v);
    VotersVoted(c);
    AckLogs(c, v, n);
    CarryFrame(c, c', v);
  }

  lemma StoredLogGood(c: Core, v: NodeID)
    requires DiskInv(c) && v in c.disk
    ensures GoodLog(c.h, c.disk[v].log) && TermsBelow(c.disk[v].log, c.disk[v].hard.term + 1)
  {}

  lemma AckShape(c: Core, v: NodeID, n: nat)
    requires CoreInv(c) && v in c.disk && c.disk[v].hard.term in c.h.logs
    requires Agree(c.h.logs[c.disk[v].hard.term], c.disk[v].log, n)
    ensures var c' := Ack(c, v, n);
      && OnlyNode(c, c', v) && VotesInv(c') && AcksInv(c') && Grows(c.h, c'.h)
      && c'.disk == c.disk && c'.h == c.h.(acks := c'.h.acks)
  {
    hide CandsInv, DiskInv, KeepInv, CarryInv, GoodLog, LogsInv;
    var c' := Ack(c, v, n);
    assert Grows(c.h, c'.h);
    assert VotesInv(c') by { hide AcksInv; }
    assert AcksInv(c') by { hide VotesInv; }
  }

  lemma AckLogs(c: Core, v: NodeID, n: nat)
    requires CoreInv(c) && v in c.disk && c.disk[v].hard.term in c.h.logs && OnlyNode(c, Ack(c, v, n), v)
    requires Agree(c.h.logs[c.disk[v].hard.term], c.disk[v].log, n)
    ensures LogsInv(Ack(c, v, n))
  {
    var c' := Ack(c, v, n);
    hide VotesInv, CandsInv, AcksInv, DiskInv, KeepInv, CarryInv, VoteCarries, StillStores, GoodLog;
    forall u | u in c'.h.elections ensures ElectionOk(c', u) && LeaderLogOk(c', u) {
      assert LeaderLogOk(c, u);
      LogsFrame(c, c', v, u);
    }
  }

  lemma AckStores(c: Core, v: NodeID, n: nat)
    requires CoreInv(c) && v in c.disk && c.disk[v].hard.term in c.h.logs
    requires Agree(c.h.logs[c.disk[v].hard.term], c.disk[v].log, n)
    ensures StillStores(Ack(c, v, n).h, v, c.disk[v])
  {
    var h', d := Ack(c, v, n).h, c.disk[v];
    forall t: nat, i: nat | Acked(h', v, t, i) && Kept(h', t, i, d.hard.term + 1)
      ensures Agree(h'.logs[t], d.log, i)
    {
      assert StillStores(c.h, v, d);
      assert Kept(c.h, t, i, d.hard.term + 1);
      if Acked(c.h, v, t, i) {} else { assert t == d.hard.term && i <= n; }
    }
  }
}
