/** What an engine's memtables and tables say about the writes they came from. */
module EngineModel {
  import opened LsmTypes
  import opened SizeTiers
  import opened KWayMerge

  /** A frozen memtable waiting to be flushed: every write it may miss is above its watermark. */
  datatype Immutable = Immutable(list: seq<Version>, maxSeq: nat, watermark: nat)

  ghost function ListSet(list: seq<Version>): set<Version> { set v | v in list }

  ghost function FrozenSet(frozen: seq<Immutable>): set<Version> {
    set i, v | 0 <= i < |frozen| && v in frozen[i].list :: v
  }

  ghost function TableSet(tables: seq<Table>): set<Version> {
    set i, v | 0 <= i < |tables| && v in tables[i].content :: v
  }

  /** Some version of h's key in s is at least as new. */
  ghost predicate Covered(s: set<Version>, h: Version) { exists v :: v in s && v.key == h.key && v.seq_ >= h.seq_ }

  /** s holds only writes of the history, and for every write one at least as new. */
  ghost predicate Represents(s: set<Version>, history: set<Version>) {
    s <= history && forall h :: h in history ==> Covered(s, h)
  }

  /** The newest version of a key in s, which is also its newest write. */
  lemma NewestWrite(s: set<Version>, history: set<Version>, v: Version)
    requires Represents(s, history) && Newest(s, v)
    ensures Newest(history, v)
  {
    forall h | h in history && h.key == v.key ensures h.seq_ <= v.seq_ { assert Covered(s, h); }
  }

  lemma RepresentsMore(s: set<Version>, s': set<Version>, history: set<Version>, v: Version)
    requires Represents(s, history) && s' <= history + {v} && Covered(s', v)
    requires forall w :: w in s ==> Covered(s', w)
    ensures Represents(s', history + {v})
  {
    forall h | h in history + {v} ensures Covered(s', h) {
      if h != v {
        assert Covered(s, h);
        var w :| w in s && w.key == h.key && w.seq_ >= h.seq_;
        assert Covered(s', w);
      }
    }
  }

  /** Replacing some records by their merge loses no coverage. */
  lemma MergeCovers(rest: set<Version>, all: set<Version>, out: seq<Version>)
    requires Merged(all, out)
    ensures ListSet(out) <= all
    ensures forall h :: Covered(rest + all, h) ==> Covered(rest + ListSet(out), h)
  {
    forall h | Covered(rest + all, h) ensures Covered(rest + ListSet(out), h) {
      var v :| v in rest + all && v.key == h.key && v.seq_ >= h.seq_;
      if v !in rest {
        assert HasKey(out, v.key);
        var w :| w in out && w.key == v.key;
        assert Newest(all, w);
        assert w in rest + ListSet(out);
      }
    }
  }

  /** Whatever a covers, alone or beside other records, b covers too. */
  ghost predicate AsGood(a: set<Version>, b: set<Version>) {
    forall rest: set<Version>, h :: Covered(a + rest, h) ==> Covered(b + rest, h)
  }

  // ----- Watermarks -----

  /** Every write at or below the mark is covered by s. */
  ghost predicate CoveredBelow(s: set<Version>, history: set<Version>, mark: nat) {
    forall h :: h in history && h.seq_ <= mark ==> Covered(s, h)
  }

  /** The flushed index and each watermark keep their promise, in order. */
  ghost predicate Promises(tables: seq<Table>, frozen: seq<Immutable>, flushed: nat, history: set<Version>) {
    && CoveredBelow(TableSet(tables), history, flushed)
    && forall k :: 0 <= k < |frozen| ==>
         CoveredBelow(TableSet(tables) + FrozenSet(frozen[..k + 1]), history, frozen[k].watermark)
  }

  lemma CoverageGrows(a: set<Version>, b: set<Version>, history: set<Version>, mark: nat)
    requires CoveredBelow(a, history, mark) && forall h :: Covered(a, h) ==> Covered(b, h)
    ensures CoveredBelow(b, history, mark)
  {}

  /** Tables that cover as much keep every promise. */
  lemma PromisesCarry(tables: seq<Table>, tables': seq<Table>, frozen: seq<Immutable>, flushed: nat,
                      history: set<Version>)
    requires Promises(tables, frozen, flushed, history)
    requires AsGood(TableSet(tables), TableSet(tables'))
    ensures Promises(tables', frozen, flushed, history)
  {
    hide CoveredBelow, TableSet, FrozenSet;
    assert TableSet(tables) + {} == TableSet(tables) && TableSet(tables') + {} == TableSet(tables');
    assert forall h :: Covered(TableSet(tables), h) ==> Covered(TableSet(tables'), h) by {
      forall h | Covered(TableSet(tables), h)
        ensures Covered(TableSet(tables'), h)
      {
        assert Covered(TableSet(tables) + {}, h);
      }
    }
    CoverageGrows(TableSet(tables), TableSet(tables'), history, flushed);
    forall k | 0 <= k < |frozen|
      ensures CoveredBelow(TableSet(tables') + FrozenSet(frozen[..k + 1]), history, frozen[k].watermark)
    {
      var rest := FrozenSet(frozen[..k + 1]);
      CoverageGrows(TableSet(tables) + rest, TableSet(tables') + rest, history, frozen[k].watermark);
    }
  }

  /** The oldest frozen memtable becomes a table and its watermark the flushed index. */
  lemma PromisesFlush(tables: seq<Table>, t: Table, frozen: seq<Immutable>, flushed: nat, history: set<Version>)
    requires Promises(tables, frozen, flushed, history) && frozen != [] && t.content == frozen[0].list
    ensures Promises(tables + [t], frozen[1..], frozen[0].watermark, history)
    ensures TableSet(tables + [t]) + FrozenSet(frozen[1..]) == TableSet(tables) + FrozenSet(frozen)
  {
    hide CoveredBelow, TableSet, FrozenSet;
    FlushMoves(tables, t, frozen, 0);
    NothingFrozen();
    assert frozen[1..][..0] == [];
    FlushMoves(tables, t, frozen, |frozen| - 1);
    assert frozen[..|frozen|] == frozen && frozen[1..][..|frozen| - 1] == frozen[1..];
    assert TableSet(tables + [t]) == TableSet(tables + [t]) + {};
    assert CoveredBelow(TableSet(tables + [t]), history, frozen[0].watermark);
    forall k | 0 <= k < |frozen[1..]|
      ensures CoveredBelow(TableSet(tables + [t]) + FrozenSet(frozen[1..][..k + 1]), history, frozen[1..][k].watermark)
    {
      FlushMoves(tables, t, frozen, k + 1);
    }
  }

  lemma NothingFrozen()
    ensures FrozenSet([]) == {}
  {}

  lemma FlushMoves(tables: seq<Table>, t: Table, frozen: seq<Immutable>, k: nat)
    requires k < |frozen| && t.content == frozen[0].list
    ensures TableSet(tables + [t]) + FrozenSet(frozen[1..][..k]) == TableSet(tables) + FrozenSet(frozen[..k + 1])
  {
    var a, b := TableSet(tables + [t]) + FrozenSet(frozen[1..][..k]), TableSet(tables) + FrozenSet(frozen[..k + 1]);
    forall v | v in a ensures v in b {
      if i :| 0 <= i < |tables + [t]| && v in (tables + [t])[i].content {
        if i == |tables| { assert v in frozen[..k + 1][0].list; } else { assert v in tables[i].content; }
      } else {
        var i :| 0 <= i < k && v in frozen[1..][..k][i].list;
        assert v in frozen[..k + 1][i + 1].list;
      }
    }
    forall v | v in b ensures v in a {
      if i :| 0 <= i < |tables| && v in tables[i].content {
        assert v in (tables + [t])[i].content;
      } else {
        var i :| 0 <= i < k + 1 && v in frozen[..k + 1][i].list;
        if i == 0 { assert v in (tables + [t])[|tables|].content; } else { assert v in frozen[1..][..k][i - 1].list; }
      }
    }
  }

  /** Freezing the active memtable at a mark: everything known so far is covered. */
  lemma PromisesFreeze(tables: seq<Table>, frozen: seq<Immutable>, m: Immutable, flushed: nat, history: set<Version>)
    requires Promises(tables, frozen, flushed, history)
    requires Represents(ListSet(m.list) + FrozenSet(frozen) + TableSet(tables), history)
    ensures Promises(tables, frozen + [m], flushed, history)
  {
    hide Covered, TableSet, ListSet, FrozenSet;
    var all := frozen + [m];
    FrozenMore(frozen, m);
    forall k | 0 <= k < |all|
      ensures CoveredBelow(TableSet(tables) + FrozenSet(all[..k + 1]), history, all[k].watermark)
    {
      if k < |frozen| {
        assert all[..k + 1] == frozen[..k + 1];
      } else {
        assert all[..k + 1] == all;
        assert TableSet(tables) + FrozenSet(all) == ListSet(m.list) + FrozenSet(frozen) + TableSet(tables);
      }
    }
  }

  lemma FrozenMore(frozen: seq<Immutable>, m: Immutable)
    ensures FrozenSet(frozen + [m]) == FrozenSet(frozen) + ListSet(m.list)
  {
    var all := frozen + [m];
    forall v | v in FrozenSet(frozen) + ListSet(m.list) ensures v in FrozenSet(all) {
      if i :| 0 <= i < |frozen| && v in frozen[i].list {
        assert v in all[i].list;
      } else {
        assert v in all[|frozen|].list;
      }
    }
  }

  /** A write above every mark, or one already made, breaks no promise. */
  lemma PromisesWrite(tables: seq<Table>, frozen: seq<Immutable>, flushed: nat, history: set<Version>, v: Version)
    requires Promises(tables, frozen, flushed, history)
    requires v in history || (v.seq_ > flushed && forall m :: m in frozen ==> v.seq_ > m.watermark)
    ensures Promises(tables, frozen, flushed, history + {v})
  {
    forall k | 0 <= k < |frozen|
      ensures CoveredBelow(TableSet(tables) + FrozenSet(frozen[..k + 1]), history + {v}, frozen[k].watermark)
    {
      assert frozen[k] in frozen;
    }
  }

  /**
   Exactly which writes keep every promise: those above each mark, and those at or below one
   that what the mark vouches for already covers.
   */
  lemma PromisesWriteIff(tables: seq<Table>, frozen: seq<Immutable>, flushed: nat, history: set<Version>, v: Version)
    requires Promises(tables, frozen, flushed, history)
    ensures Promises(tables, frozen, flushed, history + {v}) <==>
      && (v.seq_ <= flushed ==> Covered(TableSet(tables), v))
      && forall k :: 0 <= k < |frozen| && v.seq_ <= frozen[k].watermark ==>
           Covered(TableSet(tables) + FrozenSet(frozen[..k + 1]), v)
  {
    hide Covered, TableSet, FrozenSet;
    var all := history + {v};
    assert CoveredBelow(TableSet(tables), all, flushed) <==> (v.seq_ <= flushed ==> Covered(TableSet(tables), v)) by {
      OneMoreBelow(TableSet(tables), history, flushed, v);
    }
    forall k | 0 <= k < |frozen|
      ensures var s := TableSet(tables) + FrozenSet(frozen[..k + 1]);
        CoveredBelow(s, all, frozen[k].watermark) <==> (v.seq_ <= frozen[k].watermark ==> Covered(s, v))
    {
      OneMoreBelow(TableSet(tables) + FrozenSet(frozen[..k + 1]), history, frozen[k].watermark, v);
    }
  }

  lemma OneMoreBelow(s: set<Version>, history: set<Version>, mark: nat, v: Version)
    requires CoveredBelow(s, history, mark)
    ensures CoveredBelow(s, history + {v}, mark) <==> (v.seq_ <= mark ==> Covered(s, v))
  {
    hide Covered;
    assert v in history + {v};
  }

  lemma TablesMore(tables: seq<Table>, t: Table)
    ensures TableSet(tables + [t]) == TableSet(tables) + ListSet(t.content)
  {
    var all := tables + [t];
    forall v | v in TableSet(tables) + ListSet(t.content) ensures v in TableSet(all) {
      if i :| 0 <= i < |tables| && v in tables[i].content {
        assert v in all[i].content;
      } else {
        assert v in all[|tables|].content;
      }
    }
  }

  // ----- Compaction -----

  function Contents(tables: seq<Table>): (cs: seq<seq<Version>>)
    ensures |cs| == |tables| && forall i :: 0 <= i < |tables| ==> cs[i] == tables[i].content
  {
    seq(|tables|, i requires 0 <= i < |tables| => tables[i].content)
  }

  lemma RestIsTables(tables: seq<Table>)
    ensures Rest([], Contents(tables)) == TableSet(tables)
  {}

  lemma SplitTables(tables: seq<Table>, s: set<nat>)
    ensures TableSet(tables) == TableSet(Without(tables, s)) + TableSet(Within(tables, s))
  {
    forall v | v in TableSet(tables) ensures v in TableSet(Without(tables, s)) + TableSet(Within(tables, s)) {
      var i :| 0 <= i < |tables| && v in tables[i].content;
      var t := tables[i];
      assert t in tables;
      if t.number in s { InTables(Within(tables, s), t, v); } else { InTables(Without(tables, s), t, v); }
    }
    forall v | v in TableSet(Without(tables, s)) ensures v in TableSet(tables) {
      var i :| 0 <= i < |Without(tables, s)| && v in Without(tables, s)[i].content;
      InTables(tables, Without(tables, s)[i], v);
    }
    forall v | v in TableSet(Within(tables, s)) ensures v in TableSet(tables) {
      var i :| 0 <= i < |Within(tables, s)| && v in Within(tables, s)[i].content;
      InTables(tables, Within(tables, s)[i], v);
    }
  }

  lemma InTables(tables: seq<Table>, t: Table, v: Version)
    requires t in tables && v in t.content
    ensures v in TableSet(tables)
  {
    var i :| 0 <= i < |tables| && tables[i] == t;
    assert v in tables[i].content;
  }

  lemma SameTables(a: seq<Table>, b: seq<Table>)
    requires forall t :: t in a <==> t in b
    ensures TableSet(a) == TableSet(b)
  {
    forall v | v in TableSet(a) ensures v in TableSet(b) {
      var i :| 0 <= i < |a| && v in a[i].content;
      InTables(b, a[i], v);
    }
    forall v | v in TableSet(b) ensures v in TableSet(a) {
      var i :| 0 <= i < |b| && v in b[i].content;
      InTables(a, b[i], v);
    }
  }

  /** Replacing four tables by their merge keeps every coverage and adds no record. */
  lemma CompactionCovers(tables: seq<Table>, tier: nat, inputs: seq<Table>, output: Table)
    requires NumbersDiffer(tables) && FourOf(tables, tier, inputs)
    requires Merged(TableSet(inputs), output.content)
    ensures var next := Without(tables, Numbers(inputs)) + [output];
      TableSet(next) <= TableSet(tables) && AsGood(TableSet(tables), TableSet(next))
  {
    var s := Numbers(inputs);
    FourChosen(tables, tier, inputs);
    SplitTables(tables, s);
    SameTables(Within(tables, s), inputs);
    TablesMore(Without(tables, s), output);
    hide TableSet, Within, Without, Merged, Covered;
    var next := Without(tables, s) + [output];
    var kept := TableSet(Without(tables, s));
    MergeCovers({}, TableSet(inputs), output.content);
    forall rest: set<Version>, h | Covered(TableSet(tables) + rest, h) ensures Covered(TableSet(next) + rest, h) {
      MergeCovers(kept + rest, TableSet(inputs), output.content);
      assert TableSet(tables) + rest == (kept + rest) + TableSet(inputs);
      assert TableSet(next) + rest == (kept + rest) + ListSet(output.content);
    }
  }
}
