/**
 The engine's in-memory state as values: what its lists owe to each other and to the writes
 they came from, and what a write, a freeze, a flush, a compaction or a moved mark does to them.
 */
module EngineState {
  import opened RaftTypes
  import opened LsmTypes
  import opened Memtable
  import opened SizeTiers
  import opened KWayMerge
  import opened EngineModel

  function Max(a: nat, b: nat): nat { if a > b then a else b }

  function EntrySize(v: Version): nat { |v.key| + 9 + if v.value.Some? then |v.value.value| else 0 }

  /** The bytes a memtable is accounted at. */
  function SizeOf(list: seq<Version>): nat {
    if list == [] then 0 else SizeOf(list[..|list| - 1]) + EntrySize(list[|list| - 1])
  }

  lemma NothingWeighs()
    ensures SizeOf([]) == 0
  {}

  lemma {:induction false} SizeConcat(a: seq<Version>, b: seq<Version>)
    ensures SizeOf(a + b) == SizeOf(a) + SizeOf(b)
    decreases |b|
  {
    hide EntrySize;
    if b == [] {
      assert a + b == a;
    } else {
      assert (a + b)[..|a + b| - 1] == a + b[..|b| - 1];
      SizeConcat(a, b[..|b| - 1]);
    }
  }

  lemma SizeSplit(list: seq<Version>, p: nat)
    requires p < |list|
    ensures SizeOf(list) == SizeOf(list[..p]) + EntrySize(list[p]) + SizeOf(list[p + 1..])
  {
    hide EntrySize;
    assert list == list[..p] + [list[p]] + list[p + 1..];
    SizeConcat(list[..p] + [list[p]], list[p + 1..]);
    assert (list[..p] + [list[p]])[..p] == list[..p];
  }

  lemma ReplacedSize(list: seq<Version>, p: nat, v: Version)
    requires p < |list|
    ensures SizeOf(list[p := v]) == SizeOf(list) + EntrySize(v) - EntrySize(list[p])
  {
    hide SizeOf, EntrySize;
    var next := list[p := v];
    SizeSplit(list, p);
    SizeSplit(next, p);
    assert next[..p] == list[..p] && next[p + 1..] == list[p + 1..];
  }

  lemma InsertedSize(list: seq<Version>, p: nat, v: Version)
    requires p <= |list|
    ensures SizeOf(list[..p] + [v] + list[p..]) == SizeOf(list) + EntrySize(v)
  {
    hide SizeOf, EntrySize;
    var next := list[..p] + [v] + list[p..];
    SizeSplit(next, p);
    SizeConcat(list[..p], list[p..]);
    assert list == list[..p] + list[p..];
    assert next[..p] == list[..p] && next[p + 1..] == list[p..];
  }

  /** The size kept up to date by the difference is the size of the whole list. */
  lemma InsertSize(list: seq<Version>, v: Version)
    ensures var prior := Find(list, v.key);
      var accepted := prior == None || v.seq_ > prior.value.seq_;
      && (accepted <==> Insert(list, v) != list)
      && SizeOf(Insert(list, v)) == if !accepted then SizeOf(list)
           else if prior.Some? then SizeOf(list) + EntrySize(v) - EntrySize(prior.value)
           else SizeOf(list) + EntrySize(v)
  {
    hide SizeOf, EntrySize, Position;
    var p := Position(list, v.key);
    if p < |list| && list[p].key == v.key {
      ReplacedSize(list, p, v);
      assert list[p := v][p] == v;
    } else {
      InsertedSize(list, p, v);
      assert |Insert(list, v)| == |list| + 1;
    }
  }

  ghost predicate ActiveOk(active: seq<Version>, maxSeq: nat) {
    Ascends(active) && forall v :: v in active ==> v.seq_ <= maxSeq
  }

  ghost predicate FrozenOk(frozen: seq<Immutable>) {
    forall i :: 0 <= i < |frozen| ==>
      && Ascends(frozen[i].list) && frozen[i].list != []
      && frozen[i].maxSeq <= frozen[i].watermark
      && forall v :: v in frozen[i].list ==> v.seq_ <= frozen[i].maxSeq
  }

  /** Watermarks never run behind the flushed index or each other. */
  ghost predicate MarksAscend(frozen: seq<Immutable>, flushed: nat) {
    && (forall i :: 0 <= i < |frozen| ==> flushed <= frozen[i].watermark)
    && forall i, j :: 0 <= i < j < |frozen| ==> frozen[i].watermark <= frozen[j].watermark
  }

  ghost predicate TablesOk(tables: seq<Table>, flushed: nat, nextFile: nat) {
    && NumbersDiffer(tables)
    && forall i :: 0 <= i < |tables| ==>
         && tables[i].number < nextFile && Ascends(tables[i].content) && tables[i].content != []
         && forall v :: v in tables[i].content ==> v.seq_ <= flushed
  }

  /** The value of the key's newest write. */
  ghost function Value(history: set<Version>, key: Key): Option<seq<Byte>> {
    if v :| v in history && v.key == key && Newest(history, v) then v.value else None
  }

  predicate Disagree(r: Option<Version>, c: Option<Version>) {
    r.Some? && c.Some? && c.value.seq_ == r.value.seq_ && c.value.value != r.value.value
  }

  function Newer(r: Option<Version>, c: Option<Version>): Option<Version> {
    if c.Some? && (r.None? || c.value.seq_ > r.value.seq_) then c else r
  }

  /** r is the newest version of the key in s, if there is one. */
  ghost predicate BestOf(s: set<Version>, key: Key, r: Option<Version>) {
    match r
    case None => forall v :: v in s ==> v.key != key
    case Some(v) => v.key == key && Newest(s, v)
  }

  lemma FindBest(list: seq<Version>, key: Key)
    requires Ascends(list)
    ensures BestOf(ListSet(list), key, Find(list, key))
  {
    FindIs(list, key);
  }

  lemma NoFrozen()
    ensures FrozenSet([]) == {}
  {}

  lemma NoTables()
    ensures TableSet([]) == {}
  {}

  lemma FrozenAscends(frozen: seq<Immutable>, i: nat)
    requires FrozenOk(frozen) && i < |frozen|
    ensures Ascends(frozen[i].list)
  {}

  lemma FrozenPrefix(frozen: seq<Immutable>, i: nat)
    requires i < |frozen|
    ensures FrozenSet(frozen[..i + 1]) == FrozenSet(frozen[..i]) + ListSet(frozen[i].list)
    ensures FrozenSet(frozen[..i]) <= FrozenSet(frozen) && ListSet(frozen[i].list) <= FrozenSet(frozen)
  {
    assert frozen[..i + 1] == frozen[..i] + [frozen[i]];
    FrozenMore(frozen[..i], frozen[i]);
  }

  lemma TablePrefix(tables: seq<Table>, i: nat)
    requires i < |tables|
    ensures TableSet(tables[..i + 1]) == TableSet(tables[..i]) + ListSet(tables[i].content)
    ensures TableSet(tables[..i]) <= TableSet(tables) && ListSet(tables[i].content) <= TableSet(tables)
  {
    assert tables[..i + 1] == tables[..i] + [tables[i]];
    TablesMore(tables[..i], tables[i]);
  }

  lemma TableAscends(tables: seq<Table>, flushed: nat, nextFile: nat, i: nat)
    requires TablesOk(tables, flushed, nextFile) && i < |tables|
    ensures Ascends(tables[i].content)
  {}

  /** Asking one more source keeps the newest answer, and no two answers disagree. */
  lemma Consider(all: set<Version>, history: set<Version>, seen: set<Version>, s: set<Version>, key: Key,
                 r: Option<Version>, c: Option<Version>)
    requires Represents(all, history) && NoClash(history) && seen <= all && s <= all
    requires BestOf(seen, key, r) && BestOf(s, key, c)
    ensures !Disagree(r, c) && BestOf(seen + s, key, Newer(r, c))
  {
    if r.Some? && c.Some? { assert r.value in history && c.value in history && !Conflicts(r.value, c.value); }
  }

  lemma BestWrite(s: set<Version>, history: set<Version>, key: Key, r: Option<Version>)
    requires Represents(s, history) && BestOf(s, key, r)
    ensures BestOf(history, key, r)
  {
    if r.Some? {
      NewestWrite(s, history, r.value);
    } else {
      forall v | v in history ensures v.key != key { assert Covered(s, v); }
    }
  }

  lemma ValueIs(history: set<Version>, key: Key, r: Option<Version>)
    requires NoClash(history) && BestOf(history, key, r)
    ensures Value(history, key) == if r.Some? then r.value.value else None
  {
    if v :| v in history && v.key == key && Newest(history, v) {
      assert !Conflicts(v, r.value);
    }
  }

  /** The half-open size class of a table's bytes. */
  ghost predicate InClass(size: int, class_: nat) {
    if class_ == 0 then size < BASE_BYTES else BASE_BYTES * Pow4(class_ - 1) <= size < BASE_BYTES * Pow4(class_)
  }

  /** A write above every watermark, or one made before. */
  ghost predicate Fresh(v: Version, history: set<Version>, flushed: nat, frozen: seq<Immutable>) {
    v in history || (v.seq_ > flushed && forall m :: m in frozen ==> v.seq_ > m.watermark)
  }

  method NumberSet(tables: seq<Table>) returns (s: set<nat>)
    ensures s == Numbers(tables)
  {
    s := {};
    for i := 0 to |tables|
      invariant s == Numbers(tables[..i])
    {
      assert tables[..i + 1] == tables[..i] + [tables[i]];
      s := s + {tables[i].number};
    }
    assert tables[..|tables|] == tables;
  }

  lemma RoomierTables(tables: seq<Table>, flushed: nat, nextFile: nat)
    requires TablesOk(tables, flushed, nextFile)
    ensures TablesOk(tables, flushed, nextFile + 1)
  {}

  lemma AscendsSorted(t: seq<Version>)
    requires Ascends(t)
    ensures SortedTable(t)
  {}

  /** The inputs of a compaction can always be merged: one sequence number names one write. */
  lemma InputsMerge(tables: seq<Table>, flushed: nat, nextFile: nat, tier: nat, inputs: seq<Table>, all: set<Version>,
                    history: set<Version>)
    requires TablesOk(tables, flushed, nextFile) && FourOf(tables, tier, inputs)
    requires TableSet(tables) <= all && Represents(all, history) && NoClash(history)
    ensures forall i :: 0 <= i < |inputs| ==> SortedTable(Contents(inputs)[i])
    ensures NoClash(Rest([], Contents(inputs))) && Rest([], Contents(inputs)) == TableSet(inputs)
  {
    RestIsTables(inputs);
    forall i | 0 <= i < |inputs| ensures SortedTable(Contents(inputs)[i]) && inputs[i] in tables {
      assert inputs[i] in inputs;
      var j :| 0 <= j < |tables| && tables[j] == inputs[i];
      AscendsSorted(tables[j].content);
    }
    forall v | v in TableSet(inputs) ensures v in history {
      var i :| 0 <= i < |inputs| && v in inputs[i].content;
      InTables(tables, inputs[i], v);
    }
  }

  /** The published list after a compaction, in name order. */
  ghost function Replaced(tables: seq<Table>, inputs: seq<Table>, output: Table): seq<Table> {
    SortByName(Without(tables, Numbers(inputs)) + [output])
  }

  lemma SortedOk(tables: seq<Table>, flushed: nat, nextFile: nat)
    requires TablesOk(tables, flushed, nextFile)
    ensures TablesOk(SortByName(tables), flushed, nextFile) && TableSet(SortByName(tables)) == TableSet(tables)
    ensures Weight(SortByName(tables)) == Weight(tables) && |SortByName(tables)| == |tables|
  {
    hide SortByName, TableSet, Weight, Ascends;
    SortKeeps(tables);
    SortDiffers(tables);
    SortWeighs(tables);
    SameTables(SortByName(tables), tables);
    var sorted := SortByName(tables);
    forall i | 0 <= i < |sorted| ensures sorted[i] in tables { assert sorted[i] in sorted; }
  }

  /** What compaction does to the table list. */
  lemma Compacted(tables: seq<Table>, flushed: nat, nextFile: nat, tier: nat, inputs: seq<Table>, output: Table)
    requires TablesOk(tables, flushed, nextFile) && FourOf(tables, tier, inputs)
    requires output.number == nextFile && output.tier == tier + 1 && Merged(TableSet(inputs), output.content)
    ensures var next := Replaced(tables, inputs, output);
      && TablesOk(next, flushed, nextFile + 1)
      && Weight(next) == Weight(tables) && |next| == |tables| - 3
      && TableSet(next) <= TableSet(tables) && AsGood(TableSet(tables), TableSet(next))
  {
    hide Weight, Covered, AsGood, Merged, TableSet, FourOf, Without, Numbers, SortByName, Ascends;
    assert NumbersDiffer(tables);
    CompactionConserves(tables, tier, inputs, output);
    CompactionCovers(tables, tier, inputs, output);
    KeptOk(tables, flushed, nextFile, tier, inputs, output);
    SortedOk(Without(tables, Numbers(inputs)) + [output], flushed, nextFile + 1);
  }

  lemma KeptOk(tables: seq<Table>, flushed: nat, nextFile: nat, tier: nat, inputs: seq<Table>, output: Table)
    requires TablesOk(tables, flushed, nextFile) && FourOf(tables, tier, inputs)
    requires output.number == nextFile && Merged(TableSet(inputs), output.content)
    ensures TablesOk(Without(tables, Numbers(inputs)) + [output], flushed, nextFile + 1)
  {
    hide Merged, TableSet, Ascends, FourOf, Numbers;
    MergedContent(tables, flushed, nextFile, tier, inputs, output.content);
    WithinDiffers(tables, Numbers(inputs));
    var kept := Without(tables, Numbers(inputs));
    hide Without;
    forall i | 0 <= i < |kept| ensures kept[i] in tables { assert kept[i] in kept; }
  }

  lemma MergedContent(tables: seq<Table>, flushed: nat, nextFile: nat, tier: nat, inputs: seq<Table>, out: seq<Version>)
    requires TablesOk(tables, flushed, nextFile) && FourOf(tables, tier, inputs)
    requires Merged(TableSet(inputs), out)
    ensures Ascends(out) && out != [] && forall v :: v in out ==> v.seq_ <= flushed
  {
    forall i | 0 <= i < |inputs| ensures inputs[i] in tables { assert inputs[i] in inputs; }
    forall v | v in out ensures v.seq_ <= flushed {
      assert Newest(TableSet(inputs), v);
      var i :| 0 <= i < |inputs| && v in inputs[i].content;
      var j :| 0 <= j < |tables| && tables[j] == inputs[i];
    }
    var j :| 0 <= j < |tables| && tables[j] == inputs[0];
    var first := inputs[0].content[0];
    assert inputs[0] in inputs;
    InTables(inputs, inputs[0], first);
    assert HasKey(out, first.key);
  }

  /** Fewer records that cover as much still represent the history. */
  lemma SameHistory(rest: set<Version>, a: set<Version>, b: set<Version>, history: set<Version>)
    requires Represents(rest + a, history) && b <= a && AsGood(a, b)
    ensures Represents(rest + b, history)
  {
    hide Covered;
    assert rest + a == a + rest && rest + b == b + rest;
    forall h | h in history ensures Covered(rest + b, h) { assert Covered(a + rest, h); }
  }

  lemma FlushSources(tables: seq<Table>, t: Table, frozen: seq<Immutable>)
    requires frozen != [] && t.content == frozen[0].list
    ensures FrozenSet(frozen[1..]) + TableSet(tables + [t]) == FrozenSet(frozen) + TableSet(tables)
  {
    FlushMoves(tables, t, frozen, |frozen| - 1);
    assert frozen[..|frozen|] == frozen && frozen[1..][..|frozen| - 1] == frozen[1..];
  }

  /** What flushing does to the shape of the lists. */
  lemma Flushed(frozen: seq<Immutable>, flushed: nat, tables: seq<Table>, nextFile: nat, t: Table)
    requires FrozenOk(frozen) && MarksAscend(frozen, flushed) && TablesOk(tables, flushed, nextFile) && frozen != []
    requires t.number == nextFile && t.content == frozen[0].list
    ensures FrozenOk(frozen[1..]) && MarksAscend(frozen[1..], frozen[0].watermark)
    ensures TablesOk(tables + [t], frozen[0].watermark, nextFile + 1) && TablesOk(tables, flushed, nextFile + 1)
  {}

  lemma CompactedState(active: seq<Version>, frozen: seq<Immutable>, tables: seq<Table>, flushed: nat, nextFile: nat,
                       tier: nat, inputs: seq<Table>, output: Table, history: set<Version>)
    requires TablesOk(tables, flushed, nextFile) && FourOf(tables, tier, inputs)
    requires output.number == nextFile && output.tier == tier + 1 && Merged(TableSet(inputs), output.content)
    requires Represents(ListSet(active) + FrozenSet(frozen) + TableSet(tables), history)
    ensures var next := Replaced(tables, inputs, output);
      && TablesOk(next, flushed, nextFile + 1)
      && Weight(next) == Weight(tables) && |next| == |tables| - 3
      && Represents(ListSet(active) + FrozenSet(frozen) + TableSet(next), history)
      && (Promises(tables, frozen, flushed, history) ==> Promises(next, frozen, flushed, history))
  {
    hide Represents, Merged, Promises, TableSet, FrozenSet, ListSet, Weight, TablesOk, AsGood, Replaced;
    var next := Replaced(tables, inputs, output);
    Compacted(tables, flushed, nextFile, tier, inputs, output);
    SameHistory(ListSet(active) + FrozenSet(frozen), TableSet(tables), TableSet(next), history);
    if Promises(tables, frozen, flushed, history) { PromisesCarry(tables, next, frozen, flushed, history); }
  }

  lemma FlushedState(active: seq<Version>, frozen: seq<Immutable>, tables: seq<Table>, flushed: nat, nextFile: nat,
                     t: Table, history: set<Version>)
    requires FrozenOk(frozen) && MarksAscend(frozen, flushed) && TablesOk(tables, flushed, nextFile) && frozen != []
    requires t.number == nextFile && t.content == frozen[0].list
    ensures FrozenOk(frozen[1..]) && MarksAscend(frozen[1..], frozen[0].watermark)
    ensures TablesOk(tables + [t], frozen[0].watermark, nextFile + 1) && TablesOk(tables, flushed, nextFile + 1)
    ensures ListSet(active) + FrozenSet(frozen[1..]) + TableSet(tables + [t])
         == ListSet(active) + FrozenSet(frozen) + TableSet(tables)
    ensures Promises(tables, frozen, flushed, history) ==>
      Promises(tables + [t], frozen[1..], frozen[0].watermark, history)
  {
    Flushed(frozen, flushed, tables, nextFile, t);
    hide Promises, TableSet, FrozenSet, ListSet, TablesOk, FrozenOk, MarksAscend;
    FlushSources(tables, t, frozen);
    if Promises(tables, frozen, flushed, history) { PromisesFlush(tables, t, frozen, flushed, history); }
  }

  lemma FrozenState(active: seq<Version>, frozen: seq<Immutable>, tables: seq<Table>, flushed: nat, m: Immutable,
                    history: set<Version>)
    requires ActiveOk(active, m.maxSeq) && m.list == active != [] && m.maxSeq <= m.watermark && flushed <= m.watermark
    requires FrozenOk(frozen) && MarksAscend(frozen, flushed) && forall x :: x in frozen ==> x.watermark <= m.watermark
    requires Represents(ListSet(active) + FrozenSet(frozen) + TableSet(tables), history)
    ensures ActiveOk([], 0) && FrozenOk(frozen + [m]) && MarksAscend(frozen + [m], flushed)
    ensures Represents(ListSet([]) + FrozenSet(frozen + [m]) + TableSet(tables), history)
    ensures Promises(tables, frozen, flushed, history) ==> Promises(tables, frozen + [m], flushed, history)
  {
    hide TableSet, FrozenSet, Promises, FrozenOk, MarksAscend, ListSet, ActiveOk, Represents;
    FrozenShape(frozen, flushed, m);
    FrozenMore(frozen, m);
    NoList();
    assert ListSet([]) + FrozenSet(frozen + [m]) + TableSet(tables)
        == ListSet(active) + FrozenSet(frozen) + TableSet(tables);
    if Promises(tables, frozen, flushed, history) { PromisesFreeze(tables, frozen, m, flushed, history); }
  }

  lemma FrozenShape(frozen: seq<Immutable>, flushed: nat, m: Immutable)
    requires ActiveOk(m.list, m.maxSeq) && m.list != [] && m.maxSeq <= m.watermark && flushed <= m.watermark
    requires FrozenOk(frozen) && MarksAscend(frozen, flushed) && forall x :: x in frozen ==> x.watermark <= m.watermark
    ensures ActiveOk([], 0) && FrozenOk(frozen + [m]) && MarksAscend(frozen + [m], flushed)
  {
    hide Ascends;
    assert Ascends([]) by { EmptyAscends(); }
    forall i | 0 <= i < |frozen| ensures frozen[i].watermark <= m.watermark { assert frozen[i] in frozen; }
  }

  lemma NoList()
    ensures ListSet([]) == {}
  {}

  lemma EmptyAscends()
    ensures Ascends([])
  {}

  lemma MarkAbove(frozen: seq<Immutable>, flushed: nat)
    requires MarksAscend(frozen, flushed) && frozen != []
    ensures flushed <= frozen[0].watermark
  {}

  /** With nothing left in memory the flushed index may move up to any applied index. */
  lemma MarkMoves(active: seq<Version>, frozen: seq<Immutable>, tables: seq<Table>, flushed: nat, index: nat,
                  nextFile: nat, history: set<Version>)
    requires active == [] && frozen == [] && TablesOk(tables, flushed, nextFile) && flushed <= index
    requires Represents(ListSet(active) + FrozenSet(frozen) + TableSet(tables), history)
    ensures TablesOk(tables, index, nextFile) && MarksAscend(frozen, index)
    ensures Promises(tables, frozen, index, history)
  {
    assert ListSet(active) + FrozenSet(frozen) + TableSet(tables) == TableSet(tables);
  }

  /** What one write does to the active memtable. */
  lemma WrittenState(active: seq<Version>, maxSeq: nat, frozen: seq<Immutable>, tables: seq<Table>, flushed: nat,
                     v: Version, history: set<Version>)
    requires ActiveOk(active, maxSeq) && Represents(ListSet(active) + FrozenSet(frozen) + TableSet(tables), history)
    ensures ActiveOk(Insert(active, v), Max(maxSeq, v.seq_))
    ensures Represents(ListSet(Insert(active, v)) + FrozenSet(frozen) + TableSet(tables), history + {v})
    ensures var prior := Find(active, v.key); prior.Some? && v.seq_ <= prior.value.seq_ ==> Insert(active, v) == active
    ensures Promises(tables, frozen, flushed, history) && Fresh(v, history, flushed, frozen)
            ==> Promises(tables, frozen, flushed, history + {v})
  {
    hide TableSet, FrozenSet, Promises, Insert, Find, Ascends, Represents, ListSet, ActiveOk;
    var rest := FrozenSet(frozen) + TableSet(tables);
    ActiveGrows(active, maxSeq, v);
    assert ListSet(active) + FrozenSet(frozen) + TableSet(tables) == ListSet(active) + rest;
    InsertCovers(active, v, rest, history);
    assert ListSet(Insert(active, v)) + FrozenSet(frozen) + TableSet(tables) == ListSet(Insert(active, v)) + rest;
    OlderIgnored(active, v);
    if Promises(tables, frozen, flushed, history) && Fresh(v, history, flushed, frozen) {
      PromisesWrite(tables, frozen, flushed, history, v);
    }
  }

  lemma ActiveGrows(active: seq<Version>, maxSeq: nat, v: Version)
    requires ActiveOk(active, maxSeq)
    ensures Ascends(active) && ActiveOk(Insert(active, v), Max(maxSeq, v.seq_))
  {
    InsertAscends(active, v);
    InsertIs(active, v);
    hide Insert, Ascends;
  }

  lemma OlderIgnored(list: seq<Version>, v: Version)
    ensures var prior := Find(list, v.key); prior.Some? && v.seq_ <= prior.value.seq_ ==> Insert(list, v) == list
  {}

  lemma InsertCovers(list: seq<Version>, v: Version, rest: set<Version>, history: set<Version>)
    requires Ascends(list) && Represents(ListSet(list) + rest, history)
    ensures Represents(ListSet(Insert(list, v)) + rest, history + {v})
  {
    InsertIs(list, v);
    hide Insert, Ascends, Position;
    var s, s' := ListSet(list) + rest, ListSet(Insert(list, v)) + rest;
    forall w | w in s ensures Covered(s', w) {
      if w in list && w.key == v.key {
        var x :| x in Insert(list, v) && x.key == v.key && x.seq_ >= w.seq_;
        assert x in s';
      } else {
        assert w in s';
      }
    }
    var x :| x in Insert(list, v) && x.key == v.key && x.seq_ >= v.seq_;
    assert x in s';
    RepresentsMore(s, s', history, v);
  }

  ghost function FlushedPart(history: set<Version>, flushed: nat): set<Version> {
    set h | h in history && h.seq_ <= flushed
  }

  /** The tables alone hold every write at or below the flushed index and nothing else. */
  lemma FlushedSurvives(tables: seq<Table>, frozen: seq<Immutable>, flushed: nat, nextFile: nat, s: set<Version>,
                        history: set<Version>)
    requires TablesOk(tables, flushed, nextFile) && Promises(tables, frozen, flushed, history)
    requires TableSet(tables) <= s && Represents(s, history)
    ensures Represents(TableSet(tables), FlushedPart(history, flushed))
  {
    hide Covered;
  }

  // ----- Whole states -----

  /** An engine's lists between operations, and every write they came from. */
  datatype Snapshot = Snapshot(active: seq<Version>, frozen: seq<Immutable>, tables: seq<Table>, flushed: nat,
                               nextFile: nat, history: set<Version>)

  /** The lists are in order and represent the history. */
  ghost predicate SnapshotOk(x: Snapshot) {
    && FrozenOk(x.frozen) && MarksAscend(x.frozen, x.flushed) && TablesOk(x.tables, x.flushed, x.nextFile)
    && Represents(ListSet(x.active) + FrozenSet(x.frozen) + TableSet(x.tables), x.history) && NoClash(x.history)
    && 1 <= x.nextFile <= MAX_UINT64 && Light(x.tables)
  }

  /** Every mark keeps its promise: nothing at or below it is in memory only. */
  ghost predicate Promised(x: Snapshot) { Promises(x.tables, x.frozen, x.flushed, x.history) }

  ghost function FlushNext(x: Snapshot, tier: nat): Snapshot
    requires x.frozen != []
  {
    x.(tables := x.tables + [Table(x.nextFile, tier, x.frozen[0].list)], frozen := x.frozen[1..],
       flushed := x.frozen[0].watermark, nextFile := x.nextFile + 1)
  }

  ghost function CompactNext(x: Snapshot, tier: nat, inputs: seq<Table>, content: seq<Version>): Snapshot {
    x.(tables := Replaced(x.tables, inputs, Table(x.nextFile, tier + 1, content)), nextFile := x.nextFile + 1)
  }

  ghost function MarkNext(x: Snapshot, index: nat): Snapshot { x.(flushed := index) }

  lemma FlushSnapshot(x: Snapshot, tier: nat)
    requires SnapshotOk(x) && x.frozen != [] && x.nextFile < MAX_UINT64 && tier <= MAX_CLASS
    ensures Promised(x) ==> Promised(FlushNext(x, tier))
    ensures SnapshotOk(FlushNext(x, tier)) && Weight(FlushNext(x, tier).tables) == Weight(x.tables) + Pow4(tier)
  {
    hide Light, FrozenOk, MarksAscend, TablesOk, Represents, NoClash, Promises, ListSet, FrozenSet, TableSet, Weight;
    var t := Table(x.nextFile, tier, x.frozen[0].list);
    FlushedState(x.active, x.frozen, x.tables, x.flushed, x.nextFile, t, x.history);
    WeightMore(x.tables, t);
    TablesBelow(x.tables, x.flushed, x.nextFile);
    LightFlush(x.tables, t);
  }

  lemma TablesBelow(tables: seq<Table>, flushed: nat, nextFile: nat)
    requires TablesOk(tables, flushed, nextFile)
    ensures forall t :: t in tables ==> t.number < nextFile
  {}

  lemma OutputListed(tables: seq<Table>, inputs: seq<Table>, output: Table)
    ensures output in Replaced(tables, inputs, output)
  {
    hide SortByName;
    SortKeeps(Without(tables, Numbers(inputs)) + [output]);
  }

  lemma CompactSnapshot(x: Snapshot, tier: nat, inputs: seq<Table>, content: seq<Version>)
    requires SnapshotOk(x) && FourOf(x.tables, tier, inputs)
    requires Merged(TableSet(inputs), content) && x.nextFile < MAX_UINT64
    ensures var y := CompactNext(x, tier, inputs, content);
      && SnapshotOk(y) && (Promised(x) ==> Promised(y))
      && Weight(y.tables) == Weight(x.tables) && |y.tables| == |x.tables| - 3
  {
    hide Light, FrozenOk, MarksAscend, TablesOk, Represents, NoClash, Promises, ListSet, FrozenSet, TableSet, Merged,
      FourOf, Replaced, Weight;
    CompactedState(x.active, x.frozen, x.tables, x.flushed, x.nextFile, tier, inputs,
                   Table(x.nextFile, tier + 1, content), x.history);
    TablesBelow(x.tables, x.flushed, x.nextFile);
    OutputListed(x.tables, inputs, Table(x.nextFile, tier + 1, content));
    LightCarry(x.tables, CompactNext(x, tier, inputs, content).tables);
  }

  lemma MarkSnapshot(x: Snapshot, index: nat)
    requires SnapshotOk(x) && x.active == [] && x.frozen == [] && x.flushed <= index
    ensures SnapshotOk(MarkNext(x, index)) && Promised(MarkNext(x, index))
  {
    hide Light, FrozenOk, TablesOk, MarksAscend, Represents, NoClash, Promises, ListSet, FrozenSet, TableSet;
    MarkMoves(x.active, x.frozen, x.tables, x.flushed, index, x.nextFile, x.history);
  }

  lemma FreezeSnapshot(x: Snapshot, m: Immutable)
    requires SnapshotOk(x) && ActiveOk(x.active, m.maxSeq) && m.list == x.active != []
    requires m.maxSeq <= m.watermark && x.flushed <= m.watermark
    requires forall f :: f in x.frozen ==> f.watermark <= m.watermark
    ensures var y := x.(active := [], frozen := x.frozen + [m]); SnapshotOk(y) && (Promised(x) ==> Promised(y))
  {
    hide Light, FrozenOk, TablesOk, MarksAscend, Represents, NoClash, Promises, ListSet, FrozenSet, TableSet, ActiveOk;
    FrozenState(x.active, x.frozen, x.tables, x.flushed, m, x.history);
  }

  lemma WriteSnapshot(x: Snapshot, maxSeq: nat, v: Version)
    requires SnapshotOk(x) && ActiveOk(x.active, maxSeq) && NoClash(x.history + {v})
    ensures var y := x.(active := Insert(x.active, v), history := x.history + {v});
      SnapshotOk(y) && (Promised(x) && Fresh(v, x.history, x.flushed, x.frozen) ==> Promised(y))
    ensures ActiveOk(Insert(x.active, v), Max(maxSeq, v.seq_))
    ensures var prior := Find(x.active, v.key); prior.Some? && v.seq_ <= prior.value.seq_ ==>
      Insert(x.active, v) == x.active
  {
    hide Light, FrozenOk, TablesOk, MarksAscend, Represents, NoClash, Promises, ListSet, FrozenSet, TableSet, ActiveOk,
      Fresh, Insert, Find;
    WrittenState(x.active, maxSeq, x.frozen, x.tables, x.flushed, v, x.history);
  }

  /** Burning a file number changes nothing else. */
  lemma NumberSnapshot(x: Snapshot)
    requires SnapshotOk(x) && x.nextFile < MAX_UINT64
    ensures var y := x.(nextFile := x.nextFile + 1); SnapshotOk(y) && (Promised(x) ==> Promised(y))
  {
    hide Light, FrozenOk, TablesOk, MarksAscend, Represents, NoClash, Promises;
    RoomierTables(x.tables, x.flushed, x.nextFile);
  }
}
