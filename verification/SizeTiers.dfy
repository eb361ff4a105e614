/**
 Size-tiered compaction by counting. A table of tier t weighs 4^t; four tables of one tier
 weigh as much as one table of the next, so compaction conserves the total weight, and when
 it is finished the tier counts are the base-4 digits of that weight.
 */
module SizeTiers {
  import opened RaftTypes
  import opened LsmTypes

  /** A published table: its file number, its persisted tier, and its records. */
  datatype Table = Table(number: nat, tier: nat, content: seq<Version>)

  const BASE_BYTES: int := 4096

  function Pow4(n: nat): (p: nat)
    ensures p > 0
  {
    if n == 0 then 1 else 4 * Pow4(n - 1)
  }

  /** The half-open size class of a freshly flushed table; no intermediate value leaves int64. */
  method TableSizeClass(size: int) returns (class_: nat)
    requires size <= MAX_INT64
    ensures class_ == 0 <==> size < BASE_BYTES
    ensures class_ > 0 ==> BASE_BYTES * Pow4(class_ - 1) <= size < BASE_BYTES * Pow4(class_)
    ensures class_ <= MAX_CLASS
  {
    if size < BASE_BYTES { return 0; }
    class_ := 1;
    var boundary := BASE_BYTES * 4;
    while size >= boundary
      invariant class_ > 0 && boundary == BASE_BYTES * Pow4(class_) <= MAX_INT64
      invariant BASE_BYTES * Pow4(class_ - 1) <= size
      decreases size - boundary
    {
      class_ := class_ + 1;
      if boundary > MAX_INT64 / 4 {
        assert BASE_BYTES * Pow4(class_) == 4 * boundary;
        ClassBound(class_, size);
        return;
      }
      boundary := boundary * 4;
    }
    ClassBound(class_, size);
  }

  const MAX_CLASS: nat := 26

  /** What a table of the highest class weighs, 4^26. */
  const UNIT: nat := 0x10_0000_0000_0000

  lemma FourTimes(x: nat, y: nat)
    ensures 4 * (x * y) == x * (4 * y)
  {}

  lemma {:induction false} PowAdd(a: nat, b: nat)
    ensures Pow4(a + b) == Pow4(a) * Pow4(b)
    decreases b
  {
    if b > 0 {
      PowAdd(a, b - 1);
      FourTimes(Pow4(a), Pow4(b - 1));
    }
  }

  lemma {:induction false} PowGrows(a: nat, b: nat)
    requires a <= b
    ensures Pow4(a) <= Pow4(b)
    decreases b
  {
    if a < b { PowGrows(a, b - 1); }
  }

  lemma Powers()
    ensures Pow4(26) == UNIT && Pow4(32) == MAX_UINT64 + 1
  {
    assert Pow4(4) == 256;
    PowAdd(4, 4);
    PowAdd(8, 8);
    PowAdd(16, 16);
    assert Pow4(16) == 0x1_0000_0000;
    PowAdd(16, 8);
    assert Pow4(2) == 16;
    PowAdd(24, 2);
  }

  /** A 64-bit size is below the class after the last one. */
  lemma ClassBound(class_: nat, size: int)
    requires class_ > 0 && BASE_BYTES * Pow4(class_ - 1) <= size <= MAX_INT64
    ensures class_ <= MAX_CLASS
  {
    Powers();
    if class_ > MAX_CLASS { PowGrows(26, class_ - 1); }
  }

  // ----- Weights -----

  function Weight(tables: seq<Table>): nat {
    if tables == [] then 0 else Weight(tables[..|tables| - 1]) + Pow4(tables[|tables| - 1].tier)
  }

  function OfTier(tables: seq<Table>, tier: nat): (r: seq<Table>)
    ensures forall t :: t in r ==> t in tables && t.tier == tier
    ensures |r| <= |tables|
  {
    if tables == [] then []
    else
      var r, last := OfTier(tables[..|tables| - 1], tier), tables[|tables| - 1];
      if last.tier == tier then r + [last] else r
  }

  function Count(tables: seq<Table>, tier: nat): nat { |OfTier(tables, tier)| }

  /** Every tier holds fewer tables than a compaction takes. */
  ghost predicate Settled(tables: seq<Table>) { forall t: nat :: Count(tables, t) <= 3 }

  function Digit(n: nat, t: nat): nat { if t == 0 then n % 4 else Digit(n / 4, t - 1) }

  function DigitSum(n: nat): nat { if n == 0 then 0 else n % 4 + DigitSum(n / 4) }

  function Log4(n: nat): nat { if n < 4 then 0 else 1 + Log4(n / 4) }

  /** The tables above tier zero, moved one tier down. */
  function Lowered(tables: seq<Table>): (r: seq<Table>)
    ensures |r| <= |tables|
  {
    if tables == [] then []
    else
      var r, last := Lowered(tables[..|tables| - 1]), tables[|tables| - 1];
      if last.tier == 0 then r else r + [last.(tier := last.tier - 1)]
  }

  lemma {:induction false} LoweredIs(tables: seq<Table>, t: nat)
    ensures Weight(tables) == Count(tables, 0) + 4 * Weight(Lowered(tables))
    ensures Count(Lowered(tables), t) == Count(tables, t + 1)
    ensures |tables| == Count(tables, 0) + |Lowered(tables)|
    decreases |tables|
  {
    if tables != [] {
      var front, last := tables[..|tables| - 1], tables[|tables| - 1];
      LoweredIs(front, t);
      var r := Lowered(front);
      if last.tier > 0 {
        var low := last.(tier := last.tier - 1);
        assert (r + [low])[..|r|] == r;
      }
    }
  }

  ghost predicate TiersBelow(tables: seq<Table>, m: nat) { forall i :: 0 <= i < |tables| ==> tables[i].tier < m }

  lemma {:induction false} LoweredBelow(tables: seq<Table>, m: nat)
    requires TiersBelow(tables, m)
    ensures TiersBelow(Lowered(tables), if m == 0 then 0 else m - 1)
    decreases |tables|
  {
    if tables != [] {
      LoweredBelow(tables[..|tables| - 1], m);
    }
  }

  /** When every tier holds at most three tables, the counts are the base-4 digits of the weight. */
  lemma {:induction false} CountsAreDigits(tables: seq<Table>, m: nat, t: nat)
    requires TiersBelow(tables, m) && Settled(tables)
    ensures Count(tables, t) == Digit(Weight(tables), t)
    ensures |tables| == DigitSum(Weight(tables))
    decreases m
  {
    if m == 0 {
      NoTierBelowZero(tables);
      ZeroDigit(t);
    } else {
      var low, k := Lowered(tables), if t == 0 then 0 else t - 1;
      LoweredBelow(tables, m);
      LoweredSettled(tables);
      LoweredIs(tables, k);
      hide Weight, Count, Lowered, TiersBelow;
      CountsAreDigits(low, m - 1, k);
      assert Count(tables, 0) <= 3;
      LowDigit(Weight(tables), Count(tables, 0), Weight(low));
    }
  }

  lemma NoTierBelowZero(tables: seq<Table>)
    ensures tables != [] ==> !TiersBelow(tables, 0)
  {
    if tables != [] { assert !(tables[0].tier < 0); }
  }

  lemma LoweredSettled(tables: seq<Table>)
    requires Settled(tables)
    ensures Settled(Lowered(tables))
  {
    forall k: nat ensures Count(Lowered(tables), k) <= 3 { LoweredIs(tables, k); }
  }

  lemma LowDigit(w: nat, d: nat, rest: nat)
    requires w == d + 4 * rest && d <= 3
    ensures w % 4 == d && w / 4 == rest && DigitSum(w) == d + DigitSum(rest)
  {}

  lemma {:induction false} ZeroDigit(t: nat)
    ensures Digit(0, t) == 0
  {
    if t > 0 { ZeroDigit(t - 1); }
  }

  lemma {:induction false} DigitSumBound(n: nat)
    ensures DigitSum(n) <= 3 * (1 + Log4(n))
  {
    if n >= 4 { DigitSumBound(n / 4); }
  }

  lemma {:induction false} SomeBound(tables: seq<Table>) returns (m: nat)
    ensures TiersBelow(tables, m)
    decreases |tables|
  {
    if tables == [] { m := 0; } else {
      var last := tables[|tables| - 1];
      m := SomeBound(tables[..|tables| - 1]);
      if last.tier >= m { m := last.tier + 1; }
    }
  }

  /** A settled set of tables is small: at most three per base-4 digit of its weight. */
  lemma SettledIsSmall(tables: seq<Table>)
    requires Settled(tables)
    ensures |tables| <= 3 * (1 + Log4(Weight(tables)))
    ensures forall t: nat :: Count(tables, t) == Digit(Weight(tables), t)
  {
    var m := SomeBound(tables);
    forall t: nat ensures Count(tables, t) == Digit(Weight(tables), t) { CountsAreDigits(tables, m, t); }
    CountsAreDigits(tables, m, 0);
    DigitSumBound(Weight(tables));
  }

  // ----- File names -----

  const NAME_WIDTH: nat := 6
  const SUFFIX: seq<Byte> := [46, 115, 115, 116]

  function Digits(n: nat): seq<Byte> { if n < 10 then [48 + n] else Digits(n / 10) + [48 + n % 10] }

  function Padded(digits: seq<Byte>): seq<Byte>
    decreases NAME_WIDTH - |digits|
  {
    if |digits| >= NAME_WIDTH then digits else Padded([48] + digits)
  }

  /** Zero-padded to six digits; longer numbers are longer names. */
  function FileName(n: nat): seq<Byte> { Padded(Digits(n)) + SUFFIX }

  predicate NameLess(a: Table, b: Table) { KeyLess(FileName(a.number), FileName(b.number)) }

  /** Names sort as bytes, so from the first seven-digit number on they do not sort by number. */
  lemma NamesAreNotNumbers(a: Table, b: Table)
    requires a.number == 1000000 && b.number == 999999
    ensures NameLess(a, b) && a.number > b.number
  {
    SevenDigits();
    SixDigits();
    assert FileName(a.number)[0] == 49 && FileName(b.number)[0] == 57;
  }

  lemma SevenDigits()
    ensures Digits(1000000) == [49, 48, 48, 48, 48, 48, 48]
  {
    assert Digits(100) == [49, 48, 48] && Digits(10000) == Digits(100) + [48, 48];
    assert Digits(1000000) == Digits(10000) + [48, 48];
  }

  lemma SixDigits()
    ensures Digits(999999) == [57, 57, 57, 57, 57, 57]
  {
    assert Digits(99) == [57, 57] && Digits(9999) == Digits(99) + [57, 57];
    assert Digits(999999) == Digits(9999) + [57, 57];
  }

  ghost predicate SortedByName(tables: seq<Table>) {
    forall i, j :: 0 <= i < j < |tables| ==> !NameLess(tables[j], tables[i])
  }

  function InsertByName(tables: seq<Table>, t: Table): (r: seq<Table>)
    ensures multiset(r) == multiset(tables) + multiset{t}
  {
    if tables == [] || NameLess(t, tables[0]) then [t] + tables
    else
      assert tables == [tables[0]] + tables[1..];
      [tables[0]] + InsertByName(tables[1..], t)
  }

  function SortByName(tables: seq<Table>): (r: seq<Table>)
    ensures multiset(r) == multiset(tables)
  {
    if tables == [] then []
    else
      assert tables == tables[..|tables| - 1] + [tables[|tables| - 1]];
      InsertByName(SortByName(tables[..|tables| - 1]), tables[|tables| - 1])
  }

  lemma NotLessTransitive(a: Table, b: Table, c: Table)
    requires !NameLess(b, a) && !NameLess(c, b)
    ensures !NameLess(c, a)
  {
    hide KeyLess, FileName;
    var x, y, z := FileName(a.number), FileName(b.number), FileName(c.number);
    KeyTotal(x, y);
    KeyTotal(y, z);
    KeyTotal(x, z);
    if KeyLess(x, y) && KeyLess(y, z) { KeyTransitive(x, y, z); }
  }

  lemma {:induction false} InsertSorts(tables: seq<Table>, t: Table)
    requires SortedByName(tables)
    ensures SortedByName(InsertByName(tables, t))
    decreases |tables|
  {
    hide KeyLess, FileName;
    if tables != [] {
      KeyTotal(FileName(t.number), FileName(tables[0].number));
      if NameLess(t, tables[0]) {
        forall j | 0 <= j < |tables| ensures !NameLess(tables[j], t) {
          if j > 0 { NotLessTransitive(t, tables[0], tables[j]); }
        }
      } else {
        InsertSorts(tables[1..], t);
        var rest := InsertByName(tables[1..], t);
        forall j | 0 <= j < |rest| ensures !NameLess(rest[j], tables[0]) {
          assert rest[j] in multiset(rest);
          if rest[j] != t { assert rest[j] in tables[1..]; }
        }
      }
    }
  }

  lemma {:induction false} SortSorts(tables: seq<Table>)
    ensures SortedByName(SortByName(tables))
    decreases |tables|
  {
    if tables != [] {
      SortSorts(tables[..|tables| - 1]);
      InsertSorts(SortByName(tables[..|tables| - 1]), tables[|tables| - 1]);
    }
  }

  /** Sorting keeps the same tables. */
  lemma SortKeeps(tables: seq<Table>)
    ensures |SortByName(tables)| == |tables| && forall t :: t in SortByName(tables) <==> t in tables
  {
    var r := SortByName(tables);
    assert |multiset(r)| == |multiset(tables)|;
    forall t ensures t in r <==> t in tables { assert t in multiset(r) <==> t in multiset(tables); }
  }

  // ----- Choosing and replacing compaction inputs -----

  ghost predicate NumbersDiffer(tables: seq<Table>) {
    forall i, j :: 0 <= i < j < |tables| ==> tables[i].number != tables[j].number
  }

  ghost function Numbers(tables: seq<Table>): set<nat> { set t | t in tables :: t.number }

  /** Four different tables of one tier. */
  ghost predicate FourOf(tables: seq<Table>, tier: nat, inputs: seq<Table>) {
    |inputs| == 4 && NumbersDiffer(inputs) && forall t :: t in inputs ==> t in tables && t.tier == tier
  }

  function Without(tables: seq<Table>, gone: set<nat>): (r: seq<Table>)
    ensures forall t :: t in r <==> t in tables && t.number !in gone
  {
    if tables == [] then []
    else
      var r, last := Without(tables[..|tables| - 1], gone), tables[|tables| - 1];
      if last.number in gone then r else r + [last]
  }

  function Within(tables: seq<Table>, chosen: set<nat>): (r: seq<Table>)
    ensures forall t :: t in r <==> t in tables && t.number in chosen
  {
    if tables == [] then []
    else
      var r, last := Within(tables[..|tables| - 1], chosen), tables[|tables| - 1];
      if last.number in chosen then r + [last] else r
  }

  lemma {:induction false} WeightSplits(tables: seq<Table>, s: set<nat>)
    ensures Weight(Without(tables, s)) + Weight(Within(tables, s)) == Weight(tables)
    ensures |Without(tables, s)| + |Within(tables, s)| == |tables|
    decreases |tables|
  {
    if tables != [] {
      var front, last := tables[..|tables| - 1], tables[|tables| - 1];
      WeightSplits(front, s);
      if last.number in s { WeightMore(Within(front, s), last); } else { WeightMore(Without(front, s), last); }
    }
  }

  lemma WeightMore(tables: seq<Table>, t: Table)
    ensures Weight(tables + [t]) == Weight(tables) + Pow4(t.tier)
  {
    assert (tables + [t])[..|tables|] == tables;
  }

  lemma {:induction false} SameTierWeight(tables: seq<Table>, tier: nat)
    requires forall t :: t in tables ==> t.tier == tier
    ensures Weight(tables) == |tables| * Pow4(tier)
    decreases |tables|
  {
    if tables != [] {
      var front, last := tables[..|tables| - 1], tables[|tables| - 1];
      SameTierWeight(front, tier);
      assert last in tables;
    }
  }

  lemma FourWeigh(tables: seq<Table>, tier: nat)
    requires |tables| == 4 && forall t :: t in tables ==> t.tier == tier
    ensures Weight(tables) == Pow4(tier + 1)
  {
    SameTierWeight(tables, tier);
  }

  lemma {:induction false} InsertWeighs(tables: seq<Table>, t: Table)
    ensures Weight(InsertByName(tables, t)) == Weight(tables) + Pow4(t.tier)
    decreases |tables|
  {
    hide NameLess, Weight;
    WeightOne(t);
    if tables == [] || NameLess(t, tables[0]) {
      WeightConcat([t], tables);
    } else {
      InsertWeighs(tables[1..], t);
      WeightConcat([tables[0]], tables[1..]);
      WeightConcat([tables[0]], InsertByName(tables[1..], t));
      assert tables == [tables[0]] + tables[1..];
    }
  }

  lemma WeightOne(t: Table)
    ensures Weight([t]) == Pow4(t.tier)
  {
    assert [t][..0] == [];
  }

  lemma {:induction false} SortWeighs(tables: seq<Table>)
    ensures Weight(SortByName(tables)) == Weight(tables)
    decreases |tables|
  {
    if tables != [] {
      SortWeighs(tables[..|tables| - 1]);
      InsertWeighs(SortByName(tables[..|tables| - 1]), tables[|tables| - 1]);
    }
  }

  lemma {:induction false} WeightConcat(a: seq<Table>, b: seq<Table>)
    ensures Weight(a + b) == Weight(a) + Weight(b)
    decreases |b|
  {
    if b == [] {
      assert a + b == a;
    } else {
      assert (a + b)[..|a + b| - 1] == a + b[..|b| - 1];
      WeightConcat(a, b[..|b| - 1]);
    }
  }

  // ----- Tiers never run out -----

  ghost predicate UpTo(tables: seq<Table>, n: nat) { forall t :: t in tables ==> t.number <= n }

  /** The tables weigh no more than one of the highest class for every file number used. */
  ghost predicate Light(tables: seq<Table>) { forall n: nat :: UpTo(tables, n) ==> Weight(tables) <= n * UNIT }

  /** A flushed table takes a new number and adds at most one unit. */
  lemma LightFlush(tables: seq<Table>, t: Table)
    requires Light(tables) && t.tier <= MAX_CLASS && t.number > 0 && forall u :: u in tables ==> u.number < t.number
    ensures Light(tables + [t])
  {
    hide Weight, Pow4;
    WeightMore(tables, t);
    PowGrows(t.tier, MAX_CLASS);
    Powers();
    assert UpTo(tables, t.number - 1);
    forall n: nat | UpTo(tables + [t], n) ensures Weight(tables + [t]) <= n * UNIT {
      assert t in tables + [t];
    }
  }

  /** Other tables of the same weight, whose numbers reach at least as high. */
  lemma LightCarry(tables: seq<Table>, next: seq<Table>)
    requires Light(tables) && Weight(next) == Weight(tables)
    requires forall t :: t in tables ==> exists u :: u in next && t.number <= u.number
    ensures Light(next)
  {
    hide Weight;
    forall n: nat | UpTo(next, n) ensures Weight(next) <= n * UNIT { assert UpTo(tables, n); }
  }

  lemma {:induction false} WeighsAtLeast(tables: seq<Table>, t: Table)
    requires t in tables
    ensures Pow4(t.tier) <= Weight(tables)
    decreases |tables|
  {
    var front, last := tables[..|tables| - 1], tables[|tables| - 1];
    if t != last { WeighsAtLeast(front, t); }
  }

  /** With 64-bit file numbers no tier ever reaches 58, let alone the last 32-bit one. */
  lemma TierFits(tables: seq<Table>, t: Table, n: nat)
    requires Light(tables) && t in tables && UpTo(tables, n) && n <= MAX_UINT64
    ensures t.tier < 58
  {
    hide Weight, Pow4;
    WeighsAtLeast(tables, t);
    Powers();
    PowAdd(32, 26);
    if t.tier >= 58 { PowGrows(58, t.tier); }
  }

  /** Lists of the same tables weigh the same. */
  lemma {:induction false} SameWeight(a: seq<Table>, b: seq<Table>)
    requires NumbersDiffer(a) && NumbersDiffer(b) && forall t :: t in a <==> t in b
    ensures Weight(a) == Weight(b) && |a| == |b|
    decreases |a|
  {
    hide Weight;
    assert Numbers(a) == Numbers(b);
    DifferentNumbers(a);
    DifferentNumbers(b);
    if a == [] {
      assert b == a;
    } else {
      var front, t := a[..|a| - 1], a[|a| - 1];
      assert t in a;
      var i :| 0 <= i < |b| && b[i] == t;
      var rest := b[..i] + b[i + 1..];
      Removed(b, i);
      assert a == front + [t];
      forall u ensures u in front <==> u in rest {
        if u in front { assert u in a; }
        if u in rest { assert u in b; }
      }
      SameWeight(front, rest);
      WeightMore(front, t);
    }
  }

  /** Taking one table out of a list. */
  lemma Removed(b: seq<Table>, i: nat)
    requires i < |b| && NumbersDiffer(b)
    ensures var rest := b[..i] + b[i + 1..];
      && NumbersDiffer(rest) && Weight(b) == Weight(rest) + Pow4(b[i].tier)
      && forall u :: u in rest <==> u in b && u != b[i]
  {
    hide Weight;
    var rest := b[..i] + b[i + 1..];
    assert b == b[..i] + ([b[i]] + b[i + 1..]);
    WeightConcat(b[..i], [b[i]] + b[i + 1..]);
    WeightConcat([b[i]], b[i + 1..]);
    WeightConcat(b[..i], b[i + 1..]);
    WeightOne(b[i]);
    forall u | u in b && u != b[i] ensures u in rest {
      var k :| 0 <= k < |b| && b[k] == u;
      if k < i { assert rest[k] == u; } else { assert rest[k - 1] == u; }
    }
    forall u | u in rest ensures u in b && u != b[i] {
      var k :| 0 <= k < |rest| && rest[k] == u;
      if k < i { assert b[k] == u; } else { assert b[k + 1] == u; }
    }
  }

  lemma NumbersSplit(front: seq<Table>, last: Table)
    ensures Numbers(front + [last]) == Numbers(front) + {last.number}
  {}

  lemma {:induction false} DifferentNumbers(tables: seq<Table>)
    requires NumbersDiffer(tables)
    ensures |Numbers(tables)| == |tables|
    decreases |tables|
  {
    if tables == [] {
      assert Numbers(tables) == {};
    } else {
      var front, last := tables[..|tables| - 1], tables[|tables| - 1];
      DifferentNumbers(front);
      assert tables == front + [last];
      NumbersSplit(front, last);
      assert last.number !in Numbers(front);
    }
  }

  lemma {:induction false} NumbersBound(tables: seq<Table>)
    ensures |Numbers(tables)| <= |tables|
    decreases |tables|
  {
    if tables == [] {
      assert Numbers(tables) == {};
    } else {
      var front, last := tables[..|tables| - 1], tables[|tables| - 1];
      assert tables == front + [last];
      NumbersBound(front);
      NumbersSplit(front, last);
    }
  }

  lemma {:induction false} CountedNumbers(tables: seq<Table>)
    requires |Numbers(tables)| == |tables|
    ensures NumbersDiffer(tables)
    decreases |tables|
  {
    if tables != [] {
      var front, last := tables[..|tables| - 1], tables[|tables| - 1];
      assert tables == front + [last];
      NumbersBound(front);
      NumbersSplit(front, last);
      assert last.number in Numbers(front) ==> Numbers(tables) == Numbers(front);
      CountedNumbers(front);
      forall i | 0 <= i < |front| ensures tables[i].number != last.number {
        assert tables[i] in front && tables[i].number in Numbers(front);
      }
    }
  }

  lemma SortDiffers(tables: seq<Table>)
    requires NumbersDiffer(tables)
    ensures NumbersDiffer(SortByName(tables))
  {
    hide SortByName;
    SortKeeps(tables);
    assert Numbers(SortByName(tables)) == Numbers(tables);
    DifferentNumbers(tables);
    CountedNumbers(SortByName(tables));
  }

  lemma {:induction false} WithinDiffers(tables: seq<Table>, s: set<nat>)
    requires NumbersDiffer(tables)
    ensures NumbersDiffer(Within(tables, s)) && NumbersDiffer(Without(tables, s))
    decreases |tables|
  {
    if tables != [] {
      WithinDiffers(tables[..|tables| - 1], s);
      AppendDiffers(tables, Within(tables[..|tables| - 1], s));
      AppendDiffers(tables, Without(tables[..|tables| - 1], s));
    }
  }

  lemma AppendDiffers(tables: seq<Table>, r: seq<Table>)
    requires tables != [] && NumbersDiffer(tables) && NumbersDiffer(r)
    requires forall t :: t in r ==> t in tables[..|tables| - 1]
    ensures NumbersDiffer(r + [tables[|tables| - 1]])
  {
    forall i | 0 <= i < |r| ensures r[i].number != tables[|tables| - 1].number { assert r[i] in r; }
  }

  lemma {:induction false} OfTierDiffers(tables: seq<Table>, tier: nat)
    requires NumbersDiffer(tables)
    ensures NumbersDiffer(OfTier(tables, tier))
    decreases |tables|
  {
    if tables != [] {
      OfTierDiffers(tables[..|tables| - 1], tier);
      AppendDiffers(tables, OfTier(tables[..|tables| - 1], tier));
    }
  }

  /** The chosen tables are exactly the four inputs. */
  lemma FourChosen(tables: seq<Table>, tier: nat, inputs: seq<Table>)
    requires NumbersDiffer(tables) && FourOf(tables, tier, inputs)
    ensures var chosen := Within(tables, Numbers(inputs));
      |chosen| == 4 && (forall t :: t in chosen <==> t in inputs) && forall t :: t in chosen ==> t.tier == tier
  {
    hide Within;
    var s := Numbers(inputs);
    DifferentNumbers(inputs);
    var chosen := Within(tables, s);
    ChosenAreInputs(tables, inputs);
    WithinDiffers(tables, s);
    DifferentNumbers(chosen);
    assert Numbers(chosen) == s;
  }

  /** Four tables of one tier weigh one table of the next, so replacing them conserves weight. */
  lemma CompactionConserves(tables: seq<Table>, tier: nat, inputs: seq<Table>, output: Table)
    requires NumbersDiffer(tables) && FourOf(tables, tier, inputs) && output.tier == tier + 1
    ensures var next := Without(tables, Numbers(inputs)) + [output];
      Weight(next) == Weight(tables) && |next| == |tables| - 3
  {
    FourChosen(tables, tier, inputs);
    var s := Numbers(inputs);
    var chosen := Within(tables, s);
    hide Within, Without, Weight, Numbers, NumbersDiffer;
    FourWeigh(chosen, tier);
    WeightSplits(tables, s);
    WeightMore(Without(tables, s), output);
  }

  lemma ChosenAreInputs(tables: seq<Table>, inputs: seq<Table>)
    requires NumbersDiffer(tables) && forall t :: t in inputs ==> t in tables
    ensures forall t :: t in Within(tables, Numbers(inputs)) <==> t in inputs
  {
    forall t | t in Within(tables, Numbers(inputs)) ensures t in inputs {
      var u :| u in inputs && u.number == t.number;
      var i :| 0 <= i < |tables| && tables[i] == t;
      var j :| 0 <= j < |tables| && tables[j] == u;
      assert i == j;
    }
  }

  ghost predicate Grouped(tables: seq<Table>, byTier: map<nat, seq<Table>>) {
    forall t: nat :: OfTier(tables, t) == if t in byTier then byTier[t] else []
  }

  lemma GroupedMore(tables: seq<Table>, i: nat, byTier: map<nat, seq<Table>>)
    requires i < |tables| && Grouped(tables[..i], byTier)
    ensures var t := tables[i];
      Grouped(tables[..i + 1], byTier[t.tier := (if t.tier in byTier then byTier[t.tier] else []) + [t]])
  {
    assert tables[..i + 1][..i] == tables[..i];
  }

  method GroupByTier(tables: seq<Table>) returns (byTier: map<nat, seq<Table>>)
    ensures Grouped(tables, byTier)
  {
    byTier := map[];
    for i := 0 to |tables|
      invariant Grouped(tables[..i], byTier)
    {
      hide Grouped;
      GroupedMore(tables, i, byTier);
      var t := tables[i];
      byTier := byTier[t.tier := (if t.tier in byTier then byTier[t.tier] else []) + [t]];
    }
    assert tables[..|tables|] == tables;
  }

  lemma FullTierHasTable(tables: seq<Table>, tier: nat) returns (k: nat)
    requires Count(tables, tier) > 0
    ensures k < |tables| && tables[k].tier == tier
  {
    var first := OfTier(tables, tier)[0];
    assert first in OfTier(tables, tier);
    k :| 0 <= k < |tables| && tables[k] == first;
  }

  /** The lowest tier with four tables, and the four of them whose names sort first. */
  method SelectInputs(tables: seq<Table>) returns (found: bool, tier: nat, inputs: seq<Table>)
    requires NumbersDiffer(tables)
    ensures found <==> !Settled(tables)
    ensures found ==> Count(tables, tier) >= 4 && forall t: nat :: t < tier ==> Count(tables, t) < 4
    ensures found ==> FourOf(tables, tier, inputs) && FirstByName(tables, tier, inputs)
  {
    var byTier := GroupByTier(tables);
    hide OfTier;
    found, tier, inputs := false, 0, [];
    for i := 0 to |tables|
      invariant found ==> tier in byTier && |byTier[tier]| >= 4
      invariant forall k :: 0 <= k < i && Count(tables, tables[k].tier) >= 4 ==> found && tier <= tables[k].tier
    {
      var t := tables[i].tier;
      assert Count(tables, t) == if t in byTier then |byTier[t]| else 0;
      if t in byTier && |byTier[t]| >= 4 && (!found || t < tier) {
        found, tier := true, t;
      }
    }
    forall t: nat | Count(tables, t) >= 4 ensures found && tier <= t { var k := FullTierHasTable(tables, t); }
    if found {
      assert OfTier(tables, tier) == byTier[tier];
      FirstFour(tables, tier);
      SortKeeps(byTier[tier]);
      inputs := SortByName(byTier[tier])[..4];
    }
  }

  /** In name order, and no table of the tier left behind sorts before one taken. */
  ghost predicate FirstByName(tables: seq<Table>, tier: nat, inputs: seq<Table>) {
    && SortedByName(inputs)
    && forall t, u :: t in OfTier(tables, tier) && t !in inputs && u in inputs ==> !NameLess(t, u)
  }

  lemma FirstFour(tables: seq<Table>, tier: nat)
    requires NumbersDiffer(tables) && Count(tables, tier) >= 4
    ensures var sorted := SortByName(OfTier(tables, tier));
      |sorted| >= 4 && FourOf(tables, tier, sorted[..4]) && FirstByName(tables, tier, sorted[..4])
  {
    hide OfTier, NameLess, SortByName;
    var all := OfTier(tables, tier);
    var sorted := SortByName(all);
    OfTierDiffers(tables, tier);
    SortSorts(all);
    SortKeeps(all);
    SortDiffers(all);
    var inputs := sorted[..4];
    assert forall i :: 0 <= i < 4 ==> inputs[i] == sorted[i] && sorted[i] in sorted && sorted[i] in inputs;
    forall t, u | t in all && t !in inputs && u in inputs ensures !NameLess(t, u) {
      assert t in sorted;
      var j :| 0 <= j < |sorted| && sorted[j] == t;
      var i :| 0 <= i < 4 && inputs[i] == u;
    }
  }
}
