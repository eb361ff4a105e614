/** Keys, versioned records and their order. */
module LsmTypes {
  import opened RaftTypes

  type Key = seq<Byte>

  /** One version of a key; no value is a tombstone. */
  datatype Version = Version(key: Key, seq_: nat, value: Option<seq<Byte>>)

  /** Byte-wise lexicographic order. */
  predicate KeyLess(a: Key, b: Key) {
    b != [] && (a == [] || a[0] < b[0] || (a[0] == b[0] && KeyLess(a[1..], b[1..])))
  }

  lemma {:induction false} KeyTotal(a: Key, b: Key)
    ensures KeyLess(a, b) || a == b || KeyLess(b, a)
    ensures !(KeyLess(a, b) && KeyLess(b, a)) && !KeyLess(a, a)
    decreases |a|
  {
    if a != [] {
      KeyIrreflexive(a);
      if b != [] {
        KeyTotal(a[1..], b[1..]);
        assert a == [a[0]] + a[1..] && b == [b[0]] + b[1..];
      }
    }
  }

  lemma {:induction false} KeyIrreflexive(a: Key)
    ensures !KeyLess(a, a)
  {
    if a != [] { KeyIrreflexive(a[1..]); }
  }

  lemma {:induction false} KeyTransitive(a: Key, b: Key, c: Key)
    requires KeyLess(a, b) && KeyLess(b, c)
    ensures KeyLess(a, c)
    decreases |a|
  {
    if a != [] && a[0] == b[0] && b[0] == c[0] { KeyTransitive(a[1..], b[1..], c[1..]); }
  }

  /** Table order: ascending key, then newest version first. */
  predicate Before(a: Version, b: Version) {
    KeyLess(a.key, b.key) || (a.key == b.key && a.seq_ > b.seq_)
  }

  lemma BeforeTransitive(a: Version, b: Version, c: Version)
    requires Before(a, b) && Before(b, c)
    ensures Before(a, c)
  {
    hide KeyLess;
    if KeyLess(a.key, b.key) && KeyLess(b.key, c.key) { KeyTransitive(a.key, b.key, c.key); }
  }

  predicate SortedTable(t: seq<Version>) {
    forall i, j :: 0 <= i < j < |t| ==> Before(t[i], t[j])
  }

  /** Strictly ascending keys: one version per key. */
  predicate Ascends(t: seq<Version>) {
    forall i, j :: 0 <= i < j < |t| ==> KeyLess(t[i].key, t[j].key)
  }

  /** Two records claim the same sequence number for one key with different contents. */
  predicate Conflicts(a: Version, b: Version) { a.key == b.key && a.seq_ == b.seq_ && a.value != b.value }

  /** v is the newest version of its key in s. */
  ghost predicate Newest(s: set<Version>, v: Version) {
    v in s && forall w :: w in s && w.key == v.key ==> w.seq_ <= v.seq_
  }
}
