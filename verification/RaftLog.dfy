/** The in-memory log owned by the node, updated in place, with the snapshot base fixed at (0, 0). */
module RaftLog {
  import opened RaftTypes
  import opened RaftSpec
  import Storage

  class Log {
    var entries: seq<Entry>

    constructor (initial: seq<Entry>)
      ensures entries == initial
    {
      entries := [];
      new;
      for i := 0 to |initial|
        invariant entries == initial[..i]
      {
        entries := entries + [initial[i]];
      }
    }

    function LastIndex(): (n: nat)
      reads this
      ensures Contiguous(entries) ==> n == |entries|
    {
      if |entries| == 0 then 0 else entries[|entries| - 1].index
    }

    /** The stored entry with this index, found by its offset from the first one. */
    function EntryAt(index: nat): (r: Option<Entry>)
      reads this
      ensures Contiguous(entries) ==> r == if 1 <= index <= |entries| then Some(entries[index - 1]) else None
    {
      if |entries| == 0 || index < entries[0].index then None
      else
        var offset := index - entries[0].index;
        if offset >= |entries| || entries[offset].index != index then None else Some(entries[offset])
    }

    function Term(index: nat): (r: Option<nat>)
      reads this
      ensures Contiguous(entries) ==> r == TermAt(entries, index)
    {
      if index == 0 then Some(0)
      else match EntryAt(index)
           case None => None
           case Some(e) => Some(e.term)
    }

    function LastLogTerm(): (t: nat)
      reads this
      ensures Contiguous(entries) ==> t == LastTerm(entries)
    {
      match Term(LastIndex())
      case None => 0
      case Some(t) => t
    }

    predicate Matches(index: nat, term: nat)
      reads this
    {
      Term(index) == Some(term)
    }

    method RangeEntries(lo: nat, hi: nat) returns (r: seq<Entry>)
      requires Contiguous(entries)
      ensures r == Range(entries, lo, hi)
    {
      r := [];
      if lo >= hi { return; }
      var index := lo;
      while index < hi
        invariant lo <= index <= hi
        invariant r == Range(entries, lo, index)
        invariant index > lo ==> 1 <= lo && index - 1 <= |entries|
      {
        var entry := EntryAt(index);
        if entry == None { break; }
        r := r + [entry.value];
        index := index + 1;
      }
    }

    method AppendLocal(term: nat, typ: EntryType, data: seq<Byte>) returns (index: nat)
      requires Contiguous(entries)
      modifies this
      ensures index == |old(entries)| + 1
      ensures entries == old(entries) + [Entry(index, term, typ, data)] && Contiguous(entries)
    {
      index := LastIndex() + 1;
      entries := entries + [Entry(index, term, typ, data)];
    }

    method TruncateFrom(index: nat)
      modifies this
      ensures entries == Storage.TruncateFrom(old(entries), index)
    {
      var cut := |entries|;
      for i := 0 to |entries|
        invariant cut == |entries| && entries == old(entries)
        invariant forall k :: 0 <= k < i ==> entries[k].index < index
      {
        if entries[i].index >= index {
          cut := i;
          break;
        }
      }
      assert cut == Storage.Cut(entries, index);
      entries := entries[..cut];
    }

    /** Keeps matching entries; the first different term replaces the local suffix. */
    method AppendFromLeader(incoming: seq<Entry>, prev: nat) returns (changed: nat)
      requires Contiguous(entries) && Numbered(incoming, prev)
      modifies this
      ensures entries == RaftSpec.AppendFromLeader(old(entries), incoming, prev)
      ensures changed == FirstChanged(old(entries), incoming)
    {
      for i := 0 to |incoming|
        invariant entries == old(entries)
        invariant FirstConflict(entries, incoming, 0) == FirstConflict(entries, incoming, i)
      {
        var local := Term(incoming[i].index);
        if local != Some(incoming[i].term) {
          TruncateFrom(incoming[i].index);
          Storage.ContiguousCut(old(entries), incoming[i].index);
          changed := incoming[i].index;
          ghost var kept := entries;
          for j := i to |incoming|
            invariant entries == kept + incoming[i..j]
          {
            entries := entries + [incoming[j]];
          }
          assert incoming[i..|incoming|] == incoming[i..];
          return;
        }
      }
      changed := 0;
    }
  }
}
