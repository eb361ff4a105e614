/**
 What the commands of a log mean, said of the log alone. A command is executed when it is newer
 than every earlier command of its client. Only executed commands write; a read answers the
 latest executed write to its key; a repeated command gets the answer its client was last given.
 The map machine, and with it the LSM machine, gives every log exactly this meaning.
 */
module KvHistory {
  import opened RaftTypes
  import opened LsmTypes
  import opened EngineState
  import opened KvMachine
  import opened StateMachine

  ghost function CommandAt(decode: Decoder, log: seq<Entry>, i: nat): Option<Command>
    requires i < |log|
  {
    if log[i].typ == Normal then decode(log[i].data) else None
  }

  ghost predicate IsFrom(decode: Decoder, log: seq<Entry>, i: nat, client: nat)
    requires i < |log|
  {
    CommandAt(decode, log, i).Some? && CommandAt(decode, log, i).value.client == client
  }

  /** Entry i is a command newer than every earlier command of its client. */
  ghost predicate Executed(decode: Decoder, log: seq<Entry>, i: nat)
    requires i < |log|
  {
    && CommandAt(decode, log, i).Some?
    && var c := CommandAt(decode, log, i).value;
    && forall j :: 0 <= j < i && IsFrom(decode, log, j, c.client) ==> CommandAt(decode, log, j).value.seq_ < c.seq_
  }

  /** Entry j is the last executed command of the client among the first n entries. */
  ghost predicate LastExecuted(decode: Decoder, log: seq<Entry>, n: nat, client: nat, j: nat)
    requires n <= |log|
  {
    && j < n && IsFrom(decode, log, j, client) && Executed(decode, log, j)
    && forall k :: j < k < n && IsFrom(decode, log, k, client) ==> !Executed(decode, log, k)
  }

  /** The entry can be applied: nothing at all, a known command, or a repeat. */
  ghost predicate Applicable(decode: Decoder, log: seq<Entry>, i: nat)
    requires i < |log|
  {
    || log[i].typ == Noop
    || (CommandAt(decode, log, i).Some? &&
        (Executed(decode, log, i) ==> !CommandAt(decode, log, i).value.op.OpUnknown?))
  }

  // ----- Prefixes -----

  lemma AcceptedPrefix(decode: Decoder, log: seq<Entry>, n: nat)
    requires Accepted(decode, log) && n <= |log|
    ensures Accepted(decode, log[..n])
  {
    forall i | 0 <= i < n ensures KvMachine.Apply(decode, Replayed(decode, log[..n][..i]), log[..n][i]).Done? {
      assert log[..n][..i] == log[..i];
    }
  }

  lemma {:induction false} AnswerAt(decode: Decoder, log: seq<Entry>, i: nat)
    requires i < |log|
    ensures |Answers(decode, log)| == |log|
    ensures Answers(decode, log)[i] == match KvMachine.Apply(decode, Replayed(decode, log[..i]), log[i])
                                       case Rejected => NO_RESULT
                                       case Done(_, r) => r
    decreases |log|
  {
    hide Replayed, KvMachine.Apply;
    var front := log[..|log| - 1];
    if i < |front| {
      AnswerAt(decode, front, i);
      assert front[..i] == log[..i];
    } else if front != [] {
      AnswerAt(decode, front, 0);
    }
  }

  lemma PrefixMeans(decode: Decoder, log: seq<Entry>, n: nat, i: nat)
    requires i < n <= |log|
    ensures CommandAt(decode, log[..n], i) == CommandAt(decode, log, i)
    ensures Executed(decode, log[..n], i) <==> Executed(decode, log, i)
    ensures |Answers(decode, log)| == |log| && |Answers(decode, log[..n])| == n
    ensures Answers(decode, log[..n])[i] == Answers(decode, log)[i]
  {
    hide Replayed, KvMachine.Apply, Answers;
    assert log[..n][..i] == log[..i];
    AnswerAt(decode, log, i);
    AnswerAt(decode, log[..n], i);
    forall j | 0 <= j < i ensures CommandAt(decode, log[..n], j) == CommandAt(decode, log, j) {}
  }

  // ----- The deduplication table -----

  /** The table's record d of a client is its newest command among the first n entries, at j, and its answer. */
  ghost predicate Remembers(decode: Decoder, log: seq<Entry>, n: nat, client: nat, d: Dedup, j: nat)
    requires n <= |log| == |Answers(decode, log)|
  {
    && j < n && IsFrom(decode, log, j, client) && Executed(decode, log, j)
    && d == Dedup(CommandAt(decode, log, j).value.seq_, Answers(decode, log)[j])
    && forall k :: 0 <= k < n && IsFrom(decode, log, k, client) ==> CommandAt(decode, log, k).value.seq_ <= d.lastSeq
  }

  ghost predicate Known(decode: Decoder, log: seq<Entry>, n: nat, client: nat, dedup: map<nat, Dedup>, j: nat)
    requires n <= |log| == |Answers(decode, log)|
  {
    if client in dedup then Remembers(decode, log, n, client, dedup[client], j)
    else forall k :: 0 <= k < n ==> !IsFrom(decode, log, k, client)
  }

  lemma {:induction false} TableRemembers(decode: Decoder, log: seq<Entry>, n: nat, client: nat) returns (j: nat)
    requires n <= |log| && Accepted(decode, log[..n])
    ensures |Answers(decode, log)| == |log| && Known(decode, log, n, client, Replayed(decode, log[..n]).dedup, j)
  {
    AllAnswered(decode, log);
    if n == 0 {
      j := 0;
      assert log[..0] == [];
    } else {
      hide KvMachine.Apply, Answers, Known, IsFrom, Duplicate;
      assert log[..n][..n - 1] == log[..n - 1];
      AcceptedPrefix(decode, log[..n], n - 1);
      j := TableRemembers(decode, log, n - 1, client);
      AnswerAt(decode, log, n - 1);
      var s := Replayed(decode, log[..n - 1]);
      TableStep(decode, s, log[n - 1], client);
      j := KnownStep(decode, log, n, client, s, Replayed(decode, log[..n]).dedup, j);
    }
  }

  lemma AllAnswered(decode: Decoder, log: seq<Entry>)
    ensures |Answers(decode, log)| == |log|
  {
    if log != [] { AnswerAt(decode, log, 0); }
  }

  lemma KnownStep(decode: Decoder, log: seq<Entry>, n: nat, client: nat, s: State, dedup: map<nat, Dedup>, i: nat)
    returns (j: nat)
    requires 1 <= n <= |log| == |Answers(decode, log)| && Known(decode, log, n - 1, client, s.dedup, i)
    requires if IsFrom(decode, log, n - 1, client) && !Duplicate(s, CommandAt(decode, log, n - 1).value)
             then client in dedup
               && dedup[client] == Dedup(CommandAt(decode, log, n - 1).value.seq_, Answers(decode, log)[n - 1])
             else (client in dedup <==> client in s.dedup) && (client in dedup ==> dedup[client] == s.dedup[client])
    ensures Known(decode, log, n, client, dedup, j)
  {
    hide Answers, CommandAt;
    j := if IsFrom(decode, log, n - 1, client) && !Duplicate(s, CommandAt(decode, log, n - 1).value) then n - 1 else i;
  }

  lemma TableStep(decode: Decoder, s: State, e: Entry, client: nat)
    requires KvMachine.Apply(decode, s, e).Done?
    ensures var done := KvMachine.Apply(decode, s, e);
      if e.typ == Normal && decode(e.data).value.client == client && !Duplicate(s, decode(e.data).value)
      then done.state.dedup == s.dedup[client := Dedup(decode(e.data).value.seq_, done.result)]
      else (client in done.state.dedup <==> client in s.dedup)
           && (client in s.dedup ==> done.state.dedup[client] == s.dedup[client])
  {
    hide Execute;
  }

  /** The machine takes a command for a duplicate exactly when an earlier one of its client is as new. */
  lemma DuplicateIsOld(decode: Decoder, log: seq<Entry>, i: nat)
    requires i < |log| && Accepted(decode, log[..i]) && CommandAt(decode, log, i).Some?
    ensures Duplicate(Replayed(decode, log[..i]), CommandAt(decode, log, i).value) <==> !Executed(decode, log, i)
  {
    hide Replayed, Answers, CommandAt;
    var j := TableRemembers(decode, log, i, CommandAt(decode, log, i).value.client);
  }

  /** The machine accepts exactly the logs whose every entry can be applied. */
  lemma {:induction false} AcceptedIff(decode: Decoder, log: seq<Entry>, n: nat)
    requires n <= |log|
    ensures Accepted(decode, log[..n]) <==> forall i :: 0 <= i < n ==> Applicable(decode, log, i)
  {
    if n > 0 {
      hide Replayed, Applicable;
      AcceptedIff(decode, log, n - 1);
      AcceptedStep(decode, log, n);
    }
  }

  lemma AcceptedStep(decode: Decoder, log: seq<Entry>, n: nat)
    requires 1 <= n <= |log|
    ensures Accepted(decode, log[..n]) <==> Accepted(decode, log[..n - 1]) && Applicable(decode, log, n - 1)
  {
    hide Replayed, Applicable, KvMachine.Apply;
    var before := log[..n - 1];
    assert log[..n][..n - 1] == before;
    if Accepted(decode, log[..n]) { AcceptedPrefix(decode, log[..n], n - 1); }
    if Accepted(decode, before) { DoneIff(decode, log, n - 1); }
    forall i | 0 <= i < n - 1 ensures log[..n][..i] == before[..i] && log[..n][i] == before[i] {}
  }

  lemma DoneIff(decode: Decoder, log: seq<Entry>, i: nat)
    requires i < |log| && Accepted(decode, log[..i])
    ensures KvMachine.Apply(decode, Replayed(decode, log[..i]), log[i]).Done? <==> Applicable(decode, log, i)
  {
    hide Replayed, Executed, Accepted;
    if CommandAt(decode, log, i).Some? { DuplicateIsOld(decode, log, i); }
  }

  // ----- Writes -----

  /** Entry j is an executed write to the key. */
  ghost predicate WritesKey(decode: Decoder, log: seq<Entry>, j: nat, key: Key)
    requires j < |log|
  {
    && Executed(decode, log, j)
    && var c := CommandAt(decode, log, j).value;
    && c.key == key && (c.op == OpPut || c.op == OpDelete)
  }

  /** Entry j is the last write to the key among the first n entries. */
  ghost predicate LatestWrite(decode: Decoder, log: seq<Entry>, n: nat, key: Key, j: nat)
    requires n <= |log|
  {
    j < n && WritesKey(decode, log, j, key) && forall k :: j < k < n ==> !WritesKey(decode, log, k, key)
  }

  ghost function VersionAt(decode: Decoder, log: seq<Entry>, j: nat): Version
    requires j < |log| && CommandAt(decode, log, j).Some?
  {
    var c := CommandAt(decode, log, j).value;
    Version(c.key, log[j].index, if c.op == OpPut then Some(c.value) else None)
  }

  /** What an accepted entry does to the map, said of the log. */
  lemma EntryEffect(decode: Decoder, log: seq<Entry>, i: nat)
    requires i < |log| && Accepted(decode, log[..i + 1])
    ensures var s, s' := Replayed(decode, log[..i]), Replayed(decode, log[..i + 1]);
      && KvMachine.Apply(decode, s, log[i]).Done? && KvMachine.Apply(decode, s, log[i]).state == s'
      && (!Executed(decode, log, i) ==> s'.values == s.values && s'.dedup == s.dedup)
      && (Executed(decode, log, i) ==>
            var c := CommandAt(decode, log, i).value;
            match c.op
            case OpPut => s'.values == s.values[c.key := c.value]
            case OpDelete => s'.values == s.values - {c.key}
            case _ => s'.values == s.values)
      && WriteOf(decode, s, log[i]) ==
           if Executed(decode, log, i) && WritesKey(decode, log, i, CommandAt(decode, log, i).value.key)
           then Some(VersionAt(decode, log, i)) else None
  {
    assert log[..i + 1][..i] == log[..i];
    AcceptedPrefix(decode, log[..i + 1], i);
    hide Executed;
    if CommandAt(decode, log, i).Some? { DuplicateIsOld(decode, log, i); } else { NotExecuted(decode, log, i); }
  }

  lemma NotExecuted(decode: Decoder, log: seq<Entry>, i: nat)
    requires i < |log| && CommandAt(decode, log, i).None?
    ensures !Executed(decode, log, i)
  {}

  /** What `values` has for the key is what the latest write to it among the first n entries, at j, says. */
  ghost predicate HoldsLatest(decode: Decoder, log: seq<Entry>, n: nat, key: Key, values: map<Key, seq<Byte>>, j: nat)
    requires n <= |log|
  {
    if key in values
    then LatestWrite(decode, log, n, key, j) && VersionAt(decode, log, j).value == Some(values[key])
    else forall k :: LatestWrite(decode, log, n, key, k) ==> VersionAt(decode, log, k).value == None
  }

  /** The map holds, for every key, what the latest executed write to it says. */
  lemma {:induction false} MapHoldsLatest(decode: Decoder, log: seq<Entry>, n: nat, key: Key) returns (j: nat)
    requires n <= |log| && Accepted(decode, log[..n])
    ensures HoldsLatest(decode, log, n, key, Replayed(decode, log[..n]).values, j)
  {
    j := 0;
    if n == 0 {
      assert log[..0] == [];
    } else {
      assert log[..n][..n - 1] == log[..n - 1];
      AcceptedPrefix(decode, log[..n], n - 1);
      hide Executed, Replayed, KvMachine.Apply, WriteOf, HoldsLatest, VersionAt;
      j := MapHoldsLatest(decode, log, n - 1, key);
      EntryEffect(decode, log, n - 1);
      var values, values' := Replayed(decode, log[..n - 1]).values, Replayed(decode, log[..n]).values;
      if WritesKey(decode, log, n - 1, key) {
        j := n - 1;
        NewestHolds(decode, log, n, key, values, values');
      } else {
        assert (key in values' <==> key in values) && (key in values ==> values'[key] == values[key]);
        StillHolds(decode, log, n, key, values, values', j);
      }
    }
  }

  lemma NewestHolds(decode: Decoder, log: seq<Entry>, n: nat, key: Key, values: map<Key, seq<Byte>>,
                    values': map<Key, seq<Byte>>)
    requires 1 <= n <= |log| && WritesKey(decode, log, n - 1, key)
    requires var c := CommandAt(decode, log, n - 1).value;
      values' == if c.op == OpPut then values[key := c.value] else values - {key}
    ensures HoldsLatest(decode, log, n, key, values', n - 1)
  {
    hide Executed;
    forall k | LatestWrite(decode, log, n, key, k) ensures k == n - 1 {}
  }

  lemma StillHolds(decode: Decoder, log: seq<Entry>, n: nat, key: Key, values: map<Key, seq<Byte>>,
                   values': map<Key, seq<Byte>>, j: nat)
    requires 1 <= n <= |log| && !WritesKey(decode, log, n - 1, key)
    requires HoldsLatest(decode, log, n - 1, key, values, j)
    requires (key in values' <==> key in values) && (key in values ==> values'[key] == values[key])
    ensures HoldsLatest(decode, log, n, key, values', j)
  {
    hide WritesKey, VersionAt;
    assert forall k :: LatestWrite(decode, log, n, key, k) <==> LatestWrite(decode, log, n - 1, key, k);
  }

  /** The log's writes are those of its executed commands, each at its own index. */
  lemma {:induction false} WritesAreExecuted(decode: Decoder, log: seq<Entry>, n: nat, v: Version)
    requires n <= |log| && Accepted(decode, log[..n])
    ensures v in Writes(decode, log[..n]) <==>
      exists j :: 0 <= j < n && WritesKey(decode, log, j, v.key) && VersionAt(decode, log, j) == v
  {
    if n > 0 {
      assert log[..n][..n - 1] == log[..n - 1];
      AcceptedPrefix(decode, log[..n], n - 1);
      hide Executed, Replayed, KvMachine.Apply, WriteOf;
      WritesAreExecuted(decode, log, n - 1, v);
      EntryEffect(decode, log, n - 1);
    }
  }

  // ----- Answers -----

  /** An executed read answers the latest executed write to its key before it: found exactly when that is a PUT. */
  lemma ReadAnswered(decode: Decoder, log: seq<Entry>, i: nat) returns (j: nat)
    requires Contiguous(log) && Accepted(decode, log) && i < |log| && Executed(decode, log, i)
    requires CommandAt(decode, log, i).value.op == OpGet
    ensures |Answers(decode, log)| == |log|
    ensures var key, answer := CommandAt(decode, log, i).value.key, Answers(decode, log)[i];
      && answer == (match Value(Writes(decode, log[..i]), key)
                    case None => Result([], false)
                    case Some(value) => Result(value, true))
      && (answer.found ==>
            && LatestWrite(decode, log, i, key, j)
            && var put := CommandAt(decode, log, j).value; put.op == OpPut && answer.value == put.value)
      && (!answer.found ==>
            forall k :: LatestWrite(decode, log, i, key, k) ==> CommandAt(decode, log, k).value.op == OpDelete)
  {
    AllAnswered(decode, log);
    AcceptedPrefix(decode, log, i);
    AcceptedPrefix(decode, log, i + 1);
    var key := CommandAt(decode, log, i).value.key;
    j := MapHoldsLatest(decode, log, i, key);
    NewestIsMap(decode, log[..i], key);
    DuplicateIsOld(decode, log, i);
    AnswerAt(decode, log, i);
    hide Executed, Replayed, Writes, Value, Answers;
    assert Answers(decode, log)[i] == Lookup(Replayed(decode, log[..i]).values, key);
    forall k | LatestWrite(decode, log, i, key, k) && VersionAt(decode, log, k).value == None
      ensures CommandAt(decode, log, k).value.op == OpDelete
    {
      assert WritesKey(decode, log, k, key);
    }
  }

  /** Writes, and entries without a command, answer nothing. */
  lemma WriteAnswered(decode: Decoder, log: seq<Entry>, i: nat)
    requires Accepted(decode, log) && i < |log|
    requires log[i].typ == Noop || (Executed(decode, log, i) && CommandAt(decode, log, i).value.op in {OpPut, OpDelete})
    ensures |Answers(decode, log)| == |log| && Answers(decode, log)[i] == Result([], false)
  {
    AllAnswered(decode, log);
    AcceptedPrefix(decode, log, i);
    AnswerAt(decode, log, i);
    if log[i].typ != Noop { DuplicateIsOld(decode, log, i); }
    hide Executed, Replayed, Answers;
  }

  /** A repeated command changes nothing and gets the answer of its client's last executed command. */
  lemma RepeatAnswered(decode: Decoder, log: seq<Entry>, i: nat) returns (j: nat)
    requires Accepted(decode, log) && i < |log| && CommandAt(decode, log, i).Some? && !Executed(decode, log, i)
    ensures |Answers(decode, log)| == |log|
    ensures LastExecuted(decode, log, i, CommandAt(decode, log, i).value.client, j)
    ensures CommandAt(decode, log, j).value.seq_ >= CommandAt(decode, log, i).value.seq_
    ensures Answers(decode, log)[i] == Answers(decode, log)[j]
    ensures Writes(decode, log[..i + 1]) == Writes(decode, log[..i])
    ensures var s, s' := Replayed(decode, log[..i]), Replayed(decode, log[..i + 1]);
      s'.values == s.values && s'.dedup == s.dedup
  {
    hide Replayed, Answers, Writes, WriteOf, Executed, Remembers;
    AcceptedPrefix(decode, log, i);
    AcceptedPrefix(decode, log, i + 1);
    var client, s := CommandAt(decode, log, i).value.client, Replayed(decode, log[..i]);
    EntryEffect(decode, log, i);
    OneMoreEntry(decode, log[..i], log[i]);
    assert log[..i] + [log[i]] == log[..i + 1];
    DuplicateIsOld(decode, log, i);
    j := TableRemembers(decode, log, i, client);
    RememberedIsLast(decode, log, i, client, s.dedup[client], j);
    AnswerAt(decode, log, i);
  }

  lemma RememberedIsLast(decode: Decoder, log: seq<Entry>, n: nat, client: nat, d: Dedup, j: nat)
    requires n <= |log| == |Answers(decode, log)| && Remembers(decode, log, n, client, d, j)
    ensures LastExecuted(decode, log, n, client, j)
    ensures d == Dedup(CommandAt(decode, log, j).value.seq_, Answers(decode, log)[j])
  {
    hide Answers, CommandAt;
    forall k | j < k < n && IsFrom(decode, log, k, client) ensures !Executed(decode, log, k) {
      assert IsFrom(decode, log, j, client);
    }
  }
}
