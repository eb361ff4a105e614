/**
 The in-memory key/value machine: the simple machine the LSM one must equal. Commands are
 deduplicated per client. `MapStateMachine` is the machine itself; `Apply` is what it computes.
 */
module KvMachine {
  import opened RaftTypes
  import opened LsmTypes

  datatype Op = OpPut | OpDelete | OpGet | OpUnknown(code: nat)

  datatype Command = Command(client: nat, seq_: nat, op: Op, key: Key, value: seq<Byte>)

  /** Any decoder of command bytes; None is a malformed command. */
  type Decoder = seq<Byte> -> Option<Command>

  datatype Result = Result(value: seq<Byte>, found: bool)

  const NO_RESULT := Result([], false)

  datatype Dedup = Dedup(lastSeq: nat, lastResult: Result)

  datatype State = State(values: map<Key, seq<Byte>>, dedup: map<nat, Dedup>, applied: nat)

  const START := State(map[], map[], 0)

  datatype Applied = Rejected | Done(state: State, result: Result)

  function Max(a: nat, b: nat): nat { if a > b then a else b }

  function Lookup(values: map<Key, seq<Byte>>, key: Key): Result {
    if key in values then Result(values[key], true) else NO_RESULT
  }

  predicate Duplicate(s: State, c: Command) { c.client in s.dedup && c.seq_ <= s.dedup[c.client].lastSeq }

  function Execute(values: map<Key, seq<Byte>>, c: Command): Option<(map<Key, seq<Byte>>, Result)> {
    match c.op
    case OpPut => Some((values[c.key := c.value], NO_RESULT))
    case OpDelete => Some((values - {c.key}, NO_RESULT))
    case OpGet => Some((values, Lookup(values, c.key)))
    case OpUnknown(_) => None
  }

  function Apply(decode: Decoder, s: State, e: Entry): Applied {
    match e.typ
    case Noop => Done(s.(applied := Max(s.applied, e.index)), NO_RESULT)
    case Normal =>
      (match decode(e.data)
       case None => Rejected
       case Some(c) =>
         if Duplicate(s, c) then Done(s.(applied := Max(s.applied, e.index)), s.dedup[c.client].lastResult)
         else
           match Execute(s.values, c)
           case None => Rejected
           case Some(x) =>
             Done(State(x.0, s.dedup[c.client := Dedup(c.seq_, x.1)], Max(s.applied, e.index)), x.1))
    case _ => Rejected
  }

  class MapStateMachine {
    const decode: Decoder
    var values: map<Key, seq<Byte>>
    var dedup: map<nat, Dedup>
    var applied: nat

    function AsState(): State
      reads this
    {
      State(values, dedup, applied)
    }

    constructor (decode: Decoder)
      ensures this.decode == decode && AsState() == START
    {
      this.decode := decode;
      values, dedup, applied := map[], map[], 0;
    }

    method Advance(index: nat)
      modifies this`applied
      ensures applied == Max(old(applied), index)
    {
      if index > applied {
        applied := index;
      }
    }

    method Run(c: Command) returns (ok: bool, result: Result)
      modifies this`values
      ensures match Execute(old(values), c)
              case None => !ok && values == old(values)
              case Some(x) => ok && values == x.0 && result == x.1
    {
      result := NO_RESULT;
      match c.op {
        case OpPut => values := values[c.key := c.value];
        case OpDelete => values := values - {c.key};
        case OpGet => result := Lookup(values, c.key);
        case OpUnknown(_) => return false, result;
      }
      return true, result;
    }

    method Step(e: Entry) returns (ok: bool, result: Result)
      modifies this
      ensures match Apply(decode, old(AsState()), e)
              case Rejected => !ok && AsState() == old(AsState())
              case Done(s, r) => ok && AsState() == s && result == r
    {
      result := NO_RESULT;
      if e.typ == Noop {
        Advance(e.index);
        return true, result;
      }
      if e.typ != Normal { return false, result; }
      var c := decode(e.data);
      if c == None { return false, result; }
      if c.value.client in dedup && c.value.seq_ <= dedup[c.value.client].lastSeq {
        Advance(e.index);
        return true, dedup[c.value.client].lastResult;
      }
      ok, result := Run(c.value);
      if !ok { return; }
      dedup := dedup[c.value.client := Dedup(c.value.seq_, result)];
      Advance(e.index);
    }
  }

  // ----- The log as a history of writes -----

  /** The machine after a log that it accepts. */
  function Replayed(decode: Decoder, log: seq<Entry>): State {
    if log == [] then START
    else
      var s := Replayed(decode, log[..|log| - 1]);
      match Apply(decode, s, log[|log| - 1])
      case Rejected => s
      case Done(s', _) => s'
  }

  /** The write an entry makes on top of a state, if it makes one. */
  function WriteOf(decode: Decoder, s: State, e: Entry): Option<Version> {
    if e.typ != Normal || decode(e.data) == None then None
    else
      var c := decode(e.data).value;
      if Duplicate(s, c) then None
      else match c.op
           case OpPut => Some(Version(c.key, e.index, Some(c.value)))
           case OpDelete => Some(Version(c.key, e.index, None))
           case _ => None
  }

  function Writes(decode: Decoder, log: seq<Entry>): (ws: set<Version>) {
    if log == [] then {}
    else
      var front := log[..|log| - 1];
      Writes(decode, front) +
        match WriteOf(decode, Replayed(decode, front), log[|log| - 1]) { case None => {} case Some(v) => {v} }
  }

  lemma {:induction false} WritesBelow(decode: Decoder, log: seq<Entry>, v: Version)
    requires Contiguous(log) && v in Writes(decode, log)
    ensures 1 <= v.seq_ <= |log|
    decreases |log|
  {
    if log != [] {
      var front := log[..|log| - 1];
      if v in Writes(decode, front) { WritesBelow(decode, front, v); }
    }
  }

  /** One sequence number names one write. */
  lemma {:induction false} WritesDistinct(decode: Decoder, log: seq<Entry>, a: Version, b: Version)
    requires Contiguous(log) && a in Writes(decode, log) && b in Writes(decode, log) && a.seq_ == b.seq_
    ensures a == b
    decreases |log|
  {
    if log != [] {
      var front := log[..|log| - 1];
      if a in Writes(decode, front) { WritesBelow(decode, front, a); }
      if b in Writes(decode, front) { WritesBelow(decode, front, b); }
      if a in Writes(decode, front) && b in Writes(decode, front) { WritesDistinct(decode, front, a, b); }
    }
  }

  /** What the machine holds for a key is what the key's newest write says. */
  ghost predicate Reflects(values: map<Key, seq<Byte>>, ws: set<Version>, key: Key) {
    if key in values then exists v :: Newest(ws, v) && v.key == key && v.value == Some(values[key])
    else forall v :: Newest(ws, v) && v.key == key ==> v.value == None
  }

  lemma {:induction false} MapReflectsWrites(decode: Decoder, log: seq<Entry>, key: Key)
    requires Contiguous(log)
    ensures Reflects(Replayed(decode, log).values, Writes(decode, log), key)
    decreases |log|
  {
    if log != [] {
      var front, e := log[..|log| - 1], log[|log| - 1];
      MapReflectsWrites(decode, front, key);
      var s, ws := Replayed(decode, front), Writes(decode, front);
      forall v | v in ws ensures v.seq_ < e.index { WritesBelow(decode, front, v); }
      ReflectsStep(decode, s, ws, e, key);
    }
  }

  lemma ReflectsStep(decode: Decoder, s: State, ws: set<Version>, e: Entry, key: Key)
    requires Reflects(s.values, ws, key) && forall v :: v in ws ==> v.seq_ < e.index
    ensures var s' := (match Apply(decode, s, e) case Rejected => s case Done(x, _) => x);
      var ws' := ws + (match WriteOf(decode, s, e) { case None => {} case Some(v) => {v} });
      Reflects(s'.values, ws', key)
  {
    match WriteOf(decode, s, e)
    case None => assert ws + {} == ws;
    case Some(w) =>
      var ws' := ws + {w};
      assert Newest(ws', w);
      if w.key != key {
        assert forall v: Version :: v.key == key ==> (Newest(ws', v) <==> Newest(ws, v));
      }
  }
}
