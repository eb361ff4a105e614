/**
 A cluster of hosts around the Raft core. One step of a live host feeds it one input and
 then drains Ready in the mandated order: Save, send, apply, Advance. Crashes can land
 inside Save (a prefix of the batch's records survives), or anywhere after it. The network
 is the set of all messages ever sent, so loss, duplication, reordering and delay are all
 runs of the model.
 */
module Cluster {
  import opened RaftTypes
  import opened RaftSpec
  import opened Storage

  datatype Proc = Proc(disk: Durable, live: Option<NodeState>, applied: seq<seq<Entry>>)

  datatype System = System(cfg: Config, procs: map<NodeID, Proc>, net: set<Message>)

  datatype Outcome =
    | Done
    | TornSave(records: nat)              // the process dies inside Save
    | Died(sent: nat, applied: nat)       // Save returned; the process dies later in the cycle

  datatype Step =
    | Drive(id: NodeID, input: Input, outcome: Outcome)
    | Crash(id: NodeID)
    | Restart(id: NodeID, draw: nat)

  /** Every process is down with an empty disk; the first Restart boots it. */
  function Initial(cfg: Config): System {
    System(cfg, map id | id in cfg.peers :: Proc(EMPTY, None, []), {})
  }

  predicate Enabled(c: System, step: Step) {
    && step.id in c.procs
    && match step
       case Drive(id, input, _) =>
         && c.procs[id].live.Some?
         && (input.Receive? ==> input.m in c.net && input.m.to == id)
       case Crash(id) => true
       case Restart(id, _) => c.procs[id].live.None?
  }

  function MessageSet(ms: seq<Message>): set<Message> { set m | m in ms }

  /** Extends the sequence applied by the current incarnation. */
  function Deliver(applied: seq<seq<Entry>>, entries: seq<Entry>): seq<seq<Entry>> {
    if applied == [] then applied
    else applied[..|applied| - 1] + [applied[|applied| - 1] + entries]
  }

  function Finish(p: Proc, s: NodeState, outcome: Outcome): Proc {
    var rd := ReadyOf(s);
    match outcome
    case Done =>
      Proc(Save(p.disk, rd.hardState, rd.entries), Some(Advance(TakeReady(s))), Deliver(p.applied, rd.committed))
    case TornSave(k) =>
      var records := BatchRecords(p.disk, rd.hardState, rd.entries);
      Proc(ApplyRecords(p.disk, records[..Min(k, |records|)]), None, p.applied)
    case Died(sent, applied) =>
      var done := if sent < |rd.messages| then [] else rd.committed[..Min(applied, |rd.committed|)];
      Proc(Save(p.disk, rd.hardState, rd.entries), None, Deliver(p.applied, done))
  }

  function Sent(s: NodeState, outcome: Outcome): set<Message> {
    match outcome
    case Done => MessageSet(s.messages)
    case TornSave(_) => {}
    case Died(sent, _) => MessageSet(s.messages[..Min(sent, |s.messages|)])
  }

  function NodeConfig(c: System, id: NodeID): Config { c.cfg.(id := id) }

  function Exec(c: System, step: Step): System {
    if !Enabled(c, step) then c
    else
      var p := c.procs[step.id];
      match step
      case Drive(id, input, outcome) =>
        var s := Handle(p.live.value, input);
        c.(procs := c.procs[id := Finish(p, s, outcome)], net := c.net + Sent(s, outcome))
      case Crash(id) => c.(procs := c.procs[id := p.(live := None)])
      case Restart(id, draw) =>
        var s := NewNode(NodeConfig(c, id), p.disk.hard, p.disk.log, draw);
        c.(procs := c.procs[id := p.(live := Some(s), applied := p.applied + [[]])])
  }

  function Run(c: System, steps: seq<Step>): System {
    if steps == [] then c else Exec(Run(c, steps[..|steps| - 1]), steps[|steps| - 1])
  }

  lemma {:induction false} RunConcat(c: System, a: seq<Step>, b: seq<Step>)
    ensures Run(c, a + b) == Run(Run(c, a), b)
    decreases |b|
  {
    if b == [] {
      assert a + b == a;
    } else {
      assert (a + b)[..|a + b| - 1] == a + b[..|b| - 1];
      RunConcat(c, a, b[..|b| - 1]);
    }
  }
}
