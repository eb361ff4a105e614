/**
 The host process around a node: it feeds one input, then drains Ready in the mandated
 order (Save, send, apply, Advance), and dies or restarts the way the simulator makes it.
 Each method is one step of `Cluster`, with the crash point decided by the storage's bytes.
 */
module Host {
  import opened RaftTypes
  import opened RaftSpec
  import opened RaftNode
  import opened Storage
  import opened CrashStorage
  import opened RecordCodec
  import opened Cluster
  import P = Persistence

  class Process {
    const config: Config
    const disk: Disk
    var node: Node?
    var applied: seq<seq<Entry>>
    var sent: set<Message>

    function AsProc(): Proc
      reads this, disk, disk.view, node, if node == null then {} else {node.log}
    {
      Proc(disk.Contents(), if node == null then None else Some(node.State()), applied)
    }

    ghost predicate Valid()
      reads this, disk, disk.view, node, if node == null then {} else {node.log}
    {
      && disk.Valid() && !disk.armed && Ascending(config.peers) && Contiguous(disk.Contents().log)
      && (node != null ==> node.Valid() && !disk.crashed && applied != [])
    }

    constructor (config: Config, disk: Disk)
      requires disk.Valid() && !disk.armed && Ascending(config.peers) && Contiguous(disk.Contents().log)
      ensures Valid() && this.disk == disk && AsProc() == Proc(disk.Contents(), None, []) && sent == {}
    {
      this.config, this.disk := config, disk;
      node, applied, sent := null, [], {};
    }

    /** Stops the process; what is on the platter stays. */
    method Crash()
      requires Valid()
      modifies this, disk
      ensures Valid() && AsProc() == old(AsProc()).(live := None) && sent == old(sent)
      ensures disk.view == old(disk.view) || fresh(disk.view)
    {
      var _ := disk.Crash();
      node := null;
    }

    /** Rebuilds the node from hard state and log alone; nothing is known to be committed. */
    method Restart(draw: nat)
      requires Valid() && node == null
      modifies this, disk
      ensures Valid() && node != null && fresh(node) && fresh(node.log) && sent == old(sent)
      ensures disk.view == old(disk.view) || fresh(disk.view)
      ensures var p := old(AsProc());
        AsProc() == p.(live := Some(NewNode(config, p.disk.hard, p.disk.log, draw)), applied := p.applied + [[]])
    {
      hide ScanAll, EncodeAll, ApplyRecords, NewNode;
      if disk.crashed {
        var _ := disk.Recover();
      }
      var log := LoadEntries();
      node := new Node(config, disk.view.hard, log, draw);
      applied := applied + [[]];
    }

    /** The whole retained log, read back through the storage's bounded interface. */
    method LoadEntries() returns (log: seq<Entry>)
      requires Contiguous(disk.Contents().log)
      ensures log == disk.Contents().log
    {
      var n := |disk.view.entries|;
      log := [];
      if n >= 1 {
        var stored := disk.view.Entries(1, n + 1);
        log := stored.value;
      }
    }

    /** One input and the cycle it causes: exactly a `Drive` step of the cluster model. */
    method Drive(input: Input, accepts: nat) returns (ghost outcome: Outcome)
      requires Valid() && node != null && P.Synced(node.State(), disk.Contents())
      requires var rd := ReadyOf(Handle(node.State(), input));
        AllEncodable(BatchRecords(disk.Contents(), rd.hardState, rd.entries))
      modifies this, disk, disk.view, node, node.log
      ensures Valid() && (disk.view == old(disk.view) || fresh(disk.view))
      ensures AsProc() == Finish(old(AsProc()), Handle(old(node.State()), input), outcome)
      ensures sent == old(sent) + Sent(Handle(old(node.State()), input), outcome)
      ensures node == null || (node == old(node) && P.Synced(node.State(), disk.Contents()))
    {
      hide ScanAll, EncodeAll, ApplyRecords, BatchRecords, ReadyOf, Storage.Save, P.Unsaved, P.Synced, AllEncodable,
        RaftSpec.Advance, TakeReady, Deliver, Contiguous, Ascending, TickNode, StepMessage, ProposeData, Sent;
      ghost var s, d := node.State(), disk.Contents();
      P.HandleUnsaved(s, d, input);
      match input {
        case Tick(draw) => node.Tick(draw);
        case Receive(m, draw) => node.Step(m, draw);
        case Propose(data) => var _, _, _ := node.Propose(data);
      }
      outcome := ProcessReady(accepts);
      if node != null {
        P.AdvanceSyncs(Handle(s, input), d);
        P.SaveAgrees(Handle(s, input), d);
      }
    }

    /** Persist, send, apply, acknowledge. `accepts` is how many entries the state machine takes before failing. */
    method ProcessReady(accepts: nat) returns (ghost outcome: Outcome)
      requires Valid() && node != null && P.Unsaved(node.State(), disk.Contents())
      requires var rd := ReadyOf(node.State()); AllEncodable(BatchRecords(disk.Contents(), rd.hardState, rd.entries))
      modifies this, disk, disk.view, node
      ensures Valid() && (disk.view == old(disk.view) || fresh(disk.view))
      ensures AsProc() == Finish(old(AsProc()), old(node.State()), outcome)
      ensures sent == old(sent) + Sent(old(node.State()), outcome)
      ensures node == null || node == old(node)
    {
      hide ScanAll, EncodeAll, ApplyRecords, BatchRecords, ReadyOf, Storage.Save, P.Unsaved, AllEncodable,
        RaftSpec.Advance, TakeReady, Deliver, MessageSet, Contiguous, Ascending, Retained, WholeWithin;
      ghost var s, d := node.State(), disk.Contents();
      P.SaveAgrees(s, d);
      UnsavedContiguous(s, d);
      var ready := node.Ready();
      var ok, kept := disk.Save(ready.hardState, ready.entries);
      if !ok {
        node := null;
        outcome := TornSave(kept);
        TornContiguous(s, d, kept);
        return;
      }
      SendAll(ready.messages);
      SentAll(s, accepts);
      var fired := disk.CrashIfArmed();
      if fired {
        node := null;
        outcome := Died(|ready.messages|, 0);
        DeliverNone(applied, ready.committed);
        return;
      }
      var accepted := ApplyAll(ready.committed, accepts);
      if !accepted {
        node := null;
        outcome := Died(|ready.messages|, accepts);
        return;
      }
      assert ready.committed[..Min(accepts, |ready.committed|)] == ready.committed;
      node.Advance();
      outcome := Done;
    }

    method SendAll(messages: seq<Message>)
      modifies this`sent
      ensures sent == old(sent) + MessageSet(messages)
    {
      for i := 0 to |messages|
        invariant sent == old(sent) + MessageSet(messages[..i])
      {
        sent := sent + {messages[i]};
        assert messages[..i + 1] == messages[..i] + [messages[i]];
      }
      assert messages[..|messages|] == messages;
    }

    /** Hands committed entries to the state machine in order until it fails. */
    method ApplyAll(committed: seq<Entry>, accepts: nat) returns (ok: bool)
      requires applied != []
      modifies this`applied
      ensures ok == (|committed| <= accepts) && applied != []
      ensures applied == Deliver(old(applied), committed[..Min(accepts, |committed|)])
    {
      DeliverNone(applied, committed);
      for i := 0 to |committed|
        invariant i <= accepts && applied == Deliver(old(applied), committed[..i]) && applied != []
      {
        if i == accepts { return false; }
        var n := |applied| - 1;
        applied := applied[..n] + [applied[n] + [committed[i]]];
        DeliverMore(old(applied), committed, i);
      }
      return true;
    }
  }

  lemma UnsavedContiguous(s: NodeState, d: Durable)
    requires P.Unsaved(s, d)
    ensures Contiguous(s.log) && Contiguous(d.log)
  {}

  /** Whatever record prefix a torn Save leaves, the log still runs 1, 2, 3, … */
  lemma TornContiguous(s: NodeState, d: Durable, k: nat)
    requires P.Unsaved(s, d)
    requires var rd := ReadyOf(s); k <= |BatchRecords(d, rd.hardState, rd.entries)|
    ensures var rd := ReadyOf(s); Contiguous(ApplyRecords(d, BatchRecords(d, rd.hardState, rd.entries)[..k]).log)
  {
    hide ReadyOf, BatchRecords, ApplyRecords;
    var t := P.TornSaveCases(s, d, k);
  }

  lemma SentAll(s: NodeState, n: nat)
    ensures ReadyOf(s).messages == s.messages && s.messages[..Min(|s.messages|, |s.messages|)] == s.messages
  {}

  lemma DeliverNone(applied: seq<seq<Entry>>, committed: seq<Entry>)
    ensures Deliver(applied, committed[..0]) == applied
  {
    if applied != [] { assert applied[|applied| - 1] + committed[..0] == applied[|applied| - 1]; }
  }

  lemma DeliverMore(applied: seq<seq<Entry>>, committed: seq<Entry>, i: nat)
    requires applied != [] && i < |committed|
    ensures var n, d := |applied| - 1, Deliver(applied, committed[..i]);
      |d| == |applied| && Deliver(applied, committed[..i + 1]) == d[..n] + [d[n] + [committed[i]]]
  {
    var n := |applied| - 1;
    assert applied[n] + committed[..i + 1] == applied[n] + committed[..i] + [committed[i]];
    assert Deliver(applied, committed[..i])[..n] == applied[..n];
  }
}
