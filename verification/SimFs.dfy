/**
 The simulated file system of one directory: live and synced names, live and synced bytes,
 and the unsynced byte changes in order. A crash keeps the synced names, the synced bytes and
 a byte prefix of the unsynced changes. Name 0 is the manifest; name n is table file n.
 */
module SimFs {
  import opened RaftTypes

  datatype Inode = Inode(data: seq<Byte>, durable: seq<Byte>)

  datatype Mutation =
    | Write(node: nat, offset: nat, data: seq<Byte>)
    | Truncate(node: nat, oldSize: nat, newSize: nat)

  datatype Fs = Fs(nodes: map<nat, Inode>, live: map<nat, nat>, names: map<nat, nat>, dirty: seq<Mutation>)

  // ----- Bytes -----

  function Zeros(n: nat): (z: seq<Byte>)
    ensures |z| == n
  {
    seq(n, _ => 0)
  }

  function Resize(image: seq<Byte>, n: nat): (r: seq<Byte>)
    ensures |r| == n
  {
    if n <= |image| then image[..n] else image + Zeros(n - |image|)
  }

  function Overwrite(image: seq<Byte>, offset: nat, data: seq<Byte>): seq<Byte> {
    var end := offset + |data|;
    var p := if end > |image| then Resize(image, end) else image;
    p[..offset] + data + p[end..]
  }

  lemma AppendIsOverwrite(image: seq<Byte>, data: seq<Byte>)
    ensures Overwrite(image, |image|, data) == image + data
  {}

  // ----- Operations on values -----

  function Created(fs: Fs, name: nat, node: nat): Fs {
    fs.(nodes := fs.nodes[node := Inode([], [])], live := fs.live[name := node])
  }

  function Written(fs: Fs, node: nat, offset: nat, data: seq<Byte>): Fs
    requires node in fs.nodes
  {
    var inode := fs.nodes[node];
    fs.(nodes := fs.nodes[node := inode.(data := Overwrite(inode.data, offset, data))],
        dirty := if data == [] then fs.dirty else fs.dirty + [Write(node, offset, data)])
  }

  function Clean(dirty: seq<Mutation>, node: nat): (r: seq<Mutation>)
    ensures forall m :: m in r <==> m in dirty && m.node != node
  {
    if dirty == [] then []
    else
      var r, m := Clean(dirty[..|dirty| - 1], node), dirty[|dirty| - 1];
      if m.node == node then r else r + [m]
  }

  function Synced(fs: Fs, node: nat): Fs
    requires node in fs.nodes
  {
    fs.(nodes := fs.nodes[node := Inode(fs.nodes[node].data, fs.nodes[node].data)], dirty := Clean(fs.dirty, node))
  }

  function DirSynced(fs: Fs): Fs { fs.(names := fs.live) }

  function Removed(fs: Fs, name: nat): Fs { fs.(live := fs.live - {name}) }

  function Resized(fs: Fs, node: nat, size: nat): Fs
    requires node in fs.nodes
  {
    var inode := fs.nodes[node];
    fs.(nodes := fs.nodes[node := inode.(data := Resize(inode.data, size))],
        dirty := if size == |inode.data| then fs.dirty else fs.dirty + [Truncate(node, |inode.data|, size)])
  }

  // ----- Crashes -----

  function ByteCount(m: Mutation): nat {
    match m
    case Write(_, _, data) => |data|
    case Truncate(_, o, n) => if n >= o then n - o else o - n
  }

  /** The first `kept` bytes of a change, applied to a surviving image. */
  function ApplyPrefix(m: Mutation, image: seq<Byte>, kept: nat): seq<Byte>
    requires kept <= ByteCount(m)
  {
    match m
    case Write(_, offset, data) => Overwrite(image, offset, data[..kept])
    case Truncate(_, o, n) =>
      if n < o then image[..if kept <= |image| then |image| - kept else 0] else image + Zeros(kept)
  }

  /** Applies the unsynced changes in order, up to a byte budget; None is no limit. */
  function Survive(images: map<nat, seq<Byte>>, dirty: seq<Mutation>, budget: Option<nat>): map<nat, seq<Byte>>
    decreases |dirty|
  {
    if dirty == [] || budget == Some(0) then images
    else
      var m := dirty[0];
      var available := ByteCount(m);
      var keep := if budget.Some? && budget.value < available then budget.value else available;
      var image := if m.node in images then images[m.node] else [];
      var next := images[m.node := ApplyPrefix(m, image, keep)];
      if keep != available then next
      else Survive(next, dirty[1..], if budget.Some? then Some(budget.value - keep) else None)
  }

  function Platter(fs: Fs): map<nat, seq<Byte>> { map x | x in fs.nodes :: fs.nodes[x].durable }

  function Crashed(fs: Fs, budget: Option<nat>): Fs {
    var images := Survive(Platter(fs), fs.dirty, budget);
    Fs(map x | x in fs.nodes ::
         if x in fs.names.Values && x in images then Inode(images[x], images[x]) else fs.nodes[x],
       fs.names, fs.names, [])
  }

  // ----- What exactly survives -----

  /** The bytes the first i unsynced changes amount to. */
  function BytesBefore(dirty: seq<Mutation>, i: nat): nat
    requires i <= |dirty|
  {
    if i == 0 then 0 else BytesBefore(dirty, i - 1) + ByteCount(dirty[i - 1])
  }

  /** The budget is not used up before change i. */
  predicate Reached(dirty: seq<Mutation>, i: nat, budget: Option<nat>)
    requires i < |dirty|
  {
    budget.None? || BytesBefore(dirty, i) < budget.value
  }

  /** How many of a change's bytes the budget still pays for after those before it. */
  function Paid(before: nat, bytes: nat, budget: Option<nat>): (paid: nat)
    ensures paid <= bytes
  {
    if budget.None? || budget.value >= before + bytes then bytes
    else if budget.value >= before then budget.value - before
    else 0
  }

  function Kept(dirty: seq<Mutation>, i: nat, budget: Option<nat>): (kept: nat)
    requires i < |dirty|
    ensures kept <= ByteCount(dirty[i])
  {
    Paid(BytesBefore(dirty, i), ByteCount(dirty[i]), budget)
  }

  /** A file's image after the first n changes: those of the file that are reached, each cut to what is kept. */
  function Surviving(image: seq<Byte>, dirty: seq<Mutation>, n: nat, node: nat, budget: Option<nat>): seq<Byte>
    requires n <= |dirty|
  {
    if n == 0 then image
    else
      var before := Surviving(image, dirty, n - 1, node, budget);
      if dirty[n - 1].node == node && Reached(dirty, n - 1, budget)
      then ApplyPrefix(dirty[n - 1], before, Kept(dirty, n - 1, budget))
      else before
  }

  lemma {:induction false} BytesAfterFirst(dirty: seq<Mutation>, i: nat)
    requires 1 <= i <= |dirty|
    ensures BytesBefore(dirty, i) == ByteCount(dirty[0]) + BytesBefore(dirty[1..], i - 1)
  {
    hide ByteCount;
    if i > 1 {
      BytesAfterFirst(dirty, i - 1);
      assert dirty[1..][i - 2] == dirty[i - 1];
    } else {
      assert BytesBefore(dirty, 1) == BytesBefore(dirty, 0) + ByteCount(dirty[0]);
    }
  }

  lemma ReachedLater(dirty: seq<Mutation>, i: nat, budget: Option<nat>, rest: Option<nat>)
    requires 1 <= i < |dirty|
    requires if budget.None? then rest == None
             else rest == Some(if budget.value > ByteCount(dirty[0]) then budget.value - ByteCount(dirty[0]) else 0)
    ensures Reached(dirty, i, budget) <==> Reached(dirty[1..], i - 1, rest)
    ensures Kept(dirty, i, budget) == Kept(dirty[1..], i - 1, rest)
  {
    hide ByteCount;
    BytesAfterFirst(dirty, i);
    assert dirty[1..][i - 1] == dirty[i];
  }

  /** The first change can be settled first. */
  lemma {:induction false} SurvivingShift(image: seq<Byte>, dirty: seq<Mutation>, n: nat, node: nat,
                                          budget: Option<nat>, rest: Option<nat>)
    requires 1 <= n <= |dirty|
    requires if budget.None? then rest == None
             else rest == Some(if budget.value > ByteCount(dirty[0]) then budget.value - ByteCount(dirty[0]) else 0)
    ensures Surviving(image, dirty, n, node, budget) ==
            Surviving(Surviving(image, dirty, 1, node, budget), dirty[1..], n - 1, node, rest)
  {
    hide ByteCount, ApplyPrefix, Reached, Kept;
    if n > 1 {
      SurvivingShift(image, dirty, n - 1, node, budget, rest);
      ReachedLater(dirty, n - 1, budget, rest);
      assert dirty[1..][n - 2] == dirty[n - 1];
    }
  }

  lemma {:induction false} NothingSurvives(image: seq<Byte>, dirty: seq<Mutation>, n: nat, node: nat)
    requires n <= |dirty|
    ensures Surviving(image, dirty, n, node, Some(0)) == image
  {
    if n > 0 { NothingSurvives(image, dirty, n - 1, node); }
  }

  /** One step of the crash settles the oldest change. */
  lemma FirstSettled(images: map<nat, seq<Byte>>, dirty: seq<Mutation>, budget: Option<nat>, x: nat)
    requires x in images && dirty != [] && budget != Some(0)
    ensures var m, keep := dirty[0], Kept(dirty, 0, budget);
      var image := if m.node in images then images[m.node] else [];
      var next := images[m.node := ApplyPrefix(m, image, keep)];
      && keep == (if budget.Some? && budget.value < ByteCount(m) then budget.value else ByteCount(m))
      && next[x] == Surviving(images[x], dirty, 1, x, budget)
  {
    hide ApplyPrefix, ByteCount;
    assert BytesBefore(dirty, 0) == 0 && Reached(dirty, 0, budget);
    assert Surviving(images[x], dirty, 0, x, budget) == images[x];
  }

  /** Every file survives a crash with its synced bytes and exactly the kept bytes of its unsynced changes. */
  lemma {:induction false} SurviveIs(images: map<nat, seq<Byte>>, dirty: seq<Mutation>, budget: Option<nat>, x: nat)
    requires x in images
    ensures x in Survive(images, dirty, budget)
    ensures Survive(images, dirty, budget)[x] == Surviving(images[x], dirty, |dirty|, x, budget)
    decreases |dirty|
  {
    hide ApplyPrefix, ByteCount, Surviving, Kept;
    if dirty == [] {
      NoChange(images[x], dirty, x, budget);
    } else if budget == Some(0) {
      NothingSurvives(images[x], dirty, |dirty|, x);
    } else {
      var m := dirty[0];
      var available := ByteCount(m);
      var keep := if budget.Some? && budget.value < available then budget.value else available;
      var image := if m.node in images then images[m.node] else [];
      var next := images[m.node := ApplyPrefix(m, image, keep)];
      var rest := if budget.Some? then Some(budget.value - keep) else None;
      FirstSettled(images, dirty, budget, x);
      SurvivingShift(images[x], dirty, |dirty|, x, budget, rest);
      if keep == available { SurviveIs(next, dirty[1..], rest, x); }
      else { NothingSurvives(next[x], dirty[1..], |dirty| - 1, x); }
    }
  }

  lemma NoChange(image: seq<Byte>, dirty: seq<Mutation>, x: nat, budget: Option<nat>)
    ensures Surviving(image, dirty, 0, x, budget) == image
  {}

  lemma {:induction false} SurvivingUntouched(image: seq<Byte>, dirty: seq<Mutation>, n: nat, x: nat,
                                              budget: Option<nat>)
    requires n <= |dirty| && forall i :: 0 <= i < n ==> dirty[i].node != x
    ensures Surviving(image, dirty, n, x, budget) == image
  {
    if n > 0 { SurvivingUntouched(image, dirty, n - 1, x, budget); }
  }

  /** A file with no unsynced change keeps its synced bytes. */
  lemma SurviveUntouched(images: map<nat, seq<Byte>>, dirty: seq<Mutation>, budget: Option<nat>, x: nat)
    requires x in images && forall m :: m in dirty ==> m.node != x
    ensures x in Survive(images, dirty, budget) && Survive(images, dirty, budget)[x] == images[x]
  {
    hide Survive;
    SurviveIs(images, dirty, budget, x);
    SurvivingUntouched(images[x], dirty, |dirty|, x, budget);
  }

  /** Change i is the only unsynced one of its file. */
  ghost predicate OnlyAt(dirty: seq<Mutation>, i: nat) {
    i < |dirty| && forall j :: 0 <= j < |dirty| && j != i ==> dirty[j].node != dirty[i].node
  }

  /** The mutation is the only unsynced one of its file. */
  ghost predicate OnlyChange(dirty: seq<Mutation>, m: Mutation) {
    exists i :: 0 <= i < |dirty| && dirty[i] == m && OnlyAt(dirty, i)
  }

  lemma {:induction false} SurvivingOne(image: seq<Byte>, dirty: seq<Mutation>, n: nat, i: nat, budget: Option<nat>)
    requires OnlyAt(dirty, i) && i < n <= |dirty|
    ensures Surviving(image, dirty, n, dirty[i].node, budget) ==
            if Reached(dirty, i, budget) then ApplyPrefix(dirty[i], image, Kept(dirty, i, budget)) else image
  {
    hide ApplyPrefix, Reached, Kept;
    if n == i + 1 {
      SurvivingUntouched(image, dirty, i, dirty[i].node, budget);
    } else {
      SurvivingOne(image, dirty, n - 1, i, budget);
    }
  }

  /**
   A file with one unsynced change, number i, survives with the bytes of that change the budget
   still pays for after the changes before it, and with all of them if there is no budget.
   */
  lemma SurviveOne(images: map<nat, seq<Byte>>, dirty: seq<Mutation>, budget: Option<nat>, i: nat)
    requires OnlyAt(dirty, i) && dirty[i].node in images
    ensures var after, m := Survive(images, dirty, budget), dirty[i];
      && m.node in after
      && after[m.node] == if Reached(dirty, i, budget) then ApplyPrefix(m, images[m.node], Kept(dirty, i, budget))
                          else images[m.node]
  {
    hide Survive, ApplyPrefix, Reached, Kept;
    SurviveIs(images, dirty, budget, dirty[i].node);
    SurvivingOne(images[dirty[i].node], dirty, |dirty|, i, budget);
  }

  // ----- What an operation must sync to survive -----

  /** A name made or removed since the directory was last synced is undone by a crash, one synced is kept. */
  lemma CrashUndoesNames(fs: Fs, name: nat, node: nat, budget: Option<nat>)
    ensures name !in fs.names ==> name !in Crashed(Created(fs, name, node), budget).live
    ensures name in fs.names ==>
      var live := Crashed(Removed(fs, name), budget).live; name in live && live[name] == fs.names[name]
    ensures Crashed(DirSynced(Created(fs, name, node)), budget).live == fs.live[name := node]
    ensures name !in Crashed(DirSynced(Removed(fs, name)), budget).live
  {
    hide Survive;
  }

  /** A crash keeps of an append to a synced file just the bytes paid for; after a sync it keeps them all. */
  lemma CrashTearsAppend(fs: Fs, node: nat, data: seq<Byte>, budget: Option<nat>)
    requires node in fs.nodes && node in fs.names.Values && fs.nodes[node].durable == fs.nodes[node].data
    requires forall m :: m in fs.dirty ==> m.node != node
    ensures var old_, wrote := fs.nodes[node].data, Written(fs, node, |fs.nodes[node].data|, data);
      var unsynced, synced := Crashed(wrote, budget), Crashed(Synced(wrote, node), budget);
      && node in unsynced.nodes && node in synced.nodes
      && unsynced.nodes[node].data == old_ + data[..Paid(BytesBefore(fs.dirty, |fs.dirty|), |data|, budget)]
      && synced.nodes[node].data == old_ + data
  {
    hide Survive;
    var old_ := fs.nodes[node].data;
    AppendIsOverwrite(old_, data);
    var wrote := Written(fs, node, |old_|, data);
    SurviveUntouched(Platter(Synced(wrote, node)), Synced(wrote, node).dirty, budget, node);
    if data == [] {
      SurviveUntouched(Platter(fs), fs.dirty, budget, node);
      assert Platter(wrote) == Platter(fs);
    } else {
      var i := |fs.dirty|;
      SurviveOne(Platter(wrote), wrote.dirty, budget, i);
      SameBytesBefore(fs.dirty, wrote.dirty, i);
      AppendIsOverwrite(old_, data[..Paid(BytesBefore(fs.dirty, |fs.dirty|), |data|, budget)]);
    }
  }

  lemma {:induction false} SameBytesBefore(a: seq<Mutation>, b: seq<Mutation>, i: nat)
    requires i <= |a| && i <= |b| && a[..i] == b[..i]
    ensures BytesBefore(a, i) == BytesBefore(b, i)
  {
    if i > 0 {
      assert a[i - 1] == a[..i][i - 1] && b[i - 1] == b[..i][i - 1];
      assert a[..i - 1] == a[..i][..i - 1] && b[..i - 1] == b[..i][..i - 1];
      SameBytesBefore(a, b, i - 1);
    }
  }

  // ----- The file system, updated in place -----

  /** A scheduled failure of one operation: it has no effect or its effect, and may be a crash. */
  datatype Fault =
    | NoFault | ErrorBefore | ErrorAfter
    | CrashBefore(budget: Option<nat>) | CrashAfter(budget: Option<nat>)

  datatype Status = Fine | Error | Dead | Absent

  function Faulted(before: Fs, after: Fs, fault: Fault): Fs {
    match fault
    case NoFault => after
    case ErrorBefore => before
    case ErrorAfter => after
    case CrashBefore(b) => Crashed(before, b)
    case CrashAfter(b) => Crashed(after, b)
  }

  function StatusOf(fault: Fault): Status {
    if fault == NoFault then Fine else if fault.ErrorBefore? || fault.ErrorAfter? then Error else Dead
  }

  /**
   An operation can fail without its effect or after it, with an error or a crash that keeps any
   number of unsynced bytes, and only without a fault does it report success.
   */
  lemma EveryFailureOccurs(before: Fs, after: Fs, budget: Option<nat>)
    ensures exists f :: Faulted(before, after, f) == before && StatusOf(f) == Error
    ensures exists f :: Faulted(before, after, f) == after && StatusOf(f) == Error
    ensures exists f :: Faulted(before, after, f) == Crashed(before, budget) && StatusOf(f) == Dead
    ensures exists f :: Faulted(before, after, f) == Crashed(after, budget) && StatusOf(f) == Dead
    ensures forall f :: StatusOf(f) == Fine ==> Faulted(before, after, f) == after
    ensures Faulted(before, after, NoFault) == after && StatusOf(NoFault) == Fine
  {
    hide Crashed;
    assert Faulted(before, after, ErrorBefore) == before && StatusOf(ErrorBefore) == Error;
    assert Faulted(before, after, ErrorAfter) == after && StatusOf(ErrorAfter) == Error;
    var early, late := CrashBefore(budget), CrashAfter(budget);
    assert Faulted(before, after, early) == Crashed(before, budget) && StatusOf(early) == Dead;
    assert Faulted(before, after, late) == Crashed(after, budget) && StatusOf(late) == Dead;
  }

  /** Every name a crash can leave live. */
  ghost function Names(fs: Fs): set<nat> { fs.live.Keys + fs.names.Keys }

  lemma FaultNames(before: Fs, after: Fs, fault: Fault)
    ensures Names(Faulted(before, after, fault)) <= Names(before) + Names(after)
  {
    hide Survive;
  }

  class SimFS {
    var nodes: map<nat, Inode>
    var live: map<nat, nat>
    var names: map<nat, nat>
    var dirty: seq<Mutation>
    var crashed: bool
    var nextNode: nat

    function State(): Fs
      reads this
    {
      Fs(nodes, live, names, dirty)
    }

    ghost predicate Valid()
      reads this
    {
      forall x :: x in nodes ==> x < nextNode
    }

    /** What an operation leaves: nothing on a dead file system, else its effect or a crash. */
    twostate predicate Did(effect: Fs, fault: Fault, status: Status)
      reads this
    {
      if old(crashed) then State() == old(State()) && crashed && status == Dead
      else State() == Faulted(old(State()), effect, fault) && status == StatusOf(fault) && crashed == (status == Dead)
    }

    constructor ()
      ensures Valid() && !crashed && State() == Fs(map[], map[], map[], [])
    {
      nodes, live, names, dirty, crashed, nextNode := map[], map[], map[], [], false, 0;
    }

    method Crash(budget: Option<nat>)
      requires Valid()
      modifies this`nodes, this`live, this`dirty, this`crashed
      ensures Valid() && crashed && State() == Crashed(old(State()), budget)
    {
      hide ApplyPrefix;
      var images: map<nat, seq<Byte>> := Platter(State());
      var left, i := budget, 0;
      assert dirty[0..] == dirty;
      while i < |dirty| && left != Some(0)
        invariant i <= |dirty| && State() == old(State())
        invariant Survive(Platter(old(State())), dirty, budget) == Survive(images, dirty[i..], left)
        decreases |dirty| - i
      {
        var m := dirty[i];
        assert dirty[i..][0] == m && dirty[i..][1..] == dirty[i + 1..];
        var available := ByteCount(m);
        var keep := if left.Some? && left.value < available then left.value else available;
        var image := if m.node in images then images[m.node] else [];
        images := images[m.node := ApplyPrefix(m, image, keep)];
        if keep != available { break; }
        if left.Some? {
          left := Some(left.value - keep);
        }
        i := i + 1;
      }
      assert images == Survive(Platter(old(State())), dirty, budget);
      nodes := map x | x in nodes :: if x in names.Values && x in images then Inode(images[x], images[x]) else nodes[x];
      live, dirty, crashed := names, [], true;
    }
  
    /** The surviving platter is made available again. */
    method Recover() returns (ok: bool)
      modifies this`crashed
      ensures ok == old(crashed) && !crashed
    {
      ok := crashed;
      crashed := false;
    }

    method Create(name: nat, fault: Fault) returns (status: Status, node: nat)
      requires Valid()
      modifies this
      ensures Valid()
      ensures !old(crashed) && name !in old(live) ==>
        node !in old(nodes) && Did(Created(old(State()), name, node), fault, status)
      ensures crashed == (status == Dead)
      ensures old(crashed) || name in old(live) ==>
        && status != Fine
        && (State() == old(State()) || (fault.CrashBefore? && State() == Crashed(old(State()), fault.budget)))
    {
      hide Crashed;
      node := nextNode;
      if crashed { return Dead, node; }
      if fault.ErrorBefore? { return Error, node; }
      if fault.CrashBefore? { Crash(fault.budget); return Dead, node; }
      if name in live { return Error, node; }
      nextNode := nextNode + 1;
      nodes, live := nodes[node := Inode([], [])], live[name := node];
      status := After(fault);
    }

    method Append(node: nat, offset: nat, data: seq<Byte>, fault: Fault) returns (status: Status)
      requires Valid() && node in nodes
      modifies this
      ensures Valid() && Did(Written(old(State()), node, offset, data), fault, status)
    {
      hide Crashed, Overwrite;
      if crashed { return Dead; }
      if fault.ErrorBefore? { return Error; }
      if fault.CrashBefore? { Crash(fault.budget); return Dead; }
      if |data| > 0 {
        dirty := dirty + [Write(node, offset, data)];
      }
      nodes := nodes[node := nodes[node].(data := Overwrite(nodes[node].data, offset, data))];
      status := After(fault);
    }

    method Sync(node: nat, fault: Fault) returns (status: Status)
      requires Valid() && node in nodes
      modifies this
      ensures Valid() && Did(Synced(old(State()), node), fault, status)
    {
      hide Crashed;
      if crashed { return Dead; }
      if fault.ErrorBefore? { return Error; }
      if fault.CrashBefore? { Crash(fault.budget); return Dead; }
      nodes := nodes[node := Inode(nodes[node].data, nodes[node].data)];
      var retained: seq<Mutation> := [];
      for i := 0 to |dirty|
        invariant retained == Clean(dirty[..i], node)
      {
        assert dirty[..i + 1][..i] == dirty[..i];
        if dirty[i].node != node {
          retained := retained + [dirty[i]];
        }
      }
      assert dirty[..|dirty|] == dirty;
      dirty := retained;
      status := After(fault);
    }

    method SyncDir(fault: Fault) returns (status: Status)
      requires Valid()
      modifies this
      ensures Valid() && Did(DirSynced(old(State())), fault, status)
    {
      hide Crashed;
      if crashed { return Dead; }
      if fault.ErrorBefore? { return Error; }
      if fault.CrashBefore? { Crash(fault.budget); return Dead; }
      names := live;
      status := After(fault);
    }

    /** Drops a live name; a name that is not there is reported and nothing changes. */
    method Remove(name: nat, fault: Fault) returns (status: Status)
      requires Valid()
      modifies this
      ensures Valid() && crashed == (status == Dead)
      ensures name in old(live) || old(crashed) ==> Did(Removed(old(State()), name), fault, status)
      ensures name !in old(live) && !old(crashed) ==>
        if fault.CrashBefore? then State() == Crashed(old(State()), fault.budget) && status == Dead
        else State() == old(State()) && status == if fault.ErrorBefore? then Error else Absent
    {
      hide Crashed;
      if crashed { return Dead; }
      if fault.ErrorBefore? { return Error; }
      if fault.CrashBefore? { Crash(fault.budget); return Dead; }
      if name !in live { return Absent; }
      live := live - {name};
      status := After(fault);
    }

    /** Stat, Open, Read, List and Close: they change nothing, and may fail or crash like any other. */
    method Inspect(fault: Fault) returns (status: Status)
      requires Valid()
      modifies this
      ensures Valid() && Did(old(State()), fault, status)
    {
      hide Crashed;
      if crashed { return Dead; }
      if fault.ErrorBefore? { return Error; }
      if fault.CrashBefore? { Crash(fault.budget); return Dead; }
      status := After(fault);
    }

    method Truncate_(node: nat, size: nat, fault: Fault) returns (status: Status)
      requires Valid() && node in nodes
      modifies this
      ensures Valid() && Did(Resized(old(State()), node, size), fault, status)
    {
      hide Crashed, Resize;
      if crashed { return Dead; }
      if fault.ErrorBefore? { return Error; }
      if fault.CrashBefore? { Crash(fault.budget); return Dead; }
      if size != |nodes[node].data| {
        dirty := dirty + [Truncate(node, |nodes[node].data|, size)];
      }
      nodes := nodes[node := nodes[node].(data := Resize(nodes[node].data, size))];
      status := After(fault);
    }

    /** The failure that follows an operation's effect. */
    method After(fault: Fault) returns (status: Status)
      requires Valid() && !crashed && !fault.ErrorBefore? && !fault.CrashBefore?
      modifies this`nodes, this`live, this`dirty, this`crashed
      ensures Valid() && status == StatusOf(fault) && crashed == (status == Dead)
      ensures State() == if fault.CrashAfter? then Crashed(old(State()), fault.budget) else old(State())
    {
      hide Crashed;
      if fault.CrashAfter? {
        Crash(fault.budget);
        return Dead;
      }
      return if fault.ErrorAfter? then Error else Fine;
    }
  }
}
