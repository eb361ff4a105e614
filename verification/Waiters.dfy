/**
 Requests waiting for their proposal to commit. A run of registrations, cancellations, commits
 and a fail-stop is read two ways: by the desk that keeps every waiter, and by each waiter's own
 `Fate` over the events that follow its registration. The two agree on every run.
 */
module Waiters {
  import opened RaftTypes
  import opened KvMachine
  import opened StateMachine
  import opened SimFs

  /** The log position a request proposed at. */
  datatype Slot = Slot(index: nat, term: nat)

  datatype Outcome = Answer(result: Result) | Stale | Failed(error: string)

  datatype Event =
    | Register(slot: Slot) | Cancel(slot: Slot)
    | Commit(slot: Slot, result: Result) | FailStop(error: string)

  datatype Waiter = Waiter(slot: Slot, mail: seq<Outcome>)

  /** Every waiter ever registered, and which of them each slot still leads to. */
  datatype Desk = Desk(waiting: map<Slot, nat>, waiters: seq<Waiter>)

  const EMPTY := Desk(map[], [])

  /** The event takes whoever waits at the slot off the desk. */
  predicate Ends(e: Event, slot: Slot) {
    match e
    case Register(at) => at == slot
    case Cancel(at) => at == slot
    case Commit(at, _) => at.index == slot.index
    case FailStop(_) => true
  }

  /** What a waiter at the slot is sent by the event. */
  function Verdict(e: Event, slot: Slot): (mail: seq<Outcome>)
    ensures |mail| <= 1 && (mail != [] ==> Ends(e, slot))
  {
    match e
    case Register(_) => []
    case Cancel(_) => []
    case Commit(at, result) =>
      if at == slot then [Answer(result)] else if at.index == slot.index then [Stale] else []
    case FailStop(error) => [Failed(error)]
  }

  predicate Holds(d: Desk, n: nat) {
    n < |d.waiters| && d.waiters[n].slot in d.waiting && d.waiting[d.waiters[n].slot] == n
  }

  function Mail(d: Desk, e: Event, n: nat): Waiter
    requires n < |d.waiters|
  {
    if Holds(d, n) then d.waiters[n].(mail := d.waiters[n].mail + Verdict(e, d.waiters[n].slot)) else d.waiters[n]
  }

  function Step(d: Desk, e: Event): Desk {
    if e.Register? then Desk(d.waiting[e.slot := |d.waiters|], d.waiters + [Waiter(e.slot, [])])
    else Desk(map s | s in d.waiting && !Ends(e, s) :: d.waiting[s],
              seq(|d.waiters|, n requires 0 <= n < |d.waiters| => Mail(d, e, n)))
  }

  function Run(d: Desk, events: seq<Event>): Desk
    decreases |events|
  {
    if events == [] then d else Run(Step(d, events[0]), events[1..])
  }

  /** What a waiter hears, told from the events after its registration alone. */
  function Fate(events: seq<Event>, slot: Slot): seq<Outcome> {
    if events == [] then []
    else if Ends(events[0], slot) then Verdict(events[0], slot)
    else Fate(events[1..], slot)
  }

  ghost predicate Pending(events: seq<Event>, slot: Slot) { forall i :: 0 <= i < |events| ==> !Ends(events[i], slot) }

  /** The first event to end a wait at the slot is number k. */
  ghost predicate EndsFirst(events: seq<Event>, slot: Slot, k: nat) {
    k < |events| && Ends(events[k], slot) && Pending(events[..k], slot)
  }

  lemma {:induction false} RunConcat(d: Desk, a: seq<Event>, b: seq<Event>)
    ensures Run(d, a + b) == Run(Run(d, a), b)
    decreases |a|
  {
    if a == [] {
      assert a + b == b;
    } else {
      assert (a + b)[1..] == a[1..] + b;
      RunConcat(Step(d, a[0]), a[1..], b);
    }
  }

  /** Once off the desk, a waiter hears nothing more, whoever registers at its slot later. */
  lemma {:induction false} GoneStaysGone(d: Desk, events: seq<Event>, n: nat)
    requires n < |d.waiters| && !Holds(d, n)
    ensures n < |Run(d, events).waiters| && Run(d, events).waiters[n] == d.waiters[n] && !Holds(Run(d, events), n)
    decreases |events|
  {
    if events != [] { GoneStaysGone(Step(d, events[0]), events[1..], n); }
  }

  lemma {:induction false} FateFrom(d: Desk, events: seq<Event>, n: nat)
    requires Holds(d, n) && d.waiters[n].mail == []
    ensures var after, slot := Run(d, events), d.waiters[n].slot;
      && n < |after.waiters| && after.waiters[n] == Waiter(slot, Fate(events, slot))
      && (Holds(after, n) <==> Pending(events, slot))
    decreases |events|
  {
    if events != [] {
      var slot, next, rest := d.waiters[n].slot, Step(d, events[0]), events[1..];
      if Ends(events[0], slot) {
        GoneStaysGone(next, rest, n);
      } else {
        FateFrom(next, rest, n);
        assert Pending(events, slot) <==> Pending(rest, slot) by {
          assert forall i :: 1 <= i < |events| ==> events[i] == rest[i - 1];
        }
      }
    }
  }

  /** The number a registration gives out. */
  function Registered(events: seq<Event>): nat {
    if events == [] then 0 else Registered(events[..|events| - 1]) + if events[|events| - 1].Register? then 1 else 0
  }

  lemma {:induction false} RunCounts(events: seq<Event>)
    ensures |Run(EMPTY, events).waiters| == Registered(events)
    decreases |events|
  {
    if events != [] {
      var k := |events| - 1;
      RunCounts(events[..k]);
      RunConcat(EMPTY, events[..k], [events[k]]);
      assert events[..k] + [events[k]] == events;
    }
  }

  /** Over every run, a waiter's mail is its fate, and it still waits exactly when nothing ended its wait. */
  lemma DeskKeepsEveryFate(events: seq<Event>, i: nat)
    requires i < |events| && events[i].Register?
    ensures var d, n, rest := Run(EMPTY, events), Registered(events[..i]), events[i + 1..];
      && n < |d.waiters| && d.waiters[n] == Waiter(events[i].slot, Fate(rest, events[i].slot))
      && (Holds(d, n) <==> Pending(rest, events[i].slot))
  {
    var before, at := Run(EMPTY, events[..i]), events[i];
    RunCounts(events[..i]);
    RunConcat(EMPTY, events[..i], events[i..]);
    assert events[..i] + events[i..] == events && events[i..][0] == at && events[i..][1..] == events[i + 1..];
    FateFrom(Step(before, at), events[i + 1..], |before.waiters|);
  }

  lemma {:induction false} FateIsVerdict(events: seq<Event>, slot: Slot, k: nat)
    requires EndsFirst(events, slot, k)
    ensures Fate(events, slot) == Verdict(events[k], slot)
    decreases k
  {
    if k > 0 {
      assert !Ends(events[..k][0], slot);
      assert events[1..][..k - 1] == events[..k][1..];
      FateIsVerdict(events[1..], slot, k - 1);
    }
  }

  lemma {:induction false} PendingOrEnds(events: seq<Event>, slot: Slot) returns (k: nat)
    ensures Pending(events, slot) ==> Fate(events, slot) == []
    ensures !Pending(events, slot) ==> EndsFirst(events, slot, k)
    decreases |events|
  {
    k := 0;
    if events != [] && !Ends(events[0], slot) {
      k := PendingOrEnds(events[1..], slot);
      k := k + 1;
      assert forall i :: 1 <= i < |events| ==> events[i] == events[1..][i - 1];
      if !Pending(events, slot) {
        assert forall i :: 1 <= i < k ==> events[..k][i] == events[1..][..k - 1][i - 1];
      }
    }
  }

  /** The event settles a wait at the slot, one way or another. */
  ghost predicate Settles(e: Event, slot: Slot) {
    e == Register(slot) || e == Cancel(slot) || (e.Commit? && e.slot.index == slot.index) || e.FailStop?
  }

  /** Event k is the first after event i to settle a wait at the slot. */
  ghost predicate SettlesFirst(events: seq<Event>, i: nat, k: nat, slot: Slot) {
    i < k < |events| && Settles(events[k], slot) && forall j :: i < j < k ==> !Settles(events[j], slot)
  }

  /** The mail of a waiter at the slot whose wait was settled by e. */
  ghost predicate Told(mail: seq<Outcome>, e: Event, slot: Slot) {
    && (forall r :: mail == [Answer(r)] <==> e == Commit(slot, r))
    && (mail == [Stale] <==> e.Commit? && e.slot.index == slot.index && e.slot.term != slot.term)
    && (forall error :: mail == [Failed(error)] <==> e == FailStop(error))
    && (mail == [] <==> e == Register(slot) || e == Cancel(slot))
  }

  /**
   On any run a waiter is sent at most one outcome, by the first event that settles its wait: its
   result exactly when its own index and term commit, a stale notice exactly when another term
   commits there, the error exactly when the node stops on it, and nothing exactly when it is
   cancelled or its slot registered again. Until then it waits and has heard nothing.
   */
  lemma DeliveredOnce(events: seq<Event>, i: nat)
    requires i < |events| && events[i].Register?
    ensures var slot, d, n := events[i].slot, Run(EMPTY, events), Registered(events[..i]);
      && n < |d.waiters| && |d.waiters[n].mail| <= 1
      && (|d.waiters[n].mail| == 1 <==>
            exists k: nat :: SettlesFirst(events, i, k, slot) && (events[k].Commit? || events[k].FailStop?))
      && (forall k: nat :: SettlesFirst(events, i, k, slot) ==>
            Told(d.waiters[n].mail, events[k], slot) && !Holds(d, n))
      && ((forall k :: i < k < |events| ==> !Settles(events[k], slot)) ==> d.waiters[n].mail == [] && Holds(d, n))
  {
    hide Run, Registered, Holds, Pending, EndsFirst, Fate, Verdict, Settles, Told;
    var slot, rest := events[i].slot, events[i + 1..];
    DeskKeepsEveryFate(events, i);
    var first := PendingOrEnds(rest, slot);
    forall k: nat | SettlesFirst(events, i, k, slot)
      ensures Fate(rest, slot) == Verdict(events[k], slot) && !Pending(rest, slot)
      ensures Told(Verdict(events[k], slot), events[k], slot)
    {
      FirstEnds(events, i, k, slot);
      FateIsVerdict(rest, slot, k - i - 1);
      EndedNotPending(rest, slot, k - i - 1);
      VerdictTells(events, i, k, slot);
    }
    if Pending(rest, slot) {
      StillPending(events, i, slot);
    } else {
      SettledBy(events, i, first, slot);
      VerdictTells(events, i, i + 1 + first, slot);
      TellsOne(Verdict(events[i + 1 + first], slot), events[i + 1 + first], slot);
    }
  }

  lemma EndedNotPending(events: seq<Event>, slot: Slot, k: nat)
    requires EndsFirst(events, slot, k)
    ensures !Pending(events, slot)
  {}

  lemma VerdictTells(events: seq<Event>, i: nat, k: nat, slot: Slot)
    requires SettlesFirst(events, i, k, slot)
    ensures Told(Verdict(events[k], slot), events[k], slot)
  {}

  lemma TellsOne(mail: seq<Outcome>, e: Event, slot: Slot)
    requires Told(mail, e, slot) && Settles(e, slot)
    ensures |mail| == 1 <==> e.Commit? || e.FailStop?
  {
    match e
    case Register(_) =>
    case Cancel(_) =>
    case Commit(at, result) =>
      if at == slot { assert mail == [Answer(result)]; } else { assert mail == [Stale]; }
    case FailStop(error) => assert mail == [Failed(error)];
  }

  lemma StillPending(events: seq<Event>, i: nat, slot: Slot)
    requires i < |events| && Pending(events[i + 1..], slot)
    ensures forall k :: i < k < |events| ==> !Settles(events[k], slot)
  {
    forall k | i < k < |events| ensures !Settles(events[k], slot) { assert events[k] == events[i + 1..][k - i - 1]; }
  }

  lemma FirstEnds(events: seq<Event>, i: nat, k: nat, slot: Slot)
    requires SettlesFirst(events, i, k, slot)
    ensures EndsFirst(events[i + 1..], slot, k - i - 1) && events[i + 1..][k - i - 1] == events[k]
  {
    var before := events[i + 1..][..k - i - 1];
    forall j | 0 <= j < |before| ensures !Ends(before[j], slot) { assert !Settles(events[i + 1 + j], slot); }
  }

  lemma SettledBy(events: seq<Event>, i: nat, k: nat, slot: Slot)
    requires i < |events| && EndsFirst(events[i + 1..], slot, k)
    ensures SettlesFirst(events, i, i + 1 + k, slot)
  {
    var rest := events[i + 1..];
    forall j | i < j < i + 1 + k ensures !Settles(events[j], slot) { assert rest[..k][j - i - 1] == events[j]; }
  }

  /** With each slot registered once, only its own cancellation can leave a waiter unheard. */
  lemma NobodyStranded(events: seq<Event>, i: nat, j: nat) returns (k: nat)
    requires i < j < |events| && events[i].Register?
    requires events[j].FailStop? || (events[j].Commit? && events[j].slot.index == events[i].slot.index)
    requires forall k :: i < k < j ==> events[k] != Register(events[i].slot) && events[k] != Cancel(events[i].slot)
    ensures var d, n := Run(EMPTY, events), Registered(events[..i]);
      && n < |d.waiters| && |d.waiters[n].mail| == 1 && !Holds(d, n)
      && SettlesFirst(events, i, k, events[i].slot) && k <= j && Told(d.waiters[n].mail, events[k], events[i].slot)
  {
    hide Run, Registered, Holds, Told;
    DeliveredOnce(events, i);
    k := FirstToSettle(events, i, j, events[i].slot);
  }

  lemma FirstToSettle(events: seq<Event>, i: nat, j: nat, slot: Slot) returns (k: nat)
    requires i < j < |events| && Settles(events[j], slot)
    ensures SettlesFirst(events, i, k, slot) && k <= j
  {
    k := i + 1;
    while !Settles(events[k], slot)
      invariant i < k <= j && forall m :: i < m < k ==> !Settles(events[m], slot)
      decreases j - k
    {
      k := k + 1;
    }
  }

  /** Registering at a slot somebody waits at strands the earlier waiter, whatever happens next. */
  lemma SecondRegistrationStrands(slot: Slot, events: seq<Event>)
    ensures var d := Run(EMPTY, [Register(slot), Register(slot)] + events);
      |d.waiters| >= 2 && d.waiters[0] == Waiter(slot, []) && !Holds(d, 0)
  {
    var all := [Register(slot), Register(slot)] + events;
    DeskKeepsEveryFate(all, 0);
    assert Ends(all[1..][0], slot);
    RunConcat(EMPTY, [Register(slot), Register(slot)], events);
    var d := Step(Step(EMPTY, Register(slot)), Register(slot));
    assert Run(EMPTY, [Register(slot), Register(slot)]) == d by {
      assert [Register(slot), Register(slot)][1..] == [Register(slot)] && [Register(slot)][1..] == [];
      assert Run(Step(EMPTY, Register(slot)), [Register(slot)]) == Run(d, []);
    }
    GoneStaysGone(d, events, 0);
    assert d.waiters[1].slot == slot;
    if Holds(d, 1) { KeepsWaiters(d, events); }
  }

  lemma {:induction false} KeepsWaiters(d: Desk, events: seq<Event>)
    ensures |Run(d, events).waiters| >= |d.waiters|
    decreases |events|
  {
    if events != [] { KeepsWaiters(Step(d, events[0]), events[1..]); }
  }

  /** The buffered channel one outcome travels on. */
  class Channel {
    var mail: seq<Outcome>

    constructor ()
      ensures mail == []
    {
      mail := [];
    }

    /** A send on a full channel would block. */
    method Send(o: Outcome)
      requires mail == []
      modifies this
      ensures mail == [o]
    {
      mail := [o];
    }
  }

  /** Waiting slots lead to their waiters, who have heard nothing yet. */
  ghost predicate Sound(d: Desk) {
    forall s :: s in d.waiting ==> d.waiting[s] < |d.waiters| && d.waiters[d.waiting[s]] == Waiter(s, [])
  }

  ghost predicate Distinct(channels: seq<Channel>) {
    forall i, j :: 0 <= i < j < |channels| ==> channels[i] != channels[j]
  }

  /** The per-index term sets list exactly the waiting slots, and none is empty. */
  ghost predicate Indexed(byIndex: map<nat, set<nat>>, slots: set<Slot>) {
    && (forall s :: s in slots ==> s.index in byIndex && s.term in byIndex[s.index])
    && forall i :: i in byIndex ==> byIndex[i] != {} && forall t :: t in byIndex[i] ==> Slot(i, t) in slots
  }

  /** Waiters no longer in `left` have been sent the event's verdict. */
  ghost predicate Delivered(channels: seq<Channel>, d: Desk, e: Event, left: set<Slot>)
    reads channels
  {
    && |channels| == |d.waiters|
    && forall n :: 0 <= n < |channels| ==>
         channels[n].mail == if d.waiters[n].slot in left then d.waiters[n].mail else Mail(d, e, n).mail
  }

  ghost predicate Mirrors(channels: seq<Channel>, d: Desk)
    reads channels
  {
    |channels| == |d.waiters| && forall n :: 0 <= n < |channels| ==> channels[n].mail == d.waiters[n].mail
  }

  ghost predicate Placed(waiters: map<Slot, Channel>, channels: seq<Channel>, d: Desk) {
    forall s :: s in waiters ==> s in d.waiting && d.waiting[s] < |channels| && waiters[s] == channels[d.waiting[s]]
  }

  lemma StepSound(d: Desk, e: Event)
    requires Sound(d)
    ensures Sound(Step(d, e)) && (!e.Register? ==> Step(d, e).waiting.Keys == set s | s in d.waiting && !Ends(e, s))
  {}

  /** Of the waiters that ever registered at the slot, only the one on the desk is sent the outcome. */
  lemma MailOne(d: Desk, e: Event, slot: Slot, o: Outcome)
    requires Sound(d) && slot in d.waiting && Verdict(e, slot) == [o]
    ensures var n := d.waiting[slot];
      && n < |d.waiters| && d.waiters[n] == Waiter(slot, []) && Mail(d, e, n).mail == [o]
      && forall m :: 0 <= m < |d.waiters| && m != n && d.waiters[m].slot == slot ==> Mail(d, e, m) == d.waiters[m]
  {
    hide Verdict;
  }

  lemma NoneDelivered(channels: seq<Channel>, d: Desk, e: Event)
    requires Mirrors(channels, d)
    ensures Delivered(channels, d, e, d.waiting.Keys)
  {}

  /** When everyone the event ends has been served, the channels are the next desk's. */
  lemma AllDelivered(channels: seq<Channel>, d: Desk, e: Event, left: set<Slot>)
    requires !e.Register? && Delivered(channels, d, e, left) && forall s :: s in left ==> !Ends(e, s)
    ensures Mirrors(channels, Step(d, e))
  {}

  lemma PlacedStep(waiters: map<Slot, Channel>, channels: seq<Channel>, d: Desk, e: Event)
    requires !e.Register? && Placed(waiters, channels, d) && forall s :: s in waiters ==> !Ends(e, s)
    ensures Placed(waiters, channels, Step(d, e))
  {}

  lemma CancelMirrors(channels: seq<Channel>, d: Desk, slot: Slot)
    requires Mirrors(channels, d)
    ensures Mirrors(channels, Step(d, Cancel(slot)))
  {}

  lemma PlacedLess(waiters: map<Slot, Channel>, channels: seq<Channel>, d: Desk, slot: Slot)
    requires Placed(waiters, channels, d)
    ensures Placed(waiters - {slot}, channels, d)
  {}

  /** A registration adds its channel at the end. */
  lemma RegisterPlaced(waiters: map<Slot, Channel>, channels: seq<Channel>, d: Desk, slot: Slot, ch: Channel)
    requires Placed(waiters, channels, d) && Distinct(channels) && Mirrors(channels, d)
    requires ch !in channels && ch.mail == []
    ensures var next := Step(d, Register(slot));
      && Placed(waiters[slot := ch], channels + [ch], next) && Distinct(channels + [ch])
      && Mirrors(channels + [ch], next)
      && next.waiting.Keys == d.waiting.Keys + {slot}
  {}

  lemma IndexedAdd(byIndex: map<nat, set<nat>>, slots: set<Slot>, slot: Slot)
    requires Indexed(byIndex, slots)
    ensures var terms := if slot.index in byIndex then byIndex[slot.index] else {};
      Indexed(byIndex[slot.index := terms + {slot.term}], slots + {slot})
  {}

  lemma IndexedRemove(byIndex: map<nat, set<nat>>, slots: set<Slot>, slot: Slot)
    requires Indexed(byIndex, slots) && slot.index in byIndex
    ensures var terms := byIndex[slot.index] - {slot.term};
      Indexed(if terms == {} then byIndex - {slot.index} else byIndex[slot.index := terms], slots - {slot})
  {
    var terms := byIndex[slot.index] - {slot.term};
    forall s | s in slots - {slot} ensures s.index == slot.index ==> s.term in terms {
      assert s.index == slot.index && s.term == slot.term ==> s == slot;
    }
  }

  lemma EmptyIndex(byIndex: map<nat, set<nat>>)
    requires Indexed(byIndex, {})
    ensures byIndex == map[]
  {
  }

  /** The slots still to serve while the terms at one index are being resolved. */
  ghost function Left(slots: set<Slot>, index: nat, terms: set<nat>): set<Slot> {
    set s | s in slots && (s.index != index || s.term in terms)
  }

  lemma TermsAt(byIndex: map<nat, set<nat>>, slots: set<Slot>, index: nat)
    requires Indexed(byIndex, slots)
    ensures Left(slots, index, if index in byIndex then byIndex[index] else {}) == slots
  {}

  lemma LeftNext(slots: set<Slot>, index: nat, terms: set<nat>, t: nat)
    ensures Left(slots, index, terms - {t}) == Left(slots, index, terms) - {Slot(index, t)}
  {
    forall s | s in slots && s.index == index && s.term == t ensures s == Slot(index, t) {}
  }

  lemma IndexedDrop(byIndex: map<nat, set<nat>>, slots: set<Slot>, index: nat)
    requires Indexed(byIndex, slots)
    ensures Indexed(byIndex - {index}, Left(slots, index, {}))
    ensures forall s :: s in Left(slots, index, {}) <==> s in slots && s.index != index
  {}

  class KVApplier {
    var waiters: map<Slot, Channel>
    var byIndex: map<nat, set<nat>>
    ghost var desk: Desk
    ghost var channels: seq<Channel>

    ghost predicate Valid()
      reads this, channels
    {
      && Sound(desk) && Distinct(channels) && Mirrors(channels, desk)
      && waiters.Keys == desk.waiting.Keys && Placed(waiters, channels, desk) && Indexed(byIndex, waiters.Keys)
    }

    constructor ()
      ensures Valid() && desk == EMPTY && channels == []
    {
      waiters, byIndex, desk, channels := map[], map[], EMPTY, [];
    }

    method Register(index: nat, term: nat) returns (ch: Channel)
      requires Valid()
      modifies this
      ensures Valid() && desk == Step(old(desk), Event.Register(Slot(index, term)))
      ensures fresh(ch) && channels == old(channels) + [ch]
    {
      hide Indexed, Sound, Step, Distinct, Mirrors, Delivered, Placed;
      ch := new Channel();
      var slot := Slot(index, term);
      IndexedAdd(byIndex, waiters.Keys, slot);
      assert (waiters[slot := ch]).Keys == waiters.Keys + {slot};
      StepSound(desk, Event.Register(slot));
      RegisterPlaced(waiters, channels, desk, slot, ch);
      waiters := waiters[slot := ch];
      var terms := if index in byIndex then byIndex[index] else {};
      byIndex := byIndex[index := terms + {term}];
      desk, channels := Step(desk, Event.Register(slot)), channels + [ch];
    }

    method Cancel(index: nat, term: nat)
      requires Valid()
      modifies this
      ensures Valid() && desk == Step(old(desk), Event.Cancel(Slot(index, term))) && channels == old(channels)
    {
      hide Indexed, Sound, Step, Distinct, Mirrors, Delivered, Placed;
      var slot := Slot(index, term);
      ghost var e := Event.Cancel(slot);
      StepSound(desk, e);
      if slot in waiters {
        assert waiters.Keys == (waiters - {slot}).Keys + {slot};
        PlacedLess(waiters, channels, desk, slot);
        waiters := waiters - {slot};
        RemoveFromIndex(slot);
      }
      CancelMirrors(channels, desk, slot);
      PlacedStep(waiters, channels, desk, e);
      desk := Step(desk, e);
    }

    method RemoveFromIndex(slot: Slot)
      requires Indexed(byIndex, waiters.Keys + {slot}) && slot !in waiters
      modifies this`byIndex
      ensures Indexed(byIndex, waiters.Keys)
    {
      assert slot in waiters.Keys + {slot} && waiters.Keys + {slot} - {slot} == waiters.Keys;
      if slot.index !in byIndex { return; }
      IndexedRemove(byIndex, waiters.Keys + {slot}, slot);
      var terms := byIndex[slot.index] - {slot.term};
      if terms == {} {
        byIndex := byIndex - {slot.index};
      } else {
        byIndex := byIndex[slot.index := terms];
      }
    }

    /** Takes one waiter off the desk and sends it the verdict. */
    method Deliver(slot: Slot, o: Outcome, ghost e: Event)
      requires slot in waiters && Verdict(e, slot) == [o]
      requires Sound(desk) && Distinct(channels)
      requires Placed(waiters, channels, desk) && Delivered(channels, desk, e, waiters.Keys)
      modifies this`waiters, channels
      ensures waiters == old(waiters) - {slot} && old(waiters.Keys) == waiters.Keys + {slot} && slot !in waiters
      ensures Placed(waiters, channels, desk)
      ensures Delivered(channels, desk, e, waiters.Keys)
    {
      hide Verdict, Mail;
      var ch := waiters[slot];
      ghost var n := desk.waiting[slot];
      MailOne(desk, e, slot, o);
      waiters := waiters - {slot};
      ch.Send(o);
      forall m | 0 <= m < |channels|
        ensures channels[m].mail ==
          if desk.waiters[m].slot in waiters.Keys then desk.waiters[m].mail else Mail(desk, e, m).mail
      {
        if m != n { assert channels[m] != channels[n] && channels[m].mail == old(channels[m].mail); }
      }
    }

    /** Everyone the event ends has been served: the desk moves on. */
    ghost method Close(e: Event)
      requires !e.Register? && Sound(desk) && Distinct(channels) && Indexed(byIndex, waiters.Keys)
      requires Placed(waiters, channels, desk) && Delivered(channels, desk, e, waiters.Keys)
      requires waiters.Keys == set s | s in desk.waiting && !Ends(e, s)
      modifies this`desk
      ensures Valid() && desk == Step(old(desk), e)
    {
      hide Indexed, Sound, Step, Distinct, Mirrors, Delivered, Placed;
      StepSound(desk, e);
      AllDelivered(channels, desk, e, waiters.Keys);
      PlacedStep(waiters, channels, desk, e);
      desk := Step(desk, e);
    }

    method FailStop(error: string)
      requires Valid()
      modifies this, channels
      ensures Valid() && desk == Step(old(desk), Event.FailStop(error)) && channels == old(channels)
      ensures waiters == map[] && byIndex == map[]
    {
      hide Indexed, Sound, Step, Distinct, Mirrors, Delivered, Placed;
      ghost var e := Event.FailStop(error);
      StepSound(desk, e);
      NoneDelivered(channels, desk, e);
      while waiters != map[]
        invariant desk == old(desk) && channels == old(channels) && Placed(waiters, channels, desk)
        invariant Delivered(channels, desk, e, waiters.Keys) && Indexed(byIndex, waiters.Keys)
        decreases waiters.Keys
      {
        var slot :| slot in waiters;
        Deliver(slot, Failed(error), e);
        RemoveFromIndex(slot);
      }
      assert waiters.Keys == (set s | s in desk.waiting && !Ends(e, s)) == {};
      EmptyIndex(byIndex);
      Close(e);
    }

    method Fulfill(index: nat, term: nat, result: Result)
      requires Valid()
      modifies this, channels
      ensures Valid() && desk == Step(old(desk), Commit(Slot(index, term), result)) && channels == old(channels)
      ensures index !in byIndex && forall s :: s in waiters ==> s.index != index
    {
      hide Indexed, Sound, Step, Distinct, Mirrors, Delivered, Placed, Left;
      ghost var e := Commit(Slot(index, term), result);
      StepSound(desk, e);
      NoneDelivered(channels, desk, e);
      TermsAt(byIndex, waiters.Keys, index);
      var terms := if index in byIndex then byIndex[index] else {};
      while terms != {}
        invariant desk == old(desk) && channels == old(channels)
        invariant byIndex == old(byIndex) && Placed(waiters, channels, desk)
        invariant Delivered(channels, desk, e, waiters.Keys) && waiters.Keys == Left(desk.waiting.Keys, index, terms)
        decreases terms
      {
        var t :| t in terms;
        var slot := Slot(index, t);
        LeftNext(desk.waiting.Keys, index, terms, t);
        if slot in waiters {
          Deliver(slot, if t == term then Answer(result) else Stale, e);
        }
        terms := terms - {t};
      }
      IndexedDrop(byIndex, desk.waiting.Keys, index);
      byIndex := byIndex - {index};
      Close(e);
    }

    /** Applies through the state machine and resolves everyone at the index; a refused entry resolves nobody. */
    method Apply(entry: Entry, machine: Machine, faults: seq<Fault>) returns (ok: bool, result: Result)
      requires Valid() && machine.Valid() && machine.Next(entry)
      modifies this, channels, machine, machine.engine, machine.engine.Parts()
      ensures Valid() && channels == old(channels)
      ensures (ok ==> machine.Valid() && machine.done == old(machine.done) + [entry])
      ensures ok ==> KvMachine.Apply(machine.decode, old(machine.AsState()), entry) == Done(machine.AsState(), result)
      ensures old(machine.Clear(entry, faults)) ==>
        (ok <==> KvMachine.Apply(machine.decode, old(machine.AsState()), entry).Done?)
      ensures desk == if ok then Step(old(desk), Commit(Slot(entry.index, entry.term), result)) else old(desk)
    {
      hide Machine.Valid, Machine.Clear, Step, Indexed, Sound, Distinct, Mirrors, Placed, KvMachine.Apply, Recorded;
      ok, result := machine.Apply(entry, faults);
      if ok { Fulfill(entry.index, entry.term, result); }
    }
  }
}
