/**
 Requests meet Raft. A leader registers a waiter at the index and term its proposal was promised;
 since no two proposals are promised the same position, no request displaces another, and every
 request that is not cancelled hears of the first commit at its index or of the fail-stop.
 */
module Requests {
  import opened RaftTypes
  import opened Cluster
  import opened ClusterInvariant
  import Safety = ClusterSafety
  import W = Waiters

  /** At time t of the run node p leads and takes a proposal, which is promised the slot. */
  ghost predicate Proposed(cfg: Config, steps: seq<Step>, p: NodeID, t: nat, slot: W.Slot) {
    && t < |steps| && steps[t].Drive? && steps[t].id == p && steps[t].input.Propose? && steps[t].outcome == Done
    && var c := Run(Initial(cfg), steps[..t]);
    && p in c.procs && c.procs[p].live.Some? && c.procs[p].live.value.role == Leader
    && slot == W.Slot(|c.procs[p].live.value.log| + 1, c.procs[p].live.value.hard.term)
  }

  lemma SlotsDiffer(cfg: Config, steps: seq<Step>, p: NodeID, t: nat, u: nat, a: W.Slot, b: W.Slot)
    requires ValidCluster(cfg) && t < u && Proposed(cfg, steps, p, t, a) && Proposed(cfg, steps, p, u, b)
    ensures a != b
  {
    hide Run, Initial;
    Safety.ProposalsDistinct(cfg, steps, t, u, p, p, steps[t].input.data);
  }

  /** Every registration is a proposal of node p's, each later than the one before. */
  ghost predicate Registers(cfg: Config, steps: seq<Step>, p: NodeID, events: seq<W.Event>, times: seq<nat>) {
    && |times| == |events|
    && (forall k :: 0 <= k < |events| && events[k].Register? ==> Proposed(cfg, steps, p, times[k], events[k].slot))
    && forall k, m :: 0 <= k < m < |events| && events[k].Register? && events[m].Register? ==> times[k] < times[m]
  }

  /**
   No request is stranded by another: only its own cancellation can leave it unheard. What it hears
   is told by the first commit at its index or fail-stop: its result, a stale notice or the error.
   */
  lemma EveryRequestHeard(cfg: Config, steps: seq<Step>, p: NodeID, events: seq<W.Event>, times: seq<nat>, i: nat,
                          j: nat) returns (k: nat)
    requires ValidCluster(cfg) && Registers(cfg, steps, p, events, times)
    requires i < j < |events| && events[i].Register?
    requires events[j].FailStop? || (events[j].Commit? && events[j].slot.index == events[i].slot.index)
    requires forall k :: i < k < j ==> events[k] != W.Cancel(events[i].slot)
    ensures var d, n := W.Run(W.EMPTY, events), W.Registered(events[..i]);
      && n < |d.waiters| && |d.waiters[n].mail| == 1 && !W.Holds(d, n)
      && i < k <= j && (forall m :: i < m < k ==> !W.Settles(events[m], events[i].slot))
      && var mail, slot := d.waiters[n].mail, events[i].slot;
      && (events[k].FailStop? || (events[k].Commit? && events[k].slot.index == slot.index))
      && (forall r :: mail == [W.Answer(r)] <==> events[k] == W.Commit(slot, r))
      && (mail == [W.Stale] <==> events[k].Commit? && events[k].slot.term != slot.term)
      && (forall error :: mail == [W.Failed(error)] <==> events[k] == W.FailStop(error))
  {
    hide Proposed, W.Run, W.Registered;
    forall k | i < k < j ensures events[k] != W.Register(events[i].slot) {
      if events[k].Register? { SlotsDiffer(cfg, steps, p, times[i], times[k], events[i].slot, events[k].slot); }
    }
    k := W.NobodyStranded(events, i, j);
  }
}
