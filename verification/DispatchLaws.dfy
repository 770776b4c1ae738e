/** Why a due run waits and in which order due runs start, said of the work in flight and of the runs
    themselves. */
module DispatchLaws {
  import opened Basics
  import opened Dispatcher
  import opened Ordering
  import opened Scheduler

  // ----- why a run waits

  /** What keeps a run from starting, by the work in flight: its class is full, its instance is busy with
      that class, or it would take a slot kept for a waiting capability snapshot. */
  ghost predicate Blocked(task: Task, instance: string, flight: set<Work>, probeLimit: nat, queryLimit: nat, waiting: bool) {
    if IsCapability(task) then QueriesFull(flight, queryLimit) || QueryBusy(flight, instance)
    else if task.kind.Probe? then |OfKind(flight, ProbeWork)| >= probeLimit || Work(instance, ProbeWork) in flight
    else
      || QueriesFull(flight, queryLimit) || QueryBusy(flight, instance)
      || (waiting && |OfKind(flight, CollectionQuery)| + Min(4, queryLimit) >= queryLimit)
  }

  /** Collection queries and capability snapshots share one limit. */
  ghost predicate QueriesFull(flight: set<Work>, queryLimit: nat) { |Queries(flight)| >= queryLimit }

  ghost predicate QueryBusy(flight: set<Work>, instance: string) {
    Work(instance, CollectionQuery) in flight || Work(instance, CapabilitySnapshot) in flight
  }

  /** A run is admitted exactly when nothing blocks it. */
  lemma AdmittedUnlessBlocked(slots: Slots, flight: set<Work>, run: Run)
    requires Valid(slots, flight)
    ensures Admits(slots, WorkOf(run)) <==>
            !Blocked(run.task, run.key.instance, flight, slots.probeLimit, slots.queryLimit, slots.capabilityWaiting)
  {}

  /** After a dispatch pass, on every run of the scheduler: whatever is still pending, with its lookup
      answered, is due past its gate and blocked by the work in flight. */
  lemma StillPendingIsBlocked(probeLimit: nat, queryLimit: nat, steps: seq<Step>, pass: Step, phase: Phase, k: TaskKey)
    requires pass.DispatchStep? && IsRun(NewWorld(probeLimit, queryLimit), steps, phase)
    requires Enabled(Final(NewWorld(probeLimit, queryLimit), steps, phase), pass)
    requires k in Apply(Final(NewWorld(probeLimit, queryLimit), steps, phase), pass, phase).pending && pass.gates(k).NotBefore?
    ensures
      var after := Apply(Final(NewWorld(probeLimit, queryLimit), steps, phase), pass, phase);
      var run := after.pending[k];
      && !Deferred(run, pass.gates(k))
      && Blocked(run.task, run.key.instance, after.executing + after.buffered, probeLimit, queryLimit, HasCapability(after.pending))
  {
    var start := NewWorld(probeLimit, queryLimit);
    var w := Final(start, steps, phase);
    NewWorldOk(probeLimit, queryLimit, phase);
    RunKeepsInv(start, steps, phase);
    LimitsAreFixed(start, steps, phase);
    AfterAPass(w, pass.offered, pass.gates, Pass(w, pass.offered, pass.gates), phase, k);
  }

  lemma AfterAPass(w: World, offered: seq<Run>, gates: TaskKey -> Gate, after: World, phase: Phase, k: TaskKey)
    requires Inv(w, phase) && Enabled(w, DispatchStep(offered, gates)) && after == Pass(w, offered, gates)
    requires k in after.pending && gates(k).NotBefore?
    ensures !Deferred(after.pending[k], gates(k)) && SameLimits(w, after)
    ensures Blocked(after.pending[k].task, after.pending[k].key.instance, after.executing + after.buffered,
                    after.slots.probeLimit, after.slots.queryLimit, HasCapability(after.pending))
  {
    DispatchIsWorkConserving(w, offered, gates);
    PassEnds(w, offered, gates);
    PassKeepsInv(w, offered, gates, |offered|, after, phase);
    PassKeepsFlag(w, offered, gates, |offered|, after);
    PassKeepsLimits(w, offered, gates, |offered|);
    AdmittedUnlessBlocked(after.slots, after.executing + after.buffered, after.pending[k]);
  }

  // ----- in which order runs start

  /** Capability snapshots first, then the longer overdue, then by instance and task. */
  predicate StartsBefore(a: Run, b: Run) {
    || (IsCapability(a.task) && !IsCapability(b.task))
    || (IsCapability(a.task) == IsCapability(b.task) &&
        (|| a.dueAt < b.dueAt
         || (a.dueAt == b.dueAt &&
             (|| StringLess(a.key.instance, b.key.instance)
              || (a.key.instance == b.key.instance && StringLess(a.key.task, b.key.task))))))
  }

  lemma RunOrderMeans(a: Run, b: Run)
    ensures RunLess(a, b) <==> StartsBefore(a, b)
  {
    StringIrreflexive(a.key.instance);
  }

  /** The dues a pass adds, with the runs they are of: a rising selection of the runs on offer. */
  ghost predicate StartedFrom(before: World, after: World, offered: seq<Run>, n: nat, picks: seq<nat>)
    requires n <= |offered|
  {
    var past, now := before.ledger.dispatched, after.ledger.dispatched;
    && |now| == |past| + |picks| && now[..|past|] == past
    && (forall i :: 0 <= i < |picks| ==> picks[i] < n && now[|past| + i] == DueOf(offered[picks[i]]))
    && (forall i, j :: 0 <= i < j < |picks| ==> picks[i] < picks[j])
  }

  lemma OfferStarts(w: World, earlier: World, next: World, offered: seq<Run>, n: nat, gate: Gate, picks: seq<nat>)
    returns (more: seq<nat>)
    requires n < |offered| && StartedFrom(w, earlier, offered, n, picks) && next == Offer(earlier, offered[n], gate)
    ensures StartedFrom(w, next, offered, n + 1, more)
  {
    if next.ledger.dispatched == earlier.ledger.dispatched {
      more := picks;
    } else {
      more := picks + [n];
    }
  }

  lemma {:induction false} PassStarts(w: World, offered: seq<Run>, gates: TaskKey -> Gate, n: nat, after: World)
    returns (picks: seq<nat>)
    requires n <= |offered| && after == PassTo(w, offered, gates, n)
    ensures StartedFrom(w, after, offered, n, picks)
  {
    if n > 0 {
      var earlier := PassTo(w, offered, gates, n - 1);
      PassStep(w, offered, gates, n - 1);
      picks := PassStarts(w, offered, gates, n - 1, earlier);
      picks := OfferStarts(w, earlier, after, offered, n - 1, gates(offered[n - 1].key), picks);
    } else {
      PassEnds(w, offered, gates);
      picks := [];
    }
  }

  /** A pass starts runs in order: of two due runs it dispatches, the one it dispatches first is the one
      that starts before the other. */
  lemma StartedInOrder(w: World, offered: seq<Run>, gates: TaskKey -> Gate, i: nat, j: nat) returns (a: Run, b: Run)
    requires Offers(w.pending, offered) && Ascending(RunLess, offered)
    requires |w.ledger.dispatched| <= i < j < |Pass(w, offered, gates).ledger.dispatched|
    ensures a in offered && b in offered
    ensures DueOf(a) == Pass(w, offered, gates).ledger.dispatched[i] && DueOf(b) == Pass(w, offered, gates).ledger.dispatched[j]
    ensures StartsBefore(a, b)
  {
    PassEnds(w, offered, gates);
    var picks := PassStarts(w, offered, gates, |offered|, Pass(w, offered, gates));
    var n := |w.ledger.dispatched|;
    a, b := offered[picks[i - n]], offered[picks[j - n]];
    assert RunLess(a, b);
    RunOrderMeans(a, b);
  }
}
