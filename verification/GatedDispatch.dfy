/** The scheduler's dispatch and the recorded failures together: no run is dispatched for a due time
    that its task's or its connection's backoff has put off. */
module GatedDispatch {
  import opened Basics
  import S = Scheduler
  import B = Backoff
  import D = DueCoverage

  /** Probes and capability snapshots have no gate. */
  predicate Gated(run: S.Run) { !run.task.kind.Probe? && !S.IsCapability(run.task) }

  /** Exactly the gated runs may be given a gate. */
  lemma OnlyGatedRunsHaveGates(run: S.Run, at: int)
    ensures Gated(run) <==> S.GateFits(run, S.NotBefore(Some(at)))
  {}

  function KeyOf(k: S.TaskKey): B.Key { B.Key(k.instance, k.task) }

  /** A lookup answers from what has been recorded when it is made, or fails; `seen` gives the records
      each key's lookup finds, which may differ as workers keep recording during a pass. */
  ghost predicate AnswersFrom(run: S.Run, gate: S.Gate, seen: seq<B.Record>) {
    && B.IsHistory(seen)
    && (gate.LookupFailed? || gate == S.NotBefore(B.NextEligible(B.After(seen), KeyOf(run.key), Gated(run))))
  }

  ghost predicate PassAnswers(offered: seq<S.Run>, gates: S.TaskKey -> S.Gate, seen: S.TaskKey -> seq<B.Record>) {
    forall i :: 0 <= i < |offered| ==> AnswersFrom(offered[i], gates(offered[i].key), seen(offered[i].key))
  }

  /** The due time is not before the task's gate nor before the connection's, as the records set them. */
  ghost predicate PastGates(due: int, seen: seq<B.Record>, key: B.Key) {
    && (B.GateOf(seen, key).Some? ==> due >= B.GateOf(seen, key).value)
    && (B.ConnectionGateOf(seen, key.instance).Some? ==> due >= B.ConnectionGateOf(seen, key.instance).value)
  }

  /** An answered lookup puts a run off exactly when its task has a row and the run is due before one of
      its gates: without a row the lookup finds no gate, not even the connection's. */
  lemma DeferredExactlyBeforeGates(run: S.Run, gate: S.Gate, seen: seq<B.Record>)
    requires AnswersFrom(run, gate, seen) && !gate.LookupFailed? && Gated(run)
    ensures S.Deferred(run, gate) <==> B.Known(seen, KeyOf(run.key)) && !PastGates(run.dueAt, seen, KeyOf(run.key))
  {
    B.TablesFollowHistory(seen, KeyOf(run.key));
  }

  /** Some offered run was let through: its lookup answered and did not put it off. */
  ghost predicate LetThrough(offered: seq<S.Run>, gates: S.TaskKey -> S.Gate, d: S.Due) {
    exists i :: 0 <= i < |offered| && S.DueOf(offered[i]) == d
                && !gates(offered[i].key).LookupFailed? && !S.Deferred(offered[i], gates(offered[i].key))
  }

  lemma OfferDispatches(w: S.World, offered: seq<S.Run>, gates: S.TaskKey -> S.Gate, n: nat, d: S.Due)
    requires n < |offered| && d in S.Offer(w, offered[n], gates(offered[n].key)).ledger.dispatched
    ensures d in w.ledger.dispatched || LetThrough(offered, gates, d)
  {
    if d !in w.ledger.dispatched { assert S.DueOf(offered[n]) == d; }
  }

  /** What a pass dispatches was let through. */
  lemma {:induction false} PassDispatches(w: S.World, offered: seq<S.Run>, gates: S.TaskKey -> S.Gate, n: nat, d: S.Due)
    requires n <= |offered| && d in S.PassTo(w, offered, gates, n).ledger.dispatched
    ensures d in w.ledger.dispatched || LetThrough(offered, gates, d)
  {
    if n > 0 {
      S.PassStep(w, offered, gates, n - 1);
      OfferDispatches(S.PassTo(w, offered, gates, n - 1), offered, gates, n - 1, d);
      if d in S.PassTo(w, offered, gates, n - 1).ledger.dispatched { PassDispatches(w, offered, gates, n - 1, d); }
    } else {
      S.PassEnds(w, offered, gates);
    }
  }

  lemma {:induction false} AccruingOnlyAccrues(w: S.World, keys: seq<S.TaskKey>, now: int)
    ensures S.AccrueAll(w, keys, now).ledger.dispatched == w.ledger.dispatched
    ensures S.AccrueAll(w, keys, now).schedule.Keys == w.schedule.Keys
  {
    if keys != [] {
      var n := |keys| - 1;
      AccruingOnlyAccrues(w, keys[..n], now);
      var earlier := S.AccrueAll(w, keys[..n], now);
      if keys[n] in earlier.schedule && earlier.schedule[keys[n]].template.interval > 0 {
        AccruingKeyOnlyAccrues(earlier, keys[n], now);
      }
    }
  }

  lemma {:induction false} AccruingKeyOnlyAccrues(w: S.World, k: S.TaskKey, now: int)
    requires k in w.schedule && w.schedule[k].template.interval > 0
    ensures S.AccrueKey(w, k, now).ledger.dispatched == w.ledger.dispatched
    ensures S.AccrueKey(w, k, now).schedule.Keys == w.schedule.Keys
    decreases now - w.schedule[k].nextDue
  {
    if w.schedule[k].nextDue <= now { AccruingKeyOnlyAccrues(S.AccrueDue(w, k), k, now); }
  }

  lemma StepDispatches(w: S.World, s: S.Step, phase: S.Phase, d: S.Due)
    requires S.Enabled(w, s) && d in S.Apply(w, s, phase).ledger.dispatched && d !in w.ledger.dispatched
    ensures s.DispatchStep? && LetThrough(s.offered, s.gates, d)
  {
    if s.AccrueStep? { AccruingOnlyAccrues(w, s.keys, w.lastTick.value); }
    if s.DispatchStep? {
      S.PassEnds(w, s.offered, s.gates);
      PassDispatches(w, s.offered, s.gates, |s.offered|, d);
    }
  }

  /** Everything dispatched in a run was let through by one of its passes. */
  lemma {:induction false} DispatchedWasLetThrough(w: S.World, steps: seq<S.Step>, phase: S.Phase, d: S.Due) returns (i: nat)
    requires S.IsRun(w, steps, phase) && d in S.Final(w, steps, phase).ledger.dispatched && d !in w.ledger.dispatched
    ensures i < |steps| && steps[i].DispatchStep? && LetThrough(steps[i].offered, steps[i].gates, d)
    decreases |steps|
  {
    var next := S.Apply(w, steps[0], phase);
    if d in next.ledger.dispatched {
      StepDispatches(w, steps[0], phase, d);
      i := 0;
    } else {
      var j := DispatchedWasLetThrough(next, steps[1..], phase, d);
      i := j + 1;
    }
  }

  // ----- what is offered was scheduled by a refresh, which made its row

  lemma {:induction false} RefreshedKeys(schedule: map<S.TaskKey, S.Entry>, now: int, templates: seq<S.Run>, phase: S.Phase)
    requires forall t :: t in templates ==> S.WellBuilt(t)
    ensures S.Refreshed(schedule, now, templates, phase).Keys == schedule.Keys + S.KeysOf(templates)
  {
    if templates != [] {
      var n := |templates| - 1;
      RefreshedKeys(schedule, now, templates[..n], phase);
      assert S.KeysOf(templates) == S.KeysOf(templates[..n]) + {templates[n].key};
    }
  }

  lemma StepSchedules(w: S.World, s: S.Step, phase: S.Phase, k: S.TaskKey)
    requires S.Enabled(w, s) && k in S.Apply(w, s, phase).schedule && k !in w.schedule
    ensures s.RefreshStep? && k in S.KeysOf(s.templates)
  {
    match s
    case RefreshStep(now, templates, _) => RefreshedKeys(w.schedule, now, templates, phase);
    case AccrueStep(keys) => AccruingOnlyAccrues(w, keys, w.lastTick.value);
    case DispatchStep(offered, gates) => D.PassKeepsBooks(w, offered, gates);
    case WorkerStep(_) =>
    case CompleteStep(_) =>
  }

  /** Every run on offer is of a task that an earlier refresh scheduled, if it was not scheduled at the start. */
  lemma {:induction false} OfferedWasScheduled(w: S.World, steps: seq<S.Step>, phase: S.Phase, i: nat, run: S.Run)
    returns (j: nat)
    requires S.Inv(w, phase) && S.IsRun(w, steps, phase) && run.key !in w.schedule
    requires i < |steps| && steps[i].DispatchStep? && run in steps[i].offered
    ensures j < i && steps[j].RefreshStep? && run.key in S.KeysOf(steps[j].templates)
    decreases i
  {
    if i == 0 {
      assert false;
    } else {
      S.StepKeepsInv(w, steps[0], phase);
      var next := S.Apply(w, steps[0], phase);
      if run.key in next.schedule {
        StepSchedules(w, steps[0], phase, run.key);
        j := 0;
      } else {
        var later := OfferedWasScheduled(next, steps[1..], phase, i - 1, run);
        j := later + 1;
      }
    }
  }

  lemma {:induction false} OfferedIsWellBuilt(w: S.World, steps: seq<S.Step>, phase: S.Phase, i: nat, run: S.Run)
    requires S.Inv(w, phase) && S.IsRun(w, steps, phase)
    requires i < |steps| && steps[i].DispatchStep? && run in steps[i].offered
    ensures S.WellBuilt(run)
    decreases i
  {
    if i == 0 {
      assert S.RunOk(run.key, w.pending[run.key], phase);
    } else {
      S.StepKeepsInv(w, steps[0], phase);
      OfferedIsWellBuilt(S.Apply(w, steps[0], phase), steps[1..], phase, i - 1, run);
    }
  }

  /** A refresh makes the rows of every task it schedules, capability snapshots aside, and every later
      lookup finds them. */
  ghost predicate RefreshesMakeRows(steps: seq<S.Step>, seen: seq<S.TaskKey -> seq<B.Record>>)
    requires |seen| == |steps|
  {
    forall j, i, k :: 0 <= j < i < |steps| && steps[j].RefreshStep? && steps[i].DispatchStep?
                      && k in S.KeysOf(steps[j].templates) && k.task != S.CapabilityTask
                      ==> B.Ensure(KeyOf(k)) in seen[i](k)
  }

  /** A gated run on offer has a row. */
  lemma OfferedIsKnown(probeLimit: nat, queryLimit: nat, steps: seq<S.Step>, seen: seq<S.TaskKey -> seq<B.Record>>,
                       phase: S.Phase, i: nat, run: S.Run)
    requires S.IsRun(S.NewWorld(probeLimit, queryLimit), steps, phase) && |seen| == |steps| && RefreshesMakeRows(steps, seen)
    requires i < |steps| && steps[i].DispatchStep? && run in steps[i].offered && Gated(run)
    ensures B.Known(seen[i](run.key), KeyOf(run.key))
  {
    var start := S.NewWorld(probeLimit, queryLimit);
    S.NewWorldOk(probeLimit, queryLimit, phase);
    OfferedIsWellBuilt(start, steps, phase, i, run);
    var j := OfferedWasScheduled(start, steps, phase, i, run);
    assert B.Ensure(KeyOf(run.key)) in seen[i](run.key);
  }

  /** From an empty scheduler, in any run whose refreshes make the rows and whose lookups answer from the
      records made so far: each dispatched due was offered by some pass, and if its run is gated, the due
      time is not before either gate that the records at its lookup determine. */
  lemma NoDispatchBeforeItsGate(probeLimit: nat, queryLimit: nat, steps: seq<S.Step>, seen: seq<S.TaskKey -> seq<B.Record>>,
                                phase: S.Phase, d: S.Due)
    returns (i: nat, run: S.Run)
    requires S.IsRun(S.NewWorld(probeLimit, queryLimit), steps, phase) && |seen| == |steps| && RefreshesMakeRows(steps, seen)
    requires forall j :: 0 <= j < |steps| && steps[j].DispatchStep? ==> PassAnswers(steps[j].offered, steps[j].gates, seen[j])
    requires d in S.Final(S.NewWorld(probeLimit, queryLimit), steps, phase).ledger.dispatched
    ensures i < |steps| && steps[i].DispatchStep? && run in steps[i].offered && S.DueOf(run) == d
    ensures Gated(run) ==> PastGates(d.1, seen[i](run.key), KeyOf(run.key))
  {
    i := DispatchedWasLetThrough(S.NewWorld(probeLimit, queryLimit), steps, phase, d);
    var offered, gates := steps[i].offered, steps[i].gates;
    var j :| 0 <= j < |offered| && S.DueOf(offered[j]) == d
             && !gates(offered[j].key).LookupFailed? && !S.Deferred(offered[j], gates(offered[j].key));
    run := offered[j];
    if Gated(run) {
      OfferedIsKnown(probeLimit, queryLimit, steps, seen, phase, i, run);
      DeferredExactlyBeforeGates(run, gates(run.key), seen[i](run.key));
    }
  }

  /** The last record of a task before a lookup is a query failure: nothing due within its backoff,
      counted by its consecutive failures, gets past the gates. */
  lemma FailureHoldsBack(seen: seq<B.Record>, failure: B.Record, due: int)
    requires failure.Failure? && !failure.kind.Probe? && !failure.connection
    requires PastGates(due, seen + [failure], failure.key)
    ensures due >= failure.finished + B.Wait(failure.kind, failure.interval, B.FailuresOf(seen, failure.key) + 1)
  {
    GateAfterFailure(seen, failure);
  }

  lemma GateAfterFailure(seen: seq<B.Record>, failure: B.Record)
    requires failure.Failure? && !failure.kind.Probe? && !failure.connection
    ensures B.GateOf(seen + [failure], failure.key)
            == Some(failure.finished + B.Wait(failure.kind, failure.interval, B.FailuresOf(seen, failure.key) + 1))
  {
    FailuresAfterFailure(seen, failure);
    GateOfLast(seen, failure, B.FailuresOf(seen + [failure], failure.key));
  }

  lemma FailuresAfterFailure(seen: seq<B.Record>, failure: B.Record)
    requires failure.Failure?
    ensures B.FailuresOf(seen + [failure], failure.key) == B.FailuresOf(seen, failure.key) + 1
  {
    assert (seen + [failure])[..|seen|] == seen;
  }

  lemma GateOfLast(seen: seq<B.Record>, failure: B.Record, n: nat)
    requires failure.Failure? && !failure.kind.Probe? && !failure.connection && n == B.FailuresOf(seen + [failure], failure.key)
    ensures B.GateOf(seen + [failure], failure.key) == Some(failure.finished + B.Wait(failure.kind, failure.interval, n))
  {}
}
