/** No due time is lost: what a refresh does to the schedule, and which due times a task accrues while it
    stays a target. */
module DueCoverage {
  import opened DueTimes
  import opened Scheduler

  // ----- what a refresh does

  /** Templates as they are built: one per target and task. */
  ghost predicate Templates(templates: seq<Run>) {
    && (forall t :: t in templates ==> WellBuilt(t))
    && (forall i, j :: 0 <= i < j < |templates| ==> templates[i].key != templates[j].key)
  }

  /** The first due time of a newly scheduled task: now for a capability snapshot, otherwise the earliest
      point of its lattice after now. */
  ghost predicate IsFirstDue(due: int, now: int, t: Run, phase: Phase) {
    if IsCapability(t.task) then due == now
    else
      var p := phase(t.key, t.interval);
      && due > now && due >= p && OnLattice(due, p, t.interval)
      && forall d :: OnLattice(d, p, t.interval) && d > now && d >= p ==> d >= due
  }

  /** Already scheduled with the same interval, or a capability snapshot already scheduled. */
  predicate Continues(schedule: map<TaskKey, Entry>, t: Run) {
    t.key in schedule && (IsCapability(t.task) || schedule[t.key].template.interval == t.interval)
  }

  /** One template's entry after the refresh. */
  ghost predicate Scheduled(before: map<TaskKey, Entry>, after: map<TaskKey, Entry>, now: int, t: Run, phase: Phase) {
    && t.key in after && after[t.key].template == t
    && if Continues(before, t) then after[t.key].nextDue == before[t.key].nextDue
       else IsFirstDue(after[t.key].nextDue, now, t, phase)
  }

  lemma InitialDueIsFirst(now: int, t: Run, phase: Phase)
    requires WellBuilt(t)
    ensures IsFirstDue(InitialDue(now, t, phase), now, t, phase)
  {
    if !IsCapability(t.task) { NextDueAfterIsNext(now, phase(t.key, t.interval), t.interval); }
  }

  lemma {:induction false} RefreshedPointwise(schedule: map<TaskKey, Entry>, now: int, templates: seq<Run>, phase: Phase)
    requires Templates(templates)
    ensures
      var after := Refreshed(schedule, now, templates, phase);
      && after.Keys == schedule.Keys + KeysOf(templates)
      && (forall t :: t in templates ==> Scheduled(schedule, after, now, t, phase))
      && (forall k :: k in schedule && k !in KeysOf(templates) ==> after[k] == schedule[k])
  {
    if templates != [] {
      var n := |templates| - 1;
      var front, t := templates[..n], templates[n];
      RefreshedPointwise(schedule, now, front, phase);
      InitialDueIsFirst(now, t, phase);
      assert KeysOf(templates) == KeysOf(front) + {t.key};
      assert t.key !in KeysOf(front);
      var earlier, after := Refreshed(schedule, now, front, phase), Refreshed(schedule, now, templates, phase);
      assert Scheduled(schedule, after, now, t, phase);
      forall u | u in templates && u != t ensures Scheduled(schedule, after, now, u, phase) {
        assert u in front && Scheduled(schedule, earlier, now, u, phase);
        assert u.key in KeysOf(front);
      }
    }
  }

  /** A refresh: every template is scheduled, its due time kept where it continues and its first one
      otherwise; after a complete refresh nothing else is scheduled or pending, after a broken-off one
      everything else is as it was. */
  lemma RefreshKeepsDueTimes(w: World, now: int, templates: seq<Run>, complete: bool, phase: Phase)
    requires Templates(templates)
    ensures
      var after := Refresh(w, now, templates, complete, phase);
      && (forall t :: t in templates ==> Scheduled(w.schedule, after.schedule, now, t, phase))
      && after.schedule.Keys == (if complete then KeysOf(templates) else w.schedule.Keys + KeysOf(templates))
      && (!complete ==> forall k :: k in w.schedule && k !in KeysOf(templates) ==> after.schedule[k] == w.schedule[k])
      && (forall k :: k in after.pending <==> k in w.pending && (complete && k in w.schedule ==> k in KeysOf(templates)))
      && (forall k :: k in after.pending ==> after.pending[k] == w.pending[k])
  {
    RefreshedPointwise(w.schedule, now, templates, phase);
    var after := Refresh(w, now, templates, complete, phase);
    forall t | t in templates ensures Scheduled(w.schedule, after.schedule, now, t, phase) {
      assert t.key in KeysOf(templates);
    }
  }

  // ----- which due times a task accrues

  /** From one world to a later one the task kept its interval, moved on by n due times, and accrued
      exactly those. */
  ghost predicate Progressed(w: World, after: World, k: TaskKey, n: nat)
    requires k in w.schedule
  {
    var e := w.schedule[k];
    && k in after.schedule && after.schedule[k].template.interval == e.template.interval
    && after.schedule[k].nextDue == Point(e.nextDue, e.template.interval, n)
    && forall d :: (k, d) in after.ledger.accrued <==>
                   (k, d) in w.ledger.accrued || d in Dues(e.nextDue, e.template.interval, n)
  }

  lemma StandsStill(w: World, after: World, k: TaskKey)
    requires k in w.schedule && k in after.schedule && after.schedule[k].nextDue == w.schedule[k].nextDue
    requires after.schedule[k].template.interval == w.schedule[k].template.interval
    requires forall d :: (k, d) in after.ledger.accrued <==> (k, d) in w.ledger.accrued
    ensures Progressed(w, after, k, 0)
  {}

  lemma DuesJoin(due: int, interval: int, n: nat, m: nat)
    ensures Point(Point(due, interval, n), interval, m) == Point(due, interval, n + m)
    ensures Dues(due, interval, n + m) == Dues(due, interval, n) + Dues(Point(due, interval, n), interval, m)
  {
    var all, tail := Dues(due, interval, n + m), Dues(Point(due, interval, n), interval, m);
    assert forall j :: (n + j) * interval == n * interval + j * interval;
    assert forall j :: Point(Point(due, interval, n), interval, j) == Point(due, interval, n + j);
    forall d | d in all ensures d in Dues(due, interval, n) || d in tail {
      var j :| 0 <= j < n + m && d == Point(due, interval, j);
      if j >= n { assert d == Point(Point(due, interval, n), interval, j - n); }
    }
    forall d | d in tail ensures d in all {
      var j :| 0 <= j < m && d == Point(Point(due, interval, n), interval, j);
      assert d == Point(due, interval, n + j);
    }
  }

  lemma ProgressJoins(w: World, mid: World, after: World, k: TaskKey, n: nat, m: nat)
    requires k in w.schedule && Progressed(w, mid, k, n) && Progressed(mid, after, k, m)
    ensures Progressed(w, after, k, n + m)
  {
    DuesJoin(w.schedule[k].nextDue, w.schedule[k].template.interval, n, m);
  }

  ghost predicate EntriesOk(w: World) {
    forall j :: j in w.schedule ==> w.schedule[j].template.interval > 0 && w.schedule[j].template.key == j
  }

  lemma AccruingProgresses(w: World, j: TaskKey, now: int, k: TaskKey) returns (n: nat)
    requires EntriesOk(w) && j in w.schedule && k in w.schedule
    ensures Progressed(w, AccrueKey(w, j, now), k, n) && EntriesOk(AccrueKey(w, j, now))
    ensures AccrueKey(w, j, now).schedule.Keys == w.schedule.Keys
    ensures j == k ==> AccrueKey(w, j, now).schedule[k].nextDue > now
    ensures AccrueKey(w, j, now).schedule[k].nextDue >= w.schedule[k].nextDue
  {
    AccrueCatchesUp(w, j, now);
    var after, e := AccrueKey(w, j, now), w.schedule[j];
    if e.nextDue > now {
      n := 0;
      StandsStill(w, w, k);
    } else {
      CatchUpStraddlesNow(e.nextDue, e.template.interval, now);
      if j == k {
        n := Missed(e.nextDue, e.template.interval, now) + 1;
      } else {
        n := 0;
        StandsStill(w, after, k);
      }
    }
  }

  lemma {:induction false} AccrueAllProgresses(w: World, keys: seq<TaskKey>, now: int, k: TaskKey) returns (n: nat)
    requires EntriesOk(w) && k in w.schedule
    ensures Progressed(w, AccrueAll(w, keys, now), k, n) && EntriesOk(AccrueAll(w, keys, now))
    ensures AccrueAll(w, keys, now).schedule.Keys == w.schedule.Keys
    ensures k in keys ==> AccrueAll(w, keys, now).schedule[k].nextDue > now
  {
    if keys == [] {
      n := 0;
      StandsStill(w, w, k);
    } else {
      var last := |keys| - 1;
      var earlier := AccrueAll(w, keys[..last], now);
      n := AccrueAllProgresses(w, keys[..last], now, k);
      if keys[last] in earlier.schedule {
        var m := AccruingProgresses(earlier, keys[last], now, k);
        ProgressJoins(w, earlier, AccrueKey(earlier, keys[last], now), k, n, m);
        n := n + m;
      }
      assert k in keys <==> k in keys[..last] || k == keys[last];
    }
  }

  /** The refresh finds the task among its targets with the interval it had, or breaks off before it. */
  ghost predicate KeepsTarget(w: World, s: Step, k: TaskKey)
    requires k in w.schedule
  {
    s.RefreshStep? ==>
      && Templates(s.templates)
      && (forall t :: t in s.templates && t.key == k ==> t.interval == w.schedule[k].template.interval)
      && (s.complete ==> k in KeysOf(s.templates))
  }

  lemma RefreshStandsStill(w: World, s: Step, phase: Phase, k: TaskKey)
    requires Enabled(w, s) && s.RefreshStep? && k in w.schedule && KeepsTarget(w, s, k)
    ensures Progressed(w, Apply(w, s, phase), k, 0)
  {
    RefreshKeepsDueTimes(w, s.now, s.templates, s.complete, phase);
    var after := Apply(w, s, phase);
    if k in KeysOf(s.templates) {
      var i :| 0 <= i < |s.templates| && s.templates[i].key == k;
      assert Scheduled(w.schedule, after.schedule, s.now, s.templates[i], phase);
    }
    StandsStill(w, after, k);
  }

  lemma {:induction false} PassKeepsBooks(w: World, offered: seq<Run>, gates: TaskKey -> Gate)
    ensures Pass(w, offered, gates).schedule == w.schedule
    ensures Pass(w, offered, gates).ledger.accrued == w.ledger.accrued
  {
    if offered != [] { PassKeepsBooks(w, offered[..|offered| - 1], gates); }
  }

  lemma StepProgresses(w: World, s: Step, phase: Phase, k: TaskKey) returns (n: nat)
    requires Inv(w, phase) && Enabled(w, s) && k in w.schedule && KeepsTarget(w, s, k)
    ensures Progressed(w, Apply(w, s, phase), k, n)
    ensures s.AccrueStep? && k in s.keys ==> Apply(w, s, phase).schedule[k].nextDue > w.lastTick.value
  {
    match s
    case RefreshStep(_, _, _) =>
      n := 0;
      RefreshStandsStill(w, s, phase, k);
    case AccrueStep(keys) =>
      InvEntriesOk(w, phase);
      n := AccrueAllProgresses(w, keys, w.lastTick.value, k);
    case DispatchStep(offered, gates) =>
      n := 0;
      PassKeepsBooks(w, offered, gates);
      StandsStill(w, Apply(w, s, phase), k);
    case WorkerStep(_) =>
      n := 0;
      StandsStill(w, Apply(w, s, phase), k);
    case CompleteStep(_) =>
      n := 0;
      StandsStill(w, Apply(w, s, phase), k);
  }

  /** Every refresh of the run keeps the task. */
  ghost predicate StaysTarget(w: World, steps: seq<Step>, phase: Phase, k: TaskKey)
    requires IsRun(w, steps, phase)
    decreases |steps|
  {
    k in w.schedule &&
    (steps == [] || (KeepsTarget(w, steps[0], k) && StaysTarget(Apply(w, steps[0], phase), steps[1..], phase, k)))
  }

  /** Over any run in which a task stays a target with its interval, its due times are accrued one after
      another without a hole: the first n from its next due on, exactly those, and the one after them
      is its next due. If the run ends by accruing it, none up to the tick is left. */
  lemma {:induction false} NoDueIsMissed(w: World, steps: seq<Step>, phase: Phase, k: TaskKey) returns (n: nat)
    requires Inv(w, phase) && IsRun(w, steps, phase) && StaysTarget(w, steps, phase, k)
    ensures Progressed(w, Final(w, steps, phase), k, n)
    ensures steps != [] && steps[|steps| - 1].AccrueStep? && k in steps[|steps| - 1].keys ==>
              var end := Final(w, steps, phase);
              end.lastTick.Some? && end.lastTick.value < end.schedule[k].nextDue
    decreases |steps|
  {
    if steps == [] {
      n := 0;
      StandsStill(w, w, k);
    } else {
      var next := Apply(w, steps[0], phase);
      var first := StepProgresses(w, steps[0], phase, k);
      StepKeepsInv(w, steps[0], phase);
      if steps[0].AccrueStep? { AccrueAllKeepsInv(w, steps[0].keys, w.lastTick.value, phase); }
      var rest := NoDueIsMissed(next, steps[1..], phase, k);
      ProgressJoins(w, next, Final(w, steps, phase), k, first, rest);
      n := first + rest;
    }
  }

  /** A tick accrues what is overdue: a task that was due by now and is still a target with its interval
      has that due time accrued, whatever else the refresh found. */
  lemma OverdueIsAccrued(w: World, refresh: Step, keys: seq<TaskKey>, phase: Phase, k: TaskKey)
    requires Inv(w, phase) && refresh.RefreshStep? && Enabled(w, refresh)
    requires k in w.schedule && KeepsTarget(w, refresh, k) && w.schedule[k].nextDue <= refresh.now && k in keys
    ensures (k, w.schedule[k].nextDue) in AccrueAll(Apply(w, refresh, phase), keys, refresh.now).ledger.accrued
  {
    StepKeepsInv(w, refresh, phase);
    InvEntriesOk(Apply(w, refresh, phase), phase);
    RefreshStandsStill(w, refresh, phase, k);
    StillDueIsAccrued(w, Apply(w, refresh, phase), keys, refresh.now, k);
  }

  lemma InvEntriesOk(w: World, phase: Phase)
    requires Inv(w, phase)
    ensures EntriesOk(w)
  {
    assert forall j :: j in w.schedule ==> EntryOk(j, w.schedule[j], phase);
  }

  lemma StillDueIsAccrued(w: World, next: World, keys: seq<TaskKey>, now: int, k: TaskKey)
    requires EntriesOk(next) && k in w.schedule && Progressed(w, next, k, 0) && w.schedule[k].nextDue <= now && k in keys
    ensures (k, w.schedule[k].nextDue) in AccrueAll(next, keys, now).ledger.accrued
  {
    var e := w.schedule[k];
    var n := AccrueAllProgresses(next, keys, now, k);
    assert Point(e.nextDue, e.template.interval, 0) == e.nextDue;
    assert e.nextDue in Dues(e.nextDue, e.template.interval, n);
  }
}
