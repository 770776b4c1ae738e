/** The scheduler's loops over its own maps, each proved to take one step of the state machine. */
module CentralScheduler {
  import opened Basics
  import opened Dispatcher
  import opened Ordering
  import opened Scheduler

  // ----- the dispatch order is a strict total order on pending runs

  lemma KeyLessTotal(a: TaskKey, b: TaskKey)
    requires a != b
    ensures KeyLess(a, b) || KeyLess(b, a)
  {
    if a.instance == b.instance { StringTotal(a.task, b.task); } else { StringTotal(a.instance, b.instance); }
  }

  lemma KeyLessIrreflexive(a: TaskKey)
    ensures !KeyLess(a, a)
  {
    StringIrreflexive(a.task);
  }

  lemma KeyLessTransitive(a: TaskKey, b: TaskKey, c: TaskKey)
    requires KeyLess(a, b) && KeyLess(b, c)
    ensures KeyLess(a, c)
  {
    if a.instance == b.instance && b.instance == c.instance {
      StringTransitive(a.task, b.task, c.task);
    } else if a.instance != b.instance && b.instance != c.instance {
      StringTransitive(a.instance, b.instance, c.instance);
      if a.instance == c.instance { StringIrreflexive(a.instance); }
    }
  }

  lemma KeyLessLinear(s: set<TaskKey>)
    ensures Linear(KeyLess, s)
  {
    forall a: TaskKey ensures !KeyLess(a, a) { KeyLessIrreflexive(a); }
    forall a: TaskKey, b: TaskKey | a != b ensures KeyLess(a, b) || KeyLess(b, a) { KeyLessTotal(a, b); }
    forall a: TaskKey, b: TaskKey, c: TaskKey | KeyLess(a, b) && KeyLess(b, c) ensures KeyLess(a, c) {
      KeyLessTransitive(a, b, c);
    }
  }

  lemma RunLessTransitive(a: Run, b: Run, c: Run)
    requires RunLess(a, b) && RunLess(b, c)
    ensures RunLess(a, c)
  {
    if IsCapability(a.task) == IsCapability(b.task) == IsCapability(c.task) && a.dueAt == b.dueAt == c.dueAt {
      KeyLessTransitive(a.key, b.key, c.key);
    }
  }

  lemma RunLessLinear(runs: set<Run>)
    requires forall a, b :: a in runs && b in runs && a.key == b.key ==> a == b
    ensures Linear(RunLess, runs)
  {
    forall a | a in runs ensures !RunLess(a, a) { KeyLessIrreflexive(a.key); }
    forall a, b | a in runs && b in runs && a != b ensures RunLess(a, b) || RunLess(b, a) { KeyLessTotal(a.key, b.key); }
    forall a, b, c | a in runs && b in runs && c in runs && RunLess(a, b) && RunLess(b, c) ensures RunLess(a, c) {
      RunLessTransitive(a, b, c);
    }
  }

  ghost predicate KeyedByKey(items: map<TaskKey, Run>) { forall k :: k in items ==> items[k].key == k }

  /** One pending run per key. */
  class PendingRuns {
    var items: map<TaskKey, Run>

    constructor ()
      ensures items == map[]
    {
      items := map[];
    }

    method Put(run: Run) returns (previous: Option<Run>)
      modifies this
      ensures items == old(items)[run.key := run]
      ensures previous == (if run.key in old(items) then Some(old(items)[run.key]) else None)
    {
      previous := if run.key in items then Some(items[run.key]) else None;
      items := items[run.key := run];
    }

    method Take(key: TaskKey) returns (run: Option<Run>)
      modifies this
      ensures items == old(items) - {key}
      ensures run == (if key in old(items) then Some(old(items)[key]) else None)
    {
      run := None;
      if key in items {
        run := Some(items[key]);
        items := items - {key};
      } else {
        assert items == items - {key};
      }
    }

    /** All pending runs, each once, in dispatch order. */
    method Ordered() returns (runs: seq<Run>)
      requires KeyedByKey(items)
      ensures Offers(items, runs) && Ascending(RunLess, runs)
    {
      var keys := Enumerate(items.Keys);
      var m := items;
      assert forall i :: 0 <= i < |keys| ==> keys[i] in m;
      var listed := seq(|keys|, i requires 0 <= i < |keys| && keys[i] in m => m[keys[i]]);
      assert forall i :: 0 <= i < |keys| ==> keys[i] in items && listed[i] == items[keys[i]] && listed[i].key == keys[i];
      RunLessLinear(Elems(listed));
      SortAscending(RunLess, listed);
      runs := Sort(RunLess, listed);
      ListedOffers(items, keys, listed, runs);
    }

    method HasCapabilitySnapshot() returns (found: bool)
      ensures found <==> HasCapability(items)
    {
      var rest := items.Keys;
      while rest != {}
        invariant rest <= items.Keys
        invariant forall k :: k in items && k !in rest ==> !IsCapability(items[k].task)
      {
        var k :| k in rest;
        if IsCapability(items[k].task) { return true; }
        rest := rest - {k};
      }
      return false;
    }
  }

  lemma ListedOffers(items: map<TaskKey, Run>, keys: seq<TaskKey>, listed: seq<Run>, runs: seq<Run>)
    requires KeyedByKey(items) && |listed| == |keys| && Elems(keys) == items.Keys
    requires forall i :: 0 <= i < |keys| ==> keys[i] in items && listed[i] == items[keys[i]]
    requires Elems(runs) == Elems(listed) && Ascending(RunLess, runs)
    ensures Offers(items, runs)
  {
    forall i | 0 <= i < |runs| ensures runs[i].key in items && items[runs[i].key] == runs[i] {
      assert runs[i] in Elems(listed);
      var j :| 0 <= j < |listed| && listed[j] == runs[i];
    }
    forall i, j | 0 <= i < j < |runs| ensures runs[i].key != runs[j].key {
      assert RunLess(runs[i], runs[j]);
      KeyLessIrreflexive(runs[i].key);
    }
    forall k | k in items ensures items[k].key == k && items[k] in runs {
      assert k in Elems(keys);
      var j :| 0 <= j < |keys| && keys[j] == k;
      assert listed[j] in Elems(runs);
    }
  }

  class Central {
    const dispatcher: Gatekeeper
    const pending: PendingRuns
    var schedule: map<TaskKey, Entry>
    ghost var executing: set<Work>
    ghost var buffered: set<Work>
    ghost var ledger: Ledger
    ghost var lastTick: Option<int>

    ghost function View(): World
      reads this, dispatcher, pending
    {
      World(schedule, pending.items, dispatcher.State(), executing, buffered, ledger, lastTick)
    }

    ghost predicate Ok(phase: Phase)
      reads this, dispatcher, pending
    {
      dispatcher.Ok() && dispatcher.flight == executing + buffered && Inv(View(), phase)
    }

    constructor (probeLimit: nat, queryLimit: nat)
      ensures View() == NewWorld(probeLimit, queryLimit)
      ensures dispatcher.Ok() && dispatcher.flight == executing + buffered
      ensures forall phase :: Inv(View(), phase)
      ensures fresh(dispatcher) && fresh(pending)
    {
      dispatcher := new Gatekeeper(probeLimit, queryLimit);
      pending := new PendingRuns();
      schedule := map[];
      executing, buffered := {}, {};
      ledger, lastTick := Ledger({}, map[], {}, {}, {}, []), None;
      new;
      forall phase ensures Inv(View(), phase) { NewWorldOk(probeLimit, queryLimit, phase); }
    }

    /** Entries for the current targets; then, when all were read, drop the rest. */
    method DoRefresh(now: int, templates: seq<Run>, complete: bool, phase: Phase)
      requires Ok(phase) && (forall t :: t in templates ==> WellBuilt(t))
      requires lastTick.Some? ==> lastTick.value < now
      modifies this, pending
      ensures Ok(phase) && View() == Refresh(old(View()), now, templates, complete, phase)
    {
      RefreshKeepsInv(View(), now, templates, complete, phase);
      UpdateEntries(now, templates, phase);
      lastTick := Some(now);
      if complete {
        DropAbsent(KeysOf(templates));
      }
    }

    method UpdateEntries(now: int, templates: seq<Run>, phase: Phase)
      requires forall t :: t in templates ==> WellBuilt(t)
      modifies this`schedule
      ensures schedule == Refreshed(old(schedule), now, templates, phase)
    {
      var n := 0;
      while n < |templates|
        invariant 0 <= n <= |templates|
        invariant schedule == Refreshed(old(schedule), now, templates[..n], phase)
      {
        var t := templates[n];
        assert t in templates;
        assert templates[..n + 1][..n] == templates[..n];
        var entry := Entry(t, 0);
        if t.key in schedule { entry := schedule[t.key]; }
        if t.key !in schedule || (!IsCapability(t.task) && entry.template.interval != t.interval) {
          entry := entry.(nextDue := InitialDue(now, t, phase));
        }
        entry := entry.(template := t);
        schedule := schedule[t.key := entry];
        n := n + 1;
      }
      assert templates[..n] == templates;
    }

    method DropAbsent(active: set<TaskKey>)
      modifies this, pending
      ensures View() == Drop(old(View()), active)
    {
      ghost var before := View();
      var rest := schedule.Keys - active;
      ghost var gone: set<TaskKey> := {};
      while rest != {}
        invariant gone !! rest && gone + rest == before.schedule.Keys - active
        invariant schedule == before.schedule - gone && pending.items == before.pending - gone
        invariant View() == before.(schedule := schedule, pending := pending.items)
      {
        var key :| key in rest;
        rest := rest - {key};
        schedule := schedule - {key};
        var _ := pending.Take(key);
        gone := gone + {key};
      }
      ledger := ledger.(dropped := ledger.dropped + set k | k in before.pending && k in gone :: DueOf(before.pending[k]));
    }

    /** The inner loop of accrue for one entry. */
    method AccrueEntry(key: TaskKey, now: int)
      requires key in schedule && schedule[key].template.interval > 0 && schedule[key].template.key == key
      modifies this, pending
      ensures View() == AccrueKey(old(View()), key, now)
    {
      ghost var before := View();
      var entry := schedule[key];
      ghost var w := before;
      while entry.nextDue <= now
        invariant key in w.schedule && w.schedule[key] == entry && entry.template.interval > 0 && entry.template.key == key
        invariant w.schedule == before.schedule[key := entry]
        invariant View() == w.(schedule := schedule) && schedule == before.schedule
        invariant AccrueKey(w, key, now) == AccrueKey(before, key, now)
        decreases now - entry.nextDue
      {
        var run := entry.template.(dueAt := entry.nextDue);
        var replaced := pending.Put(run);
        ledger := ledger.(accrued := ledger.accrued + {DueOf(run)}, intervals := ledger.intervals[DueOf(run) := run.interval],
                          replaced := ledger.replaced + (if replaced.Some? then {DueOf(replaced.value)} else {}));
        w := AccrueDue(w, key);
        entry := entry.(nextDue := entry.nextDue + entry.template.interval);
      }
      schedule := schedule[key := entry];
    }

    /** Accrue every entry, in key order. */
    method DoAccrue(now: int, phase: Phase) returns (ghost keys: seq<TaskKey>)
      requires Ok(phase) && lastTick == Some(now)
      modifies this, pending
      ensures Ok(phase) && Ascending(KeyLess, keys) && Elems(keys) == old(schedule).Keys
      ensures View() == AccrueAll(old(View()), keys, now)
    {
      var listed := Enumerate(schedule.Keys);
      KeyLessLinear(Elems(listed));
      SortAscending(KeyLess, listed);
      var ordered := Sort(KeyLess, listed);
      keys := ordered;
      AccrueInOrder(ordered, now, phase);
    }

    method AccrueInOrder(ordered: seq<TaskKey>, now: int, phase: Phase)
      requires Ok(phase) && lastTick == Some(now) && Elems(ordered) == schedule.Keys
      modifies this, pending
      ensures Ok(phase) && View() == AccrueAll(old(View()), ordered, now)
    {
      ghost var before := View();
      var n := 0;
      while n < |ordered|
        invariant 0 <= n <= |ordered|
        invariant View() == AccrueAll(before, ordered[..n], now) && schedule.Keys == before.schedule.Keys
        invariant Ok(phase)
      {
        ghost var earlier := View();
        var key := ordered[n];
        assert key in Elems(ordered);
        assert EntryOk(key, schedule[key], phase);
        AccrueKeyKeepsRest(earlier, key, now);
        assert ordered[..n + 1][..n] == ordered[..n];
        AccrueAllKeepsInv(before, ordered[..n + 1], now, phase);
        AccrueEntry(key, now);
        n := n + 1;
      }
      assert ordered[..n] == ordered;
    }

    /** One dispatch pass. `gates` answers the backoff lookups. */
    method DoDispatch(gates: TaskKey -> Gate, phase: Phase) returns (ghost offered: seq<Run>)
      requires Ok(phase)
      requires forall k :: k in pending.items ==> GateFits(pending.items[k], gates(k))
      modifies this, dispatcher, pending
      ensures Ok(phase)
      ensures Offers(old(pending.items), offered) && Ascending(RunLess, offered)
      ensures View() == Pass(old(View()), offered, gates)
      ensures forall k :: k in pending.items && gates(k).NotBefore? ==> !Admits(dispatcher.State(), WorkOf(pending.items[k]))
    {
      ghost var before := View();
      assert KeyedByKey(pending.items) by {
        forall k | k in pending.items ensures pending.items[k].key == k { assert RunOk(k, pending.items[k], phase); }
      }
      var waiting := pending.HasCapabilitySnapshot();
      var runs := pending.Ordered();
      offered := runs;
      dispatcher.SetWaiting(waiting);
      PassEnds(before, runs, gates);
      OfferAll(runs, gates, before);
      PassKeepsInv(before, runs, gates, |runs|, Pass(before, runs, gates), phase);
      DispatchIsWorkConserving(before, runs, gates);
    }

    method OfferAll(runs: seq<Run>, gates: TaskKey -> Gate, ghost before: World)
      requires dispatcher.Ok() && dispatcher.flight == executing + buffered && View() == SetWaiting(before)
      modifies this, dispatcher, pending
      ensures dispatcher.Ok() && dispatcher.flight == executing + buffered
      ensures View() == Pass(before, runs, gates)
    {
      PassEnds(before, runs, gates);
      var n := 0;
      while n < |runs|
        invariant 0 <= n <= |runs|
        invariant dispatcher.Ok() && dispatcher.flight == executing + buffered
        invariant View() == PassTo(before, runs, gates, n)
      {
        PassStep(before, runs, gates, n);
        OfferRun(runs[n], gates(runs[n].key));
        n := n + 1;
      }
    }

    method OfferRun(run: Run, gate: Gate)
      requires dispatcher.Ok() && dispatcher.flight == executing + buffered
      modifies this, dispatcher, pending
      ensures dispatcher.Ok() && dispatcher.flight == executing + buffered
      ensures View() == Offer(old(View()), run, gate)
    {
      if gate.LookupFailed? { return; }
      if gate.at.Some? && run.dueAt < gate.at.value {
        var _ := pending.Take(run.key);
        ledger := ledger.(deferred := ledger.deferred + {DueOf(run)});
        return;
      }
      var item := Work(run.key.instance, ClassFor(run.task));
      var ok := dispatcher.Admit(item);
      if !ok { return; }
      var _ := pending.Take(run.key);
      var waiting := pending.HasCapabilitySnapshot();
      dispatcher.SetWaiting(waiting);
      ledger := ledger.(dispatched := ledger.dispatched + [DueOf(run)]);
      executing := executing + {item};
    }

    /** A result received from the channel frees its slot. */
    method DoComplete(item: Work, phase: Phase)
      requires Ok(phase) && item in buffered
      modifies this, dispatcher
      ensures Ok(phase) && View() == Complete(old(View()), item)
    {
      WorkersKeepInv(View(), item, phase);
      dispatcher.Finish(item);
      buffered := buffered - {item};
    }
  }
}
