/** The central scheduler as a state machine: refreshing the schedule, accruing due runs,
    dispatching them, and completing work. A ledger records what became of every due run. */
module Scheduler {
  import opened Basics
  import opened DueTimes
  import opened Dispatcher
  import opened Ordering

  datatype Task = Task(id: string, kind: TaskKind, interval: int)

  datatype TaskKey = TaskKey(instance: string, task: string)

  datatype Run = Run(key: TaskKey, dueAt: int, task: Task, interval: int)

  datatype Entry = Entry(template: Run, nextDue: int)

  const CapabilityTask := "capability.snapshot"

  predicate IsCapability(task: Task) { task.id == CapabilityTask }

  function ClassFor(task: Task): WorkClass {
    if IsCapability(task) then CapabilitySnapshot
    else if task.kind.Probe? then ProbeWork
    else CollectionQuery
  }

  function WorkOf(run: Run): Work { Work(run.key.instance, ClassFor(run.task)) }

  /** What a run built from the task catalogue satisfies. */
  predicate WellBuilt(run: Run) { run.interval > 0 && run.key.task == run.task.id }

  /** The hash that spreads tasks over their interval; any function of the key and interval. */
  type Phase = (TaskKey, int) -> int

  function InitialDue(now: int, run: Run, phase: Phase): int
    requires WellBuilt(run)
  {
    if IsCapability(run.task) then now else NextDueAfter(now, phase(run.key, run.interval), run.interval)
  }

  // ----- the state

  type Due = (TaskKey, int)

  /** Where every accrued due run ended up; one that is in none of these is still pending. `intervals`
      keeps the interval each was accrued with. */
  datatype Ledger = Ledger(
    accrued: set<Due>, intervals: map<Due, int>,
    replaced: set<Due>, deferred: set<Due>, dropped: set<Due>, dispatched: seq<Due>)

  datatype World = World(
    schedule: map<TaskKey, Entry>, pending: map<TaskKey, Run>, slots: Slots,
    executing: set<Work>, buffered: set<Work>, ledger: Ledger, lastTick: Option<int>)

  function NewWorld(probeLimit: nat, queryLimit: nat): World {
    World(map[], map[], NewSlots(probeLimit, queryLimit), {}, {}, Ledger({}, map[], {}, {}, {}, []), None)
  }

  function DueOf(run: Run): Due { (run.key, run.dueAt) }

  predicate HasCapability(pending: map<TaskKey, Run>) {
    exists k :: k in pending && IsCapability(pending[k].task)
  }

  // ----- refresh

  function RefreshedEntry(schedule: map<TaskKey, Entry>, now: int, t: Run, phase: Phase): Entry
    requires WellBuilt(t)
  {
    var keep := t.key in schedule && (IsCapability(t.task) || schedule[t.key].template.interval == t.interval);
    Entry(t, if keep then schedule[t.key].nextDue else InitialDue(now, t, phase))
  }

  function Refreshed(schedule: map<TaskKey, Entry>, now: int, templates: seq<Run>, phase: Phase): map<TaskKey, Entry>
    requires forall t :: t in templates ==> WellBuilt(t)
  {
    if templates == [] then schedule
    else
      var n := |templates| - 1;
      var earlier := Refreshed(schedule, now, templates[..n], phase);
      earlier[templates[n].key := RefreshedEntry(earlier, now, templates[n], phase)]
  }

  function KeysOf(templates: seq<Run>): set<TaskKey> { set i | 0 <= i < |templates| :: templates[i].key }

  function Drop(w: World, active: set<TaskKey>): World {
    var gone := w.schedule.Keys - active;
    var lost := set k | k in w.pending && k in gone :: DueOf(w.pending[k]);
    w.(schedule := w.schedule - gone, pending := w.pending - gone,
       ledger := w.ledger.(dropped := w.ledger.dropped + lost))
  }

  /** Rebuilds the schedule from the current targets. `complete` is false when reading the targets
      failed part-way: entries seen so far are kept, nothing is dropped. */
  function Refresh(w: World, now: int, templates: seq<Run>, complete: bool, phase: Phase): World
    requires forall t :: t in templates ==> WellBuilt(t)
  {
    var next := w.(schedule := Refreshed(w.schedule, now, templates, phase), lastTick := Some(now));
    if complete then Drop(next, KeysOf(templates)) else next
  }

  // ----- accrue

  /** One due run of one entry becomes pending, replacing an earlier pending one. */
  function AccrueDue(w: World, k: TaskKey): World
    requires k in w.schedule
  {
    var e := w.schedule[k];
    var run := e.template.(dueAt := e.nextDue);
    w.(schedule := w.schedule[k := e.(nextDue := e.nextDue + e.template.interval)],
       pending := w.pending[run.key := run],
       ledger := w.ledger.(
         accrued := w.ledger.accrued + {DueOf(run)}, intervals := w.ledger.intervals[DueOf(run) := e.template.interval],
         replaced := w.ledger.replaced + (if run.key in w.pending then {DueOf(w.pending[run.key])} else {})))
  }

  function AccrueKey(w: World, k: TaskKey, now: int): World
    requires k in w.schedule && w.schedule[k].template.interval > 0
    decreases now - w.schedule[k].nextDue
  {
    if w.schedule[k].nextDue > now then w else AccrueKey(AccrueDue(w, k), k, now)
  }

  // ----- dispatch

  /** The answer of the backoff lookup: it failed, or the time before which a due run is put off. */
  datatype Gate = LookupFailed | NotBefore(at: Option<int>)

  predicate Deferred(run: Run, gate: Gate) {
    gate.NotBefore? && gate.at.Some? && run.dueAt < gate.at.value
  }

  /** Probes and capability snapshots are never gated and never looked up. */
  predicate GateFits(run: Run, gate: Gate) {
    (run.task.kind.Probe? || IsCapability(run.task)) ==> gate == NotBefore(None)
  }

  function Offer(w: World, run: Run, gate: Gate): World {
    if gate.LookupFailed? then w
    else if Deferred(run, gate) then
      w.(pending := w.pending - {run.key}, ledger := w.ledger.(deferred := w.ledger.deferred + {DueOf(run)}))
    else if !Admits(w.slots, WorkOf(run)) then w
    else
      var rest := w.pending - {run.key};
      w.(pending := rest,
         slots := Admitted(w.slots, WorkOf(run)).(capabilityWaiting := HasCapability(rest)),
         executing := w.executing + {WorkOf(run)},
         ledger := w.ledger.(dispatched := w.ledger.dispatched + [DueOf(run)]))
  }

  function SetWaiting(w: World): World {
    w.(slots := w.slots.(capabilityWaiting := HasCapability(w.pending)))
  }

  /** One pass over the runs on offer, in their order. */
  function Pass(w: World, offered: seq<Run>, gates: TaskKey -> Gate): World {
    if offered == [] then SetWaiting(w)
    else
      var n := |offered| - 1;
      Offer(Pass(w, offered[..n], gates), offered[n], gates(offered[n].key))
  }

  /** The pass after its first n offers. */
  function PassTo(w: World, offered: seq<Run>, gates: TaskKey -> Gate, n: nat): World
    requires n <= |offered|
  {
    Pass(w, offered[..n], gates)
  }

  lemma PassStep(w: World, offered: seq<Run>, gates: TaskKey -> Gate, n: nat)
    requires n < |offered|
    ensures PassTo(w, offered, gates, n + 1) == Offer(PassTo(w, offered, gates, n), offered[n], gates(offered[n].key))
  {
    assert offered[..n + 1][..n] == offered[..n];
  }

  lemma PassEnds(w: World, offered: seq<Run>, gates: TaskKey -> Gate)
    ensures PassTo(w, offered, gates, 0) == SetWaiting(w)
    ensures PassTo(w, offered, gates, |offered|) == Pass(w, offered, gates)
  {
    assert offered[..0] == [] && offered[..|offered|] == offered;
  }

  // ----- workers

  function WorkerDone(w: World, item: Work): World
    requires item in w.executing
  {
    w.(executing := w.executing - {item}, buffered := w.buffered + {item})
  }

  function Complete(w: World, item: Work): World
    requires item in w.buffered
  {
    w.(buffered := w.buffered - {item}, slots := Finished(w.slots, item))
  }

  // ----- the invariant

  ghost predicate EntryOk(k: TaskKey, e: Entry, phase: Phase) {
    && e.template.key == k && WellBuilt(e.template)
    && (!IsCapability(e.template.task) ==> OnLattice(e.nextDue, phase(k, e.template.interval), e.template.interval))
  }

  ghost predicate ScheduleOk(w: World, phase: Phase) {
    forall k :: k in w.schedule ==> EntryOk(k, w.schedule[k], phase)
  }

  ghost predicate RunOk(k: TaskKey, run: Run, phase: Phase) {
    && run.key == k && WellBuilt(run)
    && (!IsCapability(run.task) ==> OnLattice(run.dueAt, phase(k, run.interval), run.interval))
  }

  ghost predicate PendingOk(w: World, phase: Phase) {
    forall k :: k in w.pending ==>
      && k in w.schedule && RunOk(k, w.pending[k], phase)
      && w.pending[k].dueAt < w.schedule[k].nextDue
      && DueOf(w.pending[k]) in w.ledger.accrued
  }

  /** Accrued dues lie in the past and before the entry's next one; the pending one is the latest. */
  ghost predicate DuesOk(w: World) {
    && (forall d :: d in w.ledger.accrued ==> w.lastTick.Some? && d.1 <= w.lastTick.value)
    && (forall d :: d in w.ledger.accrued && d.0 in w.schedule ==> d.1 < w.schedule[d.0].nextDue)
    && (forall d :: d in w.ledger.accrued && d.0 in w.pending ==> d.1 <= w.pending[d.0].dueAt)
  }

  ghost predicate IsPending(w: World, d: Due) { d.0 in w.pending && w.pending[d.0].dueAt == d.1 }

  /** In how many of the five places a due run is. */
  ghost function Places(w: World, d: Due): int {
    (if IsPending(w, d) then 1 else 0) + (if d in w.ledger.replaced then 1 else 0)
    + (if d in w.ledger.deferred then 1 else 0) + (if d in w.ledger.dropped then 1 else 0)
    + (if d in w.ledger.dispatched then 1 else 0)
  }

  /** Every accrued due run is in exactly one place, and nothing else is in any. */
  ghost predicate Conserved(w: World) {
    forall d :: Places(w, d) == if d in w.ledger.accrued then 1 else 0
  }

  ghost predicate DispatchedInOrder(w: World) {
    forall i, j :: 0 <= i < j < |w.ledger.dispatched| && w.ledger.dispatched[i].0 == w.ledger.dispatched[j].0
                   ==> w.ledger.dispatched[i].1 < w.ledger.dispatched[j].1
  }

  ghost predicate WorkersOk(w: World) {
    w.executing !! w.buffered && Valid(w.slots, w.executing + w.buffered)
  }

  ghost predicate BooksOk(w: World, phase: Phase) {
    ScheduleOk(w, phase) && PendingOk(w, phase) && DuesOk(w) && Conserved(w) && DispatchedInOrder(w)
  }

  ghost predicate Inv(w: World, phase: Phase) { BooksOk(w, phase) && WorkersOk(w) }

  // ----- refresh keeps the books

  /** A refresh at `now` leaves an entry's next due where it was, or moves it to now or later. */
  ghost predicate Moved(before: map<TaskKey, Entry>, after: map<TaskKey, Entry>, now: int) {
    && before.Keys <= after.Keys
    && forall k :: k in after ==>
         (k in before && after[k].nextDue == before[k].nextDue) || after[k].nextDue >= now
  }

  lemma InitialDueOk(now: int, t: Run, phase: Phase)
    requires WellBuilt(t)
    ensures InitialDue(now, t, phase) >= now
    ensures !IsCapability(t.task) ==> OnLattice(InitialDue(now, t, phase), phase(t.key, t.interval), t.interval)
  {
    if !IsCapability(t.task) { NextDueAfterIsNext(now, phase(t.key, t.interval), t.interval); }
  }

  lemma {:induction false} RefreshedOk(schedule: map<TaskKey, Entry>, now: int, templates: seq<Run>, phase: Phase)
    requires forall t :: t in templates ==> WellBuilt(t)
    requires forall k :: k in schedule ==> EntryOk(k, schedule[k], phase)
    ensures
      var after := Refreshed(schedule, now, templates, phase);
      && (forall k :: k in after ==> EntryOk(k, after[k], phase))
      && Moved(schedule, after, now)
  {
    if templates != [] {
      var n := |templates| - 1;
      var t := templates[n];
      RefreshedOk(schedule, now, templates[..n], phase);
      InitialDueOk(now, t, phase);
      var earlier := Refreshed(schedule, now, templates[..n], phase);
      assert EntryOk(t.key, RefreshedEntry(earlier, now, t, phase), phase);
    }
  }

  lemma RescheduleKeepsBooks(w: World, now: int, schedule: map<TaskKey, Entry>, phase: Phase)
    requires BooksOk(w, phase) && Moved(w.schedule, schedule, now)
    requires w.lastTick.Some? ==> w.lastTick.value < now
    requires forall k :: k in schedule ==> EntryOk(k, schedule[k], phase)
    ensures BooksOk(w.(schedule := schedule, lastTick := Some(now)), phase)
  {
    var next := w.(schedule := schedule, lastTick := Some(now));
    assert forall d :: Places(next, d) == Places(w, d);
  }

  lemma DropKeepsBooks(w: World, active: set<TaskKey>, phase: Phase)
    requires BooksOk(w, phase)
    ensures BooksOk(Drop(w, active), phase)
  {
    var next := Drop(w, active);
    forall d ensures Places(next, d) == Places(w, d) {
      if IsPending(w, d) && d.0 !in active {
        assert d == DueOf(w.pending[d.0]);
        assert d in next.ledger.dropped;
        assert Places(w, d) <= 1;
      }
      if d in next.ledger.dropped && d !in w.ledger.dropped {
        var k :| k in w.pending && k in w.schedule.Keys - active && d == DueOf(w.pending[k]);
        assert d.0 == k;
      }
    }
  }

  /** Refreshing keeps the books, provided ticks move forward. */
  lemma RefreshKeepsInv(w: World, now: int, templates: seq<Run>, complete: bool, phase: Phase)
    requires Inv(w, phase) && forall t :: t in templates ==> WellBuilt(t)
    requires w.lastTick.Some? ==> w.lastTick.value < now
    ensures Inv(Refresh(w, now, templates, complete, phase), phase)
  {
    RefreshedOk(w.schedule, now, templates, phase);
    var schedule := Refreshed(w.schedule, now, templates, phase);
    RescheduleKeepsBooks(w, now, schedule, phase);
    if complete { DropKeepsBooks(w.(schedule := schedule, lastTick := Some(now)), KeysOf(templates), phase); }
  }

  // ----- accrue keeps the books

  lemma AccrueDueConserves(w: World, k: TaskKey, phase: Phase)
    requires BooksOk(w, phase) && k in w.schedule
    ensures Conserved(AccrueDue(w, k))
  {
    var next := AccrueDue(w, k);
    var due := w.schedule[k].nextDue;
    assert EntryOk(k, w.schedule[k], phase);
    assert (k, due) !in w.ledger.accrued;
    assert Places(w, (k, due)) == 0;
    forall d ensures Places(next, d) == if d in next.ledger.accrued then 1 else 0 {
      assert Places(w, d) == if d in w.ledger.accrued then 1 else 0;
      if k in w.pending {
        assert PendingKey(w, k, phase);
        if d == DueOf(w.pending[k]) { assert IsPending(w, d); }
      }
    }
  }

  ghost predicate PendingKey(w: World, k: TaskKey, phase: Phase)
    requires k in w.pending
  {
    k in w.schedule && w.pending[k].key == k && w.pending[k].dueAt < w.schedule[k].nextDue
  }

  lemma AccrueDuePending(w: World, k: TaskKey, phase: Phase)
    requires ScheduleOk(w, phase) && PendingOk(w, phase) && k in w.schedule
    ensures ScheduleOk(AccrueDue(w, k), phase) && PendingOk(AccrueDue(w, k), phase)
  {
    var e := w.schedule[k];
    assert EntryOk(k, e, phase);
    if !IsCapability(e.template.task) {
      LatticeStep(e.nextDue, phase(k, e.template.interval), e.template.interval);
    }
    assert RunOk(k, e.template.(dueAt := e.nextDue), phase);
  }

  lemma AccrueDueDues(w: World, k: TaskKey)
    requires DuesOk(w) && k in w.schedule && w.schedule[k].template.key == k && w.schedule[k].template.interval > 0
    requires w.lastTick.Some? && w.schedule[k].nextDue <= w.lastTick.value
    ensures DuesOk(AccrueDue(w, k))
  {}

  lemma AccrueDueKeepsBooks(w: World, k: TaskKey, phase: Phase)
    requires BooksOk(w, phase) && k in w.schedule
    requires w.lastTick.Some? && w.schedule[k].nextDue <= w.lastTick.value
    ensures BooksOk(AccrueDue(w, k), phase)
  {
    AccrueDuePending(w, k, phase);
    assert EntryOk(k, w.schedule[k], phase);
    AccrueDueDues(w, k);
    AccrueDueConserves(w, k, phase);
  }

  lemma {:induction false} AccrueKeyKeepsBooks(w: World, k: TaskKey, now: int, phase: Phase)
    requires BooksOk(w, phase) && k in w.schedule && w.schedule[k].template.interval > 0 && w.lastTick == Some(now)
    ensures BooksOk(AccrueKey(w, k, now), phase)
    decreases now - w.schedule[k].nextDue
  {
    if w.schedule[k].nextDue <= now {
      AccrueDueKeepsBooks(w, k, phase);
      AccrueKeyKeepsBooks(AccrueDue(w, k), k, now, phase);
    }
  }

  /** Nothing but one entry, its pending run and the ledger is touched. */
  ghost predicate OnlyKey(w: World, after: World, k: TaskKey) {
    && after.schedule.Keys == w.schedule.Keys
    && (forall j :: j in w.schedule && j != k ==> after.schedule[j] == w.schedule[j])
    && (forall j :: j != k ==> (j in after.pending <==> j in w.pending) && (j in w.pending ==> after.pending[j] == w.pending[j]))
    && after.slots == w.slots && after.executing == w.executing && after.buffered == w.buffered
    && after.lastTick == w.lastTick
    && after.ledger.deferred == w.ledger.deferred && after.ledger.dropped == w.ledger.dropped
    && after.ledger.dispatched == w.ledger.dispatched
  }

  function AtKey(k: TaskKey, dues: set<int>): set<Due> { set d | d in dues :: (k, d) }

  /** Where catching up leaves the entry and its pending run. */
  ghost predicate CaughtUpTo(w: World, after: World, k: TaskKey, n: int)
    requires k in w.schedule
  {
    var e := w.schedule[k];
    var i := e.template.interval;
    && OnlyKey(w, after, k)
    && k in after.schedule && after.schedule[k] == e.(nextDue := Point(e.nextDue, i, n + 1))
    && k in after.pending && after.pending[k] == e.template.(dueAt := Point(e.nextDue, i, n))
  }

  /** What catching up writes to the ledger. */
  ghost predicate CaughtUpOn(w: World, after: World, k: TaskKey, n: int)
    requires k in w.schedule
  {
    var e := w.schedule[k];
    var i := e.template.interval;
    && after.ledger.accrued == w.ledger.accrued + AtKey(k, Dues(e.nextDue, i, n + 1))
    && after.ledger.replaced == w.ledger.replaced + AtKey(k, Dues(e.nextDue, i, n))
                                + (if k in w.pending then {DueOf(w.pending[k])} else {})
  }

  /** Catching up in closed form: an entry that is due ends with its latest due not after now
      pending, its next due the first after now, and exactly the ones in between, and an earlier
      pending run, replaced. */
  ghost predicate CaughtUp(w: World, after: World, k: TaskKey, now: int)
    requires k in w.schedule && w.schedule[k].template.interval > 0
  {
    var e := w.schedule[k];
    if e.nextDue > now then after == w
    else
      var n := Missed(e.nextDue, e.template.interval, now);
      CaughtUpTo(w, after, k, n) && CaughtUpOn(w, after, k, n)
  }

  lemma CatchUpLast(w: World, k: TaskKey, now: int)
    requires k in w.schedule && w.schedule[k].template.interval > 0 && w.schedule[k].template.key == k
    requires w.schedule[k].nextDue <= now < w.schedule[k].nextDue + w.schedule[k].template.interval
    ensures CaughtUp(w, AccrueDue(w, k), k, now)
  {
    var e := w.schedule[k];
    var i := e.template.interval;
    MissedStep(e.nextDue, i, now);
    DuesStep(e.nextDue, i, 0);
    assert Dues(e.nextDue + i, i, 0) == {} && Dues(e.nextDue, i, 0) == {};
    assert AtKey(k, {}) == {} && AtKey(k, {e.nextDue}) == {(k, e.nextDue)};
  }

  lemma CatchUpToMore(w: World, after: World, k: TaskKey, m: int)
    requires k in w.schedule && w.schedule[k].template.key == k && CaughtUpTo(AccrueDue(w, k), after, k, m)
    ensures CaughtUpTo(w, after, k, m + 1)
  {
    var e := w.schedule[k];
    PointShift(e.nextDue, e.template.interval, m);
    PointShift(e.nextDue, e.template.interval, m + 1);
  }

  lemma CatchUpOnMore(w: World, after: World, k: TaskKey, m: int)
    requires k in w.schedule && w.schedule[k].template.key == k && m >= 0 && CaughtUpOn(AccrueDue(w, k), after, k, m)
    ensures CaughtUpOn(w, after, k, m + 1)
  {
    var e := w.schedule[k];
    var i := e.template.interval;
    DuesStep(e.nextDue, i, m);
    DuesStep(e.nextDue, i, m + 1);
    AtKeySplit(k, e.nextDue, Dues(e.nextDue + i, i, m));
    AtKeySplit(k, e.nextDue, Dues(e.nextDue + i, i, m + 1));
  }

  lemma CatchUpMore(w: World, after: World, k: TaskKey, now: int)
    requires k in w.schedule && w.schedule[k].template.interval > 0 && w.schedule[k].template.key == k
    requires w.schedule[k].nextDue + w.schedule[k].template.interval <= now
    requires CaughtUp(AccrueDue(w, k), after, k, now)
    ensures CaughtUp(w, after, k, now)
  {
    var e := w.schedule[k];
    var m := Missed(e.nextDue + e.template.interval, e.template.interval, now);
    CatchUpNumbers(e.nextDue, e.template.interval, now);
    CatchUpToMore(w, after, k, m);
    CatchUpOnMore(w, after, k, m);
  }

  lemma AtKeySplit(k: TaskKey, due: int, rest: set<int>)
    ensures AtKey(k, {due} + rest) == {(k, due)} + AtKey(k, rest)
  {}

  lemma {:induction false} AccrueCatchesUp(w: World, k: TaskKey, now: int)
    requires k in w.schedule && w.schedule[k].template.interval > 0 && w.schedule[k].template.key == k
    ensures CaughtUp(w, AccrueKey(w, k, now), k, now)
    decreases now - w.schedule[k].nextDue
  {
    var e := w.schedule[k];
    if e.nextDue <= now {
      if e.nextDue + e.template.interval > now {
        CatchUpLast(w, k, now);
        assert AccrueKey(AccrueDue(w, k), k, now) == AccrueDue(w, k);
      } else {
        AccrueCatchesUp(AccrueDue(w, k), k, now);
        CatchUpMore(w, AccrueKey(w, k, now), k, now);
      }
    }
  }

  /** After catching up the pending run is the latest due not after now and the entry's next due
      is the first one after it. */
  lemma CatchUpStraddlesNow(due: int, interval: int, now: int)
    requires interval > 0 && due <= now
    ensures
      var n := Missed(due, interval, now);
      n >= 0 && Point(due, interval, n) <= now < Point(due, interval, n + 1)
      && Point(due, interval, n + 1) == Point(due, interval, n) + interval
  {
    DivBounds(now - due, interval);
    var n := Missed(due, interval, now);
    assert (n + 1) * interval == n * interval + interval;
    MulOrder(n + 1, 0, interval);
  }

  /** Every entry in turn, as the loop over the sorted keys does. */
  function AccrueAll(w: World, keys: seq<TaskKey>, now: int): World {
    if keys == [] then w
    else
      var n := |keys| - 1;
      var earlier := AccrueAll(w, keys[..n], now);
      if keys[n] in earlier.schedule && earlier.schedule[keys[n]].template.interval > 0
      then AccrueKey(earlier, keys[n], now) else earlier
  }

  lemma AccrueKeyKeepsRest(w: World, k: TaskKey, now: int)
    requires k in w.schedule && w.schedule[k].template.interval > 0 && w.schedule[k].template.key == k
    ensures OnlyKey(w, AccrueKey(w, k, now), k)
  {
    AccrueCatchesUp(w, k, now);
  }

  lemma {:induction false} AccrueAllKeepsInv(w: World, keys: seq<TaskKey>, now: int, phase: Phase)
    requires Inv(w, phase) && w.lastTick == Some(now)
    ensures Inv(AccrueAll(w, keys, now), phase)
    ensures AccrueAll(w, keys, now).lastTick == w.lastTick
  {
    if keys != [] {
      var n := |keys| - 1;
      AccrueAllKeepsInv(w, keys[..n], now, phase);
      var earlier := AccrueAll(w, keys[..n], now);
      if keys[n] in earlier.schedule {
        assert EntryOk(keys[n], earlier.schedule[keys[n]], phase);
        AccrueKeyKeepsBooks(earlier, keys[n], now, phase);
        AccrueKeyKeepsRest(earlier, keys[n], now);
      }
    }
  }

  /** One entry and its pending run after accruing at `now`. */
  ghost predicate EntryCaughtUp(w: World, after: World, k: TaskKey, now: int)
    requires k in w.schedule && w.schedule[k].template.interval > 0
  {
    var e := w.schedule[k];
    var i := e.template.interval;
    var n := Missed(e.nextDue, i, now);
    k in after.schedule &&
    if e.nextDue > now then SameAt(w, after, k)
    else
      && after.schedule[k] == e.(nextDue := Point(e.nextDue, i, n + 1))
      && k in after.pending && after.pending[k] == e.template.(dueAt := Point(e.nextDue, i, n))
  }

  ghost predicate SameAt(w: World, after: World, k: TaskKey)
    requires k in w.schedule
  {
    && k in after.schedule && after.schedule[k] == w.schedule[k]
    && (k in after.pending <==> k in w.pending) && (k in w.pending ==> after.pending[k] == w.pending[k])
  }

  lemma {:induction false} AccrueAllPointwise(w: World, keys: seq<TaskKey>, now: int, k: TaskKey)
    requires forall j :: j in w.schedule ==> w.schedule[j].template.interval > 0 && w.schedule[j].template.key == j
    requires NoDup(keys) && k in w.schedule
    ensures AccrueAll(w, keys, now).schedule.Keys == w.schedule.Keys
    ensures forall j :: j in w.schedule ==> AccrueAll(w, keys, now).schedule[j].template == w.schedule[j].template
    ensures k !in keys ==> SameAt(w, AccrueAll(w, keys, now), k)
    ensures k in keys ==> EntryCaughtUp(w, AccrueAll(w, keys, now), k, now)
  {
    if keys != [] {
      var n := |keys| - 1;
      var last := keys[n];
      AccrueAllPointwise(w, keys[..n], now, k);
      var earlier := AccrueAll(w, keys[..n], now);
      if last in w.schedule {
        AccrueCatchesUp(earlier, last, now);
        AccrueKeyKeepsRest(earlier, last, now);
        assert k == last ==> k !in keys[..n];
      }
      assert k in keys <==> k in keys[..n] || k == last;
    }
  }

  // ----- dispatch keeps the books

  lemma OfferConserves(w: World, run: Run, gate: Gate)
    requires Conserved(w) && run.key in w.pending && w.pending[run.key] == run
    requires DueOf(run) in w.ledger.accrued
    ensures Conserved(Offer(w, run, gate))
  {
    var next := Offer(w, run, gate);
    var due := DueOf(run);
    assert IsPending(w, due) && Places(w, due) == 1;
    if next != w {
      forall d ensures Places(next, d) == Places(w, d) {
        if d == due {
          if !Deferred(run, gate) { assert next.ledger.dispatched[|w.ledger.dispatched|] == due; }
        } else {
          assert d in next.ledger.dispatched <==> d in w.ledger.dispatched;
        }
      }
    }
  }

  lemma DispatchedBefore(w: World, run: Run, i: nat)
    requires Conserved(w) && DuesOk(w) && run.key in w.pending && w.pending[run.key] == run
    requires i < |w.ledger.dispatched| && w.ledger.dispatched[i].0 == run.key
    ensures w.ledger.dispatched[i].1 < run.dueAt
  {
    var d := w.ledger.dispatched[i];
    assert d in w.ledger.dispatched && Places(w, d) == 1;
    assert !IsPending(w, d);
  }

  lemma OfferKeepsBooks(w: World, run: Run, gate: Gate, phase: Phase)
    requires BooksOk(w, phase) && run.key in w.pending && w.pending[run.key] == run
    ensures BooksOk(Offer(w, run, gate), phase)
  {
    OfferConserves(w, run, gate);
    forall i | 0 <= i < |w.ledger.dispatched| && w.ledger.dispatched[i].0 == run.key ensures w.ledger.dispatched[i].1 < run.dueAt {
      DispatchedBefore(w, run, i);
    }
  }

  lemma OfferKeepsWorkers(w: World, run: Run, gate: Gate)
    requires WorkersOk(w)
    ensures WorkersOk(Offer(w, run, gate))
  {
    if !gate.LookupFailed? && !Deferred(run, gate) && Admits(w.slots, WorkOf(run)) {
      AdmitKeepsValid(w.slots, w.executing + w.buffered, WorkOf(run));
      assert w.executing + {WorkOf(run)} + w.buffered == w.executing + w.buffered + {WorkOf(run)};
    }
  }

  /** The runs on offer are the pending ones, each once. */
  ghost predicate Offers(pending: map<TaskKey, Run>, offered: seq<Run>) {
    && (forall i :: 0 <= i < |offered| ==> offered[i].key in pending && pending[offered[i].key] == offered[i])
    && (forall i, j :: 0 <= i < j < |offered| ==> offered[i].key != offered[j].key)
    && (forall k :: k in pending ==> pending[k].key == k && pending[k] in offered)
  }

  predicate KeyLess(a: TaskKey, b: TaskKey) {
    if a.instance == b.instance then StringLess(a.task, b.task) else StringLess(a.instance, b.instance)
  }

  /** Capability snapshots first, then by due time, then by key. */
  predicate RunLess(a: Run, b: Run) {
    if IsCapability(a.task) != IsCapability(b.task) then IsCapability(a.task)
    else if a.dueAt != b.dueAt then a.dueAt < b.dueAt
    else KeyLess(a.key, b.key)
  }

  lemma OfferTakesAtMostOne(w: World, run: Run, gate: Gate)
    ensures
      var next := Offer(w, run, gate);
      && (next.pending == w.pending || next.pending == w.pending - {run.key})
      && next.schedule == w.schedule && next.lastTick == w.lastTick && next.buffered == w.buffered
  {}

  /** The runs from the n-th on are still pending, and nothing new is. */
  ghost predicate RestPending(w: World, after: World, offered: seq<Run>, n: nat) {
    && (forall k :: k in after.pending ==> k in w.pending && after.pending[k] == w.pending[k])
    && (forall i :: n <= i < |offered| ==> offered[i].key in after.pending && after.pending[offered[i].key] == offered[i])
    && after.schedule == w.schedule && after.lastTick == w.lastTick && after.buffered == w.buffered
  }

  lemma OfferLeavesRest(w: World, earlier: World, next: World, offered: seq<Run>, n: nat, gate: Gate)
    requires n < |offered| && RestPending(w, earlier, offered, n) && next == Offer(earlier, offered[n], gate)
    requires forall i, j :: 0 <= i < j < |offered| ==> offered[i].key != offered[j].key
    ensures RestPending(w, next, offered, n + 1)
  {
    OfferTakesAtMostOne(earlier, offered[n], gate);
  }

  /** The first n offers leave the rest of the runs on offer pending and change nothing else. */
  lemma {:induction false} PassLeavesRest(w: World, offered: seq<Run>, gates: TaskKey -> Gate, n: nat, after: World)
    requires Offers(w.pending, offered) && n <= |offered| && after == PassTo(w, offered, gates, n)
    ensures RestPending(w, after, offered, n)
  {
    if n > 0 {
      var earlier := PassTo(w, offered, gates, n - 1);
      PassStep(w, offered, gates, n - 1);
      PassLeavesRest(w, offered, gates, n - 1, earlier);
      OfferLeavesRest(w, earlier, after, offered, n - 1, gates(offered[n - 1].key));
    } else {
      PassEnds(w, offered, gates);
    }
  }

  /** The books are in order after the first n offers, and the rest is still pending. */
  ghost predicate Underway(w: World, after: World, offered: seq<Run>, n: nat, phase: Phase) {
    Inv(after, phase) && RestPending(w, after, offered, n)
  }

  lemma OfferCarriesOn(w: World, earlier: World, next: World, offered: seq<Run>, n: nat, gate: Gate, phase: Phase)
    requires n < |offered| && next == Offer(earlier, offered[n], gate) && Underway(w, earlier, offered, n, phase)
    requires forall i, j :: 0 <= i < j < |offered| ==> offered[i].key != offered[j].key
    ensures Underway(w, next, offered, n + 1, phase)
  {
    OfferKeepsInv(earlier, offered[n], gate, next, phase);
    OfferLeavesRest(w, earlier, next, offered, n, gate);
  }

  lemma PassBegins(w: World, offered: seq<Run>, phase: Phase)
    requires Inv(w, phase) && Offers(w.pending, offered)
    ensures Underway(w, SetWaiting(w), offered, 0, phase)
  {
    WaitingKeepsInv(w, phase);
  }

  lemma {:induction false} PassKeepsInv(w: World, offered: seq<Run>, gates: TaskKey -> Gate, n: nat, after: World, phase: Phase)
    requires Inv(w, phase) && Offers(w.pending, offered) && n <= |offered| && after == PassTo(w, offered, gates, n)
    ensures Underway(w, after, offered, n, phase)
  {
    if n > 0 {
      var earlier := PassTo(w, offered, gates, n - 1);
      PassStep(w, offered, gates, n - 1);
      PassKeepsInv(w, offered, gates, n - 1, earlier, phase);
      OfferCarriesOn(w, earlier, after, offered, n - 1, gates(offered[n - 1].key), phase);
    } else {
      PassEnds(w, offered, gates);
      PassBegins(w, offered, phase);
    }
  }

  lemma OfferKeepsInv(w: World, run: Run, gate: Gate, next: World, phase: Phase)
    requires Inv(w, phase) && run.key in w.pending && w.pending[run.key] == run && next == Offer(w, run, gate)
    ensures Inv(next, phase)
  {
    OfferKeepsBooks(w, run, gate, phase);
    OfferKeepsWorkers(w, run, gate);
  }

  lemma WaitingKeepsInv(w: World, phase: Phase)
    requires Inv(w, phase)
    ensures Inv(SetWaiting(w), phase)
  {
    assert forall d :: Places(SetWaiting(w), d) == Places(w, d);
  }

  // ----- the reservation and work conservation

  ghost predicate FlagOk(w: World) { w.slots.capabilityWaiting <==> HasCapability(w.pending) }

  lemma TakingKeepsCapability(pending: map<TaskKey, Run>, k: TaskKey)
    requires k in pending && !IsCapability(pending[k].task)
    ensures HasCapability(pending - {k}) <==> HasCapability(pending)
  {
    var rest := pending - {k};
    if HasCapability(pending) {
      var j :| j in pending && IsCapability(pending[j].task);
      assert j in rest && IsCapability(rest[j].task);
    }
    if HasCapability(rest) {
      var j :| j in rest && IsCapability(rest[j].task);
      assert j in pending && IsCapability(pending[j].task);
    }
  }

  /** The waiting flag is accurate after every offer, because a gated run is never a capability run. */
  lemma OfferKeepsFlag(w: World, run: Run, gate: Gate)
    requires FlagOk(w) && GateFits(run, gate) && run.key in w.pending && w.pending[run.key] == run
    ensures FlagOk(Offer(w, run, gate))
  {
    if Deferred(run, gate) { TakingKeepsCapability(w.pending, run.key); }
  }

  ghost predicate GatesFit(offered: seq<Run>, gates: TaskKey -> Gate) {
    forall i :: 0 <= i < |offered| ==> GateFits(offered[i], gates(offered[i].key))
  }

  lemma {:induction false} PassKeepsFlag(w: World, offered: seq<Run>, gates: TaskKey -> Gate, n: nat, after: World)
    requires Offers(w.pending, offered) && GatesFit(offered, gates) && n <= |offered| && after == PassTo(w, offered, gates, n)
    ensures FlagOk(after)
  {
    if n > 0 {
      var earlier := PassTo(w, offered, gates, n - 1);
      PassStep(w, offered, gates, n - 1);
      PassKeepsFlag(w, offered, gates, n - 1, earlier);
      PassLeavesRest(w, offered, gates, n - 1, earlier);
      OfferKeepsFlag(earlier, offered[n - 1], gates(offered[n - 1].key));
    } else {
      PassEnds(w, offered, gates);
    }
  }

  lemma OfferReserves(w: World, run: Run, gate: Gate)
    requires FlagOk(w) && run.key in w.pending && w.pending[run.key] == run
    ensures
      var next := Offer(w, run, gate);
      WorkOf(run).kind.CollectionQuery? && |next.ledger.dispatched| > |w.ledger.dispatched| && HasCapability(next.pending)
      ==> next.slots.activeCollectionQueries <= next.slots.queryLimit - Min(ReservedSlots, next.slots.queryLimit)
  {
    if !IsCapability(run.task) { TakingKeepsCapability(w.pending, run.key); }
  }

  /** A collection query dispatched while a capability snapshot stays pending leaves the reserved
      slots free of collection queries. */
  lemma ReservationHolds(w: World, offered: seq<Run>, gates: TaskKey -> Gate, n: nat)
    requires Offers(w.pending, offered) && GatesFit(offered, gates) && n < |offered|
    ensures
      var before, after := PassTo(w, offered, gates, n), PassTo(w, offered, gates, n + 1);
      WorkOf(offered[n]).kind.CollectionQuery?
      && |after.ledger.dispatched| > |before.ledger.dispatched| && HasCapability(after.pending)
      ==> after.slots.activeCollectionQueries <= after.slots.queryLimit - Min(ReservedSlots, after.slots.queryLimit)
  {
    var before := PassTo(w, offered, gates, n);
    PassStep(w, offered, gates, n);
    PassKeepsFlag(w, offered, gates, n, before);
    PassLeavesRest(w, offered, gates, n, before);
    OfferReserves(before, offered[n], gates(offered[n].key));
  }

  /** Slots only fill up while offering; the flag cannot rise, and drops only on a capability run. */
  lemma OfferFillsSlots(w: World, run: Run, gate: Gate)
    requires FlagOk(w) && GateFits(run, gate) && run.key in w.pending && w.pending[run.key] == run
    ensures
      var d, e := w.slots, Offer(w, run, gate).slots;
      && e.probeLimit == d.probeLimit && e.queryLimit == d.queryLimit
      && e.activeProbes >= d.activeProbes && e.activeQueries >= d.activeQueries
      && e.activeCollectionQueries >= d.activeCollectionQueries
      && d.probing <= e.probing && d.querying <= e.querying
      && (d.capabilityWaiting && !IsCapability(run.task) ==> e.capabilityWaiting)
  {
    if !IsCapability(run.task) { TakingKeepsCapability(w.pending, run.key); }
  }

  /** Runs offered so far that are still pending, with an answered gate, would be refused again. */
  ghost predicate RefusedSoFar(w: World, offered: seq<Run>, gates: TaskKey -> Gate, n: nat)
    requires n <= |offered|
  {
    forall i :: 0 <= i < n && offered[i].key in w.pending && gates(offered[i].key).NotBefore?
                ==> !Deferred(offered[i], gates(offered[i].key)) && !Admits(w.slots, WorkOf(offered[i]))
  }

  ghost predicate CapabilityFirst(offered: seq<Run>) {
    forall i, j :: 0 <= i < j < |offered| && IsCapability(offered[j].task) ==> IsCapability(offered[i].task)
  }

  lemma AscendingIsCapabilityFirst(offered: seq<Run>)
    requires Ascending(RunLess, offered)
    ensures CapabilityFirst(offered)
  {
    forall i, j | 0 <= i < j < |offered| && IsCapability(offered[j].task) ensures IsCapability(offered[i].task) {
      assert RunLess(offered[i], offered[j]);
    }
  }

  lemma OfferKeepsRefused(w: World, next: World, offered: seq<Run>, gates: TaskKey -> Gate, n: nat)
    requires n < |offered| && next == Offer(w, offered[n], gates(offered[n].key))
    requires FlagOk(w) && GatesFit(offered, gates) && CapabilityFirst(offered)
    requires offered[n].key in w.pending && w.pending[offered[n].key] == offered[n]
    requires RefusedSoFar(w, offered, gates, n)
    ensures RefusedSoFar(next, offered, gates, n + 1)
  {
    var run, gate := offered[n], gates(offered[n].key);
    OfferFillsSlots(w, run, gate);
    forall i | 0 <= i < n + 1 && offered[i].key in next.pending && gates(offered[i].key).NotBefore?
      ensures !Deferred(offered[i], gates(offered[i].key)) && !Admits(next.slots, WorkOf(offered[i]))
    {
      if i < n {
        assert offered[i].key in w.pending;
        assert WorkOf(offered[i]).kind.CollectionQuery? ==> !IsCapability(offered[n].task);
        RefusalPersists(w.slots, next.slots, WorkOf(offered[i]));
      }
    }
  }

  /** What holds after the first n offers of a pass. */
  ghost predicate Progress(w: World, after: World, offered: seq<Run>, gates: TaskKey -> Gate, n: nat)
    requires n <= |offered|
  {
    RestPending(w, after, offered, n) && FlagOk(after) && RefusedSoFar(after, offered, gates, n)
  }

  lemma OfferProgresses(w: World, earlier: World, next: World, offered: seq<Run>, gates: TaskKey -> Gate, n: nat)
    requires n < |offered| && next == Offer(earlier, offered[n], gates(offered[n].key))
    requires GatesFit(offered, gates) && CapabilityFirst(offered)
    requires forall i, j :: 0 <= i < j < |offered| ==> offered[i].key != offered[j].key
    requires Progress(w, earlier, offered, gates, n)
    ensures Progress(w, next, offered, gates, n + 1)
  {
    OfferLeavesRest(w, earlier, next, offered, n, gates(offered[n].key));
    OfferKeepsFlag(earlier, offered[n], gates(offered[n].key));
    OfferKeepsRefused(earlier, next, offered, gates, n);
  }

  lemma {:induction false} PassProgresses(w: World, offered: seq<Run>, gates: TaskKey -> Gate, n: nat, after: World)
    requires Offers(w.pending, offered) && GatesFit(offered, gates) && CapabilityFirst(offered)
    requires n <= |offered| && after == PassTo(w, offered, gates, n)
    ensures Progress(w, after, offered, gates, n)
  {
    if n > 0 {
      var earlier := PassTo(w, offered, gates, n - 1);
      PassStep(w, offered, gates, n - 1);
      PassProgresses(w, offered, gates, n - 1, earlier);
      OfferProgresses(w, earlier, after, offered, gates, n - 1);
    } else {
      PassEnds(w, offered, gates);
    }
  }

  /** Dispatch is work-conserving: after a pass in the dispatch order, no run that is still pending
      and whose gate was answered is put off or would be admitted. */
  lemma DispatchIsWorkConserving(w: World, offered: seq<Run>, gates: TaskKey -> Gate)
    requires Offers(w.pending, offered) && GatesFit(offered, gates) && Ascending(RunLess, offered)
    ensures
      var after := Pass(w, offered, gates);
      forall k :: k in after.pending && gates(k).NotBefore? ==>
        !Deferred(after.pending[k], gates(k)) && !Admits(after.slots, WorkOf(after.pending[k]))
  {
    var after := Pass(w, offered, gates);
    AscendingIsCapabilityFirst(offered);
    PassEnds(w, offered, gates);
    PassProgresses(w, offered, gates, |offered|, after);
    forall k | k in after.pending && gates(k).NotBefore?
      ensures !Deferred(after.pending[k], gates(k)) && !Admits(after.slots, WorkOf(after.pending[k]))
    {
      assert w.pending[k] in offered;
      var i :| 0 <= i < |offered| && offered[i] == w.pending[k];
    }
  }

  // ----- runs

  datatype Step =
    | RefreshStep(now: int, templates: seq<Run>, complete: bool)
    | AccrueStep(keys: seq<TaskKey>)
    | DispatchStep(offered: seq<Run>, gates: TaskKey -> Gate)
    | WorkerStep(item: Work)
    | CompleteStep(item: Work)

  /** What the event loop may do next: ticks move forward, accruing happens at the tick's time, a
      pass offers the pending runs in order, a worker finishes what it executes, and the loop
      receives what was buffered. */
  ghost predicate Enabled(w: World, s: Step) {
    match s
    case RefreshStep(now, templates, _) =>
      && (w.lastTick.Some? ==> w.lastTick.value < now)
      && forall t :: t in templates ==> WellBuilt(t)
    case AccrueStep(_) => w.lastTick.Some?
    case DispatchStep(offered, gates) =>
      Offers(w.pending, offered) && Ascending(RunLess, offered) && GatesFit(offered, gates)
    case WorkerStep(item) => item in w.executing
    case CompleteStep(item) => item in w.buffered
  }

  ghost function Apply(w: World, s: Step, phase: Phase): World
    requires Enabled(w, s)
  {
    match s
    case RefreshStep(now, templates, complete) => Refresh(w, now, templates, complete, phase)
    case AccrueStep(keys) => AccrueAll(w, keys, w.lastTick.value)
    case DispatchStep(offered, gates) => Pass(w, offered, gates)
    case WorkerStep(item) => WorkerDone(w, item)
    case CompleteStep(item) => Complete(w, item)
  }

  ghost predicate IsRun(w: World, steps: seq<Step>, phase: Phase)
    decreases |steps|
  {
    steps == [] || (Enabled(w, steps[0]) && IsRun(Apply(w, steps[0], phase), steps[1..], phase))
  }

  ghost function Final(w: World, steps: seq<Step>, phase: Phase): World
    requires IsRun(w, steps, phase)
    decreases |steps|
  {
    if steps == [] then w else Final(Apply(w, steps[0], phase), steps[1..], phase)
  }

  lemma WorkersKeepInv(w: World, item: Work, phase: Phase)
    requires Inv(w, phase)
    ensures item in w.executing ==> Inv(WorkerDone(w, item), phase)
    ensures item in w.buffered ==> Inv(Complete(w, item), phase)
  {
    if item in w.executing {
      var next := WorkerDone(w, item);
      assert next.executing + next.buffered == w.executing + w.buffered;
      assert forall d :: Places(next, d) == Places(w, d);
    }
    if item in w.buffered {
      var next := Complete(w, item);
      FinishKeepsValid(w.slots, w.executing + w.buffered, item);
      assert next.executing + next.buffered == w.executing + w.buffered - {item};
      assert forall d :: Places(next, d) == Places(w, d);
    }
  }

  lemma StepKeepsInv(w: World, s: Step, phase: Phase)
    requires Inv(w, phase) && Enabled(w, s)
    ensures Inv(Apply(w, s, phase), phase)
  {
    match s
    case RefreshStep(now, templates, complete) => RefreshKeepsInv(w, now, templates, complete, phase);
    case AccrueStep(keys) => AccrueAllKeepsInv(w, keys, w.lastTick.value, phase);
    case DispatchStep(offered, gates) =>
        PassEnds(w, offered, gates);
        PassKeepsInv(w, offered, gates, |offered|, Pass(w, offered, gates), phase);
    case WorkerStep(item) => WorkersKeepInv(w, item, phase);
    case CompleteStep(item) => WorkersKeepInv(w, item, phase);
  }

  lemma {:induction false} RunKeepsInv(w: World, steps: seq<Step>, phase: Phase)
    requires Inv(w, phase) && IsRun(w, steps, phase)
    ensures Inv(Final(w, steps, phase), phase)
    decreases |steps|
  {
    if steps != [] {
      StepKeepsInv(w, steps[0], phase);
      RunKeepsInv(Apply(w, steps[0], phase), steps[1..], phase);
    }
  }

  // ----- every due on its lattice

  ghost predicate DueOnLattice(l: Ledger, d: Due, phase: Phase) {
    && d in l.intervals && l.intervals[d] > 0
    && (d.0.task != CapabilityTask ==> OnLattice(d.1, phase(d.0, l.intervals[d]), l.intervals[d]))
  }

  ghost predicate LedgerOnLattice(l: Ledger, phase: Phase) { forall d :: d in l.accrued ==> DueOnLattice(l, d, phase) }

  ghost predicate SameAccrued(l: Ledger, m: Ledger) { m.accrued == l.accrued && m.intervals == l.intervals }

  lemma AccrueDueOnLattice(w: World, k: TaskKey, phase: Phase)
    requires k in w.schedule && EntryOk(k, w.schedule[k], phase) && LedgerOnLattice(w.ledger, phase)
    ensures LedgerOnLattice(AccrueDue(w, k).ledger, phase)
  {
    var l, m := w.ledger, AccrueDue(w, k).ledger;
    forall d | d in m.accrued ensures DueOnLattice(m, d, phase) {
      if d != (k, w.schedule[k].nextDue) { assert DueOnLattice(l, d, phase); }
    }
  }

  lemma {:induction false} AccrueKeyOnLattice(w: World, k: TaskKey, now: int, phase: Phase)
    requires k in w.schedule && EntryOk(k, w.schedule[k], phase) && LedgerOnLattice(w.ledger, phase)
    ensures LedgerOnLattice(AccrueKey(w, k, now).ledger, phase)
    decreases now - w.schedule[k].nextDue
  {
    var e := w.schedule[k];
    if e.nextDue <= now {
      AccrueDueOnLattice(w, k, phase);
      if !IsCapability(e.template.task) {
        LatticeStep(e.nextDue, phase(k, e.template.interval), e.template.interval);
      }
      AccrueKeyOnLattice(AccrueDue(w, k), k, now, phase);
    }
  }

  lemma {:induction false} AccrueAllOnLattice(w: World, keys: seq<TaskKey>, now: int, phase: Phase)
    requires Inv(w, phase) && w.lastTick == Some(now) && LedgerOnLattice(w.ledger, phase)
    ensures LedgerOnLattice(AccrueAll(w, keys, now).ledger, phase)
  {
    if keys != [] {
      var n := |keys| - 1;
      AccrueAllOnLattice(w, keys[..n], now, phase);
      AccrueAllKeepsInv(w, keys[..n], now, phase);
      var earlier := AccrueAll(w, keys[..n], now);
      if keys[n] in earlier.schedule {
        assert EntryOk(keys[n], earlier.schedule[keys[n]], phase);
        AccrueKeyOnLattice(earlier, keys[n], now, phase);
      }
    }
  }

  lemma {:induction false} PassAccruesNothing(w: World, offered: seq<Run>, gates: TaskKey -> Gate, n: nat, after: World)
    requires n <= |offered| && after == PassTo(w, offered, gates, n)
    ensures SameAccrued(w.ledger, after.ledger)
  {
    if n > 0 {
      PassStep(w, offered, gates, n - 1);
      PassAccruesNothing(w, offered, gates, n - 1, PassTo(w, offered, gates, n - 1));
    } else {
      PassEnds(w, offered, gates);
    }
  }

  lemma StepOnLattice(w: World, s: Step, phase: Phase)
    requires Inv(w, phase) && Enabled(w, s) && LedgerOnLattice(w.ledger, phase)
    ensures LedgerOnLattice(Apply(w, s, phase).ledger, phase)
  {
    if s.AccrueStep? {
      AccrueAllOnLattice(w, s.keys, w.lastTick.value, phase);
    } else {
      if s.DispatchStep? {
        PassEnds(w, s.offered, s.gates);
        PassAccruesNothing(w, s.offered, s.gates, |s.offered|, Pass(w, s.offered, s.gates));
      }
      SameOnLattice(w.ledger, Apply(w, s, phase).ledger, phase);
    }
  }

  lemma SameOnLattice(l: Ledger, m: Ledger, phase: Phase)
    requires SameAccrued(l, m) && LedgerOnLattice(l, phase)
    ensures LedgerOnLattice(m, phase)
  {
    forall d | d in m.accrued ensures DueOnLattice(m, d, phase) { assert DueOnLattice(l, d, phase); }
  }

  lemma {:induction false} RunOnLattice(w: World, steps: seq<Step>, phase: Phase)
    requires Inv(w, phase) && IsRun(w, steps, phase) && LedgerOnLattice(w.ledger, phase)
    ensures LedgerOnLattice(Final(w, steps, phase).ledger, phase)
    decreases |steps|
  {
    if steps != [] {
      StepOnLattice(w, steps[0], phase);
      StepKeepsInv(w, steps[0], phase);
      RunOnLattice(Apply(w, steps[0], phase), steps[1..], phase);
    }
  }

  /** From an empty scheduler, after any run: every accrued due run is pending, replaced, deferred,
      dropped or dispatched, exactly one of them; a pending run is due before its entry's next due;
      each key's dispatched due times increase; and every accrued due of a collection task, wherever
      it went, lies on the lattice of the phase and interval it was accrued with, as does every
      entry's next one. */
  lemma DueRunsAreConserved(probeLimit: nat, queryLimit: nat, steps: seq<Step>, phase: Phase)
    requires IsRun(NewWorld(probeLimit, queryLimit), steps, phase)
    ensures
      var w := Final(NewWorld(probeLimit, queryLimit), steps, phase);
      && (forall d :: Places(w, d) == if d in w.ledger.accrued then 1 else 0)
      && (forall k :: k in w.pending ==> k in w.schedule && w.pending[k].dueAt < w.schedule[k].nextDue)
      && DispatchedInOrder(w)
      && (forall d :: d in w.ledger.accrued ==> DueOnLattice(w.ledger, d, phase))
      && (forall k :: k in w.schedule && !IsCapability(w.schedule[k].template.task) ==>
            var i := w.schedule[k].template.interval;
            OnLattice(w.schedule[k].nextDue, phase(k, i), i))
  {
    var start := NewWorld(probeLimit, queryLimit);
    NewWorldOk(probeLimit, queryLimit, phase);
    RunKeepsInv(start, steps, phase);
    RunOnLattice(NewWorld(probeLimit, queryLimit), steps, phase);
    var w := Final(start, steps, phase);
    assert forall k :: k in w.schedule ==> EntryOk(k, w.schedule[k], phase);
  }

  lemma NewWorldOk(probeLimit: nat, queryLimit: nat, phase: Phase)
    ensures Inv(NewWorld(probeLimit, queryLimit), phase)
  {
    var w := NewWorld(probeLimit, queryLimit);
    assert w.executing + w.buffered == {};
    assert OfKind({}, ProbeWork) == {} && OfKind({}, CollectionQuery) == {} && Queries({}) == {};
  }

  /** From an empty scheduler, after any run: the counters are those of the work in flight, within
      their limits, and a worker that is still executing finds room in the results channel, whose
      capacity is the two limits together. */
  lemma WorkersNeverBlock(probeLimit: nat, queryLimit: nat, steps: seq<Step>, phase: Phase)
    requires IsRun(NewWorld(probeLimit, queryLimit), steps, phase)
    ensures
      var w := Final(NewWorld(probeLimit, queryLimit), steps, phase);
      && Accounts(w.slots, w.executing + w.buffered)
      && w.slots.activeProbes <= probeLimit && w.slots.activeQueries <= queryLimit
      && |w.executing| + |w.buffered| <= probeLimit + queryLimit
      && (w.executing != {} ==> |w.buffered| < probeLimit + queryLimit)
  {
    var start := NewWorld(probeLimit, queryLimit);
    NewWorldOk(probeLimit, queryLimit, phase);
    RunKeepsInv(start, steps, phase);
    LimitsAreFixed(start, steps, phase);
    var w := Final(start, steps, phase);
    FlightWithinCapacity(w.slots, w.executing + w.buffered);
    assert |w.executing + w.buffered| == |w.executing| + |w.buffered|;
  }

  ghost predicate SameLimits(w: World, v: World) {
    v.slots.probeLimit == w.slots.probeLimit && v.slots.queryLimit == w.slots.queryLimit
  }

  lemma {:induction false} PassKeepsLimits(w: World, offered: seq<Run>, gates: TaskKey -> Gate, n: nat)
    requires n <= |offered|
    ensures SameLimits(w, PassTo(w, offered, gates, n))
  {
    if n > 0 {
      PassStep(w, offered, gates, n - 1);
      PassKeepsLimits(w, offered, gates, n - 1);
    } else {
      PassEnds(w, offered, gates);
    }
  }

  lemma {:induction false} AccrueKeyKeepsSlots(w: World, k: TaskKey, now: int)
    requires k in w.schedule && w.schedule[k].template.interval > 0
    ensures AccrueKey(w, k, now).slots == w.slots
    decreases now - w.schedule[k].nextDue
  {
    if w.schedule[k].nextDue <= now { AccrueKeyKeepsSlots(AccrueDue(w, k), k, now); }
  }

  lemma {:induction false} AccrueAllKeepsSlots(w: World, keys: seq<TaskKey>, now: int)
    ensures AccrueAll(w, keys, now).slots == w.slots
  {
    if keys != [] {
      var n := |keys| - 1;
      AccrueAllKeepsSlots(w, keys[..n], now);
      var earlier := AccrueAll(w, keys[..n], now);
      if keys[n] in earlier.schedule && earlier.schedule[keys[n]].template.interval > 0 {
        AccrueKeyKeepsSlots(earlier, keys[n], now);
      }
    }
  }

  lemma {:induction false} LimitsAreFixed(w: World, steps: seq<Step>, phase: Phase)
    requires IsRun(w, steps, phase)
    ensures SameLimits(w, Final(w, steps, phase))
    decreases |steps|
  {
    if steps != [] {
      var next := Apply(w, steps[0], phase);
      match steps[0] {
        case AccrueStep(keys) => AccrueAllKeepsSlots(w, keys, w.lastTick.value);
        case DispatchStep(offered, gates) =>
          PassEnds(w, offered, gates);
          PassKeepsLimits(w, offered, gates, |offered|);
        case _ =>
      }
      LimitsAreFixed(next, steps[1..], phase);
    }
  }
}
