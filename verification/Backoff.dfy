/** Failure backoff: the doubling loop, and the gates the record functions keep in the task and
    connection tables. Times are nanoseconds. */
module Backoff {
  import opened Basics

  const Cap := 60_000_000_000

  function Pow2(n: nat): nat { if n == 0 then 1 else 2 * Pow2(n - 1) }

  /** The n-th consecutive failure waits interval * 2^(n-1), at most a minute; probes never wait. */
  function Wait(kind: TaskKind, interval: int, failures: int): int {
    if kind.Probe? || failures <= 0 then 0 else Min(Cap, interval * Pow2(failures - 1))
  }

  lemma {:induction false} Pow2Grows(m: nat, n: nat)
    requires m <= n
    ensures 1 <= Pow2(m) <= Pow2(n)
  {
    if n > m { Pow2Grows(m, n - 1); } else if n > 0 { Pow2Grows(n - 1, n - 1); }
  }

  lemma ScaleGrows(interval: int, m: nat, n: nat)
    requires m <= n && interval > 0
    ensures interval * Pow2(m) <= interval * Pow2(n)
  {
    Pow2Grows(m, n);
    assert interval * (Pow2(n) - Pow2(m)) >= 0;
  }

  /** The loop stops doubling at the cap, which is the closed form. */
  method FailureBackoff(kind: TaskKind, interval: int, failures: int) returns (backoff: int)
    ensures backoff == Wait(kind, interval, failures)
  {
    if kind.Probe? || failures <= 0 { return 0; }
    backoff := interval;
    var count := 1;
    while count < failures && backoff < Cap
      invariant 1 <= count <= failures
      invariant backoff == interval * Pow2(count - 1)
    {
      assert interval * Pow2(count) == 2 * (interval * Pow2(count - 1));
      backoff := backoff * 2;
      count := count + 1;
    }
    if count < failures {
      assert interval > 0 by { Pow2Grows(0, count - 1); }
      ScaleGrows(interval, count - 1, failures - 1);
    }
    if backoff > Cap { return Cap; }
  }

  /** The first failure waits one interval and each further one twice as long as the last, never more
      than a minute; probes do not wait, and neither does a task without a failure. */
  lemma WaitDoubles(kind: TaskKind, interval: int, failures: int)
    requires interval > 0
    ensures Wait(Probe, interval, failures) == 0
    ensures failures <= 0 ==> Wait(kind, interval, failures) == 0
    ensures !kind.Probe? ==> Wait(kind, interval, 1) == Min(60_000_000_000, interval)
    ensures !kind.Probe? && failures >= 1 ==>
              Wait(kind, interval, failures + 1) == Min(60_000_000_000, 2 * Wait(kind, interval, failures))
  {
    if failures >= 1 {
      assert interval * Pow2(failures) == 2 * (interval * Pow2(failures - 1));
      Pow2Grows(0, failures - 1);
      assert interval * Pow2(failures - 1) >= 0;
    }
    assert Pow2(0) == 1;
  }

  // ----- the tables

  datatype Key = Key(instance: string, task: string)

  datatype Row = Row(failures: int, gate: Option<int>)

  datatype Tables = Tables(tasks: map<Key, Row>, connections: map<string, Row>)

  /** One record written for a task of an instance. */
  datatype Record =
    | Ensure(key: Key)
    | Failure(key: Key, kind: TaskKind, interval: int, finished: int, connection: bool)
    | Success(key: Key, kind: TaskKind)
    | Skipped(key: Key)
    | Deferred(key: Key, eligible: Option<int>)
    | Blocked(key: Key)
    | Emergency(key: Key)

  function TaskFailures(t: Tables, key: Key): int { if key in t.tasks then t.tasks[key].failures else 0 }

  function ConnectionFailures(t: Tables, instance: string): int {
    if instance in t.connections then t.connections[instance].failures else 0
  }

  /** What the record functions do to the failure counts and gates. */
  function Write(t: Tables, r: Record): Tables {
    match r
    case Ensure(key) => if key in t.tasks then t else t.(tasks := t.tasks[key := Row(0, None)])
    case Failure(key, kind, interval, finished, connection) =>
      var failures := TaskFailures(t, key) + 1;
      var gate := if !kind.Probe? && !connection then Some(finished + Wait(kind, interval, failures)) else None;
      var n := ConnectionFailures(t, key.instance) + 1;
      Tables(t.tasks[key := Row(failures, gate)],
             if connection then t.connections[key.instance := Row(n, Some(finished + Wait(Sql, interval, n)))] else t.connections)
    case Success(key, kind) =>
      Tables(if key in t.tasks then t.tasks[key := Row(0, None)] else t.tasks,
             if kind.Probe? then t.connections[key.instance := Row(0, None)] else t.connections)
    case Skipped(key) => t.(tasks := t.tasks[key := Row(TaskFailures(t, key), None)])
    case Deferred(key, eligible) =>
      t.(tasks := t.tasks[key := if key in t.tasks then t.tasks[key] else Row(0, eligible)])
    case Blocked(key) => t.(tasks := t.tasks[key := Row(0, None)])
    case Emergency(key) =>
      if key in t.tasks then t.(tasks := t.tasks[key := Row(t.tasks[key].failures + 1, None)]) else t
  }

  /** The later of the two gates; probes and capability snapshots have none. */
  function NextEligible(t: Tables, key: Key, gated: bool): Option<int> {
    if !gated || key !in t.tasks then None
    else
      var task := t.tasks[key].gate;
      var connection := if key.instance in t.connections then t.connections[key.instance].gate else None;
      if task.Some? && (connection.None? || task.value > connection.value) then task else connection
  }

  function After(history: seq<Record>): Tables {
    if history == [] then Tables(map[], map[])
    else Write(After(history[..|history| - 1]), history[|history| - 1])
  }

  /** A deferral is recorded only after its task's row was read; intervals are positive. */
  ghost predicate IsHistory(history: seq<Record>) {
    forall i :: 0 <= i < |history| ==>
      && (history[i].Deferred? ==> history[i].key in After(history[..i]).tasks)
      && (history[i].Failure? ==> history[i].interval > 0)
  }

  // ----- the same, read off the history

  /** Consecutive failures of a task: those since it last succeeded or was blocked. */
  function FailuresOf(history: seq<Record>, key: Key): nat {
    if history == [] then 0
    else
      var earlier, r := history[..|history| - 1], history[|history| - 1];
      if r.key != key then FailuresOf(earlier, key)
      else match r
        case Failure(_, _, _, _, _) => FailuresOf(earlier, key) + 1
        case Emergency(_) => if Known(earlier, key) then FailuresOf(earlier, key) + 1 else 0
        case Success(_, _) => 0
        case Blocked(_) => 0
        case _ => FailuresOf(earlier, key)
  }

  /** The task has a row: something other than an update was recorded for it. */
  predicate Known(history: seq<Record>, key: Key) {
    exists i :: 0 <= i < |history| && history[i].key == key && !history[i].Success? && !history[i].Emergency?
  }

  /** The task's own gate: set by its latest record if that is a query failure, kept by deferrals,
      cleared by everything else, a backpressure skip included. */
  function GateOf(history: seq<Record>, key: Key): Option<int> {
    if history == [] then None
    else
      var earlier, r := history[..|history| - 1], history[|history| - 1];
      if r.key != key then GateOf(earlier, key)
      else match r
        case Failure(_, kind, interval, finished, connection) =>
          if !kind.Probe? && !connection
          then Some(finished + Wait(kind, interval, FailuresOf(history, key))) else None
        case Ensure(_) => GateOf(earlier, key)
        case Deferred(_, _) => GateOf(earlier, key)
        case _ => None
  }

  /** Consecutive connection failures of an instance: those since a probe last succeeded. */
  function ConnectionFailuresOf(history: seq<Record>, instance: string): nat {
    if history == [] then 0
    else
      var earlier, r := history[..|history| - 1], history[|history| - 1];
      if r.key.instance != instance then ConnectionFailuresOf(earlier, instance)
      else if r.Failure? && r.connection then ConnectionFailuresOf(earlier, instance) + 1
      else if r.Success? && r.kind.Probe? then 0
      else ConnectionFailuresOf(earlier, instance)
  }

  function ConnectionGateOf(history: seq<Record>, instance: string): Option<int> {
    if history == [] then None
    else
      var earlier, r := history[..|history| - 1], history[|history| - 1];
      if r.key.instance != instance then ConnectionGateOf(earlier, instance)
      else if r.Failure? && r.connection then Some(r.finished + Wait(Sql, r.interval, ConnectionFailuresOf(history, instance)))
      else if r.Success? && r.kind.Probe? then None
      else ConnectionGateOf(earlier, instance)
  }

  /** A task's row and its instance's connection row are what the history says. */
  ghost predicate RowsFollow(history: seq<Record>, key: Key) {
    var t := After(history);
    && (key in t.tasks <==> Known(history, key))
    && TaskFailures(t, key) == FailuresOf(history, key)
    && GateOf(history, key) == (if key in t.tasks then t.tasks[key].gate else None)
    && ConnectionFailures(t, key.instance) == ConnectionFailuresOf(history, key.instance)
    && ConnectionGateOf(history, key.instance) == (if key.instance in t.connections then t.connections[key.instance].gate else None)
  }

  lemma KnownStep(earlier: seq<Record>, r: Record, key: Key)
    ensures Known(earlier + [r], key) <==> Known(earlier, key) || (r.key == key && !r.Success? && !r.Emergency?)
  {
    var history := earlier + [r];
    assert history[|earlier|] == r;
    if Known(earlier, key) {
      var i :| 0 <= i < |earlier| && earlier[i].key == key && !earlier[i].Success? && !earlier[i].Emergency?;
      assert history[i] == earlier[i];
    }
  }

  lemma PrefixIsHistory(history: seq<Record>)
    requires IsHistory(history) && history != []
    ensures IsHistory(history[..|history| - 1])
  {
    var earlier := history[..|history| - 1];
    forall i | 0 <= i < |earlier|
      ensures earlier[i].Deferred? ==> earlier[i].key in After(earlier[..i]).tasks
      ensures earlier[i].Failure? ==> earlier[i].interval > 0
    {
      assert earlier[i] == history[i] && earlier[..i] == history[..i];
    }
  }

  lemma {:induction false} TablesFollowHistory(history: seq<Record>, key: Key)
    requires IsHistory(history)
    ensures RowsFollow(history, key)
  {
    if history != [] {
      var n := |history| - 1;
      PrefixIsHistory(history);
      TablesFollowHistory(history[..n], key);
      assert history == history[..n] + [history[n]];
      KnownStep(history[..n], history[n], key);
      if history[n].key == key { OwnRecord(history); } else { OtherRecord(history, key); }
    }
  }

  /** The step for another task's record: at most the instance's connection row changes. */
  lemma OtherRecord(history: seq<Record>, key: Key)
    requires history != [] && history[|history| - 1].key != key && RowsFollow(history[..|history| - 1], key)
    requires Known(history, key) <==> Known(history[..|history| - 1], key)
    ensures RowsFollow(history, key)
  {
    var r := history[|history| - 1];
    if r.Failure? && r.connection && r.key.instance == key.instance {
      assert ConnectionFailuresOf(history, key.instance) == ConnectionFailuresOf(history[..|history| - 1], key.instance) + 1;
    }
  }

  /** The step for the recorded task itself. */
  lemma OwnRecord(history: seq<Record>)
    requires history != [] && IsHistory(history) && RowsFollow(history[..|history| - 1], history[|history| - 1].key)
    requires
      var r := history[|history| - 1];
      Known(history, r.key) <==> Known(history[..|history| - 1], r.key) || (!r.Success? && !r.Emergency?)
    ensures RowsFollow(history, history[|history| - 1].key)
  {
    var n := |history| - 1;
    var r := history[n];
    assert r.Deferred? ==> r.key in After(history[..n]).tasks;
    match r
    case Failure(key, kind, interval, finished, connection) =>
      assert FailuresOf(history, key) == FailuresOf(history[..n], key) + 1;
    case _ =>
  }

  // ----- the bound

  /** The latest finish time among the instance's recorded failures. */
  function LatestFailure(history: seq<Record>, instance: string): Option<int> {
    if history == [] then None
    else
      var earlier, r := LatestFailure(history[..|history| - 1], instance), history[|history| - 1];
      if r.Failure? && r.key.instance == instance && (earlier.None? || r.finished > earlier.value) then Some(r.finished)
      else earlier
  }

  ghost predicate WithinCap(gate: Option<int>, latest: Option<int>) {
    gate.Some? ==> latest.Some? && gate.value <= latest.value + Cap
  }

  lemma {:induction false} GatesWithinCap(history: seq<Record>, key: Key)
    ensures WithinCap(GateOf(history, key), LatestFailure(history, key.instance))
    ensures WithinCap(ConnectionGateOf(history, key.instance), LatestFailure(history, key.instance))
  {
    if history != [] { GatesWithinCap(history[..|history| - 1], key); }
  }

  /** In every reachable state the effective gate of a task is at most a minute after the latest
      recorded failure of its instance; with no failure on record there is no gate. */
  lemma GateWithinAMinuteOfAFailure(history: seq<Record>, key: Key, gated: bool)
    requires IsHistory(history)
    ensures WithinCap(NextEligible(After(history), key, gated), LatestFailure(history, key.instance))
  {
    TablesFollowHistory(history, key);
    GatesWithinCap(history, key);
  }

  /** Recording a deferral moves no gate, of this task or any other. */
  lemma DeferralMovesNoGate(history: seq<Record>, key: Key, eligible: Option<int>, other: Key, gated: bool)
    requires IsHistory(history) && key in After(history).tasks
    ensures NextEligible(After(history + [Deferred(key, eligible)]), other, gated) == NextEligible(After(history), other, gated)
  {
    var longer := history + [Deferred(key, eligible)];
    assert longer[..|longer| - 1] == history;
    assert After(longer).tasks == After(history).tasks;
  }

  /** A backpressure skip lifts the task's own gate: only the connection's is left. */
  lemma SkipLiftsTaskGate(history: seq<Record>, key: Key)
    requires IsHistory(history)
    ensures NextEligible(After(history + [Skipped(key)]), key, true) == ConnectionGateOf(history, key.instance)
  {
    TablesFollowHistory(history, key);
    var longer := history + [Skipped(key)];
    assert longer[..|longer| - 1] == history;
  }

  /** After a query failure the task waits exactly the backoff of its consecutive failures, unless
      the connection's gate is later. */
  lemma FailureSetsGate(history: seq<Record>, key: Key, kind: TaskKind, interval: int, finished: int)
    requires IsHistory(history) && !kind.Probe? && interval > 0
    ensures
      var own := finished + Wait(kind, interval, FailuresOf(history, key) + 1);
      var connection := ConnectionGateOf(history, key.instance);
      NextEligible(After(history + [Failure(key, kind, interval, finished, false)]), key, true)
      == (if connection.Some? && connection.value >= own then connection else Some(own))
  {
    TablesFollowHistory(history, key);
    var longer := history + [Failure(key, kind, interval, finished, false)];
    assert longer[..|longer| - 1] == history;
  }

  /** The record functions over the two tables. While collection is paused they write nothing. */
  class CollectionState {
    var tasks: map<Key, Row>
    var connections: map<string, Row>

    ghost function Contents(): Tables
      reads this
    {
      Tables(tasks, connections)
    }

    constructor ()
      ensures Contents() == After([])
    {
      tasks, connections := map[], map[];
    }

    method EnsureTaskState(key: Key)
      modifies this`tasks
      ensures Contents() == Write(old(Contents()), Ensure(key))
    {
      if key !in tasks { tasks := tasks[key := Row(0, None)]; }
    }

    method RecordFailure(key: Key, kind: TaskKind, interval: int, finished: int, connectionFailure: bool, paused: bool)
      modifies this
      ensures Contents() == if paused then old(Contents())
                            else Write(old(Contents()), Failure(key, kind, interval, finished, connectionFailure))
    {
      if paused { return; }
      var failures := 0;
      if key in tasks { failures := tasks[key].failures; }
      failures := failures + 1;
      var taskNextEligible := None;
      if !kind.Probe? && !connectionFailure {
        var backoff := FailureBackoff(kind, interval, failures);
        taskNextEligible := Some(finished + backoff);
      }
      if connectionFailure {
        var connectionFailures := 0;
        if key.instance in connections { connectionFailures := connections[key.instance].failures; }
        connectionFailures := connectionFailures + 1;
        var backoff := FailureBackoff(Sql, interval, connectionFailures);
        connections := connections[key.instance := Row(connectionFailures, Some(finished + backoff))];
      }
      tasks := tasks[key := Row(failures, taskNextEligible)];
    }

    method RecordSuccess(key: Key, kind: TaskKind, paused: bool)
      modifies this
      ensures Contents() == if paused then old(Contents()) else Write(old(Contents()), Success(key, kind))
    {
      if paused { return; }
      if key in tasks { tasks := tasks[key := Row(0, None)]; }
      if kind.Probe? { connections := connections[key.instance := Row(0, None)]; }
    }

    /** A skip or a deferral: on an existing row a deferral keeps the gate, a skip overwrites it. */
    method RecordUnmet(key: Key, backoff: bool, nextEligible: Option<int>, paused: bool)
      requires !backoff ==> nextEligible == None
      modifies this`tasks
      ensures Contents() == if paused then old(Contents())
                            else Write(old(Contents()), if backoff then Deferred(key, nextEligible) else Skipped(key))
    {
      if paused { return; }
      var row := Row(0, nextEligible);
      if key in tasks {
        row := tasks[key];
        if !backoff { row := row.(gate := nextEligible); }
      }
      tasks := tasks[key := row];
    }

    /** The later of the task's and the connection's gate. */
    method ReadNextEligible(key: Key, kind: TaskKind, capability: bool) returns (eligible: Option<int>)
      ensures eligible == NextEligible(Contents(), key, !kind.Probe? && !capability)
      ensures eligible.Some? && key.instance in connections && connections[key.instance].gate.Some?
              ==> eligible.value >= connections[key.instance].gate.value
    {
      if kind.Probe? || capability { return None; }
      if key !in tasks { return None; }
      var taskNext, connectionNext := tasks[key].gate, None;
      if key.instance in connections { connectionNext := connections[key.instance].gate; }
      if taskNext.Some? && (connectionNext.None? || taskNext.value > connectionNext.value) { return taskNext; }
      return connectionNext;
    }
  }
}
