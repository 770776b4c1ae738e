/** The evaluator's transaction over the alert tables, statement by statement. */
module AlertTable {
  import opened Basics
  import opened AlertState
  import opened AlertStore

  class Table {
    var rows: map<RowId, Row>
    var log: map<RowId, seq<Event>>
    var removed: set<int>
    var paused: set<int>
    var nextId: nat

    ghost function Contents(): Store
      reads this
    {
      Store(rows, log, removed, paused, nextId)
    }

    constructor ()
      ensures Contents() == EmptyStore
    {
      rows, log, removed, paused, nextId := map[], map[], {}, {}, 0;
    }

    /** The alert part of GetEvaluationTarget: unresolved rows first, then the latest. */
    method FindCandidate(key: Key) returns (c: Option<RowId>)
      ensures IsCandidate(Contents(), key, c)
    {
      c := None;
      var rest := rows.Keys;
      while rest != {}
        invariant rest <= rows.Keys
        invariant c.Some? ==> c.value in rows && c.value !in rest && rows[c.value].key == key
        invariant forall id :: id in rows && id !in rest && rows[id].key == key ==>
                    c.Some? && !Before(rows[id], rows[c.value])
      {
        var id :| id in rest;
        rest := rest - {id};
        if rows[id].key == key && (c.None? || Before(rows[id], rows[c.value])) {
          c := Some(id);
        }
      }
    }

    /** The query's order: unresolved first, then the more recently updated. */
    static predicate Before(a: Row, b: Row) {
      if a.status.RECOVERED? == b.status.RECOVERED? then a.updatedAt > b.updatedAt
      else b.status.RECOVERED?
    }

    /** INSERT ... ON CONFLICT against the partial unique index on unresolved rows. */
    method SaveAlertSnapshot(key: Key, version: int, snap: Snapshot, now: int,
                             first: Option<int>, firstVersion: Option<int>) returns (id: RowId)
      requires OneOpenRow(Contents()) && log.Keys == rows.Keys
      requires forall j :: j in rows ==> j < nextId
      modifies this
      ensures
        var s := old(Contents());
        var open := OpenRow(s, key);
        && id == (if open.Some? then open.value else s.nextId)
        && Contents() == Put(s, id, Upserted(if open.Some? then Some(s.rows[id]) else None,
                                             key, version, snap, now, first, firstVersion), [])
    {
      if existing :| existing in rows && rows[existing].key == key && !rows[existing].status.RECOVERED? {
        id := existing;
        assert IsOpen(Contents(), key, id);
        var row := rows[id];
        row := WithSnapshot(row, version, snap, now);
        if row.firstTriggeredAt.None? { row := row.(firstTriggeredAt := first); }
        if row.firstVersion.None? { row := row.(firstVersion := firstVersion); }
        row := row.(recoveredAt := None);
        rows := rows[id := row];
        assert log[id] + [] == log[id] && log == log[id := log[id]];
      } else {
        assert forall j :: !IsOpen(Contents(), key, j);
        id := nextId;
        rows := rows[id := NewRow(key, version, snap, now, first, firstVersion)];
        log := log[id := []];
        nextId := nextId + 1;
      }
    }

    /** UPDATE ... WHERE id = $1 AND status <> 'RECOVERED'; finds nothing otherwise. */
    method RecoverAlertSnapshot(c: Option<RowId>, version: int, next: Snapshot, now: int) returns (found: bool)
      requires next.state.RECOVERED? && log.Keys == rows.Keys
      requires forall j :: j in rows ==> j < nextId
      modifies this
      ensures found <==> old(c.Some? && c.value in rows && !rows[c.value].status.RECOVERED?)
      ensures !found ==> Contents() == old(Contents())
      ensures found ==> Contents() == Put(old(Contents()), c.value,
                          WithSnapshot(old(rows[c.value]), version, next, now).(beforeNoData := Unset, recoveredAt := Some(now)), [])
    {
      found := c.Some? && c.value in rows && !rows[c.value].status.RECOVERED?;
      if found {
        var row := rows[c.value];
        row := row.(status := RECOVERED, version := version, breachCount := next.breachCount,
                    recoveryCount := next.recoveryCount, noDataCount := next.noDataCount);
        row := row.(beforeNoData := Unset, updatedAt := now, recoveredAt := Some(now));
        rows := rows[c.value := row];
        assert log[c.value] + [] == log[c.value] && log == log[c.value := log[c.value]];
      }
    }

    /** UPDATE ... WHERE id = $1 AND status <> 'RECOVERED'; changes nothing otherwise. */
    method ResetIgnoredMissingAlert(id: RowId, version: int, next: Snapshot, now: int)
      requires log.Keys == rows.Keys && forall j :: j in rows ==> j < nextId
      modifies this`rows
      ensures !old(id in rows && !rows[id].status.RECOVERED?) ==> Contents() == old(Contents())
      ensures old(id in rows && !rows[id].status.RECOVERED?) ==>
                Contents() == Put(old(Contents()), id,
                  old(rows[id]).(version := version, breachCount := next.breachCount, recoveryCount := next.recoveryCount,
                                 noDataCount := next.noDataCount, updatedAt := now), [])
    {
      if id in rows && !rows[id].status.RECOVERED? {
        rows := rows[id := rows[id].(version := version, breachCount := next.breachCount,
                                     recoveryCount := next.recoveryCount, noDataCount := next.noDataCount, updatedAt := now)];
        assert log[id] + [] == log[id] && log == log[id := log[id]];
      }
    }

    /** The loop over StateEvents: UPDATED is not written without a value. */
    method CreateAlertEvents(id: RowId, kinds: seq<EventKind>, hasValue: bool, version: int,
                             before: State, after: State, now: int)
      requires id in log
      modifies this`log
      ensures log == old(log)[id := old(log[id]) + ToEvents(Written(kinds, hasValue), version, before, after, now)]
    {
      ghost var done: seq<EventKind> := [];
      assert log[id] + ToEvents(done, version, before, after, now) == log[id] && log == log[id := log[id]];
      var i := 0;
      while i < |kinds|
        invariant 0 <= i <= |kinds|
        invariant id in log
        invariant Written(kinds, hasValue) == done + Written(kinds[i..], hasValue)
        invariant log == old(log)[id := old(log[id]) + ToEvents(done, version, before, after, now)]
      {
        assert kinds[i..][1..] == kinds[i + 1..];
        if !(kinds[i].Updated? && !hasValue) {
          var e := Event(kinds[i], version, before, after, now);
          ghost var written := ToEvents(done, version, before, after, now);
          assert ToEvents(done + [kinds[i]], version, before, after, now) == written + [e];
          assert old(log[id]) + written + [e] == old(log[id]) + (written + [e]);
          log := log[id := log[id] + [e]];
          done := done + [kinds[i]];
        }
        i := i + 1;
      }
      assert done == Written(kinds, hasValue);
    }

    /** One (rule, instance, dimension) in the evaluator's transaction. `c` is the row it read; the
        instance row must still exist, otherwise the transaction fails before writing. */
    method EvaluateRule(key: Key, version: int, rule: Rule, outcome: Evaluation, now: int)
      returns (ok: bool, c: Option<RowId>)
      requires Inv(Contents()) && !outcome.MissingIgnored?
      modifies this
      ensures Inv(Contents())
      ensures IsCandidate(old(Contents()), key, c)
      ensures ok <==> key.instance !in old(removed)
      ensures !ok ==> Contents() == old(Contents())
      ensures ok ==> Evaluated(old(Contents()), key, c, version, rule, outcome, now) == Some(Contents())
    {
      c := FindCandidate(key);
      ok := key.instance !in removed;
      if !ok { return; }
      ghost var s := Contents();
      EvaluationKeepsInv(s, key, c, version, rule, outcome, now);

      var current := LoadRow(Store(rows, log, removed, paused, nextId), c, version);
      if outcome.Missing? && rule.ignoreMissing {
        if c.Some? && !current.state.RECOVERED? {
          var reset := Step(current, MissingIgnored, rule.triggerCount, rule.recoveryCount);
          ResetIgnoredMissingAlert(c.value, version, reset, now);
        }
        return;
      }
      if current.state.RECOVERED? && !outcome.Breaching? { return; }

      var next := Step(current, outcome, rule.triggerCount, rule.recoveryCount);
      StepIsEvaluated(s, key, c, version, rule, outcome, now);
      WriteStep(key, c, version, current, next, outcome, now);
    }

    /** Writing the step's row and its events. */
    method WriteStep(key: Key, c: Option<RowId>, version: int, current: Snapshot, next: Snapshot, outcome: Evaluation, now: int)
      requires OneOpenRow(Contents()) && log.Keys == rows.Keys
      requires forall j :: j in rows ==> j < nextId
      requires next.state.RECOVERED? ==> c.Some? && c.value in rows && !rows[c.value].status.RECOVERED?
      modifies this
      ensures
        var s := old(Contents());
        Contents() == Put(s, Target(s, key, c, next), Stepped(s, key, c, version, current, next, now),
                          Emitted(current.state, next.state, outcome, version, now))
    {
      ghost var s := Contents();
      var id := WriteRow(key, c, version, current, next, now);
      ghost var row := rows[id];
      CreateAlertEvents(id, StateEvents(current.state, next.state), !outcome.Missing?, version, current.state, next.state, now);
      RowThenEvents(s, id, row, Emitted(current.state, next.state, outcome, version, now));
    }

    method WriteRow(key: Key, c: Option<RowId>, version: int, current: Snapshot, next: Snapshot, now: int) returns (id: RowId)
      requires OneOpenRow(Contents()) && log.Keys == rows.Keys
      requires forall j :: j in rows ==> j < nextId
      requires next.state.RECOVERED? ==> c.Some? && c.value in rows && !rows[c.value].status.RECOVERED?
      modifies this
      ensures
        var s := old(Contents());
        && id == Target(s, key, c, next)
        && Contents() == Put(s, id, Stepped(s, key, c, version, current, next, now), [])
    {
      var startsFiringLifecycle :=
        !current.state.FIRING? && !(current.state.NO_DATA? && current.beforeNoData.FIRING?) && next.state.FIRING?;
      if next.state.RECOVERED? {
        var found := RecoverAlertSnapshot(c, version, next, now);
        id := c.value;
      } else {
        id := SaveAlertSnapshot(key, version, next, now,
                                if startsFiringLifecycle then Some(now) else None,
                                if startsFiringLifecycle then Some(version) else None);
      }
    }

    /** UpdateCollectionPause: the flag, and when it changed a note on each of the instance's unresolved rows. */
    method SetCollectionPause(instance: int, pause: bool, now: int) returns (changed: bool)
      requires log.Keys == rows.Keys
      modifies this`paused, this`log
      ensures changed <==> (instance in old(paused)) != pause
      ensures Contents() == Paused(old(Contents()), instance, pause, now)
    {
      changed := (instance in paused) != pause;
      if !changed { return; }
      paused := if pause then paused + {instance} else paused - {instance};
      var kind := if pause then Frozen else Unfrozen;
      ghost var after := Paused(old(Contents()), instance, pause, now);
      ghost var target := after.log;
      var rest := rows.Keys;
      while rest != {}
        invariant rest <= rows.Keys && log.Keys == rows.Keys && paused == after.paused
        invariant forall id :: id in rows ==> log[id] == if id in rest then old(log)[id] else target[id]
      {
        var id :| id in rest;
        rest := rest - {id};
        var row := rows[id];
        if row.key.instance == instance && !row.status.RECOVERED? {
          log := log[id := log[id] + [Noting(row, kind, now)]];
        }
      }
      assert log == target;
    }

    /** UpdateAlertDisposition: an absent alert is not found, a resolved one is a conflict. The event carries
        the time of the alert's last evaluation. */
    method UpdateDisposition(id: RowId, kind: EventKind) returns (outcome: Disposal)
      requires (kind.Acked? || kind.Ignored?) && log.Keys == rows.Keys
      modifies this`log
      ensures outcome.NotFound? <==> id !in rows
      ensures outcome.Disposed? <==> id in rows && !rows[id].status.RECOVERED?
      ensures outcome.Disposed? ==> Contents() == Noted(old(Contents()), id, kind, rows[id].updatedAt)
      ensures !outcome.Disposed? ==> Contents() == old(Contents())
    {
      if id !in rows { return NotFound; }
      if rows[id].status.RECOVERED? { return Conflict; }
      log := log[id := log[id] + [Noting(rows[id], kind, rows[id].updatedAt)]];
      return Disposed;
    }

    /** The event a notification leaves, whatever the alert's state; nothing if the alert is gone. */
    method RecordDelivery(id: RowId, kind: EventKind, now: int)
      requires IsDelivery(kind) && log.Keys == rows.Keys
      modifies this`log
      ensures Contents() == if id in rows then Noted(old(Contents()), id, kind, now) else old(Contents())
    {
      if id in rows { log := log[id := log[id] + [Noting(rows[id], kind, now)]]; }
    }
  }

  /** Which row a step is written to, and what it then holds. */
  ghost function Target(s: Store, key: Key, c: Option<RowId>, next: Snapshot): RowId
    requires next.state.RECOVERED? ==> c.Some?
  {
    if next.state.RECOVERED? then c.value
    else if OpenRow(s, key).Some? then OpenRow(s, key).value else s.nextId
  }

  ghost function Stepped(s: Store, key: Key, c: Option<RowId>, version: int, current: Snapshot, next: Snapshot, now: int): Row
    requires next.state.RECOVERED? ==> c.Some? && c.value in s.rows
  {
    var open, starts := OpenRow(s, key), StartsFiring(current, next);
    if next.state.RECOVERED? then
      WithSnapshot(s.rows[c.value], version, next, now).(beforeNoData := Unset, recoveredAt := Some(now))
    else
      Upserted(if open.Some? then Some(s.rows[open.value]) else None, key, version, next, now,
               if starts then Some(now) else None, if starts then Some(version) else None)
  }

  /** Where the evaluation steps, it is this write. */
  lemma StepIsEvaluated(s: Store, key: Key, c: Option<RowId>, version: int, rule: Rule, outcome: Evaluation, now: int)
    requires IsCandidate(s, key, c) && Evaluated(s, key, c, version, rule, outcome, now).Some?
    requires !(outcome.Missing? && rule.ignoreMissing) && !(LoadRow(s, c, version).state.RECOVERED? && !outcome.Breaching?)
    ensures
      var current := LoadRow(s, c, version);
      var next := Next(current, outcome, ParamsOf(rule));
      && (next.state.RECOVERED? ==> c.Some? && c.value in s.rows && !s.rows[c.value].status.RECOVERED?)
      && Evaluated(s, key, c, version, rule, outcome, now)
         == Some(Put(s, Target(s, key, c, next), Stepped(s, key, c, version, current, next, now),
                     Emitted(current.state, next.state, outcome, version, now)))
  {}

  lemma RowThenEvents(s: Store, id: RowId, row: Row, events: seq<Event>)
    ensures
      var t := Put(s, id, row, []);
      t.(log := t.log[id := t.log[id] + events]) == Put(s, id, row, events)
  {
    assert LogOf(s, id) + [] == LogOf(s, id);
    var t := Put(s, id, row, []);
    assert t.log[id := LogOf(s, id) + events] == s.log[id := LogOf(s, id) + events];
  }

  datatype Disposal = NotFound | Conflict | Disposed

  /** The targets of one instance are evaluated in one transaction: RunOnce cuts the target list
      into maximal runs of one instance. */
  method GroupByInstance(instances: seq<int>) returns (groups: seq<seq<int>>)
    ensures Flatten(groups) == instances
    ensures forall g :: 0 <= g < |groups| ==> IsGroup(groups[g])
    ensures forall g, h :: 0 <= g < h < |groups| && h == g + 1 ==> Apart(groups[g], groups[h])
    ensures Sorted(instances) ==> Increasing(groups)
  {
    groups := [];
    var start := 0;
    while start < |instances|
      invariant 0 <= start <= |instances|
      invariant Flatten(groups) == instances[..start]
      invariant forall g :: 0 <= g < |groups| ==> IsGroup(groups[g])
      invariant forall g, h :: 0 <= g < h < |groups| && h == g + 1 ==> Apart(groups[g], groups[h])
      invariant groups != [] ==> start > 0 && instances[start - 1] == groups[|groups| - 1][0]
      invariant groups != [] && start < |instances| ==> instances[start] != instances[start - 1]
      invariant Sorted(instances) ==> Increasing(groups)
    {
      var end := start + 1;
      while end < |instances| && instances[end] == instances[start]
        invariant start < end <= |instances|
        invariant forall i :: start <= i < end ==> instances[i] == instances[start]
      {
        end := end + 1;
      }
      var group := instances[start..end];
      FlattenAppend(groups, group);
      assert instances[..start] + group == instances[..end];
      assert IsGroup(group) && group[0] == instances[start];
      if Sorted(instances) { IncreasingAppend(groups, group); }
      groups := groups + [group];
      start := end;
    }
    assert instances[..start] == instances;
  }

  /** Targets of one instance. */
  ghost predicate IsGroup(group: seq<int>) { group != [] && forall i :: 0 <= i < |group| ==> group[i] == group[0] }

  ghost predicate Apart(a: seq<int>, b: seq<int>) { a != [] && b != [] && a[0] != b[0] }

  /** One group per instance, in order. */
  ghost predicate Increasing(groups: seq<seq<int>>) {
    && (forall g :: 0 <= g < |groups| ==> IsGroup(groups[g]))
    && (forall g, h :: 0 <= g < h < |groups| ==> groups[g][0] < groups[h][0])
  }

  lemma IncreasingAppend(groups: seq<seq<int>>, group: seq<int>)
    requires Increasing(groups) && IsGroup(group) && (groups != [] ==> groups[|groups| - 1][0] < group[0])
    ensures Increasing(groups + [group])
  {}

  ghost predicate Sorted(xs: seq<int>) {
    forall i, j :: 0 <= i < j < |xs| ==> xs[i] <= xs[j]
  }

  function Flatten(groups: seq<seq<int>>): seq<int> {
    if groups == [] then [] else Flatten(groups[..|groups| - 1]) + groups[|groups| - 1]
  }

  lemma FlattenAppend(groups: seq<seq<int>>, g: seq<int>)
    ensures Flatten(groups + [g]) == Flatten(groups) + g
  {
    assert (groups + [g])[..|groups|] == groups;
  }
}
