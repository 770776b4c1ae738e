/** Alert rows and their event log, as the evaluator, instance removal, history retention, pausing,
    dispositions and notifications change them. Tables are maps; a transaction is one step. */
module AlertStore {
  import opened Basics
  import opened AlertState

  datatype Key = Key(rule: int, instance: int, dimension: string)

  type RowId = nat

  /** The life-cycle columns of an alert. Disposition and maintenance marks are not among them. */
  datatype Row = Row(
    key: Key, status: State, version: int,
    breachCount: int, recoveryCount: int, noDataCount: int, beforeNoData: State,
    updatedAt: int, firstTriggeredAt: Option<int>, firstVersion: Option<int>, recoveredAt: Option<int>)

  datatype EventKind =
    | PendingStarted | Fired | Updated | Recovery | NoDataEntered | NoDataExited | InstanceRemoved
    | Frozen | Unfrozen | Acked | Ignored | NotificationSent | NotificationFailed | MaintenanceSuppressed

  datatype Event = Event(kind: EventKind, version: int, fromState: State, toState: State, at: int)

  /** The kinds that say nothing about the alert's state: pausing, dispositions, notifications. */
  predicate IsNote(k: EventKind) { IsHandling(k) || IsDelivery(k) }

  /** Notes written on unresolved rows only. */
  predicate IsHandling(k: EventKind) { k.Frozen? || k.Unfrozen? || k.Acked? || k.Ignored? }

  /** Notes a notification leaves, also on resolved rows. */
  predicate IsDelivery(k: EventKind) { k.NotificationSent? || k.NotificationFailed? || k.MaintenanceSuppressed? }

  /** `log` holds the events of each row in the order they were inserted; deleting a row deletes
      its events. `removed` are the instances deleted so far, `paused` those whose collection is paused. */
  datatype Store = Store(rows: map<RowId, Row>, log: map<RowId, seq<Event>>, removed: set<int>, paused: set<int>, nextId: nat)

  /** The parts of a rule version the evaluator's life cycle depends on. */
  datatype Rule = Rule(triggerCount: int, recoveryCount: int, ignoreMissing: bool)

  function ParamsOf(rule: Rule): Params { Params(rule.triggerCount, rule.recoveryCount) }

  const EmptyStore := Store(map[], map[], {}, {}, 0)

  // ----- events of one evaluation

  function StateEvents(before: State, after: State): seq<EventKind> {
    if before.NO_DATA? && !after.NO_DATA? then
      if after.RECOVERED? then [NoDataExited, Recovery] else [NoDataExited]
    else if !before.PENDING? && after.PENDING? then [PendingStarted]
    else if !before.FIRING? && after.FIRING? then [Fired]
    else if before.FIRING? && after.FIRING? then [Updated]
    else if !before.RECOVERED? && after.RECOVERED? then [Recovery]
    else if !before.NO_DATA? && after.NO_DATA? then [NoDataEntered]
    else []
  }

  /** The kinds actually written: UPDATED is skipped when there is no value. */
  function Written(kinds: seq<EventKind>, hasValue: bool): seq<EventKind> {
    if kinds == [] then []
    else if kinds[0].Updated? && !hasValue then Written(kinds[1..], hasValue)
    else [kinds[0]] + Written(kinds[1..], hasValue)
  }

  function ToEvents(kinds: seq<EventKind>, version: int, before: State, after: State, now: int): seq<Event> {
    seq(|kinds|, i requires 0 <= i < |kinds| => Event(kinds[i], version, before, after, now))
  }

  function Emitted(before: State, after: State, outcome: Evaluation, version: int, now: int): seq<Event> {
    ToEvents(Written(StateEvents(before, after), !outcome.Missing?), version, before, after, now)
  }

  // ----- the statements

  predicate IsOpen(s: Store, key: Key, id: RowId) {
    id in s.rows && s.rows[id].key == key && !s.rows[id].status.RECOVERED?
  }

  /** The alert row an evaluation reads: an unresolved one if there is one, else a latest one. */
  ghost predicate IsCandidate(s: Store, key: Key, c: Option<RowId>) {
    match c
    case None => forall id :: id in s.rows ==> s.rows[id].key != key
    case Some(best) =>
      && best in s.rows && s.rows[best].key == key
      && (forall id :: IsOpen(s, key, id) ==> IsOpen(s, key, best))
      && (forall id :: id in s.rows && s.rows[id].key == key && (IsOpen(s, key, id) <==> IsOpen(s, key, best))
                       ==> s.rows[id].updatedAt <= s.rows[best].updatedAt)
  }

  function SnapshotOf(row: Row): Snapshot {
    Snapshot(row.status, row.beforeNoData, row.breachCount, row.recoveryCount, row.noDataCount)
  }

  /** Counters of another rule version are not carried over. */
  function LoadRow(s: Store, c: Option<RowId>, version: int): Snapshot
    requires c.Some? ==> c.value in s.rows
  {
    if c.None? then Initial
    else
      var row := s.rows[c.value];
      if row.version == version then SnapshotOf(row) else Cleared(SnapshotOf(row))
  }

  function Or<T>(a: Option<T>, b: Option<T>): Option<T> { if a.Some? then a else b }

  function WithSnapshot(row: Row, version: int, snap: Snapshot, now: int): Row {
    row.(status := snap.state, version := version, breachCount := snap.breachCount,
         recoveryCount := snap.recoveryCount, noDataCount := snap.noDataCount,
         beforeNoData := snap.beforeNoData, updatedAt := now)
  }

  function NewRow(key: Key, version: int, snap: Snapshot, now: int, first: Option<int>, firstVersion: Option<int>): Row {
    Row(key, snap.state, version, snap.breachCount, snap.recoveryCount, snap.noDataCount,
        snap.beforeNoData, now, first, firstVersion, None)
  }

  /** The row the upsert leaves behind, given the unresolved row it collides with. */
  function Upserted(prior: Option<Row>, key: Key, version: int, snap: Snapshot, now: int,
                    first: Option<int>, firstVersion: Option<int>): Row {
    match prior
    case None => NewRow(key, version, snap, now, first, firstVersion)
    case Some(row) =>
      WithSnapshot(row, version, snap, now).(
        firstTriggeredAt := Or(row.firstTriggeredAt, first),
        firstVersion := Or(row.firstVersion, firstVersion),
        recoveredAt := None)
  }

  function Put(s: Store, id: RowId, row: Row, events: seq<Event>): Store {
    s.(rows := s.rows[id := row],
       log := s.log[id := (if id in s.log then s.log[id] else []) + events],
       nextId := if id < s.nextId then s.nextId else id + 1)
  }

  ghost function OpenRow(s: Store, key: Key): Option<RowId> {
    if exists id :: IsOpen(s, key, id) then
      var id :| IsOpen(s, key, id);
      Some(id)
    else None
  }

  /** Whether this evaluation begins a firing life cycle. */
  predicate StartsFiring(current: Snapshot, next: Snapshot) {
    && !current.state.FIRING?
    && !(current.state.NO_DATA? && current.beforeNoData.FIRING?)
    && next.state.FIRING?
  }

  /** What one evaluation of a key makes of the store; None when a statement fails and the
      transaction is rolled back. */
  ghost function Evaluated(s: Store, key: Key, c: Option<RowId>, version: int, rule: Rule,
                           outcome: Evaluation, now: int): Option<Store>
    requires IsCandidate(s, key, c)
  {
    var current := LoadRow(s, c, version);
    if outcome.Missing? && rule.ignoreMissing then
      if c.Some? && !current.state.RECOVERED? then
        var id := c.value;
        var next := Next(current, MissingIgnored, ParamsOf(rule));
        Some(Put(s, id, WithSnapshot(s.rows[id], version, next, now).(
                          status := s.rows[id].status, beforeNoData := s.rows[id].beforeNoData), []))
      else Some(s)
    else if current.state.RECOVERED? && !outcome.Breaching? then Some(s)
    else
      var next := Next(current, outcome, ParamsOf(rule));
      var events := Emitted(current.state, next.state, outcome, version, now);
      if next.state.RECOVERED? then
        if c.Some? && !s.rows[c.value].status.RECOVERED? then
          var id := c.value;
          Some(Put(s, id, WithSnapshot(s.rows[id], version, next, now).(beforeNoData := Unset, recoveredAt := Some(now)), events))
        else None
      else
        var starts := StartsFiring(current, next);
        var open := OpenRow(s, key);
        var id := if open.Some? then open.value else s.nextId;
        var prior := if open.Some? then Some(s.rows[open.value]) else None;
        Some(Put(s, id, Upserted(prior, key, version, next, now,
                                 if starts then Some(now) else None,
                                 if starts then Some(version) else None), events))
  }

  function ClosedBy(row: Row, now: int): Row {
    row.(status := RECOVERED, beforeNoData := Unset, updatedAt := now, recoveredAt := Some(now))
  }

  /** Closing the unresolved alerts of a deleted instance. */
  function Removed(s: Store, instance: int, now: int): Store {
    var closing := set id | id in s.rows && s.rows[id].key.instance == instance && !s.rows[id].status.RECOVERED?;
    Store(
      map id | id in s.rows ::
        if id in closing then ClosedBy(s.rows[id], now) else s.rows[id],
      map id | id in s.log ::
        if id in closing && id in s.rows
        then s.log[id] + [Event(InstanceRemoved, s.rows[id].version, s.rows[id].status, RECOVERED, now)]
        else s.log[id],
      s.removed + {instance}, s.paused, s.nextId)
  }

  predicate Expired(row: Row, cutoff: int) { row.recoveredAt.Some? && row.recoveredAt.value <= cutoff }

  /** Retention deletes rows resolved up to the cutoff, and their events with them. */
  function Purge(s: Store, cutoff: int): Store {
    var gone := set id | id in s.rows && Expired(s.rows[id], cutoff);
    s.(rows := s.rows - gone, log := s.log - gone)
  }

  function Noting(row: Row, kind: EventKind, now: int): Event { Event(kind, row.version, row.status, row.status, now) }

  /** Pausing or resuming an instance: nothing if it already is, else a note on each unresolved row. */
  function Paused(s: Store, instance: int, pause: bool, now: int): Store {
    if (instance in s.paused) == pause then s
    else
      s.(paused := if pause then s.paused + {instance} else s.paused - {instance},
         log := map id | id in s.log ::
           if id in s.rows && s.rows[id].key.instance == instance && !s.rows[id].status.RECOVERED?
           then s.log[id] + [Noting(s.rows[id], if pause then Frozen else Unfrozen, now)]
           else s.log[id])
  }

  /** A disposition or a notification outcome of one row. */
  function Noted(s: Store, id: RowId, kind: EventKind, now: int): Store
    requires id in s.rows
  {
    s.(log := s.log[id := LogOf(s, id) + [Noting(s.rows[id], kind, now)]])
  }

  function LogOf(s: Store, id: RowId): seq<Event> { if id in s.log then s.log[id] else [] }

  // ----- the grammar of a row's events

  datatype Phase = Quiet | QuietNoData | Firing | FiringNoData | Resolved | Dropped | Broken

  function Delta(p: Phase, k: EventKind): Phase { if IsNote(k) then p else LifecycleDelta(p, k) }

  function LifecycleDelta(p: Phase, k: EventKind): Phase {
    match (p, k)
    case (Quiet, PendingStarted) => Quiet
    case (Quiet, Fired) => Firing
    case (Quiet, NoDataEntered) => QuietNoData
    case (QuietNoData, NoDataExited) => Quiet
    case (Firing, Updated) => Firing
    case (Firing, NoDataEntered) => FiringNoData
    case (FiringNoData, NoDataExited) => Firing
    case (Firing, Recovery) => Resolved
    case (Resolved, _) => Broken
    case (Dropped, _) => Broken
    case (Broken, _) => Broken
    case (_, InstanceRemoved) => Dropped
    case _ => Broken
  }

  function Replay(events: seq<Event>): Phase {
    if events == [] then Quiet
    else Delta(Replay(events[..|events| - 1]), events[|events| - 1].kind)
  }

  /** The phase of a row read off its columns. */
  ghost predicate InPhase(row: Row, p: Phase) {
    match row.status
    case OK => p.Quiet?
    case PENDING => p.Quiet?
    case FIRING => p.Firing?
    case NO_DATA => if row.beforeNoData.FIRING? then p.FiringNoData? else p.QuietNoData?
    case RECOVERED => p.Resolved? || p.Dropped?
    case Unset => false
  }

  ghost predicate FirstRecorded(row: Row, events: seq<Event>) {
    && (row.firstTriggeredAt.Some? <==> exists i :: 0 <= i < |events| && events[i].kind.Fired?)
    && (forall i :: 0 <= i < |events| && events[i].kind.Fired? ==>
          row.firstTriggeredAt == Some(events[i].at) && row.firstVersion == Some(events[i].version))
    && (row.firstTriggeredAt.Some? <==> row.firstVersion.Some?)
  }

  predicate Closes(k: EventKind) { k.Recovery? || k.InstanceRemoved? }

  ghost predicate EndRecorded(row: Row, events: seq<Event>) {
    forall i :: 0 <= i < |events| && Closes(events[i].kind) ==> row.recoveredAt == Some(events[i].at)
  }

  ghost predicate ColumnsOk(row: Row) {
    && (row.beforeNoData.Unset? <==> !row.status.NO_DATA?)
    && (row.status.NO_DATA? ==> row.beforeNoData.OK? || row.beforeNoData.PENDING? || row.beforeNoData.FIRING?)
    && (row.recoveredAt.Some? <==> row.status.RECOVERED?)
  }

  ghost predicate RowOk(row: Row, events: seq<Event>) {
    ColumnsOk(row) && InPhase(row, Replay(events)) && FirstRecorded(row, events) && EndRecorded(row, events)
  }

  ghost predicate RowsOk(s: Store) {
    && s.log.Keys == s.rows.Keys
    && (forall id :: id in s.rows ==> id < s.nextId && RowOk(s.rows[id], s.log[id]))
  }

  ghost predicate OneOpenRow(s: Store) {
    forall key, a, b :: IsOpen(s, key, a) && IsOpen(s, key, b) ==> a == b
  }

  /** A live instance's resolved rows carry no breaches; a removed instance has only resolved rows. */
  ghost predicate Settled(s: Store) {
    && (forall id :: id in s.rows && s.rows[id].status.RECOVERED? && s.rows[id].key.instance !in s.removed
                     ==> s.rows[id].breachCount == 0)
    && (forall id :: id in s.rows && s.rows[id].key.instance in s.removed ==> s.rows[id].status.RECOVERED?)
  }

  ghost predicate Inv(s: Store) { RowsOk(s) && OneOpenRow(s) && Settled(s) }

  // ----- what one evaluation does to a row

  lemma ReplayAppend(events: seq<Event>, e: Event)
    ensures Replay(events + [e]) == Delta(Replay(events), e.kind)
  {
    var longer := events + [e];
    assert longer[..|longer| - 1] == events;
  }

  lemma {:induction false} QuietMeansUnfired(events: seq<Event>)
    requires Replay(events).Quiet? || Replay(events).QuietNoData?
    ensures forall i :: 0 <= i < |events| ==> !events[i].kind.Fired?
  {
    if events != [] {
      QuietMeansUnfired(events[..|events| - 1]);
    }
  }

  lemma {:induction false} OpenMeansUnclosed(events: seq<Event>)
    requires !Replay(events).Resolved? && !Replay(events).Dropped? && !Replay(events).Broken?
    ensures forall i :: 0 <= i < |events| ==> !Closes(events[i].kind)
  {
    if events != [] {
      OpenMeansUnclosed(events[..|events| - 1]);
    }
  }

  /** The one event kind a transition writes, if any. */
  function Kind(before: State, after: State, outcome: Evaluation): Option<EventKind> {
    var kinds := StateEvents(before, after);
    if kinds == [] || (kinds[0].Updated? && outcome.Missing?) then None else Some(kinds[0])
  }

  lemma EmittedShape(before: State, after: State, outcome: Evaluation, version: int, now: int)
    requires before.NO_DATA? ==> !after.RECOVERED?
    ensures
      var kind := Kind(before, after, outcome);
      Emitted(before, after, outcome, version, now)
      == (if kind.None? then [] else [Event(kind.value, version, before, after, now)])
  {
    var kinds := StateEvents(before, after);
    if kinds != [] {
      assert kinds == [kinds[0]];
      assert kinds[1..] == [];
      assert Written(kinds[1..], !outcome.Missing?) == [];
    }
  }

  ghost predicate WellFormed(snap: Snapshot) {
    && !snap.state.Unset?
    && (snap.beforeNoData.Unset? <==> !snap.state.NO_DATA?)
    && (snap.state.NO_DATA? ==> snap.beforeNoData.OK? || snap.beforeNoData.PENDING? || snap.beforeNoData.FIRING?)
  }

  function PhaseOf(snap: Snapshot): Phase {
    match snap.state
    case OK => Quiet
    case PENDING => Quiet
    case FIRING => Firing
    case NO_DATA => if snap.beforeNoData.FIRING? then FiringNoData else QuietNoData
    case RECOVERED => Resolved
    case Unset => Broken
  }

  /** The event written by a step moves the grammar exactly as the step moves the snapshot, and
      it is FIRED exactly when a firing life cycle starts. */
  lemma StepMovesPhase(current: Snapshot, outcome: Evaluation, p: Params)
    requires WellFormed(current) && !outcome.MissingIgnored?
    requires current.state.RECOVERED? ==> outcome.Breaching?
    ensures
      var next := Next(current, outcome, p);
      var kind := Kind(current.state, next.state, outcome);
      var start := if current.state.RECOVERED? then Quiet else PhaseOf(current);
      && WellFormed(next)
      && PhaseOf(next) == (if kind.None? then start else Delta(start, kind.value))
      && (StartsFiring(current, next) <==> kind == Some(Fired))
      && (current.state.NO_DATA? ==> !next.state.RECOVERED?)
      && (next.state.RECOVERED? ==> current.state.FIRING? && next.breachCount == 0)
  {}

  ghost predicate LoadedFrom(row: Row, current: Snapshot) {
    current == SnapshotOf(row) || current == Cleared(SnapshotOf(row))
  }

  lemma FirstAppend(row: Row, events: seq<Event>, next: Row, e: Event)
    requires FirstRecorded(row, events)
    requires e.kind.Fired? ==> forall i :: 0 <= i < |events| ==> !events[i].kind.Fired?
    requires next.firstTriggeredAt == (if e.kind.Fired? then Or(row.firstTriggeredAt, Some(e.at)) else row.firstTriggeredAt)
    requires next.firstVersion == (if e.kind.Fired? then Or(row.firstVersion, Some(e.version)) else row.firstVersion)
    ensures FirstRecorded(next, events + [e])
  {
    var longer := events + [e];
    assert longer[|events|] == e;
    assert forall i :: 0 <= i < |events| ==> longer[i] == events[i];
  }

  /** The row an evaluation writes back over the unresolved row it read. */
  function Rewritten(row: Row, version: int, current: Snapshot, next: Snapshot, now: int): Row {
    if next.state.RECOVERED? then
      WithSnapshot(row, version, next, now).(beforeNoData := Unset, recoveredAt := Some(now))
    else
      Upserted(Some(row), row.key, version, next, now,
               if StartsFiring(current, next) then Some(now) else None,
               if StartsFiring(current, next) then Some(version) else None)
  }

  /** The unresolved row after an ignored gap. */
  function ResetRow(row: Row, version: int, now: int): Row {
    row.(version := version, breachCount := 0, recoveryCount := 0, noDataCount := 0, updatedAt := now)
  }

  /** The first row of a new life cycle. */
  function FirstRow(key: Key, version: int, current: Snapshot, next: Snapshot, now: int): Row {
    var starts := StartsFiring(current, next);
    NewRow(key, version, next, now, if starts then Some(now) else None, if starts then Some(version) else None)
  }

  lemma RewrittenColumns(row: Row, current: Snapshot, next: Snapshot, version: int, now: int)
    requires WellFormed(next)
    ensures
      var after := Rewritten(row, version, current, next, now);
      ColumnsOk(after) && InPhase(after, PhaseOf(next))
  {}

  lemma RewrittenFirst(row: Row, events: seq<Event>, current: Snapshot, next: Snapshot, e: Event, version: int, now: int)
    requires FirstRecorded(row, events) && e.version == version && e.at == now
    requires StartsFiring(current, next) <==> e.kind.Fired?
    requires e.kind.Fired? ==> forall i :: 0 <= i < |events| ==> !events[i].kind.Fired?
    ensures FirstRecorded(Rewritten(row, version, current, next, now), events + [e])
  {
    FirstAppend(row, events, Rewritten(row, version, current, next, now), e);
  }

  lemma RewrittenEnd(row: Row, events: seq<Event>, current: Snapshot, next: Snapshot, e: Event, version: int, now: int)
    requires !Replay(events).Resolved? && !Replay(events).Dropped? && !Replay(events).Broken? && WellFormed(next)
    requires PhaseOf(next) == Delta(Replay(events), e.kind) && e.at == now
    ensures EndRecorded(Rewritten(row, version, current, next, now), events + [e])
  {
    OpenMeansUnclosed(events);
    assert Closes(e.kind) ==> next.state.RECOVERED?;
  }

  lemma RewrittenOk(row: Row, events: seq<Event>, current: Snapshot, next: Snapshot, kind: Option<EventKind>, version: int, now: int)
    requires RowOk(row, events) && !row.status.RECOVERED?
    requires PhaseOf(current) == Replay(events)
    requires WellFormed(next)
    requires PhaseOf(next) == (if kind.None? then PhaseOf(current) else Delta(PhaseOf(current), kind.value))
    requires StartsFiring(current, next) <==> kind == Some(Fired)
    ensures RowOk(Rewritten(row, version, current, next, now),
                  events + (if kind.None? then [] else [Event(kind.value, version, current.state, next.state, now)]))
  {
    RewrittenColumns(row, current, next, version, now);
    if kind.None? {
      assert events + [] == events;
      OpenMeansUnclosed(events);
    } else {
      var e := Event(kind.value, version, current.state, next.state, now);
      ReplayAppend(events, e);
      if kind.value.Fired? { FiredFromQuiet(events, e, next); }
      RewrittenFirst(row, events, current, next, e, version, now);
      RewrittenEnd(row, events, current, next, e, version, now);
    }
  }

  lemma FiredFromQuiet(events: seq<Event>, e: Event, next: Snapshot)
    requires e.kind.Fired? && WellFormed(next) && PhaseOf(next) == Delta(Replay(events), e.kind)
    ensures forall i :: 0 <= i < |events| ==> !events[i].kind.Fired?
  {
    assert !PhaseOf(next).Broken?;
    QuietMeansUnfired(events);
  }

  lemma PhaseOfRow(row: Row, events: seq<Event>, current: Snapshot)
    requires ColumnsOk(row) && InPhase(row, Replay(events)) && !row.status.RECOVERED? && LoadedFrom(row, current)
    ensures PhaseOf(current) == Replay(events) && WellFormed(current)
  {}

  lemma OpenRowStep(row: Row, events: seq<Event>, current: Snapshot, version: int, outcome: Evaluation, p: Params, now: int)
    requires RowOk(row, events) && !row.status.RECOVERED? && LoadedFrom(row, current)
    requires !outcome.MissingIgnored?
    ensures
      var next := Next(current, outcome, p);
      && RowOk(Rewritten(row, version, current, next, now),
               events + Emitted(current.state, next.state, outcome, version, now))
      && (next.state.RECOVERED? ==> next.breachCount == 0)
  {
    var next := Next(current, outcome, p);
    PhaseOfRow(row, events, current);
    StepMovesPhase(current, outcome, p);
    EmittedShape(current.state, next.state, outcome, version, now);
    RewrittenOk(row, events, current, next, Kind(current.state, next.state, outcome), version, now);
  }

  lemma FreshRowOk(key: Key, current: Snapshot, next: Snapshot, kind: Option<EventKind>, version: int, now: int)
    requires WellFormed(next) && !next.state.RECOVERED?
    requires PhaseOf(next) == (if kind.None? then Quiet else Delta(Quiet, kind.value))
    requires StartsFiring(current, next) <==> kind == Some(Fired)
    ensures
      var starts := StartsFiring(current, next);
      RowOk(Upserted(None, key, version, next, now, if starts then Some(now) else None, if starts then Some(version) else None),
            if kind.None? then [] else [Event(kind.value, version, current.state, next.state, now)])
  {
    if kind.Some? {
      var e := Event(kind.value, version, current.state, next.state, now);
      ReplayAppend([], e);
      assert [] + [e] == [e];
    }
  }

  lemma FreshRowStep(key: Key, current: Snapshot, version: int, outcome: Evaluation, p: Params, now: int)
    requires WellFormed(current) && !outcome.MissingIgnored?
    requires current.state.OK? || (current.state.RECOVERED? && outcome.Breaching?)
    ensures
      var next := Next(current, outcome, p);
      var starts := StartsFiring(current, next);
      && !next.state.RECOVERED?
      && RowOk(Upserted(None, key, version, next, now, if starts then Some(now) else None, if starts then Some(version) else None),
               Emitted(current.state, next.state, outcome, version, now))
  {
    var next := Next(current, outcome, p);
    StepMovesPhase(current, outcome, p);
    EmittedShape(current.state, next.state, outcome, version, now);
    FreshRowOk(key, current, next, Kind(current.state, next.state, outcome), version, now);
  }

  // ----- one evaluation keeps the tables in order

  lemma CandidateIsTheOpenRow(s: Store, key: Key, c: Option<RowId>)
    requires Inv(s) && IsCandidate(s, key, c)
    ensures c.Some? && !s.rows[c.value].status.RECOVERED? ==> OpenRow(s, key) == c
    ensures c.None? || s.rows[c.value].status.RECOVERED? ==> OpenRow(s, key).None?
  {
    if c.Some? && !s.rows[c.value].status.RECOVERED? {
      assert IsOpen(s, key, c.value);
    }
  }

  /** Where a row may be written: over the key's unresolved row, or as a new row when it has none. */
  ghost predicate MayPut(s: Store, id: RowId, row: Row) {
    && row.key.instance !in s.removed
    && (row.status.RECOVERED? ==> row.breachCount == 0)
    && if id in s.rows then IsOpen(s, row.key, id) else id == s.nextId && forall j :: !IsOpen(s, row.key, j)
  }

  lemma PutKeepsRows(s: Store, id: RowId, row: Row, events: seq<Event>)
    requires RowsOk(s) && MayPut(s, id, row) && RowOk(row, LogOf(s, id) + events)
    ensures RowsOk(Put(s, id, row, events))
  {
    var t := Put(s, id, row, events);
    forall j | j in t.rows ensures j < t.nextId && RowOk(t.rows[j], t.log[j]) {
      if j != id { assert RowOk(s.rows[j], s.log[j]); }
    }
  }

  lemma PutKeepsOneOpen(s: Store, id: RowId, row: Row, events: seq<Event>)
    requires OneOpenRow(s) && MayPut(s, id, row)
    ensures OneOpenRow(Put(s, id, row, events))
  {
    var t := Put(s, id, row, events);
    forall key, a, b | IsOpen(t, key, a) && IsOpen(t, key, b) ensures a == b {
      if a != id { assert IsOpen(s, key, a); }
      if b != id { assert IsOpen(s, key, b); }
    }
  }

  lemma PutSettles(s: Store, id: RowId, row: Row, events: seq<Event>)
    requires Settled(s) && MayPut(s, id, row)
    ensures Settled(Put(s, id, row, events))
  {}

  lemma PutKeepsInv(s: Store, id: RowId, row: Row, events: seq<Event>)
    requires Inv(s) && MayPut(s, id, row) && RowOk(row, LogOf(s, id) + events)
    ensures Inv(Put(s, id, row, events))
  {
    PutKeepsRows(s, id, row, events);
    PutKeepsOneOpen(s, id, row, events);
    PutSettles(s, id, row, events);
  }

  /** The effect of an evaluation that writes: which row it writes and what it adds to its log. */
  ghost predicate WritesOneRow(s: Store, key: Key, t: Store, id: RowId, row: Row, events: seq<Event>) {
    && row.key == key
    && MayPut(s, id, row)
    && RowOk(row, LogOf(s, id) + events)
    && t == Put(s, id, row, events)
  }

  lemma ResetWrites(s: Store, key: Key, c: RowId, version: int, rule: Rule, now: int)
    requires Inv(s) && key.instance !in s.removed && IsCandidate(s, key, Some(c)) && IsOpen(s, key, c)
    requires rule.ignoreMissing
    ensures
      var t := Evaluated(s, key, Some(c), version, rule, Missing, now);
      t.Some? && WritesOneRow(s, key, t.value, c, ResetRow(s.rows[c], version, now), [])
  {
    assert LogOf(s, c) + [] == s.log[c];
    assert InPhase(s.rows[c], Replay(s.log[c]));
  }

  lemma StepOpenWrites(s: Store, key: Key, c: RowId, version: int, rule: Rule, outcome: Evaluation, now: int)
    requires Inv(s) && key.instance !in s.removed && IsCandidate(s, key, Some(c)) && IsOpen(s, key, c)
    requires !outcome.MissingIgnored? && !(outcome.Missing? && rule.ignoreMissing)
    ensures
      var current := LoadRow(s, Some(c), version);
      var next := Next(current, outcome, ParamsOf(rule));
      var t := Evaluated(s, key, Some(c), version, rule, outcome, now);
      t.Some? && WritesOneRow(s, key, t.value, c, Rewritten(s.rows[c], version, current, next, now),
                              Emitted(current.state, next.state, outcome, version, now))
  {
    CandidateIsTheOpenRow(s, key, Some(c));
    OpenRowStep(s.rows[c], s.log[c], LoadRow(s, Some(c), version), version, outcome, ParamsOf(rule), now);
  }

  /** Where the key has no unresolved row, the step is inserted. */
  lemma FreshIsInserted(s: Store, key: Key, c: Option<RowId>, version: int, rule: Rule, outcome: Evaluation, now: int, next: Snapshot)
    requires IsCandidate(s, key, c) && OpenRow(s, key).None? && next == Next(LoadRow(s, c, version), outcome, ParamsOf(rule))
    requires c.None? || outcome.Breaching?
    requires !(outcome.Missing? && rule.ignoreMissing) && !next.state.RECOVERED?
    ensures
      var current := LoadRow(s, c, version);
      Evaluated(s, key, c, version, rule, outcome, now)
      == Some(Put(s, s.nextId, FirstRow(key, version, current, next, now), Emitted(current.state, next.state, outcome, version, now)))
  {}

  lemma StepFreshWrites(s: Store, key: Key, c: Option<RowId>, version: int, rule: Rule, outcome: Evaluation, now: int)
    requires Inv(s) && key.instance !in s.removed && IsCandidate(s, key, c)
    requires c.None? || (s.rows[c.value].status.RECOVERED? && outcome.Breaching?)
    requires !outcome.MissingIgnored? && !(outcome.Missing? && rule.ignoreMissing)
    ensures Evaluated(s, key, c, version, rule, outcome, now).Some?
    ensures Changes(s, key, ChangeOf(s, key, c, version, rule, outcome, now), Evaluated(s, key, c, version, rule, outcome, now).value)
  {
    CandidateIsTheOpenRow(s, key, c);
    var current := LoadRow(s, c, version);
    var next := Next(current, outcome, ParamsOf(rule));
    FreshRowStep(key, current, version, outcome, ParamsOf(rule), now);
    FreshIsInserted(s, key, c, version, rule, outcome, now, next);
    var emitted := Emitted(current.state, next.state, outcome, version, now);
    assert LogOf(s, s.nextId) + emitted == emitted;
  }

  /** What an evaluation writes: one row and the events added to its log, or nothing. */
  datatype Change = Nothing | Change(id: RowId, row: Row, events: seq<Event>)

  ghost function ChangeOf(s: Store, key: Key, c: Option<RowId>, version: int, rule: Rule, outcome: Evaluation, now: int): Change
    requires c.Some? ==> c.value in s.rows
  {
    var skip := outcome.Missing? && rule.ignoreMissing;
    var current := LoadRow(s, c, version);
    var next := Next(current, outcome, ParamsOf(rule));
    var events := Emitted(current.state, next.state, outcome, version, now);
    if c.Some? && !s.rows[c.value].status.RECOVERED? then
      if skip then Change(c.value, ResetRow(s.rows[c.value], version, now), [])
      else Change(c.value, Rewritten(s.rows[c.value], version, current, next, now), events)
    else if !skip && (c.None? || outcome.Breaching?) then Change(s.nextId, FirstRow(key, version, current, next, now), events)
    else Nothing
  }

  ghost predicate Changes(s: Store, key: Key, change: Change, t: Store) {
    if change.Nothing? then t == s else WritesOneRow(s, key, t, change.id, change.row, change.events)
  }

  /** No evaluation fails in the database, and each writes at most one row where it may. */
  lemma EvaluationWrites(s: Store, key: Key, c: Option<RowId>, version: int, rule: Rule, outcome: Evaluation, now: int)
    requires Inv(s) && key.instance !in s.removed && IsCandidate(s, key, c) && !outcome.MissingIgnored?
    ensures Evaluated(s, key, c, version, rule, outcome, now).Some?
    ensures Changes(s, key, ChangeOf(s, key, c, version, rule, outcome, now), Evaluated(s, key, c, version, rule, outcome, now).value)
  {
    if c.Some? && IsOpen(s, key, c.value) {
      if outcome.Missing? && rule.ignoreMissing {
        ResetWrites(s, key, c.value, version, rule, now);
      } else {
        StepOpenWrites(s, key, c.value, version, rule, outcome, now);
      }
    } else if !(outcome.Missing? && rule.ignoreMissing) && (c.None? || outcome.Breaching?) {
      StepFreshWrites(s, key, c, version, rule, outcome, now);
    }
  }

  lemma EvaluationKeepsInv(s: Store, key: Key, c: Option<RowId>, version: int, rule: Rule, outcome: Evaluation, now: int)
    requires Inv(s) && key.instance !in s.removed && IsCandidate(s, key, c) && !outcome.MissingIgnored?
    ensures Evaluated(s, key, c, version, rule, outcome, now).Some?
    ensures Inv(Evaluated(s, key, c, version, rule, outcome, now).value)
  {
    EvaluationWrites(s, key, c, version, rule, outcome, now);
    var change := ChangeOf(s, key, c, version, rule, outcome, now);
    if change.Change? { PutKeepsInv(s, change.id, change.row, change.events); }
  }

  lemma ClosedRowOk(row: Row, events: seq<Event>, now: int)
    requires RowOk(row, events) && !row.status.RECOVERED?
    ensures RowOk(ClosedBy(row, now), events + [Event(InstanceRemoved, row.version, row.status, RECOVERED, now)])
  {
    var e := Event(InstanceRemoved, row.version, row.status, RECOVERED, now);
    ReplayAppend(events, e);
    FirstAppend(row, events, ClosedBy(row, now), e);
  }

  lemma RemovedRow(s: Store, instance: int, now: int, id: RowId)
    requires Inv(s) && id in s.rows
    ensures
      var t := Removed(s, instance, now);
      && id in t.rows && id in t.log && RowOk(t.rows[id], t.log[id])
      && t.rows[id].key == s.rows[id].key
      && (t.rows[id] == s.rows[id] || (s.rows[id].key.instance == instance && t.rows[id].status.RECOVERED?))
      && (s.rows[id].key.instance == instance ==> t.rows[id].status.RECOVERED?)
      && (s.rows[id].status.RECOVERED? ==> t.rows[id] == s.rows[id] && t.log[id] == s.log[id])
  {
    assert RowOk(s.rows[id], s.log[id]);
    if s.rows[id].key.instance == instance && !s.rows[id].status.RECOVERED? {
      ClosedRowOk(s.rows[id], s.log[id], now);
    }
  }

  lemma RemovedRowsOk(s: Store, instance: int, now: int)
    requires Inv(s)
    ensures
      var t := Removed(s, instance, now);
      && t.rows.Keys == s.rows.Keys && t.log.Keys == s.log.Keys
      && forall id :: id in t.rows ==> RowOk(t.rows[id], t.log[id])
  {
    var t := Removed(s, instance, now);
    assert t.rows.Keys == s.rows.Keys && t.log.Keys == s.log.Keys;
    forall id | id in t.rows ensures RowOk(t.rows[id], t.log[id]) {
      RemovedRow(s, instance, now, id);
    }
  }

  lemma RemovalSettles(s: Store, instance: int, now: int)
    requires OneOpenRow(s) && Settled(s)
    ensures OneOpenRow(Removed(s, instance, now)) && Settled(Removed(s, instance, now))
  {
    var t := Removed(s, instance, now);
    assert forall key, a :: IsOpen(t, key, a) ==> IsOpen(s, key, a);
  }

  lemma RemovalKeepsInv(s: Store, instance: int, now: int)
    requires Inv(s)
    ensures Inv(Removed(s, instance, now))
  {
    RemovedRowsOk(s, instance, now);
    RemovalSettles(s, instance, now);
  }

  lemma PurgeKeepsInv(s: Store, cutoff: int)
    requires Inv(s)
    ensures Inv(Purge(s, cutoff))
  {
    var t := Purge(s, cutoff);
    forall key, a, b | IsOpen(t, key, a) && IsOpen(t, key, b) ensures a == b {
      assert IsOpen(s, key, a) && IsOpen(s, key, b);
    }
  }

  /** Retention deletes exactly the rows resolved at or before the cutoff, with their logs. */
  lemma RetentionDeletesExactly(s: Store, cutoff: int, id: RowId)
    requires Inv(s) && id in s.rows
    ensures
      var t, row := Purge(s, cutoff), s.rows[id];
      && (id !in t.rows <==> row.status.RECOVERED? && row.recoveredAt.value <= cutoff)
      && (id in t.rows <==> id in t.log)
      && (id in t.rows ==> t.rows[id] == row && t.log[id] == s.log[id])
  {
    assert RowOk(s.rows[id], s.log[id]);
  }

  /** The same rows, and logs that gained at most one note each. */
  ghost predicate AddsNotes(s: Store, t: Store) {
    && t.rows == s.rows && t.removed == s.removed && t.nextId == s.nextId && t.log.Keys == s.log.Keys
    && forall id :: id in s.log ==> t.log[id] == s.log[id] || GainsNote(s.log[id], t.log[id])
  }

  ghost predicate GainsNote(before: seq<Event>, after: seq<Event>) {
    |after| == |before| + 1 && after[..|before|] == before && IsNote(after[|before|].kind)
  }

  lemma NoteKeepsRow(row: Row, before: seq<Event>, after: seq<Event>)
    requires RowOk(row, before) && GainsNote(before, after)
    ensures RowOk(row, after)
  {
    var e := after[|before|];
    assert after == before + [e];
    ReplayAppend(before, e);
    FirstAppend(row, before, row, e);
  }

  lemma NotesKeepInv(s: Store, t: Store)
    requires Inv(s) && AddsNotes(s, t)
    ensures Inv(t)
  {
    forall id | id in t.rows ensures RowOk(t.rows[id], t.log[id]) {
      assert RowOk(s.rows[id], s.log[id]);
      if t.log[id] != s.log[id] { NoteKeepsRow(s.rows[id], s.log[id], t.log[id]); }
    }
    assert forall key, a :: IsOpen(t, key, a) <==> IsOpen(s, key, a);
  }

  lemma PausingAddsNotes(s: Store, instance: int, pause: bool, now: int)
    requires RowsOk(s)
    ensures AddsNotes(s, Paused(s, instance, pause, now))
  {
    var t := Paused(s, instance, pause, now);
    forall id | id in s.log ensures t.log[id] == s.log[id] || GainsNote(s.log[id], t.log[id]) {
      if t.log[id] != s.log[id] { AppendGainsNote(s.log[id], Noting(s.rows[id], if pause then Frozen else Unfrozen, now)); }
    }
  }

  lemma NotingAddsNotes(s: Store, id: RowId, kind: EventKind, now: int)
    requires RowsOk(s) && id in s.rows && IsNote(kind)
    ensures AddsNotes(s, Noted(s, id, kind, now))
  {
    AppendGainsNote(s.log[id], Noting(s.rows[id], kind, now));
  }

  lemma AppendGainsNote(events: seq<Event>, e: Event)
    requires IsNote(e.kind)
    ensures GainsNote(events, events + [e])
  {}

  // ----- runs

  /** `Note` is a disposition or the outcome of a notification; one that the evaluator writes in its own
      transaction comes right after the evaluation. */
  datatype Action =
    | Evaluate(key: Key, candidate: Option<RowId>, version: int, outcome: Evaluation, now: int)
    | Remove(instance: int, at: int)
    | Retain(cutoff: int)
    | Pause(instance: int, pause: bool, at: int)
    | Note(id: RowId, kind: EventKind, at: int)

  /** The rule versions ever stored: a version's content never changes. */
  type Rules = (int, int) -> Rule

  /** A removed or paused instance is not evaluated, and a resolved alert cannot be disposed of. */
  ghost predicate Enabled(s: Store, a: Action) {
    match a
    case Evaluate(key, c, _, outcome, _) =>
      key.instance !in s.removed && key.instance !in s.paused && IsCandidate(s, key, c) && !outcome.MissingIgnored?
    case Note(id, kind, _) =>
      id in s.rows && (IsDelivery(kind) || ((kind.Acked? || kind.Ignored?) && !s.rows[id].status.RECOVERED?))
    case _ => true
  }

  ghost function Apply(s: Store, a: Action, rules: Rules): Store
    requires Enabled(s, a)
  {
    match a
    case Evaluate(key, c, version, outcome, now) =>
      var t := Evaluated(s, key, c, version, rules(key.rule, version), outcome, now);
      if t.Some? then t.value else s
    case Remove(instance, now) => Removed(s, instance, now)
    case Retain(cutoff) => Purge(s, cutoff)
    case Pause(instance, pause, now) => Paused(s, instance, pause, now)
    case Note(id, kind, now) => Noted(s, id, kind, now)
  }

  /** A run: every action is possible in the store the earlier ones left. */
  ghost predicate IsRun(actions: seq<Action>, rules: Rules)
    decreases |actions|, 0
  {
    actions == [] ||
    (IsRun(actions[..|actions| - 1], rules)
     && Enabled(Final(actions[..|actions| - 1], rules), actions[|actions| - 1]))
  }

  ghost function Final(actions: seq<Action>, rules: Rules): Store
    requires IsRun(actions, rules)
    decreases |actions|, 1
  {
    if actions == [] then EmptyStore
    else Apply(Final(actions[..|actions| - 1], rules), actions[|actions| - 1], rules)
  }

  lemma ApplyKeepsInv(s: Store, a: Action, rules: Rules)
    requires Inv(s) && Enabled(s, a)
    ensures Inv(Apply(s, a, rules))
  {
    match a
    case Evaluate(key, c, version, outcome, now) =>
      EvaluationKeepsInv(s, key, c, version, rules(key.rule, version), outcome, now);
    case Remove(instance, now) => RemovalKeepsInv(s, instance, now);
    case Retain(cutoff) => PurgeKeepsInv(s, cutoff);
    case Pause(instance, pause, now) =>
      PausingAddsNotes(s, instance, pause, now);
      NotesKeepInv(s, Paused(s, instance, pause, now));
    case Note(id, kind, now) =>
      NotingAddsNotes(s, id, kind, now);
      NotesKeepInv(s, Noted(s, id, kind, now));
  }

  /** In every reachable store each (rule, instance, dimension) has at most one unresolved row,
      `recovered_at` is set exactly on resolved rows, and each row's columns agree with its log. */
  lemma {:induction false} RunKeepsInv(actions: seq<Action>, rules: Rules)
    requires IsRun(actions, rules)
    ensures Inv(Final(actions, rules))
  {
    if actions != [] {
      var earlier := actions[..|actions| - 1];
      RunKeepsInv(earlier, rules);
      ApplyKeepsInv(Final(earlier, rules), actions[|actions| - 1], rules);
    }
  }

  // ----- resolved rows are final

  /** A resolved row's log after more has happened: only notes of notifications were added. */
  ghost predicate OnlyDelivery(before: seq<Event>, after: seq<Event>) {
    before <= after && forall i :: |before| <= i < |after| ==> IsDelivery(after[i].kind)
  }

  ghost predicate KeepsResolved(s: Store, t: Store) {
    && s.nextId <= t.nextId
    && (forall id :: id in t.rows && id < s.nextId ==> id in s.rows)
    && (forall id :: id in s.rows && id in t.rows && id in s.log && id in t.log && s.rows[id].status.RECOVERED?
                     ==> t.rows[id] == s.rows[id] && OnlyDelivery(s.log[id], t.log[id]))
  }

  lemma PutKeepsResolved(s: Store, id: RowId, row: Row, events: seq<Event>)
    requires Inv(s) && MayPut(s, id, row)
    ensures KeepsResolved(s, Put(s, id, row, events))
  {}

  lemma EvaluationKeepsResolved(s: Store, key: Key, c: Option<RowId>, version: int, rule: Rule, outcome: Evaluation, now: int)
    requires Inv(s) && key.instance !in s.removed && IsCandidate(s, key, c) && !outcome.MissingIgnored?
    ensures Evaluated(s, key, c, version, rule, outcome, now).Some?
    ensures KeepsResolved(s, Evaluated(s, key, c, version, rule, outcome, now).value)
  {
    EvaluationWrites(s, key, c, version, rule, outcome, now);
    var change := ChangeOf(s, key, c, version, rule, outcome, now);
    if change.Change? { PutKeepsResolved(s, change.id, change.row, change.events); }
  }

  lemma RemovalKeepsResolved(s: Store, instance: int, now: int)
    requires Inv(s)
    ensures KeepsResolved(s, Removed(s, instance, now))
  {}

  lemma PurgeKeepsResolved(s: Store, cutoff: int)
    ensures KeepsResolved(s, Purge(s, cutoff))
  {}

  lemma PausingKeepsResolved(s: Store, instance: int, pause: bool, now: int)
    ensures KeepsResolved(s, Paused(s, instance, pause, now))
  {}

  lemma NotingKeepsResolved(s: Store, id: RowId, kind: EventKind, now: int)
    requires RowsOk(s) && id in s.rows && (IsDelivery(kind) || !s.rows[id].status.RECOVERED?)
    ensures KeepsResolved(s, Noted(s, id, kind, now))
  {}

  lemma ApplyKeepsResolved(s: Store, a: Action, rules: Rules)
    requires Inv(s) && Enabled(s, a)
    ensures KeepsResolved(s, Apply(s, a, rules))
  {
    match a
    case Evaluate(key, c, version, outcome, now) =>
      EvaluationKeepsResolved(s, key, c, version, rules(key.rule, version), outcome, now);
    case Remove(instance, now) => RemovalKeepsResolved(s, instance, now);
    case Retain(cutoff) => PurgeKeepsResolved(s, cutoff);
    case Pause(instance, pause, now) => PausingKeepsResolved(s, instance, pause, now);
    case Note(id, kind, now) => NotingKeepsResolved(s, id, kind, now);
  }

  lemma KeepsResolvedOnward(s: Store, t: Store, u: Store)
    requires KeepsResolved(s, t) && KeepsResolved(t, u) && Inv(s) && Inv(t) && Inv(u)
    ensures KeepsResolved(s, u)
  {
    forall id | id in s.rows && id in u.rows && s.rows[id].status.RECOVERED?
      ensures u.rows[id] == s.rows[id] && OnlyDelivery(s.log[id], u.log[id])
    {
      assert id < s.nextId && id in t.rows;
      assert OnlyDelivery(s.log[id], t.log[id]) && OnlyDelivery(t.log[id], u.log[id]);
    }
  }

  lemma NothingChanged(s: Store)
    ensures KeepsResolved(s, s)
  {}

  lemma OneMoreKeepsResolved(s: Store, t: Store, a: Action, rules: Rules)
    requires Inv(s) && Inv(t) && Enabled(t, a) && KeepsResolved(s, t)
    ensures KeepsResolved(s, Apply(t, a, rules))
  {
    ApplyKeepsInv(t, a, rules);
    ApplyKeepsResolved(t, a, rules);
    KeepsResolvedOnward(s, t, Apply(t, a, rules));
  }

  /** From the store after the first i actions to the one after all of them. */
  lemma {:induction false} ResolvedFrom(all: seq<Action>, i: nat, s: Store, t: Store, rules: Rules)
    requires IsRun(all, rules) && i <= |all| && IsRun(all[..i], rules) && s == Final(all[..i], rules) && t == Final(all, rules)
    ensures KeepsResolved(s, t)
  {
    if i == |all| {
      assert all[..i] == all;
      NothingChanged(s);
    } else {
      var front := all[..|all| - 1];
      assert front[..i] == all[..i];
      ResolvedFrom(front, i, s, Final(front, rules), rules);
      RunKeepsInv(all[..i], rules);
      RunKeepsInv(front, rules);
      OneMoreKeepsResolved(s, Final(front, rules), all[|all| - 1], rules);
    }
  }

  /** Once a row is resolved none of its columns changes again and its log gains only the notes of
      notifications; it can only be deleted, and its id never comes back. */
  lemma ResolvedRowsNeverChange(actions: seq<Action>, more: seq<Action>, rules: Rules)
    requires IsRun(actions, rules) && IsRun(actions + more, rules)
    ensures KeepsResolved(Final(actions, rules), Final(actions + more, rules))
  {
    assert (actions + more)[..|actions|] == actions;
    ResolvedFrom(actions + more, |actions|, Final(actions, rules), Final(actions + more, rules), rules);
  }

  // ----- what the grammar says about a row's events

  /** The log without its notes. */
  function Lifecycle(events: seq<Event>): seq<Event> {
    if events == [] then []
    else
      var n := |events| - 1;
      Lifecycle(events[..n]) + (if IsNote(events[n].kind) then [] else [events[n]])
  }

  ghost predicate NoNotes(events: seq<Event>) { forall i :: 0 <= i < |events| ==> !IsNote(events[i].kind) }

  /** Notes do not move the grammar. */
  lemma {:induction false} NotesDoNotMatter(events: seq<Event>)
    ensures NoNotes(Lifecycle(events)) && Replay(Lifecycle(events)) == Replay(events)
    ensures forall e :: e in Lifecycle(events) ==> e in events
  {
    if events != [] {
      var n := |events| - 1;
      NotesDoNotMatter(events[..n]);
      if IsNote(events[n].kind) {
        assert Lifecycle(events) == Lifecycle(events[..n]);
      } else {
        ReplayAppend(Lifecycle(events[..n]), events[n]);
      }
    }
  }

  /** FIRED at most once, and nothing pending after it. */
  ghost predicate FiresOnce(events: seq<Event>) {
    forall i, j :: 0 <= i < j < |events| && events[i].kind.Fired? ==>
      !events[j].kind.Fired? && !events[j].kind.PendingStarted?
  }

  /** RECOVERED and the removal only as the last event, RECOVERED only after FIRED. */
  ghost predicate ClosesLast(events: seq<Event>) {
    && (forall i :: 0 <= i < |events| && (events[i].kind.Recovery? || events[i].kind.InstanceRemoved?) ==> i == |events| - 1)
    && (forall i :: 0 <= i < |events| && events[i].kind.Recovery? ==> exists j :: 0 <= j < i && events[j].kind.Fired?)
  }

  /** Nothing but the removal between entering and leaving NO_DATA. */
  ghost predicate GapsPaired(events: seq<Event>) {
    && (forall i :: 0 <= i < |events| && events[i].kind.NoDataExited? ==> i > 0 && events[i - 1].kind.NoDataEntered?)
    && (forall i :: 0 <= i < |events| - 1 && events[i].kind.NoDataEntered? ==>
          events[i + 1].kind.NoDataExited? || events[i + 1].kind.InstanceRemoved?)
  }

  /** The event words a row can have. */
  ghost predicate Grammatical(events: seq<Event>) { FiresOnce(events) && ClosesLast(events) && GapsPaired(events) }

  ghost predicate HasFired(events: seq<Event>) { exists j :: 0 <= j < |events| && events[j].kind.Fired? }

  lemma {:induction false} FiringMeansFired(events: seq<Event>)
    requires Replay(events).Firing? || Replay(events).FiringNoData?
    ensures HasFired(events)
  {
    if events[|events| - 1].kind.Fired? {
      assert events[|events| - 1].kind.Fired?;
    } else {
      var earlier := events[..|events| - 1];
      FiringMeansFired(earlier);
      var j :| 0 <= j < |earlier| && earlier[j].kind.Fired?;
      assert events[j].kind.Fired?;
    }
  }

  lemma NoDataEndsWithEntered(events: seq<Event>)
    requires NoNotes(events)
    requires Replay(events).QuietNoData? || Replay(events).FiringNoData?
    ensures events != [] && events[|events| - 1].kind.NoDataEntered?
  {}

  lemma OpenEnds(events: seq<Event>)
    requires NoNotes(events)
    requires events != [] && (Replay(events).Quiet? || Replay(events).Firing?)
    ensures !events[|events| - 1].kind.NoDataEntered?
  {}

  lemma {:induction false} AcceptedFiresOnce(events: seq<Event>)
    requires !Replay(events).Broken?
    ensures FiresOnce(events)
  {
    if events != [] {
      var earlier := events[..|events| - 1];
      AcceptedFiresOnce(earlier);
      assert forall i :: 0 <= i < |earlier| ==> events[i] == earlier[i];
      var kind := events[|events| - 1].kind;
      if kind.Fired? || kind.PendingStarted? { QuietMeansUnfired(earlier); }
    }
  }

  lemma {:induction false} AcceptedClosesLast(events: seq<Event>)
    requires NoNotes(events)
    requires !Replay(events).Broken?
    ensures ClosesLast(events)
  {
    if events != [] {
      var earlier := events[..|events| - 1];
      AcceptedClosesLast(earlier);
      assert forall i :: 0 <= i < |earlier| ==> events[i] == earlier[i];
      NotClosed(earlier);
      if events[|events| - 1].kind.Recovery? { FiringMeansFired(earlier); }
    }
  }

  lemma {:induction false} AcceptedGapsPaired(events: seq<Event>)
    requires NoNotes(events)
    requires !Replay(events).Broken?
    ensures GapsPaired(events)
  {
    if events != [] {
      var earlier := events[..|events| - 1];
      AcceptedGapsPaired(earlier);
      assert forall i :: 0 <= i < |earlier| ==> events[i] == earlier[i];
      var p := Replay(earlier);
      if p.QuietNoData? || p.FiringNoData? { NoDataEndsWithEntered(earlier); }
      if earlier != [] && (p.Quiet? || p.Firing?) { OpenEnds(earlier); }
    }
  }

  /** Accepted words are grammatical. */
  lemma AcceptedIsGrammatical(events: seq<Event>)
    requires NoNotes(events) && !Replay(events).Broken?
    ensures Grammatical(events)
  {
    AcceptedFiresOnce(events);
    AcceptedClosesLast(events);
    AcceptedGapsPaired(events);
  }

  lemma NotClosed(events: seq<Event>)
    requires NoNotes(events)
    requires ClosesLast(events) && !Replay(events).Broken? && !Replay(events).Resolved? && !Replay(events).Dropped?
    ensures forall i :: 0 <= i < |events| ==> !events[i].kind.Recovery? && !events[i].kind.InstanceRemoved?
  {
    if events != [] {
      var last := events[|events| - 1];
      assert !last.kind.Recovery? && !last.kind.InstanceRemoved?;
    }
  }

  /** The word is grammatical, and its last event decides whether the row is resolved or in NO_DATA. */
  ghost predicate TellsStory(row: Row, word: seq<Event>) {
    && Grammatical(word)
    && (row.recoveredAt.Some? <==> row.status.RECOVERED?)
    && (row.status.RECOVERED? <==>
          word != [] && (word[|word| - 1].kind.Recovery? || word[|word| - 1].kind.InstanceRemoved?))
    && (row.status.NO_DATA? <==> word != [] && word[|word| - 1].kind.NoDataEntered?)
    && (row.status.RECOVERED? ==> row.recoveredAt == Some(word[|word| - 1].at))
  }

  /** Every row of every reachable store, its life-cycle events being its log without the notes: they are
      grammatical, at most one is FIRED and it is the row's first-triggered time and version, the row
      is resolved exactly when they end in RECOVERED or in the instance's removal, with `recovered_at`
      set exactly then, and in NO_DATA exactly when they end in entering it. */
  lemma EveryRowTellsItsStory(actions: seq<Action>, rules: Rules, id: RowId)
    requires IsRun(actions, rules) && id in Final(actions, rules).rows
    ensures id in Final(actions, rules).log
    ensures
      var row, events := Final(actions, rules).rows[id], Final(actions, rules).log[id];
      TellsStory(row, Lifecycle(events)) && FirstRecorded(row, events)
  {
    RunKeepsInv(actions, rules);
    RowTellsItsStory(Final(actions, rules).rows[id], Final(actions, rules).log[id]);
  }

  lemma RowTellsItsStory(row: Row, events: seq<Event>)
    requires RowOk(row, events)
    ensures TellsStory(row, Lifecycle(events))
  {
    NotesDoNotMatter(events);
    var word := Lifecycle(events);
    forall i | 0 <= i < |word| && Closes(word[i].kind) ensures row.recoveredAt == Some(word[i].at) {
      assert word[i] in events;
    }
    WordTellsStory(row, word);
  }

  lemma WordTellsStory(row: Row, word: seq<Event>)
    requires NoNotes(word) && ColumnsOk(row) && InPhase(row, Replay(word)) && EndRecorded(row, word)
    ensures TellsStory(row, word)
  {
    AcceptedIsGrammatical(word);
    LastEventDecides(word);
  }

  lemma LastEventDecides(events: seq<Event>)
    requires NoNotes(events)
    requires !Replay(events).Broken?
    ensures (Replay(events).Resolved? || Replay(events).Dropped?) <==>
            (events != [] && (events[|events| - 1].kind.Recovery? || events[|events| - 1].kind.InstanceRemoved?))
    ensures (Replay(events).QuietNoData? || Replay(events).FiringNoData?) <==>
            (events != [] && events[|events| - 1].kind.NoDataEntered?)
  {}
}
