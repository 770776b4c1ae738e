/** The stored rows of a key follow the single-key machine of AlertState on every run, so its
    history specification holds of the tables: which evaluation writes FIRED and which RECOVERED
    is decided by the observations alone. */
module AlertLifecycle {
  import opened Basics
  import opened AlertState
  import opened AlertStore

  function KeyRules(rules: Rules, rule: int): int -> Params {
    v => ParamsOf(rules(rule, v))
  }

  ghost predicate HasRow(s: Store, key: Key) {
    exists id :: id in s.rows && s.rows[id].key == key
  }

  ghost function SlotOf(s: Store, key: Key): Slot {
    var open := OpenRow(s, key);
    if open.Some? then Open(s.rows[open.value].version, SnapshotOf(s.rows[open.value]))
    else if HasRow(s, key) then Closed
    else Empty
  }

  function Effective(outcome: Evaluation, rule: Rule): Evaluation {
    if outcome.Missing? && rule.ignoreMissing then MissingIgnored else outcome
  }

  /** What a key sees of an action. */
  ghost function Seen(s: Store, a: Action, key: Key, rules: Rules): seq<Input>
    requires Enabled(s, a)
  {
    match a
    case Evaluate(k, _, version, outcome, _) =>
      if k == key then [Observe(version, Effective(outcome, rules(key.rule, version)))] else []
    case Retain(cutoff) =>
      if SlotOf(s, key).Closed? && SlotOf(Purge(s, cutoff), key).Empty? then [Purged] else []
    case _ => []
  }

  ghost function History(actions: seq<Action>, key: Key, rules: Rules): seq<Input>
    requires IsRun(actions, rules)
  {
    if actions == [] then []
    else
      var earlier := actions[..|actions| - 1];
      History(earlier, key, rules) + Seen(Final(earlier, rules), actions[|actions| - 1], key, rules)
  }

  // ----- one action

  lemma SlotAfterPut(s: Store, id: RowId, row: Row, events: seq<Event>)
    requires Inv(s) && MayPut(s, id, row)
    ensures
      var t := Put(s, id, row, events);
      && SlotOf(t, row.key) == Stored(row.version, SnapshotOf(row))
      && forall key :: key != row.key ==> SlotOf(t, key) == SlotOf(s, key)
  {
    var t := Put(s, id, row, events);
    assert t.rows[id].key == row.key;
    assert forall j :: j != id ==> (IsOpen(t, row.key, j) <==> IsOpen(s, row.key, j));
    assert row.status.RECOVERED? <==> !IsOpen(t, row.key, id);
    forall key | key != row.key ensures SlotOf(t, key) == SlotOf(s, key) {
      SameRowsSameSlot(s, t, key);
    }
  }

  ghost predicate SameRows(s: Store, t: Store, key: Key) {
    && (forall j :: j in s.rows && s.rows[j].key == key ==> j in t.rows && t.rows[j] == s.rows[j])
    && (forall j :: j in t.rows && t.rows[j].key == key ==> j in s.rows && t.rows[j] == s.rows[j])
  }

  lemma SameRowsSameSlot(s: Store, t: Store, key: Key)
    requires OneOpenRow(s) && SameRows(s, t, key)
    ensures SlotOf(t, key) == SlotOf(s, key)
  {
    assert forall j :: IsOpen(t, key, j) <==> IsOpen(s, key, j);
    if HasRow(s, key) {
      var j :| j in s.rows && s.rows[j].key == key;
      assert j in t.rows && t.rows[j].key == key;
    }
    if HasRow(t, key) {
      var j :| j in t.rows && t.rows[j].key == key;
      assert j in s.rows && s.rows[j].key == key;
    }
  }

  lemma SlotOfCandidate(s: Store, key: Key, c: Option<RowId>)
    requires Inv(s) && IsCandidate(s, key, c)
    ensures SlotOf(s, key) == (
              if c.None? then Empty
              else if s.rows[c.value].status.RECOVERED? then Closed
              else Open(s.rows[c.value].version, SnapshotOf(s.rows[c.value])))
  {
    CandidateIsTheOpenRow(s, key, c);
  }

  /** Loading a resolved row and loading "resolved" lead to the same step on a breach. */
  lemma ResolvedCountersDoNotMatter(snap: Snapshot, p: Params)
    requires snap.state.RECOVERED? && snap.beforeNoData.Unset? && snap.breachCount == 0
    ensures Next(snap, Breaching, p) == Next(Initial.(state := RECOVERED), Breaching, p)
  {}

  /** The evaluation does to the key's slot what the single-key machine does, and leaves other slots alone. */
  ghost predicate Simulates(s: Store, key: Key, c: Option<RowId>, version: int, outcome: Evaluation, now: int, rules: Rules)
    requires IsCandidate(s, key, c)
  {
    var rule := rules(key.rule, version);
    var t := Evaluated(s, key, c, version, rule, outcome, now);
    && t.Some?
    && SlotOf(t.value, key) == Advance(SlotOf(s, key), Observe(version, Effective(outcome, rule)), KeyRules(rules, key.rule))
    && forall k :: k != key ==> SlotOf(t.value, k) == SlotOf(s, k)
  }

  lemma OpenRowAdvances(row: Row, version: int, outcome: Evaluation, rule: Rule, now: int, rules: int -> Params)
    requires !row.status.RECOVERED? && rules(version) == ParamsOf(rule) && !outcome.MissingIgnored?
    ensures
      var current := if row.version == version then SnapshotOf(row) else Cleared(SnapshotOf(row));
      var after := if outcome.Missing? && rule.ignoreMissing then ResetRow(row, version, now)
                   else Rewritten(row, version, current, Next(current, outcome, ParamsOf(rule)), now);
      Advance(Open(row.version, SnapshotOf(row)), Observe(version, Effective(outcome, rule)), rules)
      == Stored(after.version, SnapshotOf(after))
  {}

  /** What is written for a key is what the single-key machine stores, and nothing is written exactly
      when it would not move. */
  lemma ChangeAdvances(s: Store, key: Key, c: Option<RowId>, version: int, outcome: Evaluation, now: int, rules: Rules)
    requires Inv(s) && key.instance !in s.removed && IsCandidate(s, key, c) && !outcome.MissingIgnored?
    ensures
      var rule := rules(key.rule, version);
      var change := ChangeOf(s, key, c, version, rule, outcome, now);
      var slot := SlotOf(s, key);
      Advance(slot, Observe(version, Effective(outcome, rule)), KeyRules(rules, key.rule))
      == (if change.Nothing? then slot else Stored(change.row.version, SnapshotOf(change.row)))
  {
    SlotOfCandidate(s, key, c);
    var rule := rules(key.rule, version);
    if c.Some? {
      var row := s.rows[c.value];
      assert RowOk(row, s.log[c.value]);
      if row.status.RECOVERED? {
        ResolvedCountersDoNotMatter(LoadRow(s, c, version), ParamsOf(rule));
      } else {
        OpenRowAdvances(row, version, outcome, rule, now, KeyRules(rules, key.rule));
      }
    }
  }

  lemma EvaluationSimulates(s: Store, key: Key, c: Option<RowId>, version: int, outcome: Evaluation, now: int, rules: Rules)
    requires Inv(s) && key.instance !in s.removed && IsCandidate(s, key, c) && !outcome.MissingIgnored?
    ensures Simulates(s, key, c, version, outcome, now, rules)
  {
    var rule := rules(key.rule, version);
    EvaluationWrites(s, key, c, version, rule, outcome, now);
    ChangeAdvances(s, key, c, version, outcome, now, rules);
    var change := ChangeOf(s, key, c, version, rule, outcome, now);
    if change.Change? { SlotAfterPut(s, change.id, change.row, change.events); }
  }

  lemma RemovalElsewhere(s: Store, instance: int, now: int, key: Key)
    requires OneOpenRow(s) && key.instance != instance
    ensures SlotOf(Removed(s, instance, now), key) == SlotOf(s, key)
  {
    SameRowsSameSlot(s, Removed(s, instance, now), key);
  }

  lemma PurgeSlot(s: Store, cutoff: int, key: Key)
    requires Inv(s)
    ensures
      var before, after := SlotOf(s, key), SlotOf(Purge(s, cutoff), key);
      after == before || (before.Closed? && after.Empty?)
  {
    var t := Purge(s, cutoff);
    assert forall id :: id in s.rows && !s.rows[id].status.RECOVERED? ==> id in t.rows;
    assert forall id :: IsOpen(t, key, id) <==> IsOpen(s, key, id);
    if HasRow(t, key) {
      var j :| j in t.rows && t.rows[j].key == key;
      assert s.rows[j].key == key;
    }
  }

  lemma ActionSimulates(s: Store, a: Action, key: Key, rules: Rules)
    requires Inv(s) && Enabled(s, a) && key.instance !in Apply(s, a, rules).removed
    ensures key.instance !in s.removed
    ensures
      var seen := Seen(s, a, key, rules);
      && |seen| <= 1
      && SlotOf(Apply(s, a, rules), key)
         == (if seen == [] then SlotOf(s, key) else Advance(SlotOf(s, key), seen[0], KeyRules(rules, key.rule)))
  {
    match a
    case Evaluate(k, c, version, outcome, now) =>
      EvaluationSimulates(s, k, c, version, outcome, now, rules);
    case Remove(instance, now) => RemovalElsewhere(s, instance, now, key);
    case Retain(cutoff) => PurgeSlot(s, cutoff, key);
    case Pause(instance, pause, now) => SameRowsSameSlot(s, Paused(s, instance, pause, now), key);
    case Note(id, kind, now) => SameRowsSameSlot(s, Noted(s, id, kind, now), key);
  }

  // ----- every run

  /** On every run, what is stored for a live key is what its own observations determine. */
  lemma {:induction false} StoreFollowsHistory(actions: seq<Action>, key: Key, rules: Rules)
    requires IsRun(actions, rules) && key.instance !in Final(actions, rules).removed
    ensures SlotOf(Final(actions, rules), key) == After(History(actions, key, rules), KeyRules(rules, key.rule))
  {
    if actions != [] {
      var earlier, a := actions[..|actions| - 1], actions[|actions| - 1];
      var s := Final(earlier, rules);
      RunKeepsInv(earlier, rules);
      ActionSimulates(s, a, key, rules);
      StoreFollowsHistory(earlier, key, rules);
      var h := History(earlier, key, rules);
      var seen := Seen(s, a, key, rules);
      if seen == [] {
        assert h + seen == h;
      } else {
        assert h + seen == h + [seen[0]];
        AfterStep(h, seen[0], KeyRules(rules, key.rule));
      }
    }
  }

  // ----- the log

  /** Which change of the slot's state calls for an event of a kind. */
  predicate Calls(kind: EventKind, before: State, after: State, hasValue: bool) {
    match kind
    case PendingStarted => !before.PENDING? && !before.NO_DATA? && after.PENDING?
    case Fired => !before.FIRING? && !before.NO_DATA? && after.FIRING?
    case Updated => before.FIRING? && after.FIRING? && hasValue
    case Recovery => !before.RECOVERED? && after.RECOVERED?
    case NoDataEntered => !before.NO_DATA? && after.NO_DATA?
    case NoDataExited => before.NO_DATA? && !after.NO_DATA?
    case _ => false
  }

  /** The events an evaluation owes: one of each kind its transition calls for, saying what happened. */
  ghost predicate Owed(events: seq<Event>, before: State, after: State, hasValue: bool, version: int, now: int) {
    && (forall kind :: HasKind(events, kind) <==> Calls(kind, before, after, hasValue))
    && (forall i :: 0 <= i < |events| ==> events[i] == Event(events[i].kind, version, before, after, now))
    && |events| <= 1
  }

  ghost predicate HasKind(events: seq<Event>, kind: EventKind) { exists i :: 0 <= i < |events| && events[i].kind == kind }

  lemma KindIsTransition(current: Snapshot, outcome: Evaluation, p: Params)
    requires WellFormed(current) && !outcome.MissingIgnored?
    requires current.state.RECOVERED? ==> outcome.Breaching?
    ensures
      var next := Next(current, outcome, p);
      forall kind :: Kind(current.state, next.state, outcome) == Some(kind)
                     <==> Calls(kind, current.state, next.state, !outcome.Missing?)
  {}

  lemma EmittedIsOwed(current: Snapshot, outcome: Evaluation, p: Params, version: int, now: int)
    requires WellFormed(current) && !outcome.MissingIgnored?
    requires current.state.RECOVERED? ==> outcome.Breaching?
    ensures
      var next := Next(current, outcome, p);
      Owed(Emitted(current.state, next.state, outcome, version, now), current.state, next.state, !outcome.Missing?, version, now)
  {
    var next := Next(current, outcome, p);
    var kind := Kind(current.state, next.state, outcome);
    StepMovesPhase(current, outcome, p);
    EmittedShape(current.state, next.state, outcome, version, now);
    KindIsTransition(current, outcome, p);
    var events := Emitted(current.state, next.state, outcome, version, now);
    assert kind.Some? ==> events[0].kind == kind.value;
  }

  /** The events of a change are those its transition owes. */
  lemma ChangeIsOwed(s: Store, key: Key, c: Option<RowId>, version: int, rule: Rule, outcome: Evaluation, now: int)
    requires Inv(s) && key.instance !in s.removed && IsCandidate(s, key, c) && !outcome.MissingIgnored?
    ensures
      var change := ChangeOf(s, key, c, version, rule, outcome, now);
      change.Change? ==>
        Owed(change.events, StateOf(SlotOf(s, key)), change.row.status, !outcome.Missing?, version, now)
  {
    SlotOfCandidate(s, key, c);
    var current := LoadRow(s, c, version);
    assert c.Some? ==> RowOk(s.rows[c.value], s.log[c.value]);
    if current.state.RECOVERED? ==> outcome.Breaching? {
      EmittedIsOwed(current, outcome, ParamsOf(rule), version, now);
    }
  }

  /** Position i of a row's log is new. */
  ghost predicate IsNew(s: Store, t: Store, id: RowId, i: int) { id in t.log && |LogOf(s, id)| <= i < |t.log[id]| }

  /** Some row's log has gained an event of this kind. */
  ghost predicate Gained(s: Store, t: Store, kind: EventKind) {
    exists id, i :: IsNew(s, t, id, i) && t.log[id][i].kind == kind
  }

  /** The logs only grew, by an event of exactly the kinds the transition calls for, on a row of the key,
      saying what happened. */
  ghost predicate LogsTransition(s: Store, t: Store, a: Action)
    requires a.Evaluate?
  {
    var before, after := StateOf(SlotOf(s, a.key)), StateOf(SlotOf(t, a.key));
    && (forall kind :: Gained(s, t, kind) <==> Calls(kind, before, after, !a.outcome.Missing?))
    && (forall id :: id in s.log ==> id in t.log && s.log[id] <= t.log[id])
    && (forall id, i :: IsNew(s, t, id, i) ==>
          && id in t.rows && t.rows[id].key == a.key && i == |LogOf(s, id)|
          && t.log[id][i] == Event(t.log[id][i].kind, a.version, before, after, a.now))
  }

  lemma PutGains(s: Store, id: RowId, row: Row, events: seq<Event>, kind: EventKind)
    ensures Gained(s, Put(s, id, row, events), kind) <==> HasKind(events, kind)
  {
    var t := Put(s, id, row, events);
    assert t.log[id] == LogOf(s, id) + events;
    assert forall j :: j in t.log && j != id ==> |t.log[j]| == |LogOf(s, j)|;
    if i :| 0 <= i < |events| && events[i].kind == kind {
      assert IsNew(s, t, id, |LogOf(s, id)| + i) && t.log[id][|LogOf(s, id)| + i] == events[i];
    }
    if Gained(s, t, kind) {
      var j, i :| IsNew(s, t, j, i) && t.log[j][i].kind == kind;
      assert events[i - |LogOf(s, id)|].kind == kind;
    }
  }

  lemma PutLogs(s: Store, a: Action, id: RowId, row: Row, events: seq<Event>)
    requires a.Evaluate? && Inv(s) && row.key == a.key && MayPut(s, id, row)
    requires Owed(events, StateOf(SlotOf(s, a.key)), row.status, !a.outcome.Missing?, a.version, a.now)
    ensures LogsTransition(s, Put(s, id, row, events), a)
  {
    var t := Put(s, id, row, events);
    SlotAfterPut(s, id, row, events);
    forall kind ensures Gained(s, t, kind) <==> HasKind(events, kind) { PutGains(s, id, row, events, kind); }
    assert t.log[id] == LogOf(s, id) + events;
    forall j, i | IsNew(s, t, j, i) ensures j == id && i == |LogOf(s, id)| && t.log[j][i] == events[0] {}
  }

  /** An event of a kind is written exactly on the change of the slot's state that calls for it. */
  lemma GainedIsTransition(s: Store, a: Action, rules: Rules)
    requires Inv(s) && Enabled(s, a) && a.Evaluate?
    ensures LogsTransition(s, Apply(s, a, rules), a)
  {
    var rule := rules(a.key.rule, a.version);
    var change := ChangeOf(s, a.key, a.candidate, a.version, rule, a.outcome, a.now);
    EvaluationWrites(s, a.key, a.candidate, a.version, rule, a.outcome, a.now);
    if change.Change? {
      ChangeIsOwed(s, a.key, a.candidate, a.version, rule, a.outcome, a.now);
      PutLogs(s, a, change.id, change.row, change.events);
    } else {
      NothingGained(s, a, rules);
    }
  }

  lemma NothingGained(s: Store, a: Action, rules: Rules)
    requires Inv(s) && Enabled(s, a) && a.Evaluate?
    requires ChangeOf(s, a.key, a.candidate, a.version, rules(a.key.rule, a.version), a.outcome, a.now).Nothing?
    ensures LogsTransition(s, s, a)
  {
    SlotOfCandidate(s, a.key, a.candidate);
  }

  /** When one more observation calls for an event of a kind, told by the observations: FIRED when the
      trailing breaches under its version have just reached the trigger count, RECOVERED when a firing
      alert's trailing recoveries have just reached the recovery count, UPDATED on any other data point
      of a firing alert, NO_DATA_ENTERED on the second gap, NO_DATA_EXITED on the data point that ends
      the stretch, PENDING_STARTED on a breach that neither fires nor follows one. */
  predicate Due(kind: EventKind, earlier: seq<Input>, v: int, e: Evaluation, rules: int -> Params) {
    var history := earlier + [Observe(v, e)];
    var fires, silent := Fires(earlier, rules), Silent(earlier, rules);
    match kind
    case Fired => !fires && !silent && Trailing(history, v, Breaching, rules) == AtLeastOne(rules(v).triggerCount)
    case Recovery => fires && !silent && Trailing(history, v, Recovering, rules) == AtLeastOne(rules(v).recoveryCount)
    case Updated =>
      fires && !silent && IsData(e) && Trailing(history, v, Recovering, rules) < AtLeastOne(rules(v).recoveryCount)
    case NoDataEntered => !silent && Gaps(history, v, rules) == 2
    case NoDataExited => silent && IsData(e)
    case PendingStarted =>
      && !fires && !silent && e.Breaching? && !Breached(earlier, rules)
      && Trailing(history, v, Breaching, rules) < AtLeastOne(rules(v).triggerCount)
    case _ => false
  }

  lemma CallsAreDue(kind: EventKind, earlier: seq<Input>, v: int, e: Evaluation, rules: int -> Params)
    ensures
      var before, after := StateOf(After(earlier, rules)), StateOf(After(earlier + [Observe(v, e)], rules));
      Calls(kind, before, after, IsData(e)) <==> Due(kind, earlier, v, e, rules)
  {
    NextTold(earlier, v, e, rules);
    ObservedStep(earlier, v, e, rules);
    ObservedPredicates(earlier, v, e, rules);
  }

  /** The log against the history, on every run: an evaluation writes an event of a kind exactly when the
      key's observations make it due, on a row of the key, with the version, states and time of the
      evaluation, and nothing else. */
  lemma EventsFollowHistory(actions: seq<Action>, a: Action, rules: Rules)
    requires IsRun(actions, rules) && Enabled(Final(actions, rules), a) && a.Evaluate?
    ensures IsRun(actions + [a], rules)
    ensures
      var s, t := Final(actions, rules), Final(actions + [a], rules);
      var e := Effective(a.outcome, rules(a.key.rule, a.version));
      && LogsTransition(s, t, a)
      && forall kind :: Gained(s, t, kind)
                        <==> Due(kind, History(actions, a.key, rules), a.version, e, KeyRules(rules, a.key.rule))
  {
    var s := Final(actions, rules);
    var longer := actions + [a];
    assert longer[..|longer| - 1] == actions;
    RunKeepsInv(actions, rules);
    GainedIsTransition(s, a, rules);
    EvaluationSimulates(s, a.key, a.candidate, a.version, a.outcome, a.now, rules);
    StoreFollowsHistory(actions, a.key, rules);
    var h, e := History(actions, a.key, rules), Effective(a.outcome, rules(a.key.rule, a.version));
    AfterStep(h, Observe(a.version, e), KeyRules(rules, a.key.rule));
    forall kind ensures Gained(s, Final(longer, rules), kind) <==> Due(kind, h, a.version, e, KeyRules(rules, a.key.rule)) {
      CallsAreDue(kind, h, a.version, e, KeyRules(rules, a.key.rule));
    }
  }

  /** The times an evaluation leaves on the key's rows: a row it leaves unresolved was updated now, and a
      row it resolves was updated and resolved now. */
  lemma EvaluationStamps(s: Store, a: Action, rules: Rules)
    requires Inv(s) && Enabled(s, a) && a.Evaluate?
    ensures
      var t := Apply(s, a, rules);
      && (forall id :: IsOpen(t, a.key, id) ==> t.rows[id].updatedAt == a.now)
      && (forall id :: IsOpen(s, a.key, id) && !IsOpen(t, a.key, id) ==>
            id in t.rows && t.rows[id].updatedAt == a.now && t.rows[id].recoveredAt == Some(a.now))
  {
    var rule := rules(a.key.rule, a.version);
    EvaluationWrites(s, a.key, a.candidate, a.version, rule, a.outcome, a.now);
    CandidateIsTheOpenRow(s, a.key, a.candidate);
    var t := Apply(s, a, rules);
    var change := ChangeOf(s, a.key, a.candidate, a.version, rule, a.outcome, a.now);
    assert change.Change? ==> forall id :: id != change.id ==> (IsOpen(t, a.key, id) <==> IsOpen(s, a.key, id));
  }

  /** A disposition or a notification outcome leaves one event of its kind, on its row, saying where the
      row stands. */
  lemma NoteIsLogged(s: Store, id: RowId, kind: EventKind, now: int)
    requires Inv(s) && id in s.rows
    ensures
      var t, row := Noted(s, id, kind, now), s.rows[id];
      && (forall k :: Gained(s, t, k) <==> k == kind)
      && (forall j, i :: IsNew(s, t, j, i) ==>
            j == id && i == |s.log[id]| && t.log[id][i] == Event(kind, row.version, row.status, row.status, now))
  {
    var t := Noted(s, id, kind, now);
    assert IsNew(s, t, id, |s.log[id]|) && t.log[id][|s.log[id]|].kind == kind;
  }

  /** The unresolved rows of an instance. */
  predicate Unresolved(s: Store, instance: int, id: RowId) {
    id in s.rows && s.rows[id].key.instance == instance && !s.rows[id].status.RECOVERED?
  }

  /** Exactly these rows gained an event, one each, of this kind and leading to this state. */
  ghost predicate EachGained(s: Store, t: Store, instance: int, kind: EventKind, resolves: bool, now: int) {
    && (forall id :: Unresolved(s, instance, id) ==> IsNew(s, t, id, |LogOf(s, id)|))
    && (forall id, i :: IsNew(s, t, id, i) ==>
          && Unresolved(s, instance, id) && i == |LogOf(s, id)|
          && var row := s.rows[id];
             t.log[id][i] == Event(kind, row.version, row.status, if resolves then RECOVERED else row.status, now))
  }

  /** Removing an instance logs it on each of its unresolved alerts. */
  lemma RemovalIsLogged(s: Store, instance: int, now: int)
    requires Inv(s)
    ensures EachGained(s, Removed(s, instance, now), instance, InstanceRemoved, true, now)
  {}

  /** Pausing or resuming an instance that is not already so logs it on each of its unresolved alerts. */
  lemma PauseIsLogged(s: Store, instance: int, pause: bool, now: int)
    requires Inv(s)
    ensures
      var t := Paused(s, instance, pause, now);
      if (instance in s.paused) == pause then t == s
      else EachGained(s, t, instance, if pause then Frozen else Unfrozen, false, now)
  {}

  // ----- what every event says

  /** An event's states fit its kind: a life-cycle event is called for by the change it records, a removal
      resolves what was unresolved, and a note changes nothing. */
  predicate Fits(e: Event) {
    if e.kind.InstanceRemoved? then !e.fromState.RECOVERED? && e.toState.RECOVERED?
    else if IsNote(e.kind) then e.fromState == e.toState
    else Calls(e.kind, e.fromState, e.toState, true)
  }

  ghost predicate AllFit(s: Store) {
    forall id, i :: id in s.log && 0 <= i < |s.log[id]| ==> Fits(s.log[id][i])
  }

  lemma TransitionFits(s: Store, t: Store, a: Action)
    requires AllFit(s) && a.Evaluate? && LogsTransition(s, t, a)
    ensures AllFit(t)
  {
    forall id, i | id in t.log && 0 <= i < |t.log[id]| ensures Fits(t.log[id][i]) {
      if IsNew(s, t, id, i) {
        assert Gained(s, t, t.log[id][i].kind);
      } else {
        assert id in s.log && s.log[id] <= t.log[id];
      }
    }
  }

  lemma RemovalFits(s: Store, instance: int, now: int)
    requires Inv(s) && AllFit(s)
    ensures AllFit(Removed(s, instance, now))
  {
    var t := Removed(s, instance, now);
    forall id, i | id in t.log && 0 <= i < |t.log[id]| ensures Fits(t.log[id][i]) {
      if i < |s.log[id]| { assert t.log[id][i] == s.log[id][i]; }
    }
  }

  lemma PausingFits(s: Store, instance: int, pause: bool, now: int)
    requires Inv(s) && AllFit(s)
    ensures AllFit(Paused(s, instance, pause, now))
  {
    var t := Paused(s, instance, pause, now);
    forall id, i | id in t.log && 0 <= i < |t.log[id]| ensures Fits(t.log[id][i]) {
      if i < |s.log[id]| { assert t.log[id][i] == s.log[id][i]; }
    }
  }

  lemma NotingFits(s: Store, id: RowId, kind: EventKind, now: int)
    requires Inv(s) && AllFit(s) && id in s.rows && IsNote(kind)
    ensures AllFit(Noted(s, id, kind, now))
  {
    var t := Noted(s, id, kind, now);
    forall j, i | j in t.log && 0 <= i < |t.log[j]| ensures Fits(t.log[j][i]) {
      if i < |s.log[j]| { assert t.log[j][i] == s.log[j][i]; }
    }
  }

  /** On every run, every event in every log fits the change it records. */
  lemma {:induction false} EveryEventFits(actions: seq<Action>, rules: Rules)
    requires IsRun(actions, rules)
    ensures AllFit(Final(actions, rules))
  {
    if actions != [] {
      var earlier, a := actions[..|actions| - 1], actions[|actions| - 1];
      EveryEventFits(earlier, rules);
      RunKeepsInv(earlier, rules);
      var s := Final(earlier, rules);
      match a
      case Evaluate(_, _, _, _, _) =>
        GainedIsTransition(s, a, rules);
        TransitionFits(s, Final(actions, rules), a);
      case Remove(instance, now) => RemovalFits(s, instance, now);
      case Retain(_) =>
      case Pause(instance, pause, now) => PausingFits(s, instance, pause, now);
      case Note(id, kind, now) => NotingFits(s, id, kind, now);
    }
  }
}
