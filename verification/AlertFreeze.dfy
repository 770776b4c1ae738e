/** Pausing an instance freezes its alerts: what the FROZEN and UNFROZEN notes of a log say about the
    events around them. */
module AlertFreeze {
  import opened Basics
  import opened AlertState
  import opened AlertStore

  /** FROZEN notes less UNFROZEN notes. */
  function Balance(events: seq<Event>): int {
    if events == [] then 0
    else
      var n := |events| - 1;
      Balance(events[..n]) + (if events[n].kind.Frozen? then 1 else if events[n].kind.Unfrozen? then -1 else 0)
  }

  /** While frozen, the only life-cycle event is the instance's removal. */
  ghost predicate RestsWhileFrozen(events: seq<Event>, i: nat)
    requires i < |events|
  {
    Balance(events[..i]) == 1 && !IsNote(events[i].kind) ==> events[i].kind.InstanceRemoved?
  }

  /** FROZEN and UNFROZEN take turns, FROZEN first, and nothing happens in between. */
  ghost predicate FreezesOk(events: seq<Event>) {
    && (forall i :: 0 <= i <= |events| ==> 0 <= Balance(events[..i]) <= 1)
    && (forall i :: 0 <= i < |events| ==> RestsWhileFrozen(events, i))
  }

  lemma AppendOne(events: seq<Event>, e: Event)
    requires FreezesOk(events)
    requires e.kind.Frozen? ==> Balance(events) == 0
    requires e.kind.Unfrozen? ==> Balance(events) == 1
    requires !IsNote(e.kind) && !e.kind.InstanceRemoved? ==> Balance(events) == 0
    ensures FreezesOk(events + [e])
    ensures Balance(events + [e]) == (if e.kind.Frozen? then 1 else if e.kind.Unfrozen? then 0 else Balance(events))
  {
    var longer := events + [e];
    assert longer[..|events|] == events == events[..|events|] && longer[..|longer|] == longer;
    forall i | 0 <= i <= |longer| ensures 0 <= Balance(longer[..i]) <= 1 {
      if i <= |events| { assert longer[..i] == events[..i]; }
    }
    forall i | 0 <= i < |longer| ensures RestsWhileFrozen(longer, i) {
      if i < |events| {
        assert longer[..i] == events[..i] && longer[i] == events[i];
        assert RestsWhileFrozen(events, i);
      }
    }
  }

  lemma BalanceInRange(events: seq<Event>)
    requires FreezesOk(events)
    ensures 0 <= Balance(events) <= 1
  {
    assert events[..|events|] == events;
  }

  /** An unfrozen log may gain any life-cycle events. */
  lemma {:induction false} AppendLifecycle(events: seq<Event>, more: seq<Event>)
    requires FreezesOk(events) && Balance(events) == 0 && NoNotes(more)
    ensures FreezesOk(events + more) && Balance(events + more) == 0
  {
    if more == [] {
      assert events + more == events;
    } else {
      var n := |more| - 1;
      AppendLifecycle(events, more[..n]);
      assert events + more == events + more[..n] + [more[n]];
      AppendOne(events + more[..n], more[n]);
    }
  }

  /** Every log is in order, and an unresolved row is frozen exactly while its instance is paused. */
  ghost predicate RowFreezesOk(row: Row, events: seq<Event>, paused: set<int>) {
    FreezesOk(events) && (!row.status.RECOVERED? ==> (Balance(events) == 1 <==> row.key.instance in paused))
  }

  ghost predicate Frosty(s: Store) {
    forall id :: id in s.rows && id in s.log ==> RowFreezesOk(s.rows[id], s.log[id], s.paused)
  }

  lemma EmittedHasNoNotes(before: State, after: State, outcome: Evaluation, version: int, now: int)
    ensures NoNotes(Emitted(before, after, outcome, version, now))
  {
    var kinds := StateEvents(before, after);
    WrittenAreKinds(kinds, !outcome.Missing?);
    assert forall k :: k in kinds ==> !IsNote(k);
    var events := Emitted(before, after, outcome, version, now);
    forall i | 0 <= i < |events| ensures !IsNote(events[i].kind) {
      assert events[i].kind == Written(kinds, !outcome.Missing?)[i];
    }
  }

  lemma {:induction false} WrittenAreKinds(kinds: seq<EventKind>, hasValue: bool)
    ensures forall k :: k in Written(kinds, hasValue) ==> k in kinds
  {
    if kinds != [] { WrittenAreKinds(kinds[1..], hasValue); }
  }

  lemma ChangeHasNoNotes(s: Store, key: Key, c: Option<RowId>, version: int, rule: Rule, outcome: Evaluation, now: int)
    requires c.Some? ==> c.value in s.rows
    ensures
      var change := ChangeOf(s, key, c, version, rule, outcome, now);
      change.Change? ==> NoNotes(change.events)
  {
    var current := LoadRow(s, c, version);
    EmittedHasNoNotes(current.state, Next(current, outcome, ParamsOf(rule)).state, outcome, version, now);
  }

  lemma PutKeepsFrosty(s: Store, id: RowId, row: Row, events: seq<Event>)
    requires Inv(s) && Frosty(s) && MayPut(s, id, row) && row.key.instance !in s.paused && NoNotes(events)
    ensures Frosty(Put(s, id, row, events))
  {
    var t := Put(s, id, row, events);
    if id in s.rows {
      assert RowFreezesOk(s.rows[id], s.log[id], s.paused);
      BalanceInRange(s.log[id]);
    }
    AppendLifecycle(LogOf(s, id), events);
    forall j | j in t.rows && j in t.log ensures RowFreezesOk(t.rows[j], t.log[j], t.paused) {
      if j != id { assert RowFreezesOk(s.rows[j], s.log[j], s.paused); }
    }
  }

  lemma EvaluationKeepsFrosty(s: Store, key: Key, c: Option<RowId>, version: int, rule: Rule, outcome: Evaluation, now: int)
    requires Inv(s) && Frosty(s) && key.instance !in s.removed && key.instance !in s.paused
    requires IsCandidate(s, key, c) && !outcome.MissingIgnored?
    ensures Evaluated(s, key, c, version, rule, outcome, now).Some?
    ensures Frosty(Evaluated(s, key, c, version, rule, outcome, now).value)
  {
    EvaluationWrites(s, key, c, version, rule, outcome, now);
    ChangeHasNoNotes(s, key, c, version, rule, outcome, now);
    var change := ChangeOf(s, key, c, version, rule, outcome, now);
    if change.Change? { PutKeepsFrosty(s, change.id, change.row, change.events); }
  }

  lemma RemovalKeepsFrosty(s: Store, instance: int, now: int)
    requires Inv(s) && Frosty(s)
    ensures Frosty(Removed(s, instance, now))
  {
    var t := Removed(s, instance, now);
    forall id | id in t.rows && id in t.log ensures RowFreezesOk(t.rows[id], t.log[id], t.paused) {
      var row := s.rows[id];
      assert RowFreezesOk(row, s.log[id], s.paused);
      if row.key.instance == instance && !row.status.RECOVERED? {
        AppendOne(s.log[id], Event(InstanceRemoved, row.version, row.status, RECOVERED, now));
      }
    }
  }

  lemma PausingKeepsFrosty(s: Store, instance: int, pause: bool, now: int)
    requires Inv(s) && Frosty(s)
    ensures Frosty(Paused(s, instance, pause, now))
  {
    var t := Paused(s, instance, pause, now);
    forall id | id in t.rows && id in t.log ensures RowFreezesOk(t.rows[id], t.log[id], t.paused) {
      var row := s.rows[id];
      assert RowFreezesOk(row, s.log[id], s.paused);
      BalanceInRange(s.log[id]);
      if (instance in s.paused) != pause && row.key.instance == instance && !row.status.RECOVERED? {
        AppendOne(s.log[id], Noting(row, if pause then Frozen else Unfrozen, now));
      }
    }
  }

  lemma NotingKeepsFrosty(s: Store, id: RowId, kind: EventKind, now: int)
    requires Inv(s) && Frosty(s) && id in s.rows && (IsDelivery(kind) || kind.Acked? || kind.Ignored?)
    ensures Frosty(Noted(s, id, kind, now))
  {
    assert RowFreezesOk(s.rows[id], s.log[id], s.paused);
    AppendOne(s.log[id], Noting(s.rows[id], kind, now));
  }

  lemma {:induction false} RunKeepsFrosty(actions: seq<Action>, rules: Rules)
    requires IsRun(actions, rules)
    ensures Frosty(Final(actions, rules))
  {
    if actions != [] {
      var earlier := actions[..|actions| - 1];
      RunKeepsFrosty(earlier, rules);
      RunKeepsInv(earlier, rules);
      var s := Final(earlier, rules);
      match actions[|actions| - 1]
      case Evaluate(key, c, version, outcome, now) =>
        EvaluationKeepsFrosty(s, key, c, version, rules(key.rule, version), outcome, now);
      case Remove(instance, now) => RemovalKeepsFrosty(s, instance, now);
      case Retain(cutoff) =>
      case Pause(instance, pause, now) => PausingKeepsFrosty(s, instance, pause, now);
      case Note(id, kind, now) => NotingKeepsFrosty(s, id, kind, now);
    }
  }

  /** In every reachable store each log's FROZEN and UNFROZEN notes take turns, no life-cycle event but
      the instance's removal lies between them, and an unresolved alert is frozen exactly while its
      instance is paused. */
  lemma PausedAlertsAreFrozen(actions: seq<Action>, rules: Rules, id: RowId)
    requires IsRun(actions, rules) && id in Final(actions, rules).rows
    ensures id in Final(actions, rules).log
    ensures
      var s := Final(actions, rules);
      && (forall i :: 0 <= i <= |s.log[id]| ==> 0 <= Balance(s.log[id][..i]) <= 1)
      && (forall i :: 0 <= i < |s.log[id]| ==> RestsWhileFrozen(s.log[id], i))
      && (!s.rows[id].status.RECOVERED? ==> (Balance(s.log[id]) == 1 <==> s.rows[id].key.instance in s.paused))
  {
    RunKeepsFrosty(actions, rules);
    RunKeepsInv(actions, rules);
    assert RowFreezesOk(Final(actions, rules).rows[id], Final(actions, rules).log[id], Final(actions, rules).paused);
  }
}
