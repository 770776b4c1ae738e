/** The alert state machine of one (rule, instance, dimension): `Step`, and the life of the
    counters that are stored between evaluations and dropped when the rule version changes.

    The stored counters are checked against a specification over the whole history of
    observations: how many of the latest ones, under the version in force, agree. */
module AlertState {

  // Unset is the empty string the program uses for "no state".
  datatype State = Unset | OK | PENDING | FIRING | NO_DATA | RECOVERED

  datatype Evaluation = Breaching | Recovering | Stable | Missing | MissingIgnored

  datatype Snapshot = Snapshot(
    state: State, beforeNoData: State, breachCount: int, recoveryCount: int, noDataCount: int)

  datatype Params = Params(triggerCount: int, recoveryCount: int)

  const Initial := Snapshot(OK, Unset, 0, 0, 0)

  predicate IsData(e: Evaluation) { e.Breaching? || e.Recovering? || e.Stable? }

  // ----- one step

  /** The transition table: first what a data point or a gap does to NO_DATA, then one
      line per state. */
  function Next(s: Snapshot, e: Evaluation, p: Params): Snapshot {
    match e
    case MissingIgnored => Cleared(s)
    case Missing => if s.state.RECOVERED? then s else Gap(s)
    case _ =>
      if s.state.NO_DATA? then s.(state := s.beforeNoData, beforeNoData := Unset, noDataCount := 0)
      else Data(s.(noDataCount := 0), e, p)
  }

  function Cleared(s: Snapshot): Snapshot {
    s.(breachCount := 0, recoveryCount := 0, noDataCount := 0)
  }

  function Gap(s: Snapshot): Snapshot {
    var n := s.noDataCount + 1;
    if n < 2 || s.state.NO_DATA? then Cleared(s).(noDataCount := n)
    else Snapshot(NO_DATA, s.state, 0, 0, n)
  }

  function Data(s: Snapshot, e: Evaluation, p: Params): Snapshot
    requires IsData(e)
  {
    match (s.state, e)
    case (FIRING, Breaching) => s.(recoveryCount := 0)
    case (FIRING, Recovering) =>
      var n := s.recoveryCount + 1;
      s.(state := if n >= p.recoveryCount then RECOVERED else FIRING, breachCount := 0, recoveryCount := n)
    case (OK, Breaching) => Breach(s, p)
    case (PENDING, Breaching) => Breach(s, p)
    case (RECOVERED, Breaching) => Breach(s, p)
    case (_, Breaching) => s.(recoveryCount := 0)
    case (PENDING, Recovering) => s.(state := OK, breachCount := 0)
    case (_, Recovering) => s.(breachCount := 0)
    case (PENDING, Stable) => s.(state := OK, breachCount := 0, recoveryCount := 0)
    case (_, Stable) => s.(breachCount := 0, recoveryCount := 0)
  }

  function Breach(s: Snapshot, p: Params): Snapshot {
    var n := s.breachCount + 1;
    s.(state := if n >= p.triggerCount then FIRING else PENDING, breachCount := n, recoveryCount := 0)
  }

  /** `Step`, branch by branch on its own copy of the snapshot. */
  method Step(current: Snapshot, evaluation: Evaluation, triggerCount: int, recoveryCount: int)
    returns (next: Snapshot)
    ensures next == Next(current, evaluation, Params(triggerCount, recoveryCount))
  {
    next := current;
    if evaluation == MissingIgnored {
      next := next.(breachCount := 0);
      next := next.(recoveryCount := 0);
      next := next.(noDataCount := 0);
      return;
    }
    if evaluation == Missing {
      if next.state == RECOVERED { return; }
      next := next.(breachCount := 0);
      next := next.(recoveryCount := 0);
      next := next.(noDataCount := next.noDataCount + 1);
      if next.noDataCount >= 2 && next.state != NO_DATA {
        next := next.(beforeNoData := next.state);
        next := next.(state := NO_DATA);
      }
      return;
    }
    next := next.(noDataCount := 0);
    if next.state == NO_DATA {
      next := next.(state := next.beforeNoData);
      next := next.(beforeNoData := Unset);
      return;
    }
    if evaluation == Stable {
      next := next.(breachCount := 0);
      next := next.(recoveryCount := 0);
      if next.state == PENDING { next := next.(state := OK); }
      return;
    }
    if evaluation == Breaching {
      next := next.(recoveryCount := 0);
      if next.state == OK || next.state == PENDING || next.state == RECOVERED {
        next := next.(breachCount := next.breachCount + 1);
        if next.breachCount >= triggerCount {
          next := next.(state := FIRING);
        } else {
          next := next.(state := PENDING);
        }
      }
      return;
    }
    next := next.(breachCount := 0);
    if next.state == PENDING {
      next := next.(state := OK);
    } else if next.state == FIRING {
      next := next.(recoveryCount := next.recoveryCount + 1);
      if next.recoveryCount >= recoveryCount { next := next.(state := RECOVERED); }
    }
  }

  /** A resolved snapshot stays resolved on everything but a breach, and a gap does not touch it, so the
      evaluator may skip such evaluations. */
  lemma ResolvedRests(s: Snapshot, e: Evaluation, p: Params)
    requires s.state.RECOVERED? && !e.Breaching?
    ensures Next(s, e, p).state.RECOVERED? && (e.Missing? ==> Next(s, e, p) == s)
  {}

  // ----- what is stored between evaluations

  /** The stored alert of one (rule, instance, dimension): nothing, an unresolved row with the
      version it was last evaluated under, or only resolved rows. */
  datatype Slot = Empty | Open(version: int, snap: Snapshot) | Closed

  /** One thing that can happen to the slot. `Purged` is the retention of resolved rows. */
  datatype Input = Observe(version: int, evaluation: Evaluation) | Purged

  /** The snapshot an evaluation under `version` starts from; counters survive only when the
      row was written under the same version. */
  function Load(slot: Slot, version: int): Snapshot {
    match slot
    case Empty => Initial
    case Closed => Initial.(state := RECOVERED)
    case Open(v, snap) => if v == version then snap else Cleared(snap)
  }

  function StateOf(slot: Slot): State {
    match slot
    case Empty => OK
    case Closed => RECOVERED
    case Open(_, snap) => snap.state
  }

  function Stored(version: int, snap: Snapshot): Slot {
    if snap.state.RECOVERED? then Closed else Open(version, snap)
  }

  /** One evaluation: gaps are ignored where nothing is open, a resolved alert wakes up only
      on a breach, everything else steps and is written back. */
  function Advance(slot: Slot, input: Input, rules: int -> Params): Slot {
    match input
    case Purged => if slot.Closed? then Empty else slot
    case Observe(v, e) =>
      if e.MissingIgnored? && !slot.Open? then slot
      else if slot.Closed? && !e.Breaching? then slot
      else Stored(v, Next(Load(slot, v), e, rules(v)))
  }

  function After(history: seq<Input>, rules: int -> Params): Slot {
    if history == [] then Empty
    else Advance(After(history[..|history| - 1], rules), history[|history| - 1], rules)
  }

  lemma AfterStep(earlier: seq<Input>, last: Input, rules: int -> Params)
    ensures After(earlier + [last], rules) == Advance(After(earlier, rules), last, rules)
  {
    var history := earlier + [last];
    assert history[..|history| - 1] == earlier;
  }

  function AtLeastOne(n: int): int { if n < 1 then 1 else n }

  // ----- the history specification
  //
  // What the slot must be, said of the observations alone. The functions recur on shorter histories.

  /** How many of the latest observations are `e` under `version`, not counting one that ended
      a NO_DATA stretch. */
  function Trailing(history: seq<Input>, version: int, e: Evaluation, rules: int -> Params): nat
    decreases |history|, 0
  {
    if history == [] then 0
    else
      var earlier, last := history[..|history| - 1], history[|history| - 1];
      if last.Purged? then Trailing(earlier, version, e, rules)
      else if last == Observe(version, e) && !Silent(earlier, rules) then 1 + Trailing(earlier, version, e, rules)
      else 0
  }

  /** How many of the latest observations are gaps under `version`, seen by an alert that is not resolved. */
  function Gaps(history: seq<Input>, version: int, rules: int -> Params): nat
    decreases |history|, 0
  {
    if history == [] then 0
    else
      var earlier, last := history[..|history| - 1], history[|history| - 1];
      if last.Purged? then Gaps(earlier, version, rules)
      else if last == Observe(version, Missing) && !Resolved(earlier, rules) then 1 + Gaps(earlier, version, rules)
      else 0
  }

  /** A NO_DATA stretch: two gaps have come, and no data point since. */
  predicate Silent(history: seq<Input>, rules: int -> Params)
    decreases |history|, 1
  {
    history != [] &&
    var earlier, last := history[..|history| - 1], history[|history| - 1];
    if last.Purged? || last.evaluation.MissingIgnored? then Silent(earlier, rules)
    else last.evaluation.Missing? && (Silent(earlier, rules) || Gaps(history, last.version, rules) >= 2)
  }

  /** The trailing breaches have reached the trigger count, and the trailing recoveries have not reached
      the recovery count since. */
  predicate Fires(history: seq<Input>, rules: int -> Params)
    decreases |history|, 1
  {
    history != [] &&
    var earlier, last := history[..|history| - 1], history[|history| - 1];
    if last.Purged? then Fires(earlier, rules)
    else if Fires(earlier, rules)
    then Trailing(history, last.version, Recovering, rules) < AtLeastOne(rules(last.version).recoveryCount)
    else Trailing(history, last.version, Breaching, rules) >= AtLeastOne(rules(last.version).triggerCount)
  }

  /** It fired, the trailing recoveries reached the recovery count, and no breach or purge has come since. */
  predicate Resolved(history: seq<Input>, rules: int -> Params)
    decreases |history|, 1
  {
    history != [] && !history[|history| - 1].Purged? &&
    var earlier, last := history[..|history| - 1], history[|history| - 1];
    if Fires(earlier, rules)
    then Trailing(history, last.version, Recovering, rules) >= AtLeastOne(rules(last.version).recoveryCount)
    else Resolved(earlier, rules) && !last.evaluation.Breaching?
  }

  /** The latest data point that did not end a NO_DATA stretch is a breach. */
  predicate Breached(history: seq<Input>, rules: int -> Params) {
    history != [] &&
    var earlier, last := history[..|history| - 1], history[|history| - 1];
    if last.Observe? && IsData(last.evaluation) && !Silent(earlier, rules) then last.evaluation.Breaching?
    else Breached(earlier, rules)
  }

  /** Since it began to fire there have been only breaches, under one version. */
  predicate Steady(history: seq<Input>, rules: int -> Params) {
    history != [] &&
    var earlier, last := history[..|history| - 1], history[|history| - 1];
    if last.Purged? then Steady(earlier, rules)
    else if Fires(earlier, rules)
    then Steady(earlier, rules) && last == Observe(LatestVersion(earlier), Breaching)
    else Fires(history, rules)
  }

  function LatestVersion(history: seq<Input>): int {
    if history == [] then 0
    else if history[|history| - 1].Observe? then history[|history| - 1].version
    else LatestVersion(history[..|history| - 1])
  }

  /** Something other than ignored gaps has been observed since the last resolved alert was purged. */
  predicate Noticed(history: seq<Input>, rules: int -> Params) {
    history != [] &&
    var earlier, last := history[..|history| - 1], history[|history| - 1];
    if last.Purged? then Noticed(earlier, rules) && !Resolved(earlier, rules)
    else Noticed(earlier, rules) || !last.evaluation.MissingIgnored?
  }

  /** The state apart from gaps. */
  function Standing(history: seq<Input>, rules: int -> Params): State {
    if Fires(history, rules) then FIRING else if Breached(history, rules) then PENDING else OK
  }

  datatype Facts = Facts(
    version: int, silent: bool, standing: State, fires: bool, resolved: bool, steady: bool, noticed: bool,
    breaches: nat, recoveries: nat, gaps: nat)

  function FactsOf(history: seq<Input>, rules: int -> Params): Facts {
    var v := LatestVersion(history);
    Facts(v, Silent(history, rules), Standing(history, rules), Fires(history, rules), Resolved(history, rules),
          Steady(history, rules), Noticed(history, rules), Trailing(history, v, Breaching, rules),
          Trailing(history, v, Recovering, rules), Gaps(history, v, rules))
  }

  function Assembled(f: Facts, p: Params): Slot {
    if f.resolved then Closed
    else if !f.noticed then Empty
    else Open(f.version, Snapshot(
                           if f.silent then NO_DATA else f.standing,
                           if f.silent then f.standing else Unset,
                           if !f.fires then f.breaches else if f.steady then AtLeastOne(p.triggerCount) else 0,
                           if f.fires then f.recoveries else 0,
                           f.gaps))
  }

  /** The slot a history leaves. */
  function Told(history: seq<Input>, rules: int -> Params): Slot {
    Assembled(FactsOf(history, rules), rules(LatestVersion(history)))
  }

  /** The functions one observation further. */
  lemma ObservedStep(earlier: seq<Input>, v: int, e: Evaluation, rules: int -> Params)
    ensures
      var history := earlier + [Observe(v, e)];
      && LatestVersion(history) == v
      && (forall w, k :: Trailing(history, w, k, rules)
                         == if w == v && k == e && !Silent(earlier, rules) then 1 + Trailing(earlier, w, k, rules) else 0)
      && (forall w :: Gaps(history, w, rules)
                      == if w == v && e.Missing? && !Resolved(earlier, rules) then 1 + Gaps(earlier, w, rules) else 0)
      && (Noticed(history, rules) <==> Noticed(earlier, rules) || !e.MissingIgnored?)
  {
    var history := earlier + [Observe(v, e)];
    assert history[..|history| - 1] == earlier;
  }

  lemma ObservedPredicates(earlier: seq<Input>, v: int, e: Evaluation, rules: int -> Params)
    ensures
      var history := earlier + [Observe(v, e)];
      && (Silent(history, rules) <==>
            if e.MissingIgnored? then Silent(earlier, rules)
            else e.Missing? && (Silent(earlier, rules) || Gaps(history, v, rules) >= 2))
      && (Fires(history, rules) <==>
            if Fires(earlier, rules) then Trailing(history, v, Recovering, rules) < AtLeastOne(rules(v).recoveryCount)
            else Trailing(history, v, Breaching, rules) >= AtLeastOne(rules(v).triggerCount))
      && (Resolved(history, rules) <==>
            if Fires(earlier, rules) then Trailing(history, v, Recovering, rules) >= AtLeastOne(rules(v).recoveryCount)
            else Resolved(earlier, rules) && !e.Breaching?)
      && (Breached(history, rules) <==>
            if IsData(e) && !Silent(earlier, rules) then e.Breaching? else Breached(earlier, rules))
      && (Steady(history, rules) <==>
            if Fires(earlier, rules) then Steady(earlier, rules) && e.Breaching? && v == LatestVersion(earlier)
            else Fires(history, rules))
  {
    var history := earlier + [Observe(v, e)];
    assert history[..|history| - 1] == earlier;
  }

  lemma PurgedStep(earlier: seq<Input>, rules: int -> Params)
    ensures
      var history := earlier + [Purged];
      && LatestVersion(history) == LatestVersion(earlier)
      && (forall w, k :: Trailing(history, w, k, rules) == Trailing(earlier, w, k, rules))
      && (forall w :: Gaps(history, w, rules) == Gaps(earlier, w, rules))
      && (Silent(history, rules) <==> Silent(earlier, rules)) && (Fires(history, rules) <==> Fires(earlier, rules))
      && !Resolved(history, rules) && (Breached(history, rules) <==> Breached(earlier, rules))
      && (Steady(history, rules) <==> Steady(earlier, rules))
      && (Noticed(history, rules) <==> Noticed(earlier, rules) && !Resolved(earlier, rules))
  {
    var history := earlier + [Purged];
    assert history[..|history| - 1] == earlier;
  }

  /** What one observation makes of the facts. */
  ghost predicate Follows(f: Facts, g: Facts, v: int, e: Evaluation, p: Params) {
    var same := v == f.version;
    && g.version == v
    && g.breaches == (if e.Breaching? && !f.silent then 1 + (if same then f.breaches else 0) else 0)
    && g.recoveries == (if e.Recovering? && !f.silent then 1 + (if same then f.recoveries else 0) else 0)
    && g.gaps == (if e.Missing? && !f.resolved then 1 + (if same then f.gaps else 0) else 0)
    && (g.silent <==> if e.MissingIgnored? then f.silent else e.Missing? && (f.silent || g.gaps >= 2))
    && (g.fires <==> if f.fires then g.recoveries < AtLeastOne(p.recoveryCount) else g.breaches >= AtLeastOne(p.triggerCount))
    && (g.resolved <==> if f.fires then g.recoveries >= AtLeastOne(p.recoveryCount) else f.resolved && !e.Breaching?)
    && (g.steady <==> if f.fires then f.steady && e.Breaching? && same else g.fires)
    && (g.noticed <==> f.noticed || !e.MissingIgnored?)
    && g.standing == (if g.fires then FIRING
                      else if IsData(e) && !f.silent then (if e.Breaching? then PENDING else OK)
                      else f.standing)
  }

  ghost predicate Coherent(f: Facts, p: Params) {
    && (f.standing == FIRING <==> f.fires) && (f.standing == FIRING || f.standing == PENDING || f.standing == OK)
    && (if f.fires then f.recoveries < AtLeastOne(p.recoveryCount) else f.breaches < AtLeastOne(p.triggerCount) && !f.steady)
    && (f.silent ==> f.breaches == 0 && f.recoveries == 0 && !f.steady)
    && (!f.silent ==> f.gaps < 2)
    && (f.resolved || !f.noticed ==> !f.silent && f.standing == OK && f.breaches == 0 && f.gaps == 0)
  }

  lemma FollowingData(f: Facts, g: Facts, v: int, e: Evaluation, rules: int -> Params)
    requires IsData(e) && Coherent(f, rules(f.version)) && Follows(f, g, v, e, rules(v))
    ensures Assembled(g, rules(v)) == Advance(Assembled(f, rules(f.version)), Observe(v, e), rules)
  {}

  lemma FollowingGap(f: Facts, g: Facts, v: int, e: Evaluation, rules: int -> Params)
    requires !IsData(e) && Coherent(f, rules(f.version)) && Follows(f, g, v, e, rules(v))
    ensures Assembled(g, rules(v)) == Advance(Assembled(f, rules(f.version)), Observe(v, e), rules)
  {}

  lemma CoherentFollows(f: Facts, g: Facts, v: int, e: Evaluation, rules: int -> Params)
    requires Coherent(f, rules(f.version)) && Follows(f, g, v, e, rules(v))
    ensures Coherent(g, rules(v))
  {}

  /** Only the latest version has counts, and the facts fit together. */
  ghost predicate Consistent(history: seq<Input>, rules: int -> Params) {
    var v := LatestVersion(history);
    && (forall w, k :: w != v ==> Trailing(history, w, k, rules) == 0)
    && (forall w :: w != v ==> Gaps(history, w, rules) == 0)
    && Coherent(FactsOf(history, rules), rules(v))
  }

  lemma FactsFollow(earlier: seq<Input>, v: int, e: Evaluation, rules: int -> Params)
    requires Consistent(earlier, rules)
    ensures Follows(FactsOf(earlier, rules), FactsOf(earlier + [Observe(v, e)], rules), v, e, rules(v))
  {
    ObservedStep(earlier, v, e, rules);
    ObservedPredicates(earlier, v, e, rules);
  }

  lemma {:induction false} AlwaysConsistent(history: seq<Input>, rules: int -> Params)
    ensures Consistent(history, rules)
  {
    if history != [] {
      var earlier, last := history[..|history| - 1], history[|history| - 1];
      assert history == earlier + [last];
      AlwaysConsistent(earlier, rules);
      if last.Purged? {
        PurgedStep(earlier, rules);
      } else {
        ObservedStep(earlier, last.version, last.evaluation, rules);
        FactsFollow(earlier, last.version, last.evaluation, rules);
        CoherentFollows(FactsOf(earlier, rules), FactsOf(history, rules), last.version, last.evaluation, rules);
      }
    }
  }

  /** One more observation moves the told slot as the machine moves its own. */
  lemma ToldObserved(earlier: seq<Input>, v: int, e: Evaluation, rules: int -> Params)
    ensures Told(earlier + [Observe(v, e)], rules) == Advance(Told(earlier, rules), Observe(v, e), rules)
  {
    AlwaysConsistent(earlier, rules);
    FactsFollow(earlier, v, e, rules);
    var f, g := FactsOf(earlier, rules), FactsOf(earlier + [Observe(v, e)], rules);
    if IsData(e) { FollowingData(f, g, v, e, rules); } else { FollowingGap(f, g, v, e, rules); }
  }

  /** The machine against the specification, for every history: the stored row, its state, the state to
      return to, its version and all its counters are those the observations tell. */
  lemma {:induction false} HistoryTellsTheSlot(history: seq<Input>, rules: int -> Params)
    ensures After(history, rules) == Told(history, rules)
  {
    if history != [] {
      var earlier, last := history[..|history| - 1], history[|history| - 1];
      assert history == earlier + [last];
      HistoryTellsTheSlot(earlier, rules);
      if last.Purged? { PurgedStep(earlier, rules); } else { ToldObserved(earlier, last.version, last.evaluation, rules); }
    }
  }

  /** What a stored snapshot can look like. */
  ghost predicate Sound(snap: Snapshot, p: Params) {
    && !snap.state.Unset? && !snap.state.RECOVERED?
    && (snap.beforeNoData.Unset? <==> !snap.state.NO_DATA?)
    && snap.breachCount >= 0 && snap.recoveryCount >= 0 && snap.noDataCount >= 0
    && (snap.state.NO_DATA? ==>
          && (snap.beforeNoData.OK? || snap.beforeNoData.PENDING? || snap.beforeNoData.FIRING?)
          && snap.breachCount == 0 && snap.recoveryCount == 0)
    && (snap.state.OK? || snap.state.PENDING? ==>
          snap.recoveryCount == 0 && snap.breachCount < AtLeastOne(p.triggerCount))
    && (snap.state.FIRING? ==> snap.recoveryCount < AtLeastOne(p.recoveryCount))
  }

  ghost predicate SoundSlot(slot: Slot, rules: int -> Params) {
    slot.Open? ==> Sound(slot.snap, rules(slot.version))
  }

  lemma AfterSound(history: seq<Input>, rules: int -> Params)
    ensures SoundSlot(After(history, rules), rules)
  {
    HistoryTellsTheSlot(history, rules);
    AlwaysConsistent(history, rules);
  }

  /** The breach counter the slot must hold for a history: no other version has one. */
  ghost predicate BreachesCounted(history: seq<Input>, rules: int -> Params) {
    var slot := After(history, rules);
    && (forall v :: (!slot.Open? || v != slot.version) ==> Trailing(history, v, Breaching, rules) == 0)
    && (slot.Open? && (slot.snap.state.OK? || slot.snap.state.PENDING?) ==>
          slot.snap.breachCount == Trailing(history, slot.version, Breaching, rules))
  }

  /** The recovery counter of a firing slot. */
  ghost predicate RecoveriesCounted(history: seq<Input>, rules: int -> Params) {
    var slot := After(history, rules);
    slot.Open? && slot.snap.state.FIRING? ==>
      && slot.snap.recoveryCount == Trailing(history, slot.version, Recovering, rules)
      && forall v :: v != slot.version ==> Trailing(history, v, Recovering, rules) == 0
  }

  lemma HistoryCounted(history: seq<Input>, rules: int -> Params)
    ensures BreachesCounted(history, rules) && RecoveriesCounted(history, rules)
  {
    HistoryTellsTheSlot(history, rules);
    AlwaysConsistent(history, rules);
  }

  /** The stored counters are the history's counts: loaded under any version, outside FIRING
      and NO_DATA the breach counter is the number of trailing breaches under that version, and
      in FIRING the recovery counter is the number of trailing recoveries. */
  lemma CountersAreHistoryCounts(history: seq<Input>, version: int, rules: int -> Params)
    ensures
      var s := Load(After(history, rules), version);
      && (!s.state.FIRING? && !s.state.NO_DATA? ==>
            s.breachCount == Trailing(history, version, Breaching, rules))
      && (s.state.FIRING? ==> s.recoveryCount == Trailing(history, version, Recovering, rules))
  {
    HistoryCounted(history, rules);
    AfterSound(history, rules);
  }

  /** The specification before and after one more observation. */
  lemma NextTold(history: seq<Input>, version: int, e: Evaluation, rules: int -> Params)
    ensures
      var longer := history + [Observe(version, e)];
      && StateOf(After(history, rules)) == StateOf(Told(history, rules)) && Consistent(history, rules)
      && StateOf(After(longer, rules)) == StateOf(Told(longer, rules)) && Consistent(longer, rules)
      && (Fires(longer, rules) <==>
            if Fires(history, rules) then Trailing(longer, version, Recovering, rules) < AtLeastOne(rules(version).recoveryCount)
            else Trailing(longer, version, Breaching, rules) >= AtLeastOne(rules(version).triggerCount))
  {
    var longer := history + [Observe(version, e)];
    HistoryTellsTheSlot(history, rules);
    HistoryTellsTheSlot(longer, rules);
    AlwaysConsistent(history, rules);
    AlwaysConsistent(longer, rules);
    ObservedStep(history, version, e, rules);
    ObservedPredicates(history, version, e, rules);
  }

  /** An alert starts firing exactly when the breaches under the version in force have just
      reached its trigger count. */
  lemma FiresExactlyAfterTriggerCount(history: seq<Input>, version: int, e: Evaluation, rules: int -> Params)
    ensures
      var before := StateOf(After(history, rules));
      var longer := history + [Observe(version, e)];
      (!before.FIRING? && !before.NO_DATA? && StateOf(After(longer, rules)).FIRING?)
      <==>
      (!before.FIRING? && !before.NO_DATA?
       && Trailing(longer, version, Breaching, rules) == AtLeastOne(rules(version).triggerCount))
  {
    NextTold(history, version, e, rules);
  }

  /** An alert is resolved by the evaluator exactly when it was firing and the recoveries under
      the version in force have just reached its recovery count. */
  lemma RecoversExactlyAfterRecoveryCount(history: seq<Input>, version: int, e: Evaluation, rules: int -> Params)
    ensures
      var before := StateOf(After(history, rules));
      var longer := history + [Observe(version, e)];
      (!before.RECOVERED? && StateOf(After(longer, rules)).RECOVERED?)
      <==>
      (before.FIRING?
       && Trailing(longer, version, Recovering, rules) == AtLeastOne(rules(version).recoveryCount))
  {
    NextTold(history, version, e, rules);
  }

  function Repeat(input: Input, n: nat): (r: seq<Input>)
    ensures |r| == n && forall i :: 0 <= i < n ==> r[i] == input
  {
    seq(n, _ => input)
  }

  lemma BreachLandsOpen(slot: Slot, version: int, rules: int -> Params)
    requires SoundSlot(slot, rules)
    ensures
      var t := Advance(slot, Observe(version, Breaching), rules);
      && t.Open? && t.version == version && (t.snap.state.OK? || t.snap.state.PENDING? || t.snap.state.FIRING?)
      && (StateOf(slot).FIRING? ==> t.snap.state.FIRING?)
  {}

  /** Waiting in NO_DATA to return to a state that does not fire: the next breach is spent on returning. */
  ghost predicate SpendsABreach(slot: Slot) {
    slot.Open? && slot.snap.state.NO_DATA? && !slot.snap.beforeNoData.FIRING?
  }

  /** Where m breaches under one version lead: firing, or short of it by what they counted. */
  ghost predicate Advanced(before: Slot, after: Slot, version: int, m: nat) {
    if SpendsABreach(before) then CountedUpTo(after, version) && after.snap.breachCount == m - 1
    else StateOf(after).FIRING? || (CountedUpTo(after, version) && after.snap.breachCount >= m)
  }

  ghost predicate CountedUpTo(slot: Slot, version: int) {
    slot.Open? && slot.version == version && (slot.snap.state.OK? || slot.snap.state.PENDING?)
  }

  lemma FirstBreach(slot: Slot, version: int, rules: int -> Params)
    requires SoundSlot(slot, rules)
    ensures Advanced(slot, Advance(slot, Observe(version, Breaching), rules), version, 1)
  {}

  lemma NextBreach(before: Slot, slot: Slot, version: int, m: nat, rules: int -> Params)
    requires SoundSlot(slot, rules) && Advanced(before, slot, version, m) && 1 <= m < AtLeastOne(rules(version).triggerCount)
    ensures Advanced(before, Advance(slot, Observe(version, Breaching), rules), version, m + 1)
  {}

  lemma {:induction false} BreachesAdvance(history: seq<Input>, version: int, m: nat, rules: int -> Params)
    requires 1 <= m <= AtLeastOne(rules(version).triggerCount)
    ensures Advanced(After(history, rules), After(history + Repeat(Observe(version, Breaching), m), rules), version, m)
  {
    var input := Observe(version, Breaching);
    var earlier := history + Repeat(input, m - 1);
    assert history + Repeat(input, m) == earlier + [input];
    AfterStep(earlier, input, rules);
    AfterSound(earlier, rules);
    if m == 1 {
      assert earlier == history;
      FirstBreach(After(history, rules), version, rules);
    } else {
      BreachesAdvance(history, version, m - 1, rules);
      NextBreach(After(history, rules), After(earlier, rules), version, m - 1, rules);
    }
  }

  /** Trigger count consecutive breaches under one version leave the alert firing exactly when it was
      not in NO_DATA with a state to return to that does not fire. */
  lemma TriggerCountBreachesFire(history: seq<Input>, version: int, rules: int -> Params)
    ensures
      var breaches := Repeat(Observe(version, Breaching), AtLeastOne(rules(version).triggerCount));
      StateOf(After(history + breaches, rules)).FIRING? <==> !SpendsABreach(After(history, rules))
  {
    var n := AtLeastOne(rules(version).triggerCount);
    BreachesAdvance(history, version, n, rules);
    AfterSound(history + Repeat(Observe(version, Breaching), n), rules);
  }

  /** Whatever happened before, one breach more always suffices. */
  lemma BreachesFirePromptly(history: seq<Input>, version: int, n: nat, rules: int -> Params)
    requires n > AtLeastOne(rules(version).triggerCount)
    ensures StateOf(After(history + Repeat(Observe(version, Breaching), n), rules)).FIRING?
  {
    var input, t := Observe(version, Breaching), AtLeastOne(rules(version).triggerCount);
    var earlier := history + Repeat(input, n - t - 1);
    var later := earlier + [input];
    AfterStep(earlier, input, rules);
    AfterSound(earlier, rules);
    BreachLandsOpen(After(earlier, rules), version, rules);
    TriggerCountBreachesFire(later, version, rules);
    assert history + Repeat(input, n) == later + Repeat(input, t);
  }

  /** An input of the other kind: two gaps, then one breach at trigger count one. */
  lemma TriggerCountAloneIsNotEnough(rules: int -> Params)
    requires rules(1).triggerCount == 1
    ensures
      var gap := [Observe(1, Missing), Observe(1, Missing)];
      && SpendsABreach(After(gap, rules))
      && StateOf(After(gap + Repeat(Observe(1, Breaching), 1), rules)).OK?
  {
    var gap := [Observe(1, Missing), Observe(1, Missing)];
    assert gap[..1] == [Observe(1, Missing)] && gap[..1][..0] == [];
    assert After(gap[..1], rules) == Open(1, Snapshot(OK, Unset, 0, 0, 1));
    assert After(gap, rules) == Open(1, Snapshot(NO_DATA, OK, 0, 0, 2));
    AfterStep(gap, Observe(1, Breaching), rules);
    assert gap + Repeat(Observe(1, Breaching), 1) == gap + [Observe(1, Breaching)];
  }

  // ----- entering NO_DATA

  /** The gap counter the slot must hold for a history; outside NO_DATA it is below two. */
  ghost predicate GapsCounted(history: seq<Input>, rules: int -> Params) {
    var slot := After(history, rules);
    && (forall v :: (!slot.Open? || v != slot.version) ==> Gaps(history, v, rules) == 0)
    && (slot.Open? ==> slot.snap.noDataCount == Gaps(history, slot.version, rules))
    && (slot.Open? && !slot.snap.state.NO_DATA? ==> slot.snap.noDataCount < 2)
  }

  lemma GapsAreCounted(history: seq<Input>, rules: int -> Params)
    ensures GapsCounted(history, rules)
  {
    HistoryTellsTheSlot(history, rules);
    AlwaysConsistent(history, rules);
  }

  /** NO_DATA is entered exactly when the gaps under the version in force have just reached two. */
  lemma EntersNoDataAfterTwoGaps(history: seq<Input>, version: int, e: Evaluation, rules: int -> Params)
    ensures
      var before := StateOf(After(history, rules));
      var longer := history + [Observe(version, e)];
      (!before.NO_DATA? && StateOf(After(longer, rules)).NO_DATA?)
      <==>
      (!before.NO_DATA? && Gaps(longer, version, rules) == 2)
  {
    NextTold(history, version, e, rules);
    ObservedStep(history, version, e, rules);
    ObservedPredicates(history, version, e, rules);
  }

  /** NO_DATA is left exactly on a data point. */
  lemma LeavesNoDataOnData(history: seq<Input>, version: int, e: Evaluation, rules: int -> Params)
    ensures
      var before, after := StateOf(After(history, rules)), StateOf(After(history + [Observe(version, e)], rules));
      (before.NO_DATA? && !after.NO_DATA?) <==> (before.NO_DATA? && IsData(e))
  {
    NextTold(history, version, e, rules);
    ObservedPredicates(history, version, e, rules);
  }

  /** The state of an unresolved alert, gaps aside. */
  function Underlying(snap: Snapshot): State { if snap.state.NO_DATA? then snap.beforeNoData else snap.state }

  /** An unresolved alert that does not fire is pending, or in NO_DATA with PENDING to return to, exactly
      when the latest data point that did not end a NO_DATA stretch is a breach; otherwise it is OK. */
  lemma PendingExactlyAfterABreach(history: seq<Input>, rules: int -> Params)
    ensures
      var slot := After(history, rules);
      slot.Open? && !Underlying(slot.snap).FIRING? ==>
        && (Underlying(slot.snap).PENDING? <==> Breached(history, rules))
        && (Underlying(slot.snap).OK? <==> !Breached(history, rules))
  {
    HistoryTellsTheSlot(history, rules);
  }

  // ----- NO_DATA is a detour

  ghost predicate IsGap(input: Input) {
    input.Purged? || input.evaluation.Missing? || input.evaluation.MissingIgnored?
  }

  /** In every stored snapshot the state to return to is kept exactly while in NO_DATA, and is
      one that can be returned to. */
  lemma ReturnStateKeptOnlyInNoData(history: seq<Input>, version: int, rules: int -> Params)
    ensures
      var s := Load(After(history, rules), version);
      && (!s.beforeNoData.Unset? <==> s.state.NO_DATA?)
      && (s.state.NO_DATA? ==>
            s.beforeNoData.OK? || s.beforeNoData.PENDING? || s.beforeNoData.FIRING?)
  {
    AfterSound(history, rules);
  }

  lemma {:induction false} GapsRememberState(history: seq<Input>, gaps: seq<Input>, rules: int -> Params)
    requires forall g :: g in gaps ==> IsGap(g)
    requires !StateOf(After(history, rules)).NO_DATA? && !StateOf(After(history, rules)).RECOVERED?
    ensures
      var slot := After(history + gaps, rules);
      var s := StateOf(After(history, rules));
      || (!slot.Closed? && StateOf(slot) == s)
      || (slot.Open? && slot.snap.state.NO_DATA? && slot.snap.beforeNoData == s)
  {
    if gaps == [] {
      assert history + gaps == history;
    } else {
      var fewer, last := gaps[..|gaps| - 1], gaps[|gaps| - 1];
      GapsRememberState(history, fewer, rules);
      assert last in gaps && IsGap(last);
      assert history + gaps == history + fewer + [last];
      AfterStep(history + fewer, last, rules);
      AfterSound(history + fewer, rules);
    }
  }

  /** A stretch of missing evaluations that reached NO_DATA, under whatever versions, followed by
      one data point of any kind, restores the state from before the stretch with every counter
      at zero. (A resolved alert cannot be the state before it: it ignores gaps, unless it is
      purged first.) */
  lemma NoDataIsADetour(history: seq<Input>, gaps: seq<Input>, version: int, e: Evaluation, rules: int -> Params)
    requires forall g :: g in gaps ==> IsGap(g)
    requires !StateOf(After(history, rules)).NO_DATA? && !StateOf(After(history, rules)).RECOVERED?
    requires StateOf(After(history + gaps, rules)).NO_DATA?
    requires IsData(e)
    ensures After(history + gaps + [Observe(version, e)], rules)
            == Open(version, Snapshot(StateOf(After(history, rules)), Unset, 0, 0, 0))
  {
    GapsRememberState(history, gaps, rules);
    AfterSound(history + gaps, rules);
    AfterSound(history, rules);
    var longer := history + gaps + [Observe(version, e)];
    assert longer[..|longer| - 1] == history + gaps;
  }
}
