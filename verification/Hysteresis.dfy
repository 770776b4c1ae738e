/** Threshold comparison, the validation of a rule's recovery range, and what it buys on runs. */
module Hysteresis {
  import opened AlertState

  // Unknown stands for every string that is not one of the six operators.
  datatype Operator = GreaterThan | GreaterThanEqual | LessThan | LessThanEqual | Equal | NotEqual | Unknown

  predicate Compare(value: real, op: Operator, threshold: real) {
    match op
    case GreaterThan => value > threshold
    case GreaterThanEqual => value >= threshold
    case LessThan => value < threshold
    case LessThanEqual => value <= threshold
    case Equal => value == threshold
    case NotEqual => value != threshold
    case Unknown => false
  }

  datatype Thresholds = Thresholds(op: Operator, threshold: real, recoveryOp: Operator, recoveryThreshold: real) {
    predicate Triggers(value: real) { Compare(value, op, threshold) }
    predicate Recovers(value: real) { Compare(value, recoveryOp, recoveryThreshold) }
  }

  function Evaluate(value: real, t: Thresholds): Evaluation {
    if t.Triggers(value) then Breaching
    else if t.Recovers(value) then Recovering
    else Stable
  }

  /** The same classification with the recovery test first. */
  function EvaluateRecoveryFirst(value: real, t: Thresholds): Evaluation {
    if t.Recovers(value) then Recovering
    else if t.Triggers(value) then Breaching
    else Stable
  }

  predicate IsOrdering(op: Operator) {
    op.GreaterThan? || op.GreaterThanEqual? || op.LessThan? || op.LessThanEqual?
  }

  predicate ValidHysteresis(t: Thresholds) {
    match t.op
    case GreaterThan =>
      || ((t.recoveryOp.LessThan? || t.recoveryOp.LessThanEqual?) && t.recoveryThreshold < t.threshold)
      || (t.recoveryOp.Equal? && t.recoveryThreshold == t.threshold)
    case GreaterThanEqual =>
      (t.recoveryOp.LessThan? || t.recoveryOp.LessThanEqual?) && t.recoveryThreshold < t.threshold
    case LessThan =>
      (t.recoveryOp.GreaterThan? || t.recoveryOp.GreaterThanEqual?) && t.recoveryThreshold > t.threshold
    case LessThanEqual =>
      (t.recoveryOp.GreaterThan? || t.recoveryOp.GreaterThanEqual?) && t.recoveryThreshold > t.threshold
    case Equal => t.op != t.recoveryOp || t.threshold != t.recoveryThreshold
    case NotEqual => t.op != t.recoveryOp || t.threshold != t.recoveryThreshold
    case Unknown => false
  }

  /** No value both triggers and recovers. */
  ghost predicate Separate(t: Thresholds) {
    forall v :: !(t.Triggers(v) && t.Recovers(v))
  }

  /** When an accepted rule keeps its ranges apart, as a test on the rule itself. */
  predicate SeparateByForm(t: Thresholds) {
    match t.op
    case Equal => !t.Recovers(t.threshold)
    case NotEqual => t.recoveryOp.Unknown? || (t.recoveryOp.Equal? && t.recoveryThreshold == t.threshold)
    case _ => true
  }

  /** An accepted rule separates its ranges exactly when it passes the test; the ordering
      operators always do. */
  lemma AcceptedRulesSeparateByForm(t: Thresholds)
    requires ValidHysteresis(t)
    ensures Separate(t) <==> SeparateByForm(t)
    ensures IsOrdering(t.op) ==> Separate(t)
  {
    if t.op.Equal? {
      assert t.Triggers(t.threshold);
    } else if t.op.NotEqual? && !SeparateByForm(t) {
      var v := RecoveringValueOff(t);
      assert t.Triggers(v) && t.Recovers(v);
    }
  }

  /** A stretch of values that neither trigger nor recover. */
  ghost predicate DeadBand(t: Thresholds, low: real, high: real) {
    low < high && forall v :: low <= v <= high ==> !t.Triggers(v) && !t.Recovers(v)
  }

  ghost predicate HasDeadBand(t: Thresholds) { exists low, high :: DeadBand(t, low, high) }

  /** The recovery range reaches away from the trigger range. */
  predicate Opposed(t: Thresholds) {
    if t.op.GreaterThan? || t.op.GreaterThanEqual? then t.recoveryOp.LessThan? || t.recoveryOp.LessThanEqual?
    else t.recoveryOp.GreaterThan? || t.recoveryOp.GreaterThanEqual?
  }

  /** Which ordering rules are accepted: those whose recovery range reaches away from the trigger range
      with a dead band between them, and `>` with recovery at exactly its threshold. */
  lemma OrderingRulesNeedADeadBand(t: Thresholds)
    requires IsOrdering(t.op)
    ensures ValidHysteresis(t) <==>
            || (Opposed(t) && Separate(t) && HasDeadBand(t))
            || (t.op.GreaterThan? && t.recoveryOp.Equal? && t.recoveryThreshold == t.threshold)
  {
    if Opposed(t) {
      if ValidHysteresis(t) {
        AcceptedRulesSeparateByForm(t);
        var third := (t.threshold - t.recoveryThreshold) / 3.0;
        var a, b := t.recoveryThreshold + third, t.threshold - third;
        assert DeadBand(t, if a < b then a else b, if a < b then b else a);
      } else if HasDeadBand(t) {
        var low, high :| DeadBand(t, low, high);
        NoRoom(t, low, high);
      }
    }
  }

  /** Opposed ranges that meet or cross leave no dead band. */
  lemma NoRoom(t: Thresholds, low: real, high: real)
    requires IsOrdering(t.op) && Opposed(t) && DeadBand(t, low, high)
    ensures if t.op.GreaterThan? || t.op.GreaterThanEqual? then t.recoveryThreshold < t.threshold
            else t.recoveryThreshold > t.threshold
  {
    var middle := (low + high) / 2.0;
    assert !t.Triggers(low) && !t.Recovers(low);
    assert !t.Triggers(high) && !t.Recovers(high);
    assert low < middle < high && !t.Triggers(middle) && !t.Recovers(middle);
  }

  /** An equality rule is accepted exactly when its two tests differ on some value, an unknown operator never. */
  lemma EqualityRulesNeedADifference(t: Thresholds)
    requires !IsOrdering(t.op)
    ensures ValidHysteresis(t) <==> !t.op.Unknown? && exists v :: t.Triggers(v) != t.Recovers(v)
  {
    if ValidHysteresis(t) {
      var a, b := t.threshold, t.recoveryThreshold;
      var off := Outside(a, b);
      assert t.Triggers(a) != t.Recovers(a) || t.Triggers(b) != t.Recovers(b)
             || t.Triggers(off.0) != t.Recovers(off.0) || t.Triggers(off.1) != t.Recovers(off.1);
    }
  }

  /** A value below both and a value above both. */
  function Outside(a: real, b: real): (r: (real, real))
    ensures r.0 < a && r.0 < b && r.1 > a && r.1 > b
  {
    (if a < b then a - 1.0 else b - 1.0, if a > b then a + 1.0 else b + 1.0)
  }

  /** The six comparisons, told by where the value lies. */
  lemma ComparisonsMean(value: real, op: Operator, threshold: real)
    ensures Compare(value, op, threshold) <==>
            if value > threshold then op.GreaterThan? || op.GreaterThanEqual? || op.NotEqual?
            else if value < threshold then op.LessThan? || op.LessThanEqual? || op.NotEqual?
            else op.GreaterThanEqual? || op.LessThanEqual? || op.Equal?
  {}

  /** A recovering value different from the threshold. */
  function RecoveringValueOff(t: Thresholds): (v: real)
    requires !t.recoveryOp.Unknown? && !(t.recoveryOp.Equal? && t.recoveryThreshold == t.threshold)
    ensures t.Recovers(v) && v != t.threshold
  {
    var r := t.recoveryThreshold;
    match t.recoveryOp
    case GreaterThan => if r + 1.0 != t.threshold then r + 1.0 else r + 2.0
    case GreaterThanEqual => if r + 1.0 != t.threshold then r + 1.0 else r + 2.0
    case LessThan => if r - 1.0 != t.threshold then r - 1.0 else r - 2.0
    case LessThanEqual => if r - 1.0 != t.threshold then r - 1.0 else r - 2.0
    case Equal => r
    case NotEqual => if r + 1.0 != t.threshold then r + 1.0 else r + 2.0
  }

  /** An equality rule the validation accepts although one value both triggers and recovers. */
  lemma EqualityRuleCanOverlap()
    ensures
      var t := Thresholds(Equal, 5.0, NotEqual, 6.0);
      ValidHysteresis(t) && t.Triggers(5.0) && t.Recovers(5.0) && !Separate(t)
  {
    var t := Thresholds(Equal, 5.0, NotEqual, 6.0);
    assert t.Triggers(5.0) && t.Recovers(5.0);
  }

  /** The order of the two tests is immaterial exactly for separate ranges. */
  lemma OrderOfTestsMattersOnlyOnOverlap(t: Thresholds)
    ensures Separate(t) <==> forall v :: Evaluate(v, t) == EvaluateRecoveryFirst(v, t)
  {
    if !Separate(t) {
      var v :| t.Triggers(v) && t.Recovers(v);
      assert Evaluate(v, t) != EvaluateRecoveryFirst(v, t);
    }
    if forall v :: Evaluate(v, t) == EvaluateRecoveryFirst(v, t) {
      forall v ensures !(t.Triggers(v) && t.Recovers(v)) {
        assert Evaluate(v, t) == EvaluateRecoveryFirst(v, t);
      }
    }
  }

  /** The loop over a categorical metric's encodings: some value triggers, some recovers, none
      does both. */
  method ValidCategoricalRecovery(encodings: map<string, real>, t: Thresholds) returns (ok: bool)
    ensures ok <==>
      && (forall name :: name in encodings ==> !(t.Triggers(encodings[name]) && t.Recovers(encodings[name])))
      && (exists name :: name in encodings && t.Triggers(encodings[name]))
      && (exists name :: name in encodings && t.Recovers(encodings[name]))
  {
    var hasTrigger, hasRecovery := false, false;
    var rest := encodings.Keys;
    while rest != {}
      invariant rest <= encodings.Keys
      invariant hasTrigger <==> exists name :: name in encodings && name !in rest && t.Triggers(encodings[name])
      invariant hasRecovery <==> exists name :: name in encodings && name !in rest && t.Recovers(encodings[name])
      invariant forall name :: name in encodings && name !in rest ==> !(t.Triggers(encodings[name]) && t.Recovers(encodings[name]))
    {
      var name :| name in rest;
      ghost var earlier := rest;
      rest := rest - {name};
      var trigger, recovery := t.Triggers(encodings[name]), t.Recovers(encodings[name]);
      if trigger && recovery { return false; }
      assert forall n :: n in encodings && n !in rest <==> n == name || (n in encodings && n !in earlier);
      hasTrigger := hasTrigger || trigger;
      hasRecovery := hasRecovery || recovery;
    }
    return hasTrigger && hasRecovery;
  }

  // ----- runs of values

  datatype RuleVersion = RuleVersion(thresholds: Thresholds, params: Params)

  /** What one evaluation found under the version in force. */
  datatype Reading = Value(version: int, value: real) | Gap(version: int, ignored: bool)

  function ToInput(r: Reading, rules: int -> RuleVersion): Input {
    match r
    case Value(v, x) => Observe(v, Evaluate(x, rules(v).thresholds))
    case Gap(v, ignored) => Observe(v, if ignored then MissingIgnored else Missing)
  }

  function ToHistory(readings: seq<Reading>, rules: int -> RuleVersion): (h: seq<Input>)
    ensures |h| == |readings|
    ensures forall i :: 0 <= i < |h| ==> h[i] == ToInput(readings[i], rules)
  {
    seq(|readings|, i requires 0 <= i < |readings| => ToInput(readings[i], rules))
  }

  function CountParams(rules: int -> RuleVersion): int -> Params { v => rules(v).params }

  /** The history without the purges. */
  function Observations(h: seq<Input>): seq<Input> {
    if h == [] then []
    else Observations(h[..|h| - 1]) + (if h[|h| - 1].Purged? then [] else [h[|h| - 1]])
  }

  /** A trailing count counts the latest observations, purges aside. */
  lemma {:induction false} TrailingMeansLatest(h: seq<Input>, version: int, e: Evaluation, rules: int -> Params)
    ensures
      var seen, n := Observations(h), Trailing(h, version, e, rules);
      n <= |seen| && forall i :: |seen| - n <= i < |seen| ==> seen[i] == Observe(version, e)
  {
    if h != [] {
      TrailingMeansLatest(h[..|h| - 1], version, e, rules);
    }
  }

  lemma {:induction false} NothingPurged(h: seq<Input>)
    requires forall i :: 0 <= i < |h| ==> !h[i].Purged?
    ensures Observations(h) == h
  {
    if h != [] { NothingPurged(h[..|h| - 1]); }
  }

  /** On every run of readings, an alert is resolved only after the recovery count of consecutive
      readings under one version, each a value in the recovery range that does not trigger. */
  lemma RecoversOnlyOnQuietValues(readings: seq<Reading>, last: Reading, rules: int -> RuleVersion)
    requires
      var params := CountParams(rules);
      && !StateOf(After(ToHistory(readings, rules), params)).RECOVERED?
      && StateOf(After(ToHistory(readings + [last], rules), params)).RECOVERED?
    ensures
      var all := readings + [last];
      var rule := rules(last.version);
      var n := AtLeastOne(rule.params.recoveryCount);
      && n <= |all|
      && (forall i :: |all| - n <= i < |all| ==>
            && all[i].Value? && all[i].version == last.version
            && rule.thresholds.Recovers(all[i].value) && !rule.thresholds.Triggers(all[i].value))
  {
    var all := readings + [last];
    var params := CountParams(rules);
    var h := ToHistory(readings, rules);
    var input := ToInput(last, rules);
    assert ToHistory(all, rules) == h + [input];
    RecoversExactlyAfterRecoveryCount(h, input.version, input.evaluation, params);
    TrailingMeansLatest(h + [input], input.version, Recovering, params);
    NothingPurged(h + [input]);
    forall i | |all| - AtLeastOne(params(last.version).recoveryCount) <= i < |all|
      ensures all[i].Value? && ToInput(all[i], rules) == Observe(last.version, Recovering)
    {
      assert (h + [input])[i] == ToInput(all[i], rules);
    }
  }

  // ----- the order of the two tests, over runs

  function ToInputRecoveryFirst(r: Reading, rules: int -> RuleVersion): Input {
    match r
    case Value(v, x) => Observe(v, EvaluateRecoveryFirst(x, rules(v).thresholds))
    case Gap(v, ignored) => Observe(v, if ignored then MissingIgnored else Missing)
  }

  /** The same readings with the recovery test first. */
  function ToHistoryRecoveryFirst(readings: seq<Reading>, rules: int -> RuleVersion): seq<Input> {
    seq(|readings|, i requires 0 <= i < |readings| => ToInputRecoveryFirst(readings[i], rules))
  }

  predicate Overlaps(r: Reading, rules: int -> RuleVersion) {
    r.Value? && rules(r.version).thresholds.Triggers(r.value) && rules(r.version).thresholds.Recovers(r.value)
  }

  /** Swapping the tests leaves a run's history alone exactly when no reading both triggers and recovers. */
  lemma SwappedTestsChangeOnlyOverlaps(readings: seq<Reading>, rules: int -> RuleVersion)
    ensures ToHistoryRecoveryFirst(readings, rules) == ToHistory(readings, rules)
            <==> forall i :: 0 <= i < |readings| ==> !Overlaps(readings[i], rules)
  {
    var swapped, plain := ToHistoryRecoveryFirst(readings, rules), ToHistory(readings, rules);
    forall i | 0 <= i < |readings| ensures swapped[i] == plain[i] <==> !Overlaps(readings[i], rules) {}
    if swapped == plain {
      forall i | 0 <= i < |readings| ensures !Overlaps(readings[i], rules) { assert swapped[i] == plain[i]; }
    }
  }

  /** With accepted ordering rules every run reaches the same stored state whichever test comes first. */
  lemma OrderingRulesFixTheRun(readings: seq<Reading>, rules: int -> RuleVersion)
    requires forall v :: ValidHysteresis(rules(v).thresholds) && IsOrdering(rules(v).thresholds.op)
    ensures After(ToHistoryRecoveryFirst(readings, rules), CountParams(rules)) == After(ToHistory(readings, rules), CountParams(rules))
  {
    forall i | 0 <= i < |readings| ensures !Overlaps(readings[i], rules) {
      AcceptedRulesSeparateByForm(rules(readings[i].version).thresholds);
    }
    SwappedTestsChangeOnlyOverlaps(readings, rules);
  }
}
