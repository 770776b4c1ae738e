/** What the per-database samples add up to: over one batch, the weighted cache hit ratio; over a
    run of readings, the counters themselves. */
module RateLaws {
  import opened Basics
  import opened Ordering
  import opened StatDatabase

  // ----- sums over samples

  function Sum(xs: seq<Sample>, f: Sample -> real): real {
    if xs == [] then 0.0 else Sum(xs[..|xs| - 1], f) + f(xs[|xs| - 1])
  }

  lemma {:induction false} SumAppend(a: seq<Sample>, b: seq<Sample>, f: Sample -> real)
    ensures Sum(a + b, f) == Sum(a, f) + Sum(b, f)
  {
    if b == [] {
      assert a + b == a;
    } else {
      var n := |b| - 1;
      assert (a + b)[..|a + b| - 1] == a + b[..n];
      SumAppend(a, b[..n], f);
    }
  }

  lemma SumOne(x: Sample, f: Sample -> real)
    ensures Sum([x], f) == f(x)
  {
    assert [x][..0] == [];
  }

  lemma {:induction false} SumOfNothing(xs: seq<Sample>, f: Sample -> real)
    requires forall x :: x in xs ==> f(x) == 0.0
    ensures Sum(xs, f) == 0.0
  {
    if xs != [] { SumOfNothing(xs[..|xs| - 1], f); }
  }

  // ----- the weighted query

  /** The weight rows joined to a ratio row: same database, weight not negative. */
  predicate Joins(r: Sample, w: Sample) {
    r.metric.HitRatio? && w.metric.BlockAccess? && w.database == r.database && w.value >= 0.0
  }

  function ValueTimesWeight(r: Sample): Sample -> real { (w: Sample) => if Joins(r, w) then r.value * w.value else 0.0 }
  function WeightOnly(r: Sample): Sample -> real { (w: Sample) => if Joins(r, w) then w.value else 0.0 }

  function Numerator(samples: seq<Sample>): Sample -> real { (r: Sample) => Sum(samples, ValueTimesWeight(r)) }
  function Denominator(samples: seq<Sample>): Sample -> real { (r: Sample) => Sum(samples, WeightOnly(r)) }

  /** The instance-level point the rule window sees for one instant: the weighted average over the
      join, and no point when the total weight is not positive. */
  function WeightedPoint(samples: seq<Sample>): Option<real> {
    var weight := Sum(samples, Denominator(samples));
    if weight > 0.0 then Some(Sum(samples, Numerator(samples)) / weight) else None
  }

  // ----- one database's part

  lemma {:induction false} CounterSamplesKinds(rates: Counters, name: string, n: nat)
    requires n <= CounterCount
    ensures forall x :: x in CounterSamples(rates, name, n) ==>
              !x.metric.BlockAccess? && !x.metric.HitRatio? && !x.metric.Tps? && x.database == name
  {
    if n > 0 { CounterSamplesKinds(rates, name, n - 1); }
  }

  function TpsSample(rates: Counters, name: string): Sample { Sample(Tps, name, rates[CommitIndex] + rates[RollbackIndex]) }

  function HitSample(rates: Counters, name: string): Sample
    requires Access(rates) > 0.0
  {
    Sample(HitRatio, name, rates[HitIndex] * 100.0 / Access(rates))
  }

  /** The sum over one database's samples, part by part. */
  lemma SumDatabase(rates: Counters, name: string, f: Sample -> real)
    ensures Sum(DatabaseSamples(rates, name), f) ==
              f(TpsSample(rates, name)) + Sum(CounterSamples(rates, name, CounterCount), f)
              + f(Sample(BlockAccess, name, Access(rates)))
              + (if Access(rates) > 0.0 then f(HitSample(rates, name)) else 0.0)
  {
    var tps, counters := TpsSample(rates, name), CounterSamples(rates, name, CounterCount);
    var weight := Sample(BlockAccess, name, Access(rates));
    SumOne(tps, f);
    SumOne(weight, f);
    SumAppend([tps], counters, f);
    SumAppend([tps] + counters, [weight], f);
    if Access(rates) > 0.0 {
      SumOne(HitSample(rates, name), f);
      SumAppend([tps] + counters + [weight], [HitSample(rates, name)], f);
    } else {
      assert [tps] + counters + [weight] + [] == [tps] + counters + [weight];
    }
  }

  ghost predicate NotNegative(rates: Counters) { forall i :: 0 <= i < CounterCount ==> rates[i] >= 0.0 }

  /** A sum that only looks at access rates sees one term of a database. */
  lemma OnlyTheWeightCounts(rates: Counters, name: string, f: Sample -> real)
    requires forall x: Sample :: !x.metric.BlockAccess? ==> f(x) == 0.0
    ensures Sum(DatabaseSamples(rates, name), f) == f(Sample(BlockAccess, name, Access(rates)))
  {
    CounterSamplesKinds(rates, name, CounterCount);
    SumDatabase(rates, name, f);
    SumOfNothing(CounterSamples(rates, name, CounterCount), f);
  }

  /** What a ratio row meets in one database's samples. */
  lemma JoinInDatabase(r: Sample, rates: Counters, name: string)
    requires NotNegative(rates) && r.metric.HitRatio?
    ensures
      var samples := DatabaseSamples(rates, name);
      && Sum(samples, WeightOnly(r)) == (if r.database == name then Access(rates) else 0.0)
      && Sum(samples, ValueTimesWeight(r)) == (if r.database == name then r.value * Access(rates) else 0.0)
  {
    OnlyTheWeightCounts(rates, name, WeightOnly(r));
    OnlyTheWeightCounts(rates, name, ValueTimesWeight(r));
  }

  // ----- a batch

  ghost predicate Comparable(previous: Snapshot, current: Snapshot, names: seq<string>) {
    && previous.observedAt < current.observedAt
    && NoDup(names)
    && (forall n :: n in names ==> n in previous.databases && n in current.databases)
    && (forall n :: n in names ==> Rising(previous.databases[n], current.databases[n]))
  }

  lemma RatesNotNegative(previous: Snapshot, current: Snapshot, name: string)
    requires previous.observedAt < current.observedAt && name in previous.databases && name in current.databases
    requires Rising(previous.databases[name], current.databases[name])
    ensures NotNegative(RatesBetween(previous, current, name))
  {
    var t := Seconds(current.observedAt - previous.observedAt);
    assert t > 0.0;
    var before, now := previous.databases[name], current.databases[name];
    forall i | 0 <= i < CounterCount ensures RatesBetween(previous, current, name)[i] >= 0.0 {
      QuotientSign(now[i] - before[i], t);
    }
  }

  lemma QuotientSign(a: real, t: real)
    requires a >= 0.0 && t > 0.0
    ensures a / t >= 0.0
  {}

  lemma PrefixComparable(previous: Snapshot, current: Snapshot, names: seq<string>, k: nat)
    requires Comparable(previous, current, names) && k < |names|
    ensures Comparable(previous, current, names[..k]) && names[k] !in names[..k] && names[k] in names
  {}

  /** A ratio row finds its own database's weight, if the database is in the batch. */
  ghost predicate FindsWeight(r: Sample, samples: seq<Sample>, found: bool, weight: real) {
    && Sum(samples, WeightOnly(r)) == (if found then weight else 0.0)
    && Sum(samples, ValueTimesWeight(r)) == (if found then r.value * weight else 0.0)
  }

  /** A ratio row joins exactly its own database's weight. */
  lemma {:induction false} JoinInBatch(r: Sample, previous: Snapshot, current: Snapshot, names: seq<string>)
    requires Comparable(previous, current, names) && r.metric.HitRatio?
    ensures FindsWeight(r, SamplesFor(previous, current, names), r.database in names,
                        if r.database in names then Access(RatesBetween(previous, current, r.database)) else 0.0)
  {
    if names != [] {
      var k := |names| - 1;
      var name := names[k];
      PrefixComparable(previous, current, names, k);
      JoinInBatch(r, previous, current, names[..k]);
      RatesNotNegative(previous, current, name);
      var found := r.database in names[..k];
      assert r.database in names <==> found || r.database == name;
      JoinLast(r, SamplesFor(previous, current, names[..k]), RatesBetween(previous, current, name), name, found,
               if found then Access(RatesBetween(previous, current, r.database)) else 0.0);
    }
  }

  lemma JoinLast(r: Sample, earlier: seq<Sample>, rates: Counters, name: string, found: bool, weight: real)
    requires NotNegative(rates) && r.metric.HitRatio?
    requires FindsWeight(r, earlier, found, weight) && !(found && r.database == name)
    ensures FindsWeight(r, earlier + DatabaseSamples(rates, name), found || r.database == name,
                        if r.database == name then Access(rates) else weight)
  {
    JoinInDatabase(r, rates, name);
    SumAppend(earlier, DatabaseSamples(rates, name), WeightOnly(r));
    SumAppend(earlier, DatabaseSamples(rates, name), ValueTimesWeight(r));
  }

  lemma OnlyRatiosCount(samples: seq<Sample>, x: Sample)
    requires !x.metric.HitRatio?
    ensures Numerator(samples)(x) == 0.0 && Denominator(samples)(x) == 0.0
  {
    SumOfNothing(samples, ValueTimesWeight(x));
    SumOfNothing(samples, WeightOnly(x));
  }

  lemma DivTimes(a: real, b: real)
    requires b > 0.0
    ensures a / b * b == a
  {}

  lemma OnlyTheRatioCounts(all: seq<Sample>, rates: Counters, name: string)
    ensures
      var one := DatabaseSamples(rates, name);
      && Sum(one, Numerator(all)) == (if Access(rates) > 0.0 then Numerator(all)(HitSample(rates, name)) else 0.0)
      && Sum(one, Denominator(all)) == (if Access(rates) > 0.0 then Denominator(all)(HitSample(rates, name)) else 0.0)
  {
    var counters := CounterSamples(rates, name, CounterCount);
    CounterSamplesKinds(rates, name, CounterCount);
    forall x | x in counters ensures Numerator(all)(x) == 0.0 && Denominator(all)(x) == 0.0 { OnlyRatiosCount(all, x); }
    SumOfNothing(counters, Numerator(all));
    SumOfNothing(counters, Denominator(all));
    SumDatabase(rates, name, Numerator(all));
    SumDatabase(rates, name, Denominator(all));
    OnlyRatiosCount(all, TpsSample(rates, name));
    OnlyRatiosCount(all, Sample(BlockAccess, name, Access(rates)));
  }

  /** The weighted value of a database's ratio is a hundred times its hit rate. */
  lemma WeightedHit(all: seq<Sample>, rates: Counters, name: string)
    requires Access(rates) > 0.0 && FindsWeight(HitSample(rates, name), all, true, Access(rates))
    ensures Numerator(all)(HitSample(rates, name)) == 100.0 * rates[HitIndex]
    ensures Denominator(all)(HitSample(rates, name)) == Access(rates)
  {
    DivTimes(rates[HitIndex] * 100.0, Access(rates));
  }

  /** What one database adds to the two sums of the weighted average: a hundred times its hit rate,
      and its access rate, whether or not it emitted a ratio. */
  lemma DatabaseAdds(previous: Snapshot, current: Snapshot, names: seq<string>, name: string)
    requires Comparable(previous, current, names) && name in names
    ensures
      var all := SamplesFor(previous, current, names);
      var rates := RatesBetween(previous, current, name);
      && Sum(DatabaseSamples(rates, name), Numerator(all)) == 100.0 * rates[HitIndex]
      && Sum(DatabaseSamples(rates, name), Denominator(all)) == Access(rates)
  {
    var all := SamplesFor(previous, current, names);
    var rates := RatesBetween(previous, current, name);
    RatesNotNegative(previous, current, name);
    OnlyTheRatioCounts(all, rates, name);
    if Access(rates) > 0.0 {
      JoinInBatch(HitSample(rates, name), previous, current, names);
      WeightedHit(all, rates, name);
    }
  }

  /** The named databases' rates of one counter, summed. */
  ghost function RateTotal(previous: Snapshot, current: Snapshot, names: seq<string>, index: nat): real
    requires index < CounterCount && previous.observedAt < current.observedAt
    requires forall n :: n in names ==> n in previous.databases && n in current.databases
  {
    if names == [] then 0.0
    else
      var k := |names| - 1;
      RateTotal(previous, current, names[..k], index) + RatesBetween(previous, current, names[k])[index]
  }

  /** The two sums over a part of the batch are a hundred times the hit rates, and the access rates. */
  ghost predicate AddsUp(previous: Snapshot, current: Snapshot, names: seq<string>, all: seq<Sample>)
    requires previous.observedAt < current.observedAt
    requires forall n :: n in names ==> n in previous.databases && n in current.databases
  {
    var part := SamplesFor(previous, current, names);
    && Sum(part, Numerator(all)) == 100.0 * RateTotal(previous, current, names, HitIndex)
    && Sum(part, Denominator(all)) == RateTotal(previous, current, names, HitIndex) + RateTotal(previous, current, names, ReadIndex)
  }

  lemma AddsUpStep(previous: Snapshot, current: Snapshot, names: seq<string>, name: string, all: seq<Sample>)
    requires previous.observedAt < current.observedAt
    requires forall n :: n in names + [name] ==> n in previous.databases && n in current.databases
    requires AddsUp(previous, current, names, all)
    requires
      var rates := RatesBetween(previous, current, name);
      && Sum(DatabaseSamples(rates, name), Numerator(all)) == 100.0 * rates[HitIndex]
      && Sum(DatabaseSamples(rates, name), Denominator(all)) == Access(rates)
    ensures AddsUp(previous, current, names + [name], all)
  {
    assert (names + [name])[..|names|] == names;
    var part, one := SamplesFor(previous, current, names), DatabaseSamples(RatesBetween(previous, current, name), name);
    SumAppend(part, one, Numerator(all));
    SumAppend(part, one, Denominator(all));
  }

  lemma {:induction false} BatchAdds(previous: Snapshot, current: Snapshot, names: seq<string>, k: nat)
    requires Comparable(previous, current, names) && k <= |names|
    ensures AddsUp(previous, current, names[..k], SamplesFor(previous, current, names))
  {
    if k > 0 {
      BatchAdds(previous, current, names, k - 1);
      DatabaseAdds(previous, current, names, names[k - 1]);
      assert names[..k] == names[..k - 1] + [names[k - 1]];
      AddsUpStep(previous, current, names[..k - 1], names[k - 1], SamplesFor(previous, current, names));
    }
  }

  /** How much a counter moved, over all the named databases. */
  ghost function Moved(previous: Snapshot, current: Snapshot, names: seq<string>, index: nat): real
    requires index < CounterCount
    requires forall n :: n in names ==> n in previous.databases && n in current.databases
  {
    if names == [] then 0.0
    else
      var k := |names| - 1;
      Moved(previous, current, names[..k], index)
      + (current.databases[names[k]][index] - previous.databases[names[k]][index])
  }

  lemma {:induction false} RateTotalIsMovement(previous: Snapshot, current: Snapshot, names: seq<string>, index: nat, t: real)
    requires index < CounterCount && previous.observedAt < current.observedAt
    requires t == Seconds(current.observedAt - previous.observedAt)
    requires forall n :: n in names ==> n in previous.databases && n in current.databases
    ensures RateTotal(previous, current, names, index) * t == Moved(previous, current, names, index)
  {
    if names != [] {
      var k := |names| - 1;
      RateTotalIsMovement(previous, current, names[..k], index, t);
      var rate := RatesBetween(previous, current, names[k])[index];
      DivTimes(current.databases[names[k]][index] - previous.databases[names[k]][index], t);
      Distribute(RateTotal(previous, current, names[..k], index), rate, t);
    }
  }

  lemma Distribute(a: real, b: real, t: real)
    ensures (a + b) * t == a * t + b * t
  {}

  /** A hundred times the blocks hit over the blocks hit or read, of the counters summed over the
      named databases; none when nothing was accessed. */
  ghost function TotalRatio(previous: Snapshot, current: Snapshot, names: seq<string>): Option<real>
    requires forall n :: n in names ==> n in previous.databases && n in current.databases
  {
    Ratio(Moved(previous, current, names, HitIndex), Moved(previous, current, names, ReadIndex))
  }

  function Ratio(hit: real, read: real): Option<real> {
    if hit + read > 0.0 then Some(100.0 * hit / (hit + read)) else None
  }

  /** The instance-level cache hit ratio is that of the summed counters, databases that emitted no
      ratio included; and there is no point when nothing was accessed. */
  lemma WeightedRatioIsTotalRatio(previous: Snapshot, current: Snapshot, names: seq<string>)
    requires Comparable(previous, current, names)
    ensures WeightedPoint(SamplesFor(previous, current, names)) == TotalRatio(previous, current, names)
  {
    assert names[..|names|] == names;
    BatchAdds(previous, current, names, |names|);
    QuotientOfMovement(previous, current, names, Seconds(current.observedAt - previous.observedAt));
  }

  lemma QuotientOfMovement(previous: Snapshot, current: Snapshot, names: seq<string>, t: real)
    requires Comparable(previous, current, names) && t == Seconds(current.observedAt - previous.observedAt)
    ensures TotalRatio(previous, current, names)
            == Ratio(RateTotal(previous, current, names, HitIndex), RateTotal(previous, current, names, ReadIndex))
  {
    assert t > 0.0;
    RateTotalIsMovement(previous, current, names, HitIndex, t);
    RateTotalIsMovement(previous, current, names, ReadIndex, t);
    CommonFactor(RateTotal(previous, current, names, HitIndex), RateTotal(previous, current, names, ReadIndex), t,
                 Moved(previous, current, names, HitIndex), Moved(previous, current, names, ReadIndex));
  }

  lemma CommonFactor(a: real, b: real, t: real, at: real, bt: real)
    requires t > 0.0 && a * t == at && b * t == bt
    ensures Ratio(a, b) == Ratio(at, bt)
  {
    assert (a + b) * t == at + bt;
    if a + b > 0.0 {
      var q := 100.0 * a / (a + b);
      assert q * (a + b) == 100.0 * a;
      assert q * (at + bt) == q * ((a + b) * t) == (q * (a + b)) * t == 100.0 * at;
      QuotientIs(100.0 * at, at + bt, q);
    }
  }

  lemma QuotientIs(x: real, y: real, q: real)
    requires y > 0.0 && q * y == x
    ensures x / y == q
  {}

  /** Through the rate state: the batch of any two readings without a decrease. */
  lemma ObservedRatioIsTotalRatio(previous: Snapshot, current: Snapshot)
    requires previous.observedAt < current.observedAt && !Decreased(previous, current)
    ensures Comparable(previous, current, Listing(Common(previous, current)))
    ensures WeightedPoint(BatchOf(Some(previous), current).samples)
            == TotalRatio(previous, current, Listing(Common(previous, current)))
  {
    ListingComparable(previous, current);
    ObservedSamples(previous, current);
    WeightedRatioIsTotalRatio(previous, current, Listing(Common(previous, current)));
  }

  lemma ObservedSamples(previous: Snapshot, current: Snapshot)
    requires previous.observedAt < current.observedAt && !Decreased(previous, current)
    requires Comparable(previous, current, Listing(Common(previous, current)))
    ensures BatchOf(Some(previous), current).samples == SamplesFor(previous, current, Listing(Common(previous, current)))
  {}

  lemma ListingComparable(previous: Snapshot, current: Snapshot)
    requires previous.observedAt < current.observedAt && !Decreased(previous, current)
    ensures Comparable(previous, current, Listing(Common(previous, current)))
  {
    var names := Listing(Common(previous, current));
    ListingAscends(Common(previous, current));
    forall i, j | 0 <= i < j < |names| ensures names[i] != names[j] {
      assert StringLess(names[i], names[j]);
      StringIrreflexive(names[i]);
    }
    forall n | n in names ensures n in Common(previous, current) { assert n in Elems(names); }
  }

  // ----- the order of a batch

  lemma SamplesNameTheirDatabase(rates: Counters, name: string)
    ensures forall x :: x in DatabaseSamples(rates, name) ==> x.database == name
  {
    CounterSamplesKinds(rates, name, CounterCount);
  }

  /** Grouped by database, the databases in ascending order. */
  ghost predicate InNameOrder(samples: seq<Sample>) {
    forall i, j :: 0 <= i < j < |samples| ==>
      samples[i].database == samples[j].database || StringLess(samples[i].database, samples[j].database)
  }

  lemma {:induction false} NamesInOrder(previous: Snapshot, current: Snapshot, names: seq<string>)
    requires Comparable(previous, current, names) && Ascending(StringLess, names)
    ensures InNameOrder(SamplesFor(previous, current, names))
    ensures forall x :: x in SamplesFor(previous, current, names) ==> x.database in names
  {
    if names != [] {
      var k := |names| - 1;
      PrefixComparable(previous, current, names, k);
      NamesInOrder(previous, current, names[..k]);
      SamplesNameTheirDatabase(RatesBetween(previous, current, names[k]), names[k]);
      forall x | x in SamplesFor(previous, current, names[..k]) ensures StringLess(x.database, names[k]) {
        var i :| 0 <= i < k && names[..k][i] == x.database;
        assert names[i] == x.database;
      }
    }
  }

  /** What a reading reports is grouped by database in ascending order of their names. */
  lemma BatchIsInNameOrder(previous: Snapshot, current: Snapshot)
    ensures InNameOrder(BatchOf(Some(previous), current).samples)
  {
    if previous.observedAt < current.observedAt && !Decreased(previous, current) {
      ListingComparable(previous, current);
      ListingAscends(Common(previous, current));
      NamesInOrder(previous, current, Listing(Common(previous, current)));
    }
  }

  // ----- rates over a run of readings

  predicate IsCounter(metric: Metric) { !metric.Tps? && !metric.BlockAccess? && !metric.HitRatio? }

  function IndexOf(metric: Metric): (i: nat)
    requires IsCounter(metric)
    ensures i < CounterCount && CounterMetric(i) == Some(metric)
  {
    match metric
    case XactCommit => 0
    case XactRollback => 1
    case TuplesRead => 2
    case TuplesWrite => 3
    case TempFiles => 4
    case TempBytes => 5
    case Deadlocks => 8
  }

  lemma CounterMetricIs(i: nat, metric: Metric)
    ensures CounterMetric(i) == Some(metric) <==> IsCounter(metric) && IndexOf(metric) == i
  {}

  /** The counters a metric is the rate of. */
  function Parts(metric: Metric): (nat, Option<nat>)
    requires !metric.HitRatio?
    ensures Parts(metric).0 < CounterCount && (Parts(metric).1.Some? ==> Parts(metric).1.value < CounterCount)
  {
    if metric.Tps? then (CommitIndex, Some(RollbackIndex))
    else if metric.BlockAccess? then (HitIndex, Some(ReadIndex))
    else (IndexOf(metric), None)
  }

  /** The counter quantity a rate metric is the rate of. */
  function Measure(metric: Metric, c: Counters): real
    requires !metric.HitRatio?
  {
    var (i, j) := Parts(metric);
    if j.Some? then c[i] + c[j.value] else c[i]
  }

  function Pick(metric: Metric, database: string): Sample -> real {
    (x: Sample) => if x.metric == metric && x.database == database then x.value else 0.0
  }

  lemma PickAppend(xs: seq<Sample>, x: Sample, metric: Metric, database: string)
    ensures Sum(xs + [x], Pick(metric, database))
            == Sum(xs, Pick(metric, database)) + (if x.metric == metric && x.database == database then x.value else 0.0)
  {
    SumAppend(xs, [x], Pick(metric, database));
    SumOne(x, Pick(metric, database));
  }

  /** Where a metric's counter is among the first n. */
  ghost predicate Among(metric: Metric, n: nat) { IsCounter(metric) && IndexOf(metric) < n }

  ghost function PickedFrom(rates: Counters, n: nat, metric: Metric): real {
    if Among(metric, n) then rates[IndexOf(metric)] else 0.0
  }

  lemma PickedStep(rates: Counters, n: nat, metric: Metric)
    requires n < CounterCount
    ensures PickedFrom(rates, n + 1, metric)
            == PickedFrom(rates, n, metric) + (if CounterMetric(n) == Some(metric) then rates[n] else 0.0)
  {
    CounterMetricIs(n, metric);
  }

  lemma CounterStep(rates: Counters, name: string, n: nat, metric: Metric, database: string)
    requires n < CounterCount
    ensures Sum(CounterSamples(rates, name, n + 1), Pick(metric, database))
            == Sum(CounterSamples(rates, name, n), Pick(metric, database))
               + (if database == name && CounterMetric(n) == Some(metric) then rates[n] else 0.0)
  {
    var reported := CounterMetric(n);
    if reported.Some? {
      PickAppend(CounterSamples(rates, name, n), Sample(reported.value, name, rates[n]), metric, database);
    }
  }

  /** The first n counters report a metric at its rate, for their own database. */
  ghost predicate PickedRight(rates: Counters, name: string, n: nat, metric: Metric, database: string)
    requires n <= CounterCount
  {
    Sum(CounterSamples(rates, name, n), Pick(metric, database)) == if database == name then PickedFrom(rates, n, metric) else 0.0
  }

  lemma PickedRightStep(rates: Counters, name: string, n: nat, metric: Metric, database: string)
    requires n < CounterCount && PickedRight(rates, name, n, metric, database)
    ensures PickedRight(rates, name, n + 1, metric, database)
  {
    CounterStep(rates, name, n, metric, database);
    PickedStep(rates, n, metric);
  }

  lemma {:induction false} PickFromCounters(rates: Counters, name: string, n: nat, metric: Metric, database: string)
    requires n <= CounterCount
    ensures PickedRight(rates, name, n, metric, database)
  {
    if n > 0 {
      PickFromCounters(rates, name, n - 1, metric, database);
      PickedRightStep(rates, name, n - 1, metric, database);
    }
  }

  lemma AllCounters(rates: Counters, metric: Metric)
    ensures PickedFrom(rates, CounterCount, metric) == if IsCounter(metric) then rates[IndexOf(metric)] else 0.0
  {}

  lemma PickFromDatabase(rates: Counters, name: string, metric: Metric, database: string)
    requires !metric.HitRatio?
    ensures Sum(DatabaseSamples(rates, name), Pick(metric, database))
            == if database == name then Measure(metric, rates) else 0.0
  {
    var f := Pick(metric, database);
    PickFromCounters(rates, name, CounterCount, metric, database);
    SumDatabase(rates, name, f);
    AllCounters(rates, metric);
    assert Access(rates) > 0.0 ==> f(HitSample(rates, name)) == 0.0;
  }

  /** A batch reports each metric of each named database once, with its rate. */
  lemma {:induction false} PickFromBatch(previous: Snapshot, current: Snapshot, names: seq<string>, metric: Metric, database: string)
    requires previous.observedAt < current.observedAt && NoDup(names) && !metric.HitRatio?
    requires forall n :: n in names ==> n in previous.databases && n in current.databases
    ensures Sum(SamplesFor(previous, current, names), Pick(metric, database))
            == if database in names then Measure(metric, RatesBetween(previous, current, database)) else 0.0
  {
    if names != [] {
      var k := |names| - 1;
      PickFromBatch(previous, current, names[..k], metric, database);
      var rates := RatesBetween(previous, current, names[k]);
      PickFromDatabase(rates, names[k], metric, database);
      SumAppend(SamplesFor(previous, current, names[..k]), DatabaseSamples(rates, names[k]), Pick(metric, database));
      assert database in names <==> database in names[..k] || database == names[k];
    }
  }

  lemma RateTimesElapsed(before: Counters, now: Counters, elapsed: int, i: nat, t: real)
    requires elapsed > 0 && i < CounterCount && t == Seconds(elapsed)
    ensures Rates(before, now, elapsed)[i] * t == now[i] - before[i]
  {
    DivTimes(now[i] - before[i], t);
  }

  lemma MeasureTimesElapsed(before: Counters, now: Counters, elapsed: int, metric: Metric, t: real)
    requires elapsed > 0 && !metric.HitRatio? && t == Seconds(elapsed)
    ensures Measure(metric, Rates(before, now, elapsed)) * t == Measure(metric, now) - Measure(metric, before)
  {
    var rates := Rates(before, now, elapsed);
    var (i, j) := Parts(metric);
    RateTimesElapsed(before, now, elapsed, i, t);
    if j.Some? {
      RateTimesElapsed(before, now, elapsed, j.value, t);
      Distribute(rates[i], rates[j.value], t);
    }
  }

  /** The rate one reading emits for a database's metric. */
  ghost function Emitted(baseline: Snapshot, reading: Snapshot, metric: Metric, database: string): real {
    Sum(BatchOf(Some(baseline), reading).samples, Pick(metric, database))
  }

  /** A rate times the elapsed time; nothing for a reading that is not later. */
  function Gain(rate: real, elapsed: int): real { if elapsed <= 0 then 0.0 else rate * Seconds(elapsed) }

  /** What one reading's emitted rate amounts to. */
  ghost function GainOf(baseline: Snapshot, reading: Snapshot, metric: Metric, database: string): real {
    Gain(Emitted(baseline, reading, metric, database), reading.observedAt - baseline.observedAt)
  }

  /** The gains of a run of readings, one after the other. */
  ghost function Gains(baseline: Snapshot, readings: seq<Snapshot>, metric: Metric, database: string): seq<real>
    decreases |readings|
  {
    if readings == [] then []
    else [GainOf(baseline, readings[0], metric, database)]
         + Gains(NextBaseline(Some(baseline), readings[0]), readings[1..], metric, database)
  }

  function Total(xs: seq<real>): real { if xs == [] then 0.0 else xs[0] + Total(xs[1..]) }

  /** The baseline a run of readings leaves behind. */
  function Baseline(baseline: Snapshot, readings: seq<Snapshot>): Snapshot
    decreases |readings|
  {
    if readings == [] then baseline else Baseline(NextBaseline(Some(baseline), readings[0]), readings[1..])
  }

  /** No reading resets, and the database is in every baseline along the way. */
  ghost predicate Uninterrupted(baseline: Snapshot, readings: seq<Snapshot>, database: string)
    decreases |readings|
  {
    && database in baseline.databases
    && (readings != [] ==>
          !Resets(baseline, readings[0])
          && Uninterrupted(NextBaseline(Some(baseline), readings[0]), readings[1..], database))
  }

  lemma EmittedIsMeasured(baseline: Snapshot, reading: Snapshot, metric: Metric, database: string)
    requires !metric.HitRatio? && baseline.observedAt < reading.observedAt && !Decreased(baseline, reading)
    ensures Emitted(baseline, reading, metric, database)
            == if database in Common(baseline, reading) then Measure(metric, RatesBetween(baseline, reading, database)) else 0.0
  {
    ListingComparable(baseline, reading);
    ObservedSamples(baseline, reading);
    var names := Listing(Common(baseline, reading));
    assert database in Elems(names) <==> database in names;
    PickFromBatch(baseline, reading, names, metric, database);
  }

  lemma GainIsMovement(before: Counters, now: Counters, elapsed: int, metric: Metric)
    requires elapsed > 0 && !metric.HitRatio?
    ensures Gain(Measure(metric, Rates(before, now, elapsed)), elapsed) == Measure(metric, now) - Measure(metric, before)
  {
    MeasureTimesElapsed(before, now, elapsed, metric, Seconds(elapsed));
  }

  /** A reading that reports the database: later, no counter of any database down, the database in both. */
  ghost predicate Reports(baseline: Snapshot, reading: Snapshot, database: string) {
    baseline.observedAt < reading.observedAt && !Decreased(baseline, reading) && database in Common(baseline, reading)
  }

  /** What the counters moved, where the reading reports them. */
  ghost function Movement(baseline: Snapshot, reading: Snapshot, metric: Metric, database: string): real
    requires !metric.HitRatio?
  {
    if Reports(baseline, reading, database)
    then Measure(metric, reading.databases[database]) - Measure(metric, baseline.databases[database])
    else 0.0
  }

  lemma ReportedGain(baseline: Snapshot, reading: Snapshot, metric: Metric, database: string)
    requires !metric.HitRatio? && Reports(baseline, reading, database)
    ensures GainOf(baseline, reading, metric, database) == Movement(baseline, reading, metric, database)
  {
    EmittedIsMeasured(baseline, reading, metric, database);
    GainIsMovement(baseline.databases[database], reading.databases[database], reading.observedAt - baseline.observedAt, metric);
  }

  lemma NothingEmitted(baseline: Snapshot, reading: Snapshot, metric: Metric, database: string)
    requires !metric.HitRatio? && !Reports(baseline, reading, database)
    ensures Emitted(baseline, reading, metric, database) == 0.0
  {
    if baseline.observedAt < reading.observedAt && !Decreased(baseline, reading) {
      EmittedIsMeasured(baseline, reading, metric, database);
    }
  }

  /** One reading, whatever it is: an emitted rate times its elapsed time is what the counters moved. */
  lemma OneReading(baseline: Snapshot, reading: Snapshot, metric: Metric, database: string)
    requires !metric.HitRatio?
    ensures GainOf(baseline, reading, metric, database) == Movement(baseline, reading, metric, database)
  {
    if Reports(baseline, reading, database) {
      ReportedGain(baseline, reading, metric, database);
    } else {
      NothingEmitted(baseline, reading, metric, database);
      assert Gain(0.0, reading.observedAt - baseline.observedAt) == 0.0;
    }
  }

  /** The baseline a reading meets is the latest of all before it, the earliest of those if several. */
  lemma {:induction false} BaselineIsLatest(baseline: Snapshot, readings: seq<Snapshot>)
    ensures
      var all, latest := [baseline] + readings, Baseline(baseline, readings);
      exists i :: 0 <= i < |all| && all[i] == latest && Leads(all, i)
    decreases |readings|
  {
    var all := [baseline] + readings;
    if readings == [] {
      assert all[0] == baseline && Leads(all, 0);
    } else {
      var next, rest := NextBaseline(Some(baseline), readings[0]), readings[1..];
      BaselineIsLatest(next, rest);
      var i :| 0 <= i < |rest| + 1 && ([next] + rest)[i] == Baseline(next, rest) && Leads([next] + rest, i);
      if i == 0 {
        LeadsFirst(baseline, readings);
      } else {
        LeadsLater(baseline, readings, i);
      }
    }
  }

  /** No reading before it is as late, and none after it later. */
  ghost predicate Leads(all: seq<Snapshot>, i: nat)
    requires i < |all|
  {
    && (forall j :: 0 <= j < i ==> all[j].observedAt < all[i].observedAt)
    && (forall j :: i < j < |all| ==> all[j].observedAt <= all[i].observedAt)
  }

  lemma LeadsFirst(baseline: Snapshot, readings: seq<Snapshot>)
    requires readings != [] && Leads([NextBaseline(Some(baseline), readings[0])] + readings[1..], 0)
    ensures
      var all, next := [baseline] + readings, NextBaseline(Some(baseline), readings[0]);
      exists i :: 0 <= i < |all| && all[i] == next && Leads(all, i)
  {
    var all, next := [baseline] + readings, NextBaseline(Some(baseline), readings[0]);
    var later := [next] + readings[1..];
    assert forall j :: 1 <= j < |later| ==> later[j] == all[j + 1];
    var i := if readings[0].observedAt <= baseline.observedAt then 0 else 1;
    forall j | i < j < |all| ensures all[j].observedAt <= all[i].observedAt {
      if j > 1 { assert all[j] == later[j - 1]; }
    }
    assert all[i] == next && Leads(all, i);
  }

  lemma LeadsLater(baseline: Snapshot, readings: seq<Snapshot>, i: nat)
    requires readings != [] && 0 < i < |readings|
    requires Leads([NextBaseline(Some(baseline), readings[0])] + readings[1..], i)
    ensures Leads([baseline] + readings, i + 1)
    ensures ([baseline] + readings)[i + 1] == ([NextBaseline(Some(baseline), readings[0])] + readings[1..])[i]
  {
    var all, later := [baseline] + readings, [NextBaseline(Some(baseline), readings[0])] + readings[1..];
    assert forall j :: 1 <= j < |later| ==> later[j] == all[j + 1];
    forall j | 0 <= j < i + 1 ensures all[j].observedAt < all[i + 1].observedAt {
      if j > 1 { assert all[j] == later[j - 1]; } else { assert later[0].observedAt < later[i].observedAt; }
    }
    forall j | i + 1 < j < |all| ensures all[j].observedAt <= all[i + 1].observedAt {
      assert all[j] == later[j - 1];
    }
  }

  lemma {:induction false} GainsLength(baseline: Snapshot, readings: seq<Snapshot>, metric: Metric, database: string)
    ensures |Gains(baseline, readings, metric, database)| == |readings|
    decreases |readings|
  {
    if readings != [] { GainsLength(NextBaseline(Some(baseline), readings[0]), readings[1..], metric, database); }
  }

  lemma {:induction false} GainAt(baseline: Snapshot, readings: seq<Snapshot>, metric: Metric, database: string, i: nat)
    requires i < |readings| == |Gains(baseline, readings, metric, database)|
    ensures Gains(baseline, readings, metric, database)[i] == GainOf(Baseline(baseline, readings[..i]), readings[i], metric, database)
    decreases |readings|
  {
    var next, rest := NextBaseline(Some(baseline), readings[0]), readings[1..];
    if i > 0 {
      GainsLength(next, rest, metric, database);
      GainAt(next, rest, metric, database, i - 1);
      assert readings[..i][1..] == rest[..i - 1];
    }
  }

  /** Every run, with resets, stale readings and absences: the i-th gain is what the counters moved since
      the baseline, on exactly the readings that report the database, and nothing on the others. */
  lemma GainsAreMovements(baseline: Snapshot, readings: seq<Snapshot>, metric: Metric, database: string)
    requires !metric.HitRatio?
    ensures Gains(baseline, readings, metric, database) == Movements(baseline, readings, metric, database)
  {
    var gains, movements := Gains(baseline, readings, metric, database), Movements(baseline, readings, metric, database);
    GainsLength(baseline, readings, metric, database);
    forall i | 0 <= i < |readings| ensures gains[i] == movements[i] {
      GainAt(baseline, readings, metric, database, i);
      OneReading(Baseline(baseline, readings[..i]), readings[i], metric, database);
    }
  }

  ghost function Movements(baseline: Snapshot, readings: seq<Snapshot>, metric: Metric, database: string): seq<real>
    requires !metric.HitRatio?
  {
    seq(|readings|, i requires 0 <= i < |readings| => Movement(Baseline(baseline, readings[..i]), readings[i], metric, database))
  }

  lemma TotalOfMore(gain: real, rest: seq<real>)
    ensures Total([gain] + rest) == gain + Total(rest)
  {
    assert ([gain] + rest)[1..] == rest;
  }

  lemma StepMoves(baseline: Snapshot, reading: Snapshot, metric: Metric, database: string)
    requires !metric.HitRatio? && database in baseline.databases
    requires !Resets(baseline, reading) && database in NextBaseline(Some(baseline), reading).databases
    ensures Movement(baseline, reading, metric, database)
            == Measure(metric, NextBaseline(Some(baseline), reading).databases[database]) - Measure(metric, baseline.databases[database])
  {}

  /** Conservation over whole runs: with no reset and the database present throughout, the emitted
      rates times their elapsed times add up to exactly what the counters moved, however many
      readings were stale and ignored. */
  lemma {:induction false} RatesTelescope(baseline: Snapshot, readings: seq<Snapshot>, metric: Metric, database: string)
    requires !metric.HitRatio? && Uninterrupted(baseline, readings, database)
    ensures database in Baseline(baseline, readings).databases
    ensures Total(Gains(baseline, readings, metric, database))
            == Measure(metric, Baseline(baseline, readings).databases[database]) - Measure(metric, baseline.databases[database])
    decreases |readings|
  {
    if readings != [] {
      var next := NextBaseline(Some(baseline), readings[0]);
      OneReading(baseline, readings[0], metric, database);
      StepMoves(baseline, readings[0], metric, database);
      RatesTelescope(next, readings[1..], metric, database);
      TotalOfMore(GainOf(baseline, readings[0], metric, database), Gains(next, readings[1..], metric, database));
    }
  }
}
