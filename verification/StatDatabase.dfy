/** Per-database rates from two readings of the database counters, and the instance-level cache hit
    ratio that the rule window's weighted query makes of them. Counters and values are reals. */
module StatDatabase {
  import opened Basics
  import opened Ordering

  const CounterCount := 9
  const CommitIndex := 0
  const RollbackIndex := 1
  const HitIndex := 6
  const ReadIndex := 7

  type Counters = c: seq<real> | |c| == CounterCount witness [0.0, 0.0, 0.0, 0.0, 0.0, 0.0, 0.0, 0.0, 0.0]

  datatype Snapshot = Snapshot(observedAt: int, databases: map<string, Counters>)

  datatype Metric =
    | Tps | XactCommit | XactRollback | TuplesRead | TuplesWrite | TempFiles | TempBytes | Deadlocks
    | BlockAccess | HitRatio

  datatype Sample = Sample(metric: Metric, database: string, value: real)

  datatype Batch = Batch(samples: seq<Sample>, counterReset: bool)

  /** The metric a counter is reported under; block hits and reads only feed the ratio. */
  function CounterMetric(index: nat): Option<Metric> {
    match index
    case 0 => Some(XactCommit)
    case 1 => Some(XactRollback)
    case 2 => Some(TuplesRead)
    case 3 => Some(TuplesWrite)
    case 4 => Some(TempFiles)
    case 5 => Some(TempBytes)
    case 8 => Some(Deadlocks)
    case _ => None
  }

  function Seconds(elapsed: int): real { elapsed as real / 1000000000.0 }

  datatype RateResult = Value(rate: real) | CounterReset | InvalidInterval

  function Rate(previous: real, current: real, elapsed: int): RateResult {
    if elapsed <= 0 then InvalidInterval
    else if current < previous then CounterReset
    else Value((current - previous) / Seconds(elapsed))
  }

  /** A rate is per second: what a counter moved over a whole number of seconds, divided by that number. */
  lemma RateIsPerSecond(previous: real, current: real, seconds: int)
    ensures seconds <= 0 <==> Rate(previous, current, seconds * 1_000_000_000).InvalidInterval?
    ensures seconds > 0 ==>
              Rate(previous, current, seconds * 1_000_000_000)
              == if current < previous then CounterReset else Value((current - previous) / seconds as real)
  {
    assert (seconds * 1_000_000_000) as real == seconds as real * 1000000000.0;
  }

  // ----- what a batch holds

  /** The rates of one database's counters. */
  function Rates(before: Counters, now: Counters, elapsed: int): Counters
    requires elapsed > 0
  {
    seq(CounterCount, i requires 0 <= i < CounterCount => (now[i] - before[i]) / Seconds(elapsed))
  }

  function CounterSamples(rates: Counters, name: string, n: nat): seq<Sample>
    requires n <= CounterCount
  {
    if n == 0 then []
    else
      var earlier := CounterSamples(rates, name, n - 1);
      match CounterMetric(n - 1)
      case None => earlier
      case Some(metric) => earlier + [Sample(metric, name, rates[n - 1])]
  }

  function Access(rates: Counters): real { rates[HitIndex] + rates[ReadIndex] }

  /** The samples of one database: its access rate always, its hit ratio only when it was accessed. */
  function DatabaseSamples(rates: Counters, name: string): seq<Sample> {
    [Sample(Tps, name, rates[CommitIndex] + rates[RollbackIndex])]
    + CounterSamples(rates, name, CounterCount)
    + [Sample(BlockAccess, name, Access(rates))]
    + (if Access(rates) > 0.0 then [Sample(HitRatio, name, rates[HitIndex] * 100.0 / Access(rates))] else [])
  }

  /** The rates of a database present in both readings. */
  function RatesBetween(previous: Snapshot, current: Snapshot, name: string): Counters
    requires previous.observedAt < current.observedAt && name in previous.databases && name in current.databases
  {
    Rates(previous.databases[name], current.databases[name], current.observedAt - previous.observedAt)
  }

  function SamplesFor(previous: Snapshot, current: Snapshot, names: seq<string>): seq<Sample>
    requires previous.observedAt < current.observedAt
    requires forall n :: n in names ==> n in previous.databases && n in current.databases
  {
    if names == [] then []
    else
      var k := |names| - 1;
      SamplesFor(previous, current, names[..k]) + DatabaseSamples(RatesBetween(previous, current, names[k]), names[k])
  }

  function Common(previous: Snapshot, current: Snapshot): set<string> {
    previous.databases.Keys * current.databases.Keys
  }

  /** No counter of this database went down. */
  ghost predicate Rising(before: Counters, now: Counters) {
    forall i :: 0 <= i < CounterCount ==> now[i] >= before[i]
  }

  /** Some counter of some database present in both readings went down. */
  ghost predicate Decreased(previous: Snapshot, current: Snapshot) {
    exists name :: name in Common(previous, current) && !Rising(previous.databases[name], current.databases[name])
  }

  /** The ascending listing of a set of names. */
  ghost function Listing(s: set<string>): (xs: seq<string>)
    ensures Elems(xs) == s
  {
    if s == {} then []
    else
      var x :| x in s;
      var rest := Listing(s - {x});
      InsertElems(StringLess, rest, x);
      Insert(StringLess, rest, x)
  }

  lemma {:induction false} ListingAscends(s: set<string>)
    ensures Ascending(StringLess, Listing(s))
  {
    if s != {} {
      var x :| x in s && Listing(s) == Insert(StringLess, Listing(s - {x}), x);
      ListingAscends(s - {x});
      StringLinear(Elems(Listing(s - {x})) + {x});
      assert x !in Elems(Listing(s - {x}));
      InsertAscending(StringLess, Listing(s - {x}), x);
    }
  }

  /** The baseline after a reading: a reading that is not later is ignored. */
  function NextBaseline(previous: Option<Snapshot>, current: Snapshot): Snapshot {
    if previous.Some? && current.observedAt <= previous.value.observedAt then previous.value else current
  }

  /** A later reading in which some counter went down. */
  ghost predicate Resets(baseline: Snapshot, reading: Snapshot) {
    baseline.observedAt < reading.observedAt && Decreased(baseline, reading)
  }

  /** The batch a reading yields against the baseline. */
  ghost function BatchOf(previous: Option<Snapshot>, current: Snapshot): Batch {
    if previous.None? || current.observedAt <= previous.value.observedAt then Batch([], false)
    else if Decreased(previous.value, current) then Batch([], true)
    else Batch(SamplesFor(previous.value, current, Listing(Common(previous.value, current))), false)
  }

  /** The rate state shared by all instances. */
  class RateState {
    var previous: map<string, Snapshot>

    constructor ()
      ensures previous == map[]
    {
      previous := map[];
    }

    /** A first reading is a baseline; one not later than the baseline changes nothing; a decrease
        voids the whole batch but still moves the baseline; otherwise all common databases report. */
    method Observe(instance: string, current: Snapshot) returns (batch: Batch)
      modifies this
      ensures
        var before := if instance in old(previous) then Some(old(previous)[instance]) else None;
        && batch == BatchOf(before, current)
        && (batch.counterReset <==> before.Some? && Resets(before.value, current))
        && (batch.counterReset ==> batch.samples == [] && previous == old(previous)[instance := current])
        && previous == old(previous)[instance := NextBaseline(before, current)]
    {
      if instance !in previous {
        previous := previous[instance := current];
        return Batch([], false);
      }
      var baseline := previous[instance];
      if current.observedAt <= baseline.observedAt {
        assert previous == previous[instance := baseline];
        return Batch([], false);
      }
      previous := previous[instance := current];
      var ok, samples := CollectRates(baseline, current);
      return if ok then Batch(samples, false) else Batch([], true);
    }
  }

  method SortedNames(listed: seq<string>) returns (names: seq<string>)
    requires NoDup(listed)
    ensures names == Listing(Elems(listed))
  {
    StringLinear(Elems(listed));
    SortAscending(StringLess, listed);
    names := Sort(StringLess, listed);
    ListingAscends(Elems(listed));
    AscendingUnique(StringLess, names, Listing(Elems(listed)));
  }

  method CollectRates(baseline: Snapshot, current: Snapshot) returns (ok: bool, samples: seq<Sample>)
    requires baseline.observedAt < current.observedAt
    ensures ok <==> !Decreased(baseline, current)
    ensures ok ==> samples == SamplesFor(baseline, current, Listing(Common(baseline, current)))
  {
    var listed := Enumerate(baseline.databases.Keys * current.databases.Keys);
    var names := SortedNames(listed);
    assert forall n :: n in names <==> n in Elems(names);
    ok, samples := CollectNamed(baseline, current, names);
  }

  /** The loop over the databases present in both readings. */
  method CollectNamed(baseline: Snapshot, current: Snapshot, names: seq<string>) returns (ok: bool, samples: seq<Sample>)
    requires baseline.observedAt < current.observedAt
    requires forall n :: n in names ==> n in baseline.databases && n in current.databases
    ensures ok <==> AllRising(baseline, current, names)
    ensures ok ==> samples == SamplesFor(baseline, current, names)
  {
    samples := [];
    var k := 0;
    while k < |names|
      invariant 0 <= k <= |names|
      invariant samples == SamplesFor(baseline, current, names[..k])
      invariant AllRising(baseline, current, names[..k])
    {
      RisingStep(baseline, current, names, k);
      var fine, more := CollectNext(baseline, current, names, k, samples);
      if !fine { return false, []; }
      samples := more;
      k := k + 1;
    }
    assert names[..k] == names;
    ok := true;
  }

  /** One turn of the loop: the next database's samples, unless one of its counters went down. */
  method CollectNext(baseline: Snapshot, current: Snapshot, names: seq<string>, k: nat, samples: seq<Sample>)
    returns (fine: bool, more: seq<Sample>)
    requires baseline.observedAt < current.observedAt && k < |names|
    requires forall n :: n in names ==> n in baseline.databases && n in current.databases
    requires samples == SamplesFor(baseline, current, names[..k])
    ensures fine <==> Rising(baseline.databases[names[k]], current.databases[names[k]])
    ensures fine ==> more == SamplesFor(baseline, current, names[..k + 1])
  {
    var name := names[k];
    var one;
    fine, one := RatesOf(baseline.databases[name], current.databases[name], current.observedAt - baseline.observedAt, name);
    SamplesStep(baseline, current, names, k);
    more := samples + one;
  }

  /** No counter of any of the named databases went down. */
  ghost predicate AllRising(previous: Snapshot, current: Snapshot, names: seq<string>)
    requires forall n :: n in names ==> n in previous.databases && n in current.databases
  {
    forall n :: n in names ==> Rising(previous.databases[n], current.databases[n])
  }

  lemma RisingStep(previous: Snapshot, current: Snapshot, names: seq<string>, k: nat)
    requires k < |names| && forall n :: n in names ==> n in previous.databases && n in current.databases
    ensures AllRising(previous, current, names[..k + 1]) <==>
            AllRising(previous, current, names[..k]) && Rising(previous.databases[names[k]], current.databases[names[k]])
    ensures AllRising(previous, current, names) ==> AllRising(previous, current, names[..k + 1])
  {
    assert names[..k + 1] == names[..k] + [names[k]];
  }

  lemma SamplesStep(previous: Snapshot, current: Snapshot, names: seq<string>, k: nat)
    requires previous.observedAt < current.observedAt && k < |names|
    requires forall n :: n in names ==> n in previous.databases && n in current.databases
    ensures SamplesFor(previous, current, names[..k + 1]) ==
            SamplesFor(previous, current, names[..k]) + DatabaseSamples(RatesBetween(previous, current, names[k]), names[k])
  {
    assert names[..k + 1][..k] == names[..k];
  }

  /** One database: the loop over its counters, and its samples. */
  method RatesOf(before: Counters, now: Counters, elapsed: int, name: string) returns (ok: bool, samples: seq<Sample>)
    requires elapsed > 0
    ensures ok <==> Rising(before, now)
    ensures ok ==> samples == DatabaseSamples(Rates(before, now, elapsed), name)
  {
    var rates: seq<real> := [];
    var index := 0;
    while index < CounterCount
      invariant 0 <= index <= CounterCount && |rates| == index
      invariant forall i :: 0 <= i < index ==> now[i] >= before[i] && rates[i] == Rates(before, now, elapsed)[i]
    {
      var r := Rate(before[index], now[index], elapsed);
      if !r.Value? { return false, []; }
      rates := rates + [r.rate];
      index := index + 1;
    }
    samples := [Sample(Tps, name, rates[CommitIndex] + rates[RollbackIndex])];
    ghost var head := samples;
    index := 0;
    while index < CounterCount
      invariant 0 <= index <= CounterCount
      invariant samples == head + CounterSamples(Rates(before, now, elapsed), name, index)
    {
      var metric := CounterMetric(index);
      if metric.Some? { samples := samples + [Sample(metric.value, name, rates[index])]; }
      index := index + 1;
    }
    var access := rates[HitIndex] + rates[ReadIndex];
    samples := samples + [Sample(BlockAccess, name, access)];
    if access > 0.0 {
      samples := samples + [Sample(HitRatio, name, rates[HitIndex] * 100.0 / access)];
    }
    return true, samples;
  }
}
