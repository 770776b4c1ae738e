/** The fleet overview: its counts agree with the instance list, and its attention list is the top ten. */
module FleetOverview {
  import opened Ordering
  import opened InstanceList

  const AttentionLimit := 10

  datatype HealthCounts = HealthCounts(critical: nat, warning: nat, unknown: nat, healthy: nat, paused: nat)

  datatype CollectionHealth = CollectionHealth(staleData: nat, agentOffline: nat, paused: nat)

  datatype Overview = Overview(total: nat, attention: seq<Instance>, health: HealthCounts, collection: CollectionHealth)

  /** The list's query with only this flag, or only this status, set. */
  function FlagQuery(flag: Flag): Query { Query(1, 50, "", [], [], [flag], [], ByHealth) }

  function StatusQuery(status: Status): Query { Query(1, 50, "", [], [status], [], [], ByHealth) }

  // ----- the counts, and what the list reports

  function CountOf(xs: seq<Instance>, status: Status): nat {
    if xs == [] then 0 else CountOf(xs[..|xs| - 1], status) + if xs[|xs| - 1].status == status then 1 else 0
  }

  function HealthOf(xs: seq<Instance>): HealthCounts {
    HealthCounts(CountOf(xs, Critical), CountOf(xs, Warning), CountOf(xs, Unknown), CountOf(xs, Healthy), CountOf(xs, Paused))
  }

  function Gathered(c: CollectionHealth, item: Instance): CollectionHealth {
    CollectionHealth(
      c.staleData + (if HasFlag(item, StaleData) then 1 else 0),
      c.agentOffline + (if HasFlag(item, AgentOffline) then 1 else 0),
      c.paused + (if item.status == Paused then 1 else 0))
  }

  function CollectionOf(xs: seq<Instance>): CollectionHealth {
    if xs == [] then CollectionHealth(0, 0, 0) else Gathered(CollectionOf(xs[..|xs| - 1]), xs[|xs| - 1])
  }

  lemma StatusMatches(status: Status, item: Instance)
    ensures Matches(StatusQuery(status), item) <==> item.status == status
  {}

  lemma FlagMatches(flag: Flag, item: Instance)
    ensures Matches(FlagQuery(flag), item) <==> HasFlag(item, flag)
  {
    assert flag in FlagQuery(flag).flags;
  }

  /** How many instances the list reports for a query. */
  function Listed(q: Query, xs: seq<Instance>): nat { |Matching(q, xs)| }

  lemma ListedStep(q: Query, xs: seq<Instance>)
    requires xs != []
    ensures Listed(q, xs) == Listed(q, xs[..|xs| - 1]) + if Matches(q, xs[|xs| - 1]) then 1 else 0
  {}

  function Field(c: HealthCounts, status: Status): nat
    requires !status.OtherStatus?
  {
    match status
    case Critical => c.critical
    case Warning => c.warning
    case Unknown => c.unknown
    case Healthy => c.healthy
    case Paused => c.paused
  }

  lemma {:induction false} CountIsListed(xs: seq<Instance>, status: Status)
    ensures CountOf(xs, status) == Listed(StatusQuery(status), xs)
  {
    if xs != [] {
      CountIsListed(xs[..|xs| - 1], status);
      ListedStep(StatusQuery(status), xs);
      StatusMatches(status, xs[|xs| - 1]);
    }
  }

  /** Each health count is the total the list reports for that status. */
  lemma HealthIsListed(xs: seq<Instance>, status: Status)
    requires !status.OtherStatus?
    ensures Field(HealthOf(xs), status) == Listed(StatusQuery(status), xs)
  {
    CountIsListed(xs, status);
  }

  /** Each collection count is the total the list reports for the filter it links to. */
  lemma {:induction false} CollectionIsListed(xs: seq<Instance>)
    ensures CollectionOf(xs).staleData == Listed(FlagQuery(StaleData), xs)
    ensures CollectionOf(xs).agentOffline == Listed(FlagQuery(AgentOffline), xs)
    ensures CollectionOf(xs).paused == Listed(StatusQuery(Paused), xs)
  {
    if xs != [] {
      var last := xs[|xs| - 1];
      CollectionIsListed(xs[..|xs| - 1]);
      ListedStep(FlagQuery(StaleData), xs);
      FlagMatches(StaleData, last);
      ListedStep(FlagQuery(AgentOffline), xs);
      FlagMatches(AgentOffline, last);
      ListedStep(StatusQuery(Paused), xs);
      StatusMatches(Paused, last);
    }
  }

  function Sum(c: HealthCounts): nat { c.critical + c.warning + c.unknown + c.healthy + c.paused }

  lemma {:induction false} CountsAddUp(xs: seq<Instance>)
    ensures Sum(HealthOf(xs)) + CountOf(xs, OtherStatus) == |xs|
  {
    if xs != [] { CountsAddUp(xs[..|xs| - 1]); }
  }

  /** The five health counts partition the fleet, but for the instances of any other status, whose number
      is again a total the list reports. */
  lemma HealthCountsPartition(xs: seq<Instance>)
    ensures Sum(HealthOf(xs)) + Listed(StatusQuery(OtherStatus), xs) == |xs|
  {
    CountsAddUp(xs);
    CountIsListed(xs, OtherStatus);
  }

  // ----- the attention list

  predicate NeedsAttention(item: Instance) {
    match item.status
    case Critical => true
    case Warning => true
    case Unknown => true
    case Healthy => false
    case Paused => false
    case OtherStatus => false
  }

  /** Attention is for what is more urgent than healthy. */
  lemma AttentionIsForTheUrgent(item: Instance)
    ensures NeedsAttention(item) <==> MoreUrgent(item.status, Healthy)
  {}

  /** Health, then critical, warning and info alerts, then name, then id. */
  function AttentionLess(): (Instance, Instance) -> bool {
    Then((i: Instance) => HealthRank(i.status),
         Then((i: Instance) => i.counts.critical,
              Then((i: Instance) => i.counts.warning,
                   Then((i: Instance) => i.counts.info, StableOrder))))
  }

  /** Which of two instances the attention list ranks first. */
  predicate NeedsItMore(a: Instance, b: Instance) {
    || MoreUrgent(a.status, b.status)
    || (a.status == b.status &&
        (|| a.counts.critical > b.counts.critical
         || (a.counts.critical == b.counts.critical &&
             (|| a.counts.warning > b.counts.warning
              || (a.counts.warning == b.counts.warning &&
                  (|| a.counts.info > b.counts.info
                   || (a.counts.info == b.counts.info && NameThenId(a, b))))))))
  }

  lemma AttentionMeans(a: Instance, b: Instance)
    ensures AttentionLess()(a, b) <==> NeedsItMore(a, b)
  {
    OrderMeans(ByName, a, b);
    RanksMean(a.status, b.status);
  }

  lemma AttentionIsTotal(s: set<Instance>)
    requires IdsIdentify(s)
    ensures Linear(AttentionLess(), s)
  {
    NamesLinear(s, false);
    var info := Then((i: Instance) => i.counts.info, StableOrder);
    var warning := Then((i: Instance) => i.counts.warning, info);
    var critical := Then((i: Instance) => i.counts.critical, warning);
    ThenLinear((i: Instance) => i.counts.info, StableOrder, s);
    ThenLinear((i: Instance) => i.counts.warning, info, s);
    ThenLinear((i: Instance) => i.counts.critical, warning, s);
    ThenLinear((i: Instance) => HealthRank(i.status), critical, s);
  }

  function Needing(xs: seq<Instance>): seq<Instance> { Filter(NeedsAttention, xs) }

  /** The first ten of the instances that need attention. */
  function Attention(xs: seq<Instance>): seq<Instance> {
    var ordered := Sort(AttentionLess(), Needing(xs));
    if |ordered| > AttentionLimit then ordered[..AttentionLimit] else ordered
  }

  lemma NeedingSorts(xs: seq<Instance>)
    requires DistinctIds(xs)
    ensures Ascending(AttentionLess(), Sort(AttentionLess(), Needing(xs)))
    ensures forall x :: x in Sort(AttentionLess(), Needing(xs)) <==> x in xs && NeedsAttention(x)
  {
    var ordered := Sort(AttentionLess(), Needing(xs));
    FilterDistinct(NeedsAttention, xs);
    DistinctIdentify(Needing(xs));
    AttentionIsTotal(Elems(Needing(xs)));
    SortAscending(AttentionLess(), Needing(xs));
    forall x ensures x in ordered <==> x in xs && NeedsAttention(x) {
      FilterMembers(NeedsAttention, xs, x);
      assert x in ordered <==> x in Elems(ordered);
      assert x in Needing(xs) <==> x in Elems(Needing(xs));
    }
  }

  /** The list is ranked, holds only instances that need attention, leaves one out only when it already
      holds ten, and everything it leaves out ranks behind everything it holds. */
  lemma AttentionIsTopTen(xs: seq<Instance>)
    requires DistinctIds(xs)
    ensures var top := Attention(xs);
            && (forall i, j :: 0 <= i < j < |top| ==> NeedsItMore(top[i], top[j]))
            && (forall x :: x in top ==> x in xs && NeedsAttention(x))
            && (forall x, y :: x in xs && NeedsAttention(x) && x !in top && y in top ==> NeedsItMore(y, x))
            && |top| <= 10 && (|top| == 10 || forall x :: x in xs && NeedsAttention(x) ==> x in top)
  {
    NeedingSorts(xs);
    var ordered, top := Sort(AttentionLess(), Needing(xs)), Attention(xs);
    assert forall i :: 0 <= i < |top| ==> top[i] == ordered[i] && ordered[i] in top;
    forall i, j | 0 <= i < j < |top| ensures NeedsItMore(top[i], top[j]) { AttentionMeans(top[i], top[j]); }
    forall x, y | x in ordered && x !in top && y in top ensures NeedsItMore(y, x) {
      AttentionMeans(y, x);
      var i :| 0 <= i < |ordered| && ordered[i] == x;
      var j :| 0 <= j < |top| && top[j] == y;
      assert |top| <= i;
    }
  }

  /** The list does not depend on the order the instances were read in. */
  lemma AttentionIgnoresReadOrder(a: seq<Instance>, b: seq<Instance>)
    requires DistinctIds(a) && DistinctIds(b) && multiset(a) == multiset(b)
    ensures Attention(a) == Attention(b)
  {
    FilterRearranged(NeedsAttention, a, b);
    FilterDistinct(NeedsAttention, a);
    FilterDistinct(NeedsAttention, b);
    DistinctIdentify(Needing(a));
    DistinctIdentify(Needing(b));
    AttentionIsTotal(Elems(Needing(a)));
    SortIsCanonical(AttentionLess(), Needing(a), Needing(b));
  }

  method InstancesNeedingAttention(instances: seq<Instance>) returns (needing: seq<Instance>)
    ensures needing == Attention(instances)
  {
    needing := [];
    var k := 0;
    while k < |instances|
      invariant 0 <= k <= |instances|
      invariant needing == Needing(instances[..k])
    {
      FilterStep(NeedsAttention, instances, k);
      if NeedsAttention(instances[k]) { needing := needing + [instances[k]]; }
      k := k + 1;
    }
    assert instances[..k] == instances;
    needing := Sort(AttentionLess(), needing);
    if |needing| > AttentionLimit { needing := needing[..AttentionLimit]; }
  }

  /** Every number of the overview is the total the list reports for the filter it links to. */
  method SummarizeFleet(instances: seq<Instance>) returns (o: Overview)
    ensures o.total == |instances| && o.attention == Attention(instances)
    ensures o.health == HealthOf(instances)
    ensures forall status: Status :: !status.OtherStatus? ==> Field(o.health, status) == Listed(StatusQuery(status), instances)
    ensures o.collection.staleData == Listed(FlagQuery(StaleData), instances)
    ensures o.collection.agentOffline == Listed(FlagQuery(AgentOffline), instances)
    ensures o.collection.paused == Listed(StatusQuery(Paused), instances)
  {
    var attention := InstancesNeedingAttention(instances);
    var health, collection := CountFleet(instances);
    forall status: Status | !status.OtherStatus? ensures Field(health, status) == Listed(StatusQuery(status), instances) {
      HealthIsListed(instances, status);
    }
    CollectionIsListed(instances);
    o := Overview(|instances|, attention, health, collection);
  }

  /** The counting loop. */
  method CountFleet(instances: seq<Instance>) returns (health: HealthCounts, collection: CollectionHealth)
    ensures health == HealthOf(instances) && collection == CollectionOf(instances)
  {
    health, collection := HealthCounts(0, 0, 0, 0, 0), CollectionHealth(0, 0, 0);
    var k := 0;
    while k < |instances|
      invariant 0 <= k <= |instances|
      invariant health == HealthOf(instances[..k]) && collection == CollectionOf(instances[..k])
    {
      var item := instances[k];
      assert instances[..k + 1][..k] == instances[..k];
      match item.status {
        case Critical => health := health.(critical := health.critical + 1);
        case Warning => health := health.(warning := health.warning + 1);
        case Unknown => health := health.(unknown := health.unknown + 1);
        case Healthy => health := health.(healthy := health.healthy + 1);
        case Paused => health := health.(paused := health.paused + 1);
        case OtherStatus =>
      }
      if HasFlag(item, StaleData) { collection := collection.(staleData := collection.staleData + 1); }
      if HasFlag(item, AgentOffline) { collection := collection.(agentOffline := collection.agentOffline + 1); }
      if item.status == Paused { collection := collection.(paused := collection.paused + 1); }
      k := k + 1;
    }
    assert instances[..k] == instances;
  }
}
