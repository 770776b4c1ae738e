/** The instance list: which instances a query keeps, the order it lists them in, and its pages. */
module InstanceList {
  import opened Basics
  import opened Ordering

  // The last constructor of each of these stands for any other string the type can hold.
  datatype Status = Critical | Warning | Unknown | Healthy | Paused | OtherStatus
  datatype Flag = NoData | Maintenance | RecentlyRecovered | Ignored | ConfigurationMissing | StaleData | AgentOffline | OtherFlag
  datatype Severity = CriticalAlert | WarningAlert | InfoAlert | OtherSeverity
  datatype Order = ByName | ByNameDescending | Stalest | ByHealth | OtherOrder

  datatype Flags = Flags(noData: bool, inMaintenance: bool, recentlyRecovered: bool, ignored: int, configurationMissing: int)

  datatype Counts = Counts(critical: int, warning: int, info: int)

  /** One instance as the list projects it. The two lower-cased texts are what a search looks in. */
  datatype Instance = Instance(
    id: string, name: string, lowerName: string, lowerAddress: string, engine: string,
    status: Status, flags: Flags, counts: Counts, freshness: Option<int>, agentOffline: bool)

  datatype Query = Query(
    page: int, pageSize: int, search: string, engines: seq<string>, statuses: seq<Status>,
    flags: seq<Flag>, severities: seq<Severity>, order: Order)

  const MaxInt: int := 0x7FFF_FFFF_FFFF_FFFF
  const StaleAfterSeconds := 600

  /** The value a 64-bit integer keeps of n. */
  function Wrap(n: int): int {
    var m := n % 0x1_0000_0000_0000_0000;
    if m <= MaxInt then m else m - 0x1_0000_0000_0000_0000
  }

  // ----- the query's page

  datatype PageParams = PageParams(page: Option<int>, pageSize: Option<int>)

  /** newInstanceListQuery's page and page size. */
  function PageOf(params: PageParams): (r: (int, int))
    ensures 1 <= r.0 && 1 <= r.1 <= 500
    ensures params.page.Some? && params.page.value >= 1 ==> r.0 == params.page.value
    ensures params.page.None? || params.page.value < 1 ==> r.0 == 1
    ensures params.pageSize.Some? && 1 <= params.pageSize.value <= 500 ==> r.1 == params.pageSize.value
    ensures params.pageSize.Some? && params.pageSize.value > 500 ==> r.1 == 500
    ensures params.pageSize.None? || params.pageSize.value < 1 ==> r.1 == 50
  {
    (if params.page.Some? && params.page.value > 0 then params.page.value else 1,
     if params.pageSize.Some? && params.pageSize.value > 0 then
       (if params.pageSize.value > 500 then 500 else params.pageSize.value)
     else 50)
  }

  // ----- which instances match

  predicate Stale(item: Instance) {
    !item.status.Paused? && (item.freshness.None? || item.freshness.value > StaleAfterSeconds)
  }

  predicate HasFlag(item: Instance, flag: Flag) {
    match flag
    case NoData => item.flags.noData
    case Maintenance => item.flags.inMaintenance
    case RecentlyRecovered => item.flags.recentlyRecovered
    case Ignored => item.flags.ignored > 0
    case ConfigurationMissing => item.flags.configurationMissing > 0
    case StaleData => Stale(item)
    case AgentOffline => item.agentOffline
    case OtherFlag => false
  }

  predicate HasSeverity(item: Instance, severity: Severity) {
    match severity
    case CriticalAlert => item.counts.critical > 0
    case WarningAlert => item.counts.warning > 0
    case InfoAlert => item.counts.info > 0
    case OtherSeverity => false
  }

  predicate Contains(text: string, part: string) {
    exists i | 0 <= i <= |text| :: part <= text[i..]
  }

  predicate SearchHits(item: Instance, search: string) {
    Contains(item.lowerName, search) || Contains(item.lowerAddress, search)
  }

  /** Every group the query sets must hold; a group holds for any of its members, the flags for all. */
  predicate Matches(q: Query, item: Instance) {
    && (q.search != "" ==> SearchHits(item, q.search))
    && (q.engines != [] ==> item.engine in q.engines)
    && (q.statuses != [] ==> item.status in q.statuses)
    && (forall flag | flag in q.flags :: HasFlag(item, flag))
    && (q.severities != [] ==> exists severity | severity in q.severities :: HasSeverity(item, severity))
  }

  /** A search hits where its text occurs. */
  lemma ContainsMeans(text: string, part: string)
    ensures Contains(text, part) <==> exists before, after :: text == before + part + after
  {
    if Contains(text, part) {
      var i :| 0 <= i <= |text| && part <= text[i..];
      var after := text[i..][|part|..];
      assert text == text[..i] + part + after;
    }
    if before, after :| text == before + part + after {
      assert part <= text[|before|..];
    }
  }

  /** Stale is never collected, or older than ten minutes; a paused instance never is. */
  lemma StaleMeans(item: Instance)
    ensures HasFlag(item, StaleData) <==>
            !(item.status == Paused || (item.freshness.Some? && item.freshness.value < 601))
  {}

  /** Each flag asked for narrows the list; a query without groups keeps everything. */
  lemma FlagsNarrow(q: Query, flag: Flag, item: Instance)
    ensures Matches(q.(flags := q.flags + [flag]), item) <==> Matches(q, item) && HasFlag(item, flag)
    ensures Matches(Query(q.page, q.pageSize, "", [], [], [], [], q.order), item)
  {
    var more := q.(flags := q.flags + [flag]);
    assert forall f :: f in more.flags <==> f in q.flags || f == flag;
  }

  /** A further engine, status or severity in a group that is set widens the list by just those that
      match the rest of the query and it; the first one of a group narrows the list to those. */
  lemma GroupsWiden(q: Query, engine: string, status: Status, severity: Severity, item: Instance)
    ensures Matches(q.(engines := q.engines + [engine]), item) <==>
            (q.engines != [] && Matches(q, item)) || (Matches(q.(engines := []), item) && item.engine == engine)
    ensures Matches(q.(statuses := q.statuses + [status]), item) <==>
            (q.statuses != [] && Matches(q, item)) || (Matches(q.(statuses := []), item) && item.status == status)
    ensures Matches(q.(severities := q.severities + [severity]), item) <==>
            || (q.severities != [] && Matches(q, item))
            || (Matches(q.(severities := []), item) && HasSeverity(item, severity))
    ensures Matches(q, item) <==> Matches(q.(search := ""), item) && (q.search == "" || SearchHits(item, q.search))
  {
    var more := q.(severities := q.severities + [severity]);
    assert forall x :: x in more.severities <==> x in q.severities || x == severity;
  }

  method InstanceMatches(item: Instance, q: Query) returns (matched: bool)
    ensures matched <==> Matches(q, item)
  {
    if q.search != "" && !SearchHits(item, q.search) { return false; }
    if |q.engines| > 0 && item.engine !in q.engines { return false; }
    if |q.statuses| > 0 && item.status !in q.statuses { return false; }
    var k := 0;
    while k < |q.flags|
      invariant 0 <= k <= |q.flags|
      invariant forall flag :: flag in q.flags[..k] ==> HasFlag(item, flag)
    {
      if !HasFlag(item, q.flags[k]) { return false; }
      k := k + 1;
    }
    assert q.flags[..k] == q.flags;
    if |q.severities| > 0 {
      var any := false;
      var n := 0;
      while n < |q.severities| && !any
        invariant 0 <= n <= |q.severities|
        invariant any <==> exists severity :: severity in q.severities[..n] && HasSeverity(item, severity)
      {
        any := HasSeverity(item, q.severities[n]);
        n := n + 1;
      }
      assert n == |q.severities| ==> q.severities[..n] == q.severities;
      if !any { return false; }
    }
    return true;
  }

  // ----- filtering

  function Filter(keep: Instance -> bool, xs: seq<Instance>): seq<Instance> {
    if xs == [] then []
    else
      Filter(keep, xs[..|xs| - 1]) + if keep(xs[|xs| - 1]) then [xs[|xs| - 1]] else []
  }

  function Matching(q: Query, xs: seq<Instance>): seq<Instance> { Filter(item => Matches(q, item), xs) }

  lemma FilterStep(keep: Instance -> bool, xs: seq<Instance>, k: nat)
    requires k < |xs|
    ensures Filter(keep, xs[..k + 1]) == Filter(keep, xs[..k]) + if keep(xs[k]) then [xs[k]] else []
  {
    assert xs[..k + 1][..k] == xs[..k];
  }

  lemma {:induction false} FilterCounts(keep: Instance -> bool, xs: seq<Instance>, x: Instance)
    ensures multiset(Filter(keep, xs))[x] == if keep(x) then multiset(xs)[x] else 0
  {
    if xs != [] {
      var front, last := xs[..|xs| - 1], xs[|xs| - 1];
      FilterCounts(keep, front, x);
      assert xs == front + [last];
    }
  }

  /** Filtering a rearranged list rearranges the result. */
  lemma FilterRearranged(keep: Instance -> bool, a: seq<Instance>, b: seq<Instance>)
    requires multiset(a) == multiset(b)
    ensures multiset(Filter(keep, a)) == multiset(Filter(keep, b))
  {
    forall x: Instance ensures multiset(Filter(keep, a))[x] == multiset(Filter(keep, b))[x] {
      FilterCounts(keep, a, x);
      FilterCounts(keep, b, x);
    }
  }

  lemma FilterMembers(keep: Instance -> bool, xs: seq<Instance>, x: Instance)
    ensures x in Filter(keep, xs) <==> x in xs && keep(x)
  {
    FilterCounts(keep, xs, x);
    assert x in Filter(keep, xs) <==> x in multiset(Filter(keep, xs));
    assert x in xs <==> x in multiset(xs);
  }

  ghost predicate DistinctIds(xs: seq<Instance>) {
    forall i, j :: 0 <= i < j < |xs| ==> xs[i].id != xs[j].id
  }

  ghost predicate IdsIdentify(s: set<Instance>) {
    forall a, b :: a in s && b in s && a.id == b.id ==> a == b
  }

  lemma {:induction false} FilterDistinct(keep: Instance -> bool, xs: seq<Instance>)
    requires DistinctIds(xs)
    ensures DistinctIds(Filter(keep, xs))
  {
    if xs != [] {
      var front, last := xs[..|xs| - 1], xs[|xs| - 1];
      FilterDistinct(keep, front);
      forall x | x in Filter(keep, front) ensures x.id != last.id {
        FilterMembers(keep, front, x);
      }
    }
  }

  // ----- the orders

  function HealthRank(status: Status): int {
    match status
    case Critical => 5
    case Warning => 4
    case Unknown => 3
    case Healthy => 2
    case Paused => 1
    case OtherStatus => 0
  }

  function Staleness(item: Instance): int {
    if item.freshness.None? then MaxInt else item.freshness.value
  }

  predicate StableOrder(a: Instance, b: Instance) {
    if a.name != b.name then StringLess(a.name, b.name) else StringLess(a.id, b.id)
  }

  /** Higher rank first, ties by `next`. */
  function Then(rank: Instance -> int, next: (Instance, Instance) -> bool): (Instance, Instance) -> bool {
    (a, b) => if rank(a) != rank(b) then rank(a) > rank(b) else next(a, b)
  }

  predicate NameDescending(a: Instance, b: Instance) {
    if a.name != b.name then StringLess(b.name, a.name) else StableOrder(a, b)
  }

  /** The comparison sortInstances uses; ascending by name it is the tie-breaking order itself. */
  function Less(order: Order): (Instance, Instance) -> bool {
    match order
    case ByName => StableOrder
    case ByNameDescending => NameDescending
    case Stalest => Then(Staleness, StableOrder)
    case ByHealth => Then((item: Instance) => HealthRank(item.status), StableOrder)
    case OtherOrder => Then((item: Instance) => HealthRank(item.status), StableOrder)
  }

  /** A name comparison with ids behind it is a strict total order. */
  lemma NamesLinear(s: set<Instance>, down: bool)
    requires IdsIdentify(s)
    ensures Linear(if down then NameDescending else StableOrder, s)
  {
    var less := if down then NameDescending else StableOrder;
    forall a | a in s ensures !less(a, a) { StringIrreflexive(a.id); }
    forall a, b | a in s && b in s && a != b ensures less(a, b) || less(b, a) {
      if a.name != b.name { StringTotal(a.name, b.name); } else { StringTotal(a.id, b.id); }
    }
    forall a, b, c | a in s && b in s && c in s && less(a, b) && less(b, c) ensures less(a, c) {
      NamesTransitive(a, b, c, down);
    }
  }

  lemma NamesTransitive(a: Instance, b: Instance, c: Instance, down: bool)
    requires if down then NameDescending(a, b) && NameDescending(b, c) else StableOrder(a, b) && StableOrder(b, c)
    ensures if down then NameDescending(a, c) else StableOrder(a, c)
  {
    if a.name == b.name && b.name == c.name {
      StringTransitive(a.id, b.id, c.id);
    } else if a.name != b.name && b.name != c.name {
      StringIrreflexive(a.name);
      if down { StringTransitive(c.name, b.name, a.name); } else { StringTransitive(a.name, b.name, c.name); }
    }
  }

  lemma ThenLinear(rank: Instance -> int, next: (Instance, Instance) -> bool, s: set<Instance>)
    requires Linear(next, s)
    ensures Linear(Then(rank, next), s)
  {}

  /** With distinct ids every list order is a strict total order. */
  lemma OrdersAreTotal(order: Order, s: set<Instance>)
    requires IdsIdentify(s)
    ensures Linear(Less(order), s)
  {
    NamesLinear(s, false);
    match order
    case ByName =>
    case ByNameDescending => NamesLinear(s, true);
    case Stalest => ThenLinear(Staleness, StableOrder, s);
    case ByHealth => ThenLinear((item: Instance) => HealthRank(item.status), StableOrder, s);
    case OtherOrder => ThenLinear((item: Instance) => HealthRank(item.status), StableOrder, s);
  }

  // ----- what the orders mean

  /** To be handled before: critical, then warning, unknown, healthy, paused, and any other status last. */
  predicate MoreUrgent(a: Status, b: Status) {
    match a
    case Critical => !b.Critical?
    case Warning => !b.Critical? && !b.Warning?
    case Unknown => b.Healthy? || b.Paused? || b.OtherStatus?
    case Healthy => b.Paused? || b.OtherStatus?
    case Paused => b.OtherStatus?
    case OtherStatus => false
  }

  /** Longer without data; never collected counts as the largest 64-bit number of seconds. */
  predicate Staler(a: Instance, b: Instance) {
    if a.freshness.None? then b.freshness.Some? && b.freshness.value < MaxInt
    else if b.freshness.None? then a.freshness.value > MaxInt
    else a.freshness.value > b.freshness.value
  }

  predicate NameThenId(a: Instance, b: Instance) {
    StringLess(a.name, b.name) || (a.name == b.name && StringLess(a.id, b.id))
  }

  /** Which of two instances an order lists first. */
  predicate Precedes(order: Order, a: Instance, b: Instance) {
    match order
    case ByName => NameThenId(a, b)
    case ByNameDescending => StringLess(b.name, a.name) || (a.name == b.name && StringLess(a.id, b.id))
    case Stalest => Staler(a, b) || (!Staler(b, a) && NameThenId(a, b))
    case _ => MoreUrgent(a.status, b.status) || (a.status == b.status && NameThenId(a, b))
  }

  lemma OrderMeans(order: Order, a: Instance, b: Instance)
    ensures Less(order)(a, b) <==> Precedes(order, a, b)
  {
    StringIrreflexive(a.name);
    assert StableOrder(a, b) <==> NameThenId(a, b);
    match order
    case ByName =>
    case ByNameDescending =>
    case Stalest =>
      assert Staleness(a) > Staleness(b) <==> Staler(a, b);
      assert Staleness(b) > Staleness(a) <==> Staler(b, a);
    case _ => RanksMean(a.status, b.status);
  }

  lemma RanksMean(a: Status, b: Status)
    ensures HealthRank(a) > HealthRank(b) <==> MoreUrgent(a, b)
    ensures HealthRank(a) == HealthRank(b) <==> a == b
  {}

  lemma DistinctIdentify(xs: seq<Instance>)
    requires DistinctIds(xs)
    ensures NoDup(xs) && IdsIdentify(Elems(xs))
  {}

  /** Under a total order the sorted list does not depend on the order it was read in. */
  lemma SortIsCanonical(less: (Instance, Instance) -> bool, a: seq<Instance>, b: seq<Instance>)
    requires NoDup(a) && NoDup(b) && multiset(a) == multiset(b) && Linear(less, Elems(a))
    ensures Sort(less, a) == Sort(less, b)
  {
    SameMultisetSameElems(a, b);
    SortAscending(less, a);
    SortAscending(less, b);
    AscendingUnique(less, Sort(less, a), Sort(less, b));
  }

  /** What a query lists, before paging. */
  function Listing(q: Query, xs: seq<Instance>): seq<Instance> { Sort(Less(q.order), Matching(q, xs)) }

  /** The list is in the order asked for and holds exactly the matching instances. */
  lemma ListingIsOrdered(q: Query, xs: seq<Instance>)
    requires DistinctIds(xs)
    ensures Ascending(Less(q.order), Listing(q, xs))
    ensures forall i, j :: 0 <= i < j < |Listing(q, xs)| ==> Precedes(q.order, Listing(q, xs)[i], Listing(q, xs)[j])
    ensures forall x :: x in Listing(q, xs) <==> x in xs && Matches(q, x)
  {
    var keep := (item: Instance) => Matches(q, item);
    var kept := Matching(q, xs);
    FilterDistinct(keep, xs);
    DistinctIdentify(kept);
    OrdersAreTotal(q.order, Elems(kept));
    SortAscending(Less(q.order), kept);
    var listed := Listing(q, xs);
    forall i, j | 0 <= i < j < |listed| ensures Precedes(q.order, listed[i], listed[j]) {
      OrderMeans(q.order, listed[i], listed[j]);
    }
    forall x ensures x in Listing(q, xs) <==> x in xs && Matches(q, x) {
      FilterMembers(keep, xs, x);
      assert x in Listing(q, xs) <==> x in Elems(Listing(q, xs));
      assert x in kept <==> x in Elems(kept);
    }
  }

  /** Two reads of the same instances, in whatever order, are listed alike. */
  lemma ListingIgnoresReadOrder(q: Query, a: seq<Instance>, b: seq<Instance>)
    requires DistinctIds(a) && DistinctIds(b) && multiset(a) == multiset(b)
    ensures Listing(q, a) == Listing(q, b)
  {
    var keep := (item: Instance) => Matches(q, item);
    FilterRearranged(keep, a, b);
    FilterDistinct(keep, a);
    FilterDistinct(keep, b);
    DistinctIdentify(Matching(q, a));
    DistinctIdentify(Matching(q, b));
    OrdersAreTotal(q.order, Elems(Matching(q, a)));
    SortIsCanonical(Less(q.order), Matching(q, a), Matching(q, b));
  }

  // ----- pages

  /** Page number `page` of a list, by plain arithmetic. */
  function Page(xs: seq<Instance>, page: int, size: int): seq<Instance>
    requires page >= 1 && size >= 1
  {
    var start := (page - 1) * size;
    if start >= |xs| then [] else StartNonNegative(page, size); xs[start..Min(start + size, |xs|)]
  }

  lemma StartNonNegative(page: int, size: int)
    requires page >= 1 && size >= 1
    ensures (page - 1) * size >= 0
  {}

  /** The page the code cuts out at an offset; a negative offset is a slice out of range, which panics. */
  function Cut(xs: seq<Instance>, start: int, size: int): Option<seq<Instance>>
    requires size >= 1
  {
    if start >= |xs| then Some([]) else if start < 0 then None else Some(xs[start..Min(start + size, |xs|)])
  }

  /** The cut at a 64-bit offset is the page exactly when the offset did not wrap round into the list. */
  lemma PageIsRightUnlessWrapped(xs: seq<Instance>, page: int, size: int)
    requires page >= 1 && size >= 1 && |xs| <= MaxInt
    ensures var start := (page - 1) * size;
            Cut(xs, Wrap(start), size) == Some(Page(xs, page, size)) <==> start <= MaxInt || Wrap(start) >= |xs|
  {
    var start := (page - 1) * size;
    StartNonNegative(page, size);
    WrapInRange(start);
  }

  lemma WrapInRange(n: int)
    requires 0 <= n
    ensures n <= MaxInt ==> Wrap(n) == n
  {}

  /** With the largest page size, the first page number whose offset wraps to a negative one. */
  lemma HugePageNumberWraps(x: Instance)
    ensures var page := 18446744073709553;
            Wrap((page - 1) * 500) == -9223372036854775616 && Cut([x], Wrap((page - 1) * 500), 500) == None
  {}

  /** Pages 1 to n, one after the other. */
  function Pages(xs: seq<Instance>, size: int, n: nat): seq<Instance>
    requires size >= 1
  {
    if n == 0 then [] else Pages(xs, size, n - 1) + Page(xs, n, size)
  }

  lemma OnePageMore(xs: seq<Instance>, n: nat, size: int, before: int)
    requires n >= 1 && size >= 1 && before == (n - 1) * size && before >= 0
    ensures xs[..Min(before, |xs|)] + Page(xs, n, size) == xs[..Min(before + size, |xs|)]
  {}

  lemma {:induction false} PagesArePrefix(xs: seq<Instance>, size: int, n: nat)
    requires size >= 1
    ensures n * size >= 0 && Pages(xs, size, n) == xs[..Min(n * size, |xs|)]
  {
    if n > 0 {
      PagesArePrefix(xs, size, n - 1);
      OnePageMore(xs, n, size, (n - 1) * size);
      assert n * size == (n - 1) * size + size;
    }
  }

  /** Enough pages, read in turn, give back the whole list: nothing is lost and nothing repeats. */
  lemma PagesCoverTheList(xs: seq<Instance>, size: int, n: nat)
    requires size >= 1 && n * size >= |xs|
    ensures Pages(xs, size, n) == xs
  {
    PagesArePrefix(xs, size, n);
  }

  /** What the query lists on each read. */
  function Listings(q: Query, lists: seq<seq<Instance>>): seq<seq<Instance>> {
    seq(|lists|, i requires 0 <= i < |lists| => Listing(q, lists[i]))
  }

  /** Page i + 1 of the i-th listing, for the first n listings. */
  function PagesRead(listings: seq<seq<Instance>>, size: int, n: nat): seq<Instance>
    requires size >= 1 && n <= |listings|
  {
    if n == 0 then [] else PagesRead(listings, size, n - 1) + Page(listings[n - 1], n, size)
  }

  lemma {:induction false} PagesOfEqualListings(listings: seq<seq<Instance>>, xs: seq<Instance>, size: int, n: nat, read: seq<Instance>)
    requires size >= 1 && n <= |listings| && read == PagesRead(listings, size, n)
    requires forall i :: 0 <= i < |listings| ==> listings[i] == xs
    ensures read == Pages(xs, size, n)
  {
    if n > 0 { PagesOfEqualListings(listings, xs, size, n - 1, PagesRead(listings, size, n - 1)); }
  }

  /** Pages taken from separate reads of the same instances still add up to one list. */
  lemma PagesOfSeparateReads(q: Query, lists: seq<seq<Instance>>, all: seq<Instance>, n: nat)
    requires q.pageSize >= 1 && DistinctIds(all) && n <= |lists|
    requires forall i :: 0 <= i < |lists| ==> DistinctIds(lists[i]) && multiset(lists[i]) == multiset(all)
    ensures PagesRead(Listings(q, lists), q.pageSize, n) == Pages(Listing(q, all), q.pageSize, n)
  {
    var listings := Listings(q, lists);
    forall i | 0 <= i < |listings| ensures listings[i] == Listing(q, all) { ListingIgnoresReadOrder(q, lists[i], all); }
    PagesOfEqualListings(listings, Listing(q, all), q.pageSize, n, PagesRead(listings, q.pageSize, n));
  }

  /** The page of the listing, and how many instances match. */
  method SelectInstances(instances: seq<Instance>, q: Query) returns (page: Option<seq<Instance>>, total: int)
    requires q.page >= 1 && q.pageSize >= 1 && |instances| <= MaxInt
    ensures total == |Matching(q, instances)|
    ensures page == Cut(Listing(q, instances), Wrap((q.page - 1) * q.pageSize), q.pageSize)
    ensures (q.page - 1) * q.pageSize <= MaxInt ==> page == Some(Page(Listing(q, instances), q.page, q.pageSize))
  {
    var matched: seq<Instance> := [];
    var k := 0;
    while k < |instances|
      invariant 0 <= k <= |instances|
      invariant matched == Matching(q, instances[..k]) && |matched| <= k
    {
      var keep := InstanceMatches(instances[k], q);
      FilterStep(item => Matches(q, item), instances, k);
      if keep { matched := matched + [instances[k]]; }
      k := k + 1;
    }
    assert instances[..k] == instances;
    matched := Sort(Less(q.order), matched);
    total := |matched|;
    PageIsRightUnlessWrapped(matched, q.page, q.pageSize);
    var start := Wrap((q.page - 1) * q.pageSize);
    if start >= total { return Some([]), total; }
    if start < 0 { return None, total; }
    var end := start + q.pageSize;
    if end > total { end := total; }
    page := Some(matched[start..end]);
  }
}
