/** The admission of work: two bounded classes, one piece of each per instance, and slots kept
    free for capability snapshots while one is waiting. */
module Dispatcher {
  import opened Basics

  datatype WorkClass = ProbeWork | CollectionQuery | CapabilitySnapshot

  datatype Work = Work(instance: string, kind: WorkClass)

  const ReservedSlots := 4

  datatype Slots = Slots(
    probeLimit: nat, queryLimit: nat,
    activeProbes: int, activeQueries: int, activeCollectionQueries: int,
    capabilityWaiting: bool, probing: set<string>, querying: set<string>)

  function NewSlots(probeLimit: nat, queryLimit: nat): Slots {
    Slots(probeLimit, queryLimit, 0, 0, 0, false, {}, {})
  }

  predicate Admits(d: Slots, w: Work) {
    if w.kind.ProbeWork? then d.activeProbes < d.probeLimit && w.instance !in d.probing
    else
      && d.activeQueries < d.queryLimit && w.instance !in d.querying
      && (w.kind.CollectionQuery? && d.capabilityWaiting ==>
            d.activeCollectionQueries < d.queryLimit - Min(ReservedSlots, d.queryLimit))
  }

  function Admitted(d: Slots, w: Work): Slots {
    match w.kind
    case ProbeWork => d.(activeProbes := d.activeProbes + 1, probing := d.probing + {w.instance})
    case CollectionQuery =>
      d.(activeQueries := d.activeQueries + 1, activeCollectionQueries := d.activeCollectionQueries + 1,
         querying := d.querying + {w.instance})
    case CapabilitySnapshot => d.(activeQueries := d.activeQueries + 1, querying := d.querying + {w.instance})
  }

  function Finished(d: Slots, w: Work): Slots {
    if w.kind.ProbeWork? then
      if w.instance in d.probing then d.(activeProbes := d.activeProbes - 1, probing := d.probing - {w.instance}) else d
    else if w.instance in d.querying then
      d.(activeQueries := d.activeQueries - 1, querying := d.querying - {w.instance},
         activeCollectionQueries := d.activeCollectionQueries - (if w.kind.CollectionQuery? then 1 else 0))
    else d
  }

  // ----- the work in flight

  ghost function OfKind(flight: set<Work>, kind: WorkClass): set<Work> { set w | w in flight && w.kind == kind }

  ghost function Queries(flight: set<Work>): set<Work> { set w | w in flight && !w.kind.ProbeWork? }

  ghost predicate Counts(d: Slots, flight: set<Work>) {
    && d.activeProbes == |OfKind(flight, ProbeWork)|
    && d.activeQueries == |Queries(flight)|
    && d.activeCollectionQueries == |OfKind(flight, CollectionQuery)|
  }

  ghost predicate Marks(d: Slots, flight: set<Work>) {
    && (forall i :: i in d.probing <==> Work(i, ProbeWork) in flight)
    && (forall i :: i in d.querying <==> Work(i, CollectionQuery) in flight || Work(i, CapabilitySnapshot) in flight)
    && (forall i :: !(Work(i, CollectionQuery) in flight && Work(i, CapabilitySnapshot) in flight))
  }

  /** The counters and marks are those of exactly the work in flight. */
  ghost predicate Accounts(d: Slots, flight: set<Work>) { Counts(d, flight) && Marks(d, flight) }

  ghost predicate WithinLimits(d: Slots) {
    && d.activeProbes <= d.probeLimit
    && d.activeCollectionQueries <= d.activeQueries <= d.queryLimit
  }

  ghost predicate Valid(d: Slots, flight: set<Work>) { Accounts(d, flight) && WithinLimits(d) }

  lemma FlightGrows(flight: set<Work>, w: Work)
    requires w !in flight
    ensures |OfKind(flight + {w}, ProbeWork)| == |OfKind(flight, ProbeWork)| + (if w.kind.ProbeWork? then 1 else 0)
    ensures |OfKind(flight + {w}, CollectionQuery)| == |OfKind(flight, CollectionQuery)| + (if w.kind.CollectionQuery? then 1 else 0)
    ensures |Queries(flight + {w})| == |Queries(flight)| + (if w.kind.ProbeWork? then 0 else 1)
  {
    var more := flight + {w};
    if w.kind.ProbeWork? {
      assert OfKind(more, ProbeWork) == OfKind(flight, ProbeWork) + {w};
      assert Queries(more) == Queries(flight);
    } else {
      assert OfKind(more, ProbeWork) == OfKind(flight, ProbeWork);
      assert Queries(more) == Queries(flight) + {w};
    }
    if w.kind.CollectionQuery? {
      assert OfKind(more, CollectionQuery) == OfKind(flight, CollectionQuery) + {w};
    } else {
      assert OfKind(more, CollectionQuery) == OfKind(flight, CollectionQuery);
    }
  }

  lemma CollectionWithinQueries(flight: set<Work>)
    ensures |OfKind(flight, CollectionQuery)| <= |Queries(flight)|
  {
    SubsetSize(OfKind(flight, CollectionQuery), Queries(flight));
  }

  lemma RefusedIfInFlight(d: Slots, flight: set<Work>, w: Work)
    requires Marks(d, flight) && Admits(d, w)
    ensures w !in flight
    ensures w.kind.ProbeWork? ==> w.instance !in d.probing
    ensures !w.kind.ProbeWork? ==> w.instance !in d.querying
  {
    assert w == Work(w.instance, w.kind);
  }

  lemma AdmitMarks(d: Slots, flight: set<Work>, w: Work)
    requires Marks(d, flight)
    requires w.kind.ProbeWork? ==> w.instance !in d.probing
    requires !w.kind.ProbeWork? ==> w.instance !in d.querying
    ensures Marks(Admitted(d, w), flight + {w})
  {}

  lemma AdmitKeepsValid(d: Slots, flight: set<Work>, w: Work)
    requires Valid(d, flight) && Admits(d, w)
    ensures w !in flight && Valid(Admitted(d, w), flight + {w})
  {
    RefusedIfInFlight(d, flight, w);
    FlightGrows(flight, w);
    AdmitMarks(d, flight, w);
    CollectionWithinQueries(flight + {w});
  }

  lemma FinishMarks(d: Slots, flight: set<Work>, w: Work)
    requires Marks(d, flight) && w in flight
    ensures Marks(Finished(d, w), flight - {w})
    ensures w.kind.ProbeWork? ==> w.instance in d.probing
    ensures !w.kind.ProbeWork? ==> w.instance in d.querying
  {
    assert w == Work(w.instance, w.kind);
  }

  lemma FinishKeepsValid(d: Slots, flight: set<Work>, w: Work)
    requires Valid(d, flight) && w in flight
    ensures Valid(Finished(d, w), flight - {w})
  {
    FinishMarks(d, flight, w);
    assert flight == (flight - {w}) + {w};
    FlightGrows(flight - {w}, w);
    CollectionWithinQueries(flight - {w});
  }

  /** There is never more work in flight than the two limits together. */
  lemma FlightWithinCapacity(d: Slots, flight: set<Work>)
    requires Valid(d, flight)
    ensures |flight| == d.activeProbes + d.activeQueries <= d.probeLimit + d.queryLimit
  {
    assert flight == OfKind(flight, ProbeWork) + Queries(flight);
  }

  /** Admission is only ever withdrawn within a pass: more work in flight, and a waiting flag that
      does not drop, admit nothing that was refused. */
  lemma RefusalPersists(d: Slots, e: Slots, w: Work)
    requires !Admits(d, w)
    requires e.probeLimit == d.probeLimit && e.queryLimit == d.queryLimit
    requires e.activeProbes >= d.activeProbes && e.activeQueries >= d.activeQueries
    requires e.activeCollectionQueries >= d.activeCollectionQueries
    requires d.probing <= e.probing && d.querying <= e.querying
    requires w.kind.CollectionQuery? && d.capabilityWaiting ==> e.capabilityWaiting
    ensures !Admits(e, w)
  {}

  /** The dispatcher object. `flight` is the work admitted and not yet finished. */
  class Gatekeeper {
    const probeLimit: nat
    const queryLimit: nat
    var activeProbes: int
    var activeQueries: int
    var activeCollectionQueries: int
    var capabilitySnapshotWaiting: bool
    var instanceProbe: set<string>
    var instanceQuery: set<string>
    ghost var flight: set<Work>

    ghost function State(): Slots
      reads this
    {
      Slots(probeLimit, queryLimit, activeProbes, activeQueries, activeCollectionQueries,
            capabilitySnapshotWaiting, instanceProbe, instanceQuery)
    }

    ghost predicate Ok()
      reads this
    {
      Valid(State(), flight)
    }

    constructor (probeLimit: nat, queryLimit: nat)
      ensures Ok() && State() == NewSlots(probeLimit, queryLimit) && flight == {}
    {
      this.probeLimit, this.queryLimit := probeLimit, queryLimit;
      activeProbes, activeQueries, activeCollectionQueries := 0, 0, 0;
      capabilitySnapshotWaiting := false;
      instanceProbe, instanceQuery, flight := {}, {}, {};
    }

    /** A refusal changes nothing; an admission starts work that was not in flight. */
    method Admit(item: Work) returns (ok: bool)
      requires Ok()
      modifies this
      ensures Ok()
      ensures ok <==> Admits(old(State()), item)
      ensures !ok ==> State() == old(State()) && flight == old(flight)
      ensures ok ==> State() == Admitted(old(State()), item) && item !in old(flight) && flight == old(flight) + {item}
    {
      ghost var before := State();
      if item.kind.ProbeWork? {
        if activeProbes >= probeLimit || item.instance in instanceProbe { return false; }
        AdmitKeepsValid(before, flight, item);
        activeProbes := activeProbes + 1;
        instanceProbe := instanceProbe + {item.instance};
        flight := flight + {item};
        return true;
      }
      if activeQueries >= queryLimit || item.instance in instanceQuery { return false; }
      if item.kind.CollectionQuery? && capabilitySnapshotWaiting {
        var reserved := Min(ReservedSlots, queryLimit);
        if activeCollectionQueries >= queryLimit - reserved { return false; }
      }
      AdmitKeepsValid(before, flight, item);
      activeQueries := activeQueries + 1;
      if item.kind.CollectionQuery? { activeCollectionQueries := activeCollectionQueries + 1; }
      instanceQuery := instanceQuery + {item.instance};
      flight := flight + {item};
      return true;
    }

    /** Releases work in flight; nothing happens when its instance has no work of that sort marked. */
    method Finish(item: Work)
      requires Ok()
      modifies this
      ensures State() == Finished(old(State()), item) && flight == old(flight) - {item}
      ensures item in old(flight) ==> Ok()
      ensures item.instance !in (if item.kind.ProbeWork? then old(instanceProbe) else old(instanceQuery)) ==>
                Ok() && State() == old(State()) && flight == old(flight)
    {
      if item in flight {
        FinishKeepsValid(State(), flight, item);
        FinishMarks(State(), flight, item);
      } else {
        assert flight - {item} == flight;
      }
      if item.kind.ProbeWork? {
        if item.instance in instanceProbe {
          instanceProbe := instanceProbe - {item.instance};
          activeProbes := activeProbes - 1;
        }
      } else if item.instance in instanceQuery {
        instanceQuery := instanceQuery - {item.instance};
        activeQueries := activeQueries - 1;
        if item.kind.CollectionQuery? { activeCollectionQueries := activeCollectionQueries - 1; }
      }
      flight := flight - {item};
    }

    method SetWaiting(waiting: bool)
      requires Ok()
      modifies this`capabilitySnapshotWaiting
      ensures Ok() && State() == old(State()).(capabilityWaiting := waiting)
    {
      capabilitySnapshotWaiting := waiting;
    }
  }
}
