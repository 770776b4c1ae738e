/** Which sessions a trigger snapshot keeps: the closure of each directly matching session over the
    blocking graph, whole closures packed greedily under a limit. */
module TriggerSnapshot {
  import opened Basics
  import opened Ordering

  datatype Scope = LockBlocking | LongTransactions | IdleInTransaction | ActiveSessions

  datatype Session = Session(pid: int, blockers: seq<int>, directMatch: bool)

  const MaxActiveSessions := 50

  // ----- the blocking graph

  datatype Graph = Graph(nodes: set<int>, edges: set<(int, int)>)

  ghost predicate WellFormed(g: Graph) {
    forall e :: e in g.edges ==> e.0 in g.nodes && e.1 in g.nodes
  }

  ghost predicate Symmetric(g: Graph) {
    forall a, b :: (a, b) in g.edges ==> (b, a) in g.edges
  }

  ghost predicate IsPath(g: Graph, path: seq<int>) {
    && path != []
    && path[0] in g.nodes
    && forall i :: 0 <= i < |path| - 1 ==> (path[i], path[i + 1]) in g.edges
  }

  ghost predicate Reaches(g: Graph, a: int, b: int) {
    exists path :: IsPath(g, path) && path[0] == a && path[|path| - 1] == b
  }

  /** Everything reachable from a; empty when a is not a node. */
  ghost function Closure(g: Graph, a: int): set<int> {
    set x | x in g.nodes && Reaches(g, a, x)
  }

  ghost predicate ClosedUnder(g: Graph, s: set<int>) {
    forall a, b :: a in s && (a, b) in g.edges ==> b in s
  }

  lemma ReachesSelf(g: Graph, a: int)
    requires a in g.nodes
    ensures Reaches(g, a, a)
  {
    assert IsPath(g, [a]);
  }

  lemma ReachesNext(g: Graph, a: int, b: int, c: int)
    requires Reaches(g, a, b) && (b, c) in g.edges
    ensures Reaches(g, a, c)
  {
    var path :| IsPath(g, path) && path[0] == a && path[|path| - 1] == b;
    var longer := path + [c];
    assert IsPath(g, longer) && longer[0] == a && longer[|longer| - 1] == c;
  }

  lemma {:induction false} PathStaysInside(g: Graph, s: set<int>, path: seq<int>)
    requires ClosedUnder(g, s) && IsPath(g, path) && path[0] in s
    ensures path[|path| - 1] in s
  {
    if |path| > 1 {
      var shorter := path[..|path| - 1];
      assert IsPath(g, shorter);
      PathStaysInside(g, s, shorter);
      var i := |path| - 2;
      var a, b := path[i], path[i + 1];
      assert (a, b) in g.edges && a == shorter[|shorter| - 1];
      assert b in s;
    }
  }

  /** The closure is the least closed set around its root. */
  lemma ClosureIsLeast(g: Graph, a: int, s: set<int>)
    requires ClosedUnder(g, s) && a in s
    ensures Closure(g, a) <= s
  {
    forall x | x in Closure(g, a) ensures x in s {
      var path :| IsPath(g, path) && path[0] == a && path[|path| - 1] == x;
      PathStaysInside(g, s, path);
    }
  }

  lemma ClosureIsClosed(g: Graph, a: int)
    requires WellFormed(g)
    ensures ClosedUnder(g, Closure(g, a))
  {
    forall x, y | x in Closure(g, a) && (x, y) in g.edges ensures y in Closure(g, a) {
      ReachesNext(g, a, x, y);
      assert (x, y).1 in g.nodes;
    }
  }

  /** A closed set's complement is closed when edges go both ways. */
  lemma ComplementClosed(g: Graph, s: set<int>)
    requires WellFormed(g) && Symmetric(g) && ClosedUnder(g, s)
    ensures ClosedUnder(g, g.nodes - s)
  {
    forall a, b | a in g.nodes - s && (a, b) in g.edges ensures b in g.nodes - s {
      assert (b, a) in g.edges && (a, b).1 in g.nodes;
    }
  }

  /** When waiters are followed too, closures are connected components: equal or disjoint. */
  lemma ComponentsEqualOrDisjoint(g: Graph, a: int, b: int)
    requires WellFormed(g) && Symmetric(g) && a in g.nodes && b in g.nodes
    ensures Closure(g, a) == Closure(g, b) || Closure(g, a) !! Closure(g, b)
  {
    ClosureIsClosed(g, a);
    ClosureIsClosed(g, b);
    ReachesSelf(g, a);
    ReachesSelf(g, b);
    if b in Closure(g, a) {
      ClosureIsLeast(g, b, Closure(g, a));
      if a !in Closure(g, b) {
        ComplementClosed(g, Closure(g, b));
        ClosureIsLeast(g, a, g.nodes - Closure(g, b));
      } else {
        ClosureIsLeast(g, a, Closure(g, b));
      }
    } else {
      ComplementClosed(g, Closure(g, a));
      ClosureIsLeast(g, b, g.nodes - Closure(g, a));
    }
  }

  // ----- the graph of a list of sessions

  ghost predicate DistinctPids(sessions: seq<Session>) {
    forall i, j :: 0 <= i < j < |sessions| ==> sessions[i].pid != sessions[j].pid
  }

  function Pids(sessions: seq<Session>): (s: set<int>)
    ensures forall i :: 0 <= i < |sessions| ==> sessions[i].pid in s
  {
    set i | 0 <= i < |sessions| :: sessions[i].pid
  }

  ghost predicate BlockedBy(sessions: seq<Session>, p: int, q: int) {
    exists i :: 0 <= i < |sessions| && sessions[i].pid == p && q in sessions[i].blockers
  }

  /** Sessions that exist, with an edge to each existing blocker and, outside lock scope, to each
      waiter. */
  ghost function GraphOf(scope: Scope, sessions: seq<Session>): Graph {
    var nodes := Pids(sessions);
    Graph(nodes, set p, q | p in nodes && q in nodes
                            && (BlockedBy(sessions, p, q) || (!scope.LockBlocking? && BlockedBy(sessions, q, p))) :: (p, q))
  }

  lemma WaitersMakeItSymmetric(scope: Scope, sessions: seq<Session>)
    ensures WellFormed(GraphOf(scope, sessions))
    ensures !scope.LockBlocking? ==> Symmetric(GraphOf(scope, sessions))
  {}

  /** In the scopes that follow waiters any two groups are equal or disjoint. */
  lemma GroupsEqualOrDisjoint(scope: Scope, sessions: seq<Session>, a: int, b: int)
    requires !scope.LockBlocking? && a in Pids(sessions) && b in Pids(sessions)
    ensures
      var g := GraphOf(scope, sessions);
      Closure(g, a) == Closure(g, b) || Closure(g, a) !! Closure(g, b)
  {
    WaitersMakeItSymmetric(scope, sessions);
    ComponentsEqualOrDisjoint(GraphOf(scope, sessions), a, b);
  }

  /** In the lock scope a group holds only what its root waits for: a root whose blockers are not in the
      list is alone, whoever waits for it. */
  lemma LockGroupLeavesWaitersOut(sessions: seq<Session>, root: int)
    requires root in Pids(sessions) && forall q :: q in Pids(sessions) && BlockedBy(sessions, root, q) ==> q == root
    ensures Closure(GraphOf(LockBlocking, sessions), root) == {root}
  {
    var g := GraphOf(LockBlocking, sessions);
    assert ClosedUnder(g, {root});
    ClosureIsLeast(g, root, {root});
    ReachesSelf(g, root);
  }

  /** In the other scopes a session that waits for a member of a group belongs to it. */
  lemma WaitersJoinTheGroup(scope: Scope, sessions: seq<Session>, root: int, p: int, q: int)
    requires !scope.LockBlocking? && p in Closure(GraphOf(scope, sessions), root)
    requires q in Pids(sessions) && BlockedBy(sessions, q, p)
    ensures q in Closure(GraphOf(scope, sessions), root)
  {
    WaitersMakeItSymmetric(scope, sessions);
    ClosureIsClosed(GraphOf(scope, sessions), root);
    assert (p, q) in GraphOf(scope, sessions).edges;
  }

  /** In every scope a member's blockers in the list belong to its group. */
  lemma BlockersJoinTheGroup(scope: Scope, sessions: seq<Session>, root: int, p: int, q: int)
    requires p in Closure(GraphOf(scope, sessions), root) && q in Pids(sessions) && BlockedBy(sessions, p, q)
    ensures q in Closure(GraphOf(scope, sessions), root)
  {
    WaitersMakeItSymmetric(scope, sessions);
    ClosureIsClosed(GraphOf(scope, sessions), root);
    assert (p, q) in GraphOf(scope, sessions).edges;
  }

  // ----- breadth-first search over the indexes

  /** The graph as the two indexes present it. */
  ghost function IndexGraph(scope: Scope, byPid: map<int, Session>, waiters: map<int, seq<int>>): Graph {
    Graph(byPid.Keys, set p, q | p in byPid.Keys && q in byPid.Keys && Adjacent(scope, byPid, waiters, p, q) :: (p, q))
  }

  ghost predicate Adjacent(scope: Scope, byPid: map<int, Session>, waiters: map<int, seq<int>>, p: int, q: int)
    requires p in byPid
  {
    q in byPid[p].blockers || (!scope.LockBlocking? && Waits(waiters, p, q))
  }

  /** What holds of the visited set and the queue while searching from root. */
  ghost predicate Searching(g: Graph, root: int, related: set<int>, queue: seq<int>) {
    && related <= Closure(g, root)
    && (forall x :: x in queue && x in g.nodes ==> x in Closure(g, root))
    && (root in g.nodes ==> root in related || root in queue)
    && (forall p, q :: p in related && (p, q) in g.edges ==> q in related || q in queue)
  }

  lemma SearchSkips(g: Graph, root: int, related: set<int>, queue: seq<int>)
    requires WellFormed(g) && queue != [] && Searching(g, root, related, queue)
    requires queue[0] in related || queue[0] !in g.nodes
    ensures Searching(g, root, related, queue[1..])
  {
    assert forall x :: x in queue ==> x == queue[0] || x in queue[1..];
    assert forall e :: e in g.edges ==> e.1 in g.nodes;
  }

  lemma SearchVisits(g: Graph, root: int, related: set<int>, queue: seq<int>, found: seq<int>)
    requires WellFormed(g) && queue != [] && Searching(g, root, related, queue)
    requires queue[0] in g.nodes
    requires forall q :: (queue[0], q) in g.edges ==> q in found
    requires forall q :: q in found && q in g.nodes ==> (queue[0], q) in g.edges
    ensures Searching(g, root, related + {queue[0]}, queue[1..] + found)
  {
    assert forall x :: x in queue ==> x == queue[0] || x in queue[1..];
    ClosureIsClosed(g, root);
    assert queue[0] in queue;
  }

  lemma SearchEnds(g: Graph, root: int, related: set<int>)
    requires WellFormed(g) && Searching(g, root, related, [])
    ensures related == Closure(g, root)
  {
    if root in g.nodes {
      ClosureIsLeast(g, root, related);
    } else {
      NothingFromOutside(g, root);
    }
  }

  /** What a visit appends to the queue: the successors, and PIDs that do not exist. */
  function Found(scope: Scope, byPid: map<int, Session>, waiters: map<int, seq<int>>, pid: int): seq<int>
    requires pid in byPid
  {
    byPid[pid].blockers + (if !scope.LockBlocking? && pid in waiters then waiters[pid] else [])
  }

  lemma FoundAreSuccessors(scope: Scope, byPid: map<int, Session>, waiters: map<int, seq<int>>, pid: int)
    requires pid in byPid
    ensures
      var g, found := IndexGraph(scope, byPid, waiters), Found(scope, byPid, waiters, pid);
      && (forall q :: (pid, q) in g.edges ==> q in found)
      && (forall q :: q in found && q in g.nodes ==> (pid, q) in g.edges)
  {
    var g, found := IndexGraph(scope, byPid, waiters), Found(scope, byPid, waiters, pid);
    forall q ensures q in found <==> Adjacent(scope, byPid, waiters, pid, q) {}
  }

  method SearchRelated(scope: Scope, root: int, byPid: map<int, Session>, waiters: map<int, seq<int>>)
    returns (related: set<int>)
    ensures related == Closure(IndexGraph(scope, byPid, waiters), root)
  {
    ghost var g := IndexGraph(scope, byPid, waiters);
    related := {};
    var queue := [root];
    if root in byPid { ReachesSelf(g, root); }
    while queue != []
      invariant Searching(g, root, related, queue)
      decreases |byPid.Keys - related|, |queue|
    {
      var pid := queue[0];
      if pid in related || pid !in byPid {
        SearchSkips(g, root, related, queue);
        queue := queue[1..];
      } else {
        FoundAreSuccessors(scope, byPid, waiters, pid);
        SearchVisits(g, root, related, queue, Found(scope, byPid, waiters, pid));
        assert byPid.Keys - (related + {pid}) == byPid.Keys - related - {pid};
        related := related + {pid};
        queue := queue[1..] + Found(scope, byPid, waiters, pid);
      }
    }
    SearchEnds(g, root, related);
  }

  /** The search and its sorted listing: exactly the existing PIDs reachable from the root, ascending. */
  method RelatedPids(scope: Scope, root: int, byPid: map<int, Session>, waiters: map<int, seq<int>>)
    returns (pids: seq<int>)
    ensures Ascending(IntLess, pids)
    ensures Elems(pids) == Closure(IndexGraph(scope, byPid, waiters), root)
  {
    var related := SearchRelated(scope, root, byPid, waiters);
    var listed := Enumerate(related);
    pids := Sort(IntLess, listed);
    SortAscending(IntLess, listed);
  }

  lemma NothingFromOutside(g: Graph, a: int)
    requires a !in g.nodes
    ensures Closure(g, a) == {}
  {}

  predicate Waits(waiters: map<int, seq<int>>, p: int, q: int) { p in waiters && q in waiters[p] }

  /** The two indexes built in one pass over the sessions. */
  method BuildIndexes(sessions: seq<Session>) returns (byPid: map<int, Session>, waiters: map<int, seq<int>>)
    ensures byPid.Keys == Pids(sessions)
    ensures DistinctPids(sessions) ==> forall i :: 0 <= i < |sessions| ==> byPid[sessions[i].pid] == sessions[i]
    ensures forall p, q :: Waits(waiters, p, q) <==> BlockedBy(sessions, q, p)
  {
    byPid, waiters := map[], map[];
    var n := 0;
    while n < |sessions|
      invariant 0 <= n <= |sessions|
      invariant byPid.Keys == Pids(sessions[..n])
      invariant forall i :: 0 <= i < n ==> sessions[i].pid in byPid
      invariant DistinctPids(sessions) ==> forall i :: 0 <= i < n ==> byPid[sessions[i].pid] == sessions[i]
      invariant forall p, q :: Waits(waiters, p, q) <==> BlockedBy(sessions[..n], q, p)
    {
      var session := sessions[n];
      assert sessions[..n + 1] == sessions[..n] + [session];
      assert Pids(sessions[..n + 1]) == Pids(sessions[..n]) + {session.pid} by {
        assert forall i :: 0 <= i < n ==> sessions[..n + 1][i] == sessions[..n][i];
        assert sessions[..n + 1][n] == session;
      }
      byPid := byPid[session.pid := session];
      waiters := AddWaiter(waiters, session);
      forall p, q ensures Waits(waiters, p, q) <==> BlockedBy(sessions[..n + 1], q, p) {
        BlockedByAppend(sessions[..n], session, q, p);
      }
      n := n + 1;
    }
    assert sessions[..n] == sessions;
  }

  lemma BlockedByAppend(sessions: seq<Session>, s: Session, p: int, q: int)
    ensures BlockedBy(sessions + [s], p, q) <==> BlockedBy(sessions, p, q) || (s.pid == p && q in s.blockers)
  {
    var longer := sessions + [s];
    assert longer[|sessions|] == s;
    if BlockedBy(sessions, p, q) {
      var i :| 0 <= i < |sessions| && sessions[i].pid == p && q in sessions[i].blockers;
      assert longer[i] == sessions[i];
    }
  }

  function WithWaiter(waiters: map<int, seq<int>>, blocker: int, waiter: int): map<int, seq<int>> {
    waiters[blocker := (if blocker in waiters then waiters[blocker] else []) + [waiter]]
  }

  lemma OneWaiterMore(waiters: map<int, seq<int>>, blocker: int, waiter: int, p: int, q: int)
    ensures Waits(WithWaiter(waiters, blocker, waiter), p, q) <==> Waits(waiters, p, q) || (p == blocker && q == waiter)
  {
    if p == blocker {
      var earlier := if blocker in waiters then waiters[blocker] else [];
      assert q in earlier + [waiter] <==> q in earlier || q == waiter;
    }
  }

  lemma NextBlocker(blockers: seq<int>, k: nat, p: int)
    requires k < |blockers|
    ensures p in blockers[..k + 1] <==> p in blockers[..k] || p == blockers[k]
  {
    assert blockers[..k + 1] == blockers[..k] + [blockers[k]];
  }

  method AddWaiter(waiters: map<int, seq<int>>, session: Session) returns (r: map<int, seq<int>>)
    ensures forall p, q :: Waits(r, p, q) <==>
              Waits(waiters, p, q) || (q == session.pid && p in session.blockers)
  {
    r := waiters;
    var k := 0;
    while k < |session.blockers|
      invariant 0 <= k <= |session.blockers|
      invariant forall p, q :: Waits(r, p, q) <==>
                  Waits(waiters, p, q) || (q == session.pid && p in session.blockers[..k])
    {
      var blocker := session.blockers[k];
      ghost var before := r;
      r := WithWaiter(r, blocker, session.pid);
      forall p, q ensures Waits(r, p, q) <==>
                            Waits(waiters, p, q) || (q == session.pid && p in session.blockers[..k + 1])
      {
        OneWaiterMore(before, blocker, session.pid, p, q);
        NextBlocker(session.blockers, k, p);
      }
      k := k + 1;
    }
    assert session.blockers[..k] == session.blockers;
  }

  lemma IndexesPresentTheGraph(scope: Scope, sessions: seq<Session>, byPid: map<int, Session>, waiters: map<int, seq<int>>)
    requires DistinctPids(sessions) && byPid.Keys == Pids(sessions)
    requires forall i :: 0 <= i < |sessions| ==> byPid[sessions[i].pid] == sessions[i]
    requires forall p, q :: Waits(waiters, p, q) <==> BlockedBy(sessions, q, p)
    ensures IndexGraph(scope, byPid, waiters) == GraphOf(scope, sessions)
  {
    forall p, q | p in byPid.Keys && q in byPid.Keys
      ensures Adjacent(scope, byPid, waiters, p, q) <==>
              BlockedBy(sessions, p, q) || (!scope.LockBlocking? && BlockedBy(sessions, q, p))
    {
      var i :| 0 <= i < |sessions| && sessions[i].pid == p;
      assert byPid[p] == sessions[i];
    }
  }

  // ----- packing whole groups

  datatype Group = Group(root: int, pids: seq<int>)

  /** Larger groups first, then the smaller root PID. */
  predicate RankLess(a: Group, b: Group) {
    if |a.pids| != |b.pids| then |a.pids| > |b.pids| else a.root < b.root
  }

  /** Greedy packing: a group is taken exactly when it still fits beside those taken before it. */
  function Pack(groups: seq<Group>, limit: int): set<int> {
    if groups == [] then {}
    else
      var taken := Pack(groups[..|groups| - 1], limit);
      var more := taken + Elems(groups[|groups| - 1].pids);
      if |more| <= limit then more else taken
  }

  lemma {:induction false} PackWithinLimit(groups: seq<Group>, limit: int)
    requires limit >= 0
    ensures |Pack(groups, limit)| <= limit
  {
    if groups != [] { PackWithinLimit(groups[..|groups| - 1], limit); }
  }

  /** Everything packed belongs to a wholly packed group. */
  lemma {:induction false} PackIsUnionOfGroups(groups: seq<Group>, limit: int)
    ensures forall x :: x in Pack(groups, limit) ==>
              exists i :: 0 <= i < |groups| && x in groups[i].pids && Elems(groups[i].pids) <= Pack(groups, limit)
  {
    if groups != [] {
      var n := |groups| - 1;
      PackIsUnionOfGroups(groups[..n], limit);
      forall x | x in Pack(groups, limit)
        ensures exists i :: 0 <= i < |groups| && x in groups[i].pids && Elems(groups[i].pids) <= Pack(groups, limit)
      {
        if x in Pack(groups[..n], limit) {
          var i :| 0 <= i < n && x in groups[..n][i].pids && Elems(groups[..n][i].pids) <= Pack(groups[..n], limit);
          assert groups[i] == groups[..n][i];
        } else {
          assert x in groups[n].pids;
        }
      }
    }
  }

  /** A group that was left out would not fit even beside the final selection. */
  lemma {:induction false} PackIsMaximal(groups: seq<Group>, limit: int)
    ensures forall i :: 0 <= i < |groups| ==>
              Elems(groups[i].pids) <= Pack(groups, limit) || |Pack(groups, limit) + Elems(groups[i].pids)| > limit
  {
    if groups != [] {
      var n := |groups| - 1;
      var before, after := Pack(groups[..n], limit), Pack(groups, limit);
      PackIsMaximal(groups[..n], limit);
      forall i | 0 <= i < |groups|
        ensures Elems(groups[i].pids) <= after || |after + Elems(groups[i].pids)| > limit
      {
        if i < n {
          assert groups[i] == groups[..n][i];
          SubsetSize(before + Elems(groups[i].pids), after + Elems(groups[i].pids));
        }
      }
    }
  }

  /** If everything fits, everything is packed. */
  lemma {:induction false} PackTakesAllThatFits(groups: seq<Group>, limit: int, all: set<int>)
    requires |all| <= limit
    requires forall i :: 0 <= i < |groups| ==> Elems(groups[i].pids) <= all
    ensures Pack(groups, limit) <= all
    ensures forall i :: 0 <= i < |groups| ==> Elems(groups[i].pids) <= Pack(groups, limit)
  {
    if groups != [] {
      var n := |groups| - 1;
      assert forall i :: 0 <= i < n ==> groups[..n][i] == groups[i];
      PackTakesAllThatFits(groups[..n], limit, all);
      SubsetSize(Pack(groups[..n], limit) + Elems(groups[n].pids), all);
    }
  }

  /** Until some group fits by itself nothing is packed, so the first that does is packed whole. */
  lemma {:induction false} PackStartsEmpty(groups: seq<Group>, limit: int)
    requires forall i :: 0 <= i < |groups| ==> |Elems(groups[i].pids)| > limit
    ensures Pack(groups, limit) == {}
  {
    if groups != [] {
      var n := |groups| - 1;
      assert forall i :: 0 <= i < n ==> groups[..n][i] == groups[i];
      PackStartsEmpty(groups[..n], limit);
      assert {} + Elems(groups[n].pids) == Elems(groups[n].pids);
    }
  }

  lemma {:induction false} PackGrows(groups: seq<Group>, k: nat, limit: int)
    requires k <= |groups|
    ensures Pack(groups[..k], limit) <= Pack(groups, limit)
    decreases |groups|
  {
    if k == |groups| {
      assert groups[..k] == groups;
    } else {
      var n := |groups| - 1;
      PackGrows(groups[..n], k, limit);
      assert groups[..n][..k] == groups[..k];
    }
  }

  lemma FirstFittingGroupIsPacked(groups: seq<Group>, k: nat, limit: int)
    requires k < |groups| && |Elems(groups[k].pids)| <= limit
    requires forall i :: 0 <= i < k ==> |Elems(groups[i].pids)| > limit
    ensures Elems(groups[k].pids) <= Pack(groups, limit)
  {
    PackStartsEmpty(groups[..k], limit);
    assert groups[..k + 1][..k] == groups[..k];
    assert {} + Elems(groups[k].pids) == Elems(groups[k].pids);
    PackGrows(groups, k + 1, limit);
  }

  /** A group is packed exactly when it fits beside what was packed before its turn. */
  lemma PackTurn(groups: seq<Group>, k: nat, limit: int)
    requires k < |groups| && limit >= 0
    ensures Elems(groups[k].pids) <= Pack(groups, limit) <==>
            |Pack(groups[..k], limit) + Elems(groups[k].pids)| <= limit
  {
    assert groups[..k + 1][..k] == groups[..k];
    PackGrows(groups, k, limit);
    PackGrows(groups, k + 1, limit);
    PackWithinLimit(groups, limit);
    if Elems(groups[k].pids) <= Pack(groups, limit) {
      SubsetSize(Pack(groups[..k], limit) + Elems(groups[k].pids), Pack(groups, limit));
    }
  }

  ghost predicate PackedBefore(groups: seq<Group>, k: nat, packed: set<int>, x: int)
    requires k <= |groups|
  {
    exists i :: 0 <= i < k && x in groups[i].pids && Elems(groups[i].pids) <= packed
  }

  /** What was packed before a turn are the earlier groups that are packed in the end. */
  lemma PackedBeforeTurn(groups: seq<Group>, k: nat, limit: int, x: int)
    requires k <= |groups| && limit >= 0
    ensures x in Pack(groups[..k], limit) <==> PackedBefore(groups, k, Pack(groups, limit), x)
  {
    var front := groups[..k];
    PackGrows(groups, k, limit);
    if x in Pack(front, limit) {
      PackIsUnionOfGroups(front, limit);
      var i :| 0 <= i < |front| && x in front[i].pids && Elems(front[i].pids) <= Pack(front, limit);
      assert front[i] == groups[i];
    }
    if PackedBefore(groups, k, Pack(groups, limit), x) {
      var i :| 0 <= i < k && x in groups[i].pids && Elems(groups[i].pids) <= Pack(groups, limit);
      PackTurn(groups, i, limit);
      assert front[..i] == groups[..i] && front[i] == groups[i];
      PackTurn(front, i, limit);
    }
  }

  lemma ElemsAppend(pids: seq<int>, k: nat)
    requires k < |pids| && NoDup(pids)
    ensures Elems(pids[..k + 1]) == Elems(pids[..k]) + {pids[k]} && pids[k] !in Elems(pids[..k])
  {
    assert pids[..k + 1] == pids[..k] + [pids[k]];
  }

  method CountAdditional(pids: seq<int>, selected: set<int>) returns (additional: int)
    requires NoDup(pids)
    ensures additional == |Elems(pids) - selected|
  {
    additional := 0;
    var k := 0;
    ghost var unseen: set<int> := {};
    while k < |pids|
      invariant 0 <= k <= |pids|
      invariant unseen == Elems(pids[..k]) - selected && additional == |unseen|
    {
      ElemsAppend(pids, k);
      if pids[k] !in selected {
        additional := additional + 1;
        unseen := unseen + {pids[k]};
      }
      k := k + 1;
    }
    assert pids[..k] == pids;
  }

  lemma PackStep(groups: seq<Group>, n: nat, limit: int, taken: set<int>)
    requires n < |groups| && taken == Pack(groups[..n], limit)
    ensures
      var pids := Elems(groups[n].pids);
      Pack(groups[..n + 1], limit) == if |taken| + |pids - taken| <= limit then taken + pids else taken
  {
    assert groups[..n + 1][..n] == groups[..n];
    assert taken + Elems(groups[n].pids) == taken + (Elems(groups[n].pids) - taken);
  }

  /** The packing loop, counting what a group would add. */
  method PackGroups(groups: seq<Group>, limit: int) returns (selected: set<int>)
    requires forall i :: 0 <= i < |groups| ==> NoDup(groups[i].pids)
    ensures selected == Pack(groups, limit)
  {
    selected := {};
    var n := 0;
    while n < |groups|
      invariant 0 <= n <= |groups|
      invariant selected == Pack(groups[..n], limit)
    {
      var pids := groups[n].pids;
      var additional := CountAdditional(pids, selected);
      PackStep(groups, n, limit, selected);
      if |selected| + additional <= limit {
        selected := selected + Elems(pids);
      }
      n := n + 1;
    }
    assert groups[..n] == groups;
  }

  // ----- the selection

  function DirectPids(sessions: seq<Session>): (s: set<int>)
    ensures forall p :: p in s <==> exists i :: 0 <= i < |sessions| && sessions[i].pid == p && sessions[i].directMatch
  {
    set i | 0 <= i < |sessions| && sessions[i].directMatch :: sessions[i].pid
  }

  /** All sessions in the closure of a direct match. */
  ghost function Relevant(g: Graph, roots: set<int>): set<int> {
    set x | x in g.nodes && exists r :: r in roots && x in Closure(g, r)
  }

  ghost predicate HasRoot(groups: seq<Group>, r: int) { exists i :: 0 <= i < |groups| && groups[i].root == r }

  /** One ascending listing of the closure per root. */
  ghost predicate GroupsFor(g: Graph, roots: set<int>, groups: seq<Group>) {
    && (forall i :: 0 <= i < |groups| ==> IsGroup(g, roots, groups[i]))
    && (forall r :: r in roots ==> HasRoot(groups, r))
  }

  ghost predicate IsGroup(g: Graph, roots: set<int>, group: Group) {
    group.root in roots && Ascending(IntLess, group.pids) && Elems(group.pids) == Closure(g, group.root)
  }

  ghost predicate DistinctRoots(groups: seq<Group>) {
    forall i, j :: 0 <= i < j < |groups| ==> groups[i].root != groups[j].root
  }

  /** The groups of the direct matches in rank order. */
  ghost predicate IsRanking(g: Graph, roots: set<int>, ranked: seq<Group>) {
    Ascending(RankLess, ranked) && GroupsFor(g, roots, ranked)
  }

  function Keep(sessions: seq<Session>, pids: set<int>): (kept: seq<Session>)
    ensures forall x :: x in kept ==> x in sessions && x.pid in pids
  {
    if sessions == [] then []
    else
      var n := |sessions| - 1;
      Keep(sessions[..n], pids) + (if sessions[n].pid in pids then [sessions[n]] else [])
  }

  /** Any two selected sessions come in the order they had in the list. */
  ghost predicate InListOrder(selected: seq<Session>, sessions: seq<Session>) {
    forall i, j :: 0 <= i < j < |selected| ==> InOrder(sessions, selected[i], selected[j])
  }

  ghost predicate InOrder(sessions: seq<Session>, a: Session, b: Session) {
    exists i, j :: 0 <= i < j < |sessions| && sessions[i] == a && sessions[j] == b
  }

  lemma InOrderLonger(front: seq<Session>, last: Session, a: Session, b: Session)
    requires InOrder(front, a, b) || (a in front && b == last)
    ensures InOrder(front + [last], a, b)
  {
    var longer := front + [last];
    if InOrder(front, a, b) {
      var i, j :| 0 <= i < j < |front| && front[i] == a && front[j] == b;
      assert longer[i] == a && longer[j] == b;
    } else {
      var i :| 0 <= i < |front| && front[i] == a;
      assert longer[i] == a && longer[|front|] == b;
    }
  }

  /** The selection keeps exactly the sessions whose PID was chosen, in list order. */
  lemma {:induction false} KeepInOrder(sessions: seq<Session>, pids: set<int>)
    ensures InListOrder(Keep(sessions, pids), sessions)
    ensures forall s :: s in sessions ==> (s in Keep(sessions, pids) <==> s.pid in pids)
  {
    if sessions != [] {
      var n := |sessions| - 1;
      var front, last, kept := sessions[..n], sessions[n], Keep(sessions, pids);
      KeepInOrder(front, pids);
      assert front + [last] == sessions;
      forall i, j | 0 <= i < j < |kept| ensures InOrder(sessions, kept[i], kept[j]) {
        assert kept[i] == Keep(front, pids)[i] && kept[i] in front;
        assert j < |Keep(front, pids)| ==> kept[j] == Keep(front, pids)[j];
        InOrderLonger(front, last, kept[i], kept[j]);
      }
    }
  }

  lemma {:induction false} KeepPids(sessions: seq<Session>, pids: set<int>)
    ensures Pids(Keep(sessions, pids)) == Pids(sessions) * pids
  {
    if sessions != [] {
      var n := |sessions| - 1;
      var front, last := sessions[..n], sessions[n];
      KeepPids(front, pids);
      PidsAppend(front, last);
      assert front + [last] == sessions;
      if last.pid in pids {
        PidsAppend(Keep(front, pids), last);
      } else {
        assert Keep(sessions, pids) == Keep(front, pids);
      }
    }
  }

  lemma {:induction false} PidCount(sessions: seq<Session>)
    requires DistinctPids(sessions)
    ensures |Pids(sessions)| == |sessions|
  {
    if sessions != [] {
      var n := |sessions| - 1;
      PidCount(sessions[..n]);
      PidsAppend(sessions[..n], sessions[n]);
      assert sessions[..n] + [sessions[n]] == sessions;
      assert sessions[n].pid !in Pids(sessions[..n]);
    }
  }

  lemma {:induction false} KeepDistinct(sessions: seq<Session>, pids: set<int>)
    requires DistinctPids(sessions)
    ensures DistinctPids(Keep(sessions, pids))
  {
    if sessions != [] { KeepDistinct(sessions[..|sessions| - 1], pids); }
  }

  lemma KeepSize(sessions: seq<Session>, pids: set<int>)
    requires DistinctPids(sessions)
    ensures |Keep(sessions, pids)| == |Pids(sessions) * pids|
    ensures Pids(Keep(sessions, pids)) == Pids(sessions) * pids
  {
    KeepPids(sessions, pids);
    KeepDistinct(sessions, pids);
    PidCount(Keep(sessions, pids));
  }

  lemma PidsAppend(sessions: seq<Session>, s: Session)
    ensures Pids(sessions + [s]) == Pids(sessions) + {s.pid}
  {
    var longer := sessions + [s];
    assert longer[|sessions|] == s;
    assert forall i :: 0 <= i < |sessions| ==> longer[i] == sessions[i];
  }

  /** The chosen PIDs are a union of whole groups. */
  ghost predicate UnionOfGroups(g: Graph, roots: set<int>, chosen: set<int>) {
    forall x :: x in chosen ==> exists r :: r in roots && x in Closure(g, r) && Closure(g, r) <= chosen
  }

  /** A group left out would exceed the limit even against the final choice. */
  ghost predicate NothingMoreFits(g: Graph, roots: set<int>, limit: int, chosen: set<int>) {
    forall r :: r in roots ==> Closure(g, r) <= chosen || |chosen + Closure(g, r)| > limit
  }

  ghost predicate FitsFirst(g: Graph, roots: set<int>, limit: int, r: int) {
    && r in roots && |Closure(g, r)| <= limit
    && forall q :: q in roots && |Closure(g, q)| <= limit ==> RankBefore(g, r, q)
  }

  /** The chosen groups that rank before r's. */
  ghost function ChosenBefore(g: Graph, roots: set<int>, chosen: set<int>, r: int): set<int> {
    set x | x in chosen && exists q :: q in roots && q != r && RankBefore(g, q, r) && x in Closure(g, q) && Closure(g, q) <= chosen
  }

  /** A group is chosen exactly when it fits the limit beside the chosen groups that rank before it. */
  ghost predicate Greedy(g: Graph, roots: set<int>, limit: int, chosen: set<int>) {
    forall r :: r in roots ==> (Closure(g, r) <= chosen <==> |ChosenBefore(g, roots, chosen, r) + Closure(g, r)| <= limit)
  }

  /** What the snapshot promises of the chosen PIDs. */
  ghost predicate KeepsWholeGroups(g: Graph, roots: set<int>, limit: int, chosen: set<int>) {
    && |chosen| <= limit
    && UnionOfGroups(g, roots, chosen)
    && Greedy(g, roots, limit, chosen)
    && ClosedUnder(g, chosen)
    && NothingMoreFits(g, roots, limit, chosen)
    && (|Relevant(g, roots)| <= limit ==> chosen == Relevant(g, roots))
    && (forall r :: FitsFirst(g, roots, limit, r) ==> Closure(g, r) <= chosen)
  }

  /** r's group ranks no later than q's. */
  ghost predicate RankBefore(g: Graph, r: int, q: int) {
    |Closure(g, r)| > |Closure(g, q)| || (|Closure(g, r)| == |Closure(g, q)| && r <= q)
  }

  lemma AscendingNoDup(xs: seq<int>)
    requires Ascending(IntLess, xs)
    ensures |Elems(xs)| == |xs|
  {
    DistinctLength(xs);
  }

  lemma PackedWhole(g: Graph, roots: set<int>, ranked: seq<Group>, limit: int, x: int)
    requires IsRanking(g, roots, ranked) && x in Pack(ranked, limit)
    ensures exists r :: r in roots && x in Closure(g, r) && Closure(g, r) <= Pack(ranked, limit)
  {
    PackIsUnionOfGroups(ranked, limit);
    var i :| 0 <= i < |ranked| && x in ranked[i].pids && Elems(ranked[i].pids) <= Pack(ranked, limit);
    assert IsGroup(g, roots, ranked[i]) && x in Closure(g, ranked[i].root);
  }

  lemma PackedOrTooBig(g: Graph, roots: set<int>, ranked: seq<Group>, limit: int, r: int)
    requires IsRanking(g, roots, ranked) && r in roots
    ensures Closure(g, r) <= Pack(ranked, limit) || |Pack(ranked, limit) + Closure(g, r)| > limit
  {
    PackIsMaximal(ranked, limit);
    assert HasRoot(ranked, r);
    var i :| 0 <= i < |ranked| && ranked[i].root == r;
    assert IsGroup(g, roots, ranked[i]) && Elems(ranked[i].pids) == Closure(g, r);
  }

  lemma PackedClosed(g: Graph, roots: set<int>, ranked: seq<Group>, limit: int)
    requires WellFormed(g) && IsRanking(g, roots, ranked)
    ensures ClosedUnder(g, Pack(ranked, limit))
  {
    forall a, b | a in Pack(ranked, limit) && (a, b) in g.edges ensures b in Pack(ranked, limit) {
      PackedWhole(g, roots, ranked, limit, a);
      var r :| r in roots && a in Closure(g, r) && Closure(g, r) <= Pack(ranked, limit);
      ClosureIsClosed(g, r);
    }
  }

  lemma PackedAll(g: Graph, roots: set<int>, ranked: seq<Group>, limit: int)
    requires IsRanking(g, roots, ranked) && |Relevant(g, roots)| <= limit
    ensures Pack(ranked, limit) == Relevant(g, roots)
  {
    var all := Relevant(g, roots);
    forall i | 0 <= i < |ranked| ensures Elems(ranked[i].pids) <= all {
      assert IsGroup(g, roots, ranked[i]);
    }
    PackTakesAllThatFits(ranked, limit, all);
    forall x | x in all ensures x in Pack(ranked, limit) {
      var r :| r in roots && x in Closure(g, r);
      assert HasRoot(ranked, r);
      var i :| 0 <= i < |ranked| && ranked[i].root == r;
      assert x in Elems(ranked[i].pids);
    }
  }

  /** The best-ranked group that fits the limit by itself is kept whole. */
  lemma PackedLargest(g: Graph, roots: set<int>, ranked: seq<Group>, limit: int, r: int)
    requires IsRanking(g, roots, ranked) && FitsFirst(g, roots, limit, r)
    ensures Closure(g, r) <= Pack(ranked, limit)
  {
    assert HasRoot(ranked, r);
    var k :| 0 <= k < |ranked| && ranked[k].root == r;
    assert IsGroup(g, roots, ranked[k]);
    AscendingNoDup(ranked[k].pids);
    forall i | 0 <= i < k ensures |Elems(ranked[i].pids)| > limit {
      assert IsGroup(g, roots, ranked[i]);
      AscendingNoDup(ranked[i].pids);
      assert RankLess(ranked[i], ranked[k]);
      var q := ranked[i].root;
      assert q in roots && |Closure(g, q)| == |ranked[i].pids|;
      assert |Closure(g, q)| <= limit ==> RankBefore(g, r, q);
    }
    FirstFittingGroupIsPacked(ranked, k, limit);
  }

  /** Rank order is list order. */
  lemma RankIsPosition(g: Graph, roots: set<int>, ranked: seq<Group>, i: nat, k: nat)
    requires IsRanking(g, roots, ranked) && i < |ranked| && k < |ranked|
    ensures i < k <==> ranked[i].root != ranked[k].root && RankBefore(g, ranked[i].root, ranked[k].root)
  {
    assert IsGroup(g, roots, ranked[i]) && IsGroup(g, roots, ranked[k]);
    AscendingNoDup(ranked[i].pids);
    AscendingNoDup(ranked[k].pids);
    if i < k { assert RankLess(ranked[i], ranked[k]); }
    if k < i { assert RankLess(ranked[k], ranked[i]); }
  }

  lemma ChosenBeforeIsPacked(g: Graph, roots: set<int>, ranked: seq<Group>, limit: int, k: nat)
    requires IsRanking(g, roots, ranked) && k < |ranked| && limit >= 0
    ensures ChosenBefore(g, roots, Pack(ranked, limit), ranked[k].root) == Pack(ranked[..k], limit)
  {
    var chosen, r := Pack(ranked, limit), ranked[k].root;
    PackGrows(ranked, k, limit);
    forall x ensures x in ChosenBefore(g, roots, chosen, r) <==> x in Pack(ranked[..k], limit) {
      PackedBeforeTurn(ranked, k, limit, x);
      if x in ChosenBefore(g, roots, chosen, r) {
        var q :| q in roots && q != r && RankBefore(g, q, r) && x in Closure(g, q) && Closure(g, q) <= chosen;
        assert HasRoot(ranked, q);
        var i :| 0 <= i < |ranked| && ranked[i].root == q;
        assert IsGroup(g, roots, ranked[i]);
        RankIsPosition(g, roots, ranked, i, k);
      }
      if PackedBefore(ranked, k, chosen, x) {
        var i :| 0 <= i < k && x in ranked[i].pids && Elems(ranked[i].pids) <= chosen;
        assert IsGroup(g, roots, ranked[i]);
        RankIsPosition(g, roots, ranked, i, k);
      }
    }
  }

  lemma PackedGreedily(g: Graph, roots: set<int>, ranked: seq<Group>, limit: int)
    requires IsRanking(g, roots, ranked) && limit >= 0
    ensures Greedy(g, roots, limit, Pack(ranked, limit))
  {
    var chosen := Pack(ranked, limit);
    forall r | r in roots
      ensures Closure(g, r) <= chosen <==> |ChosenBefore(g, roots, chosen, r) + Closure(g, r)| <= limit
    {
      assert HasRoot(ranked, r);
      var k :| 0 <= k < |ranked| && ranked[k].root == r;
      assert IsGroup(g, roots, ranked[k]);
      ChosenBeforeIsPacked(g, roots, ranked, limit, k);
      PackTurn(ranked, k, limit);
    }
  }

  ghost predicate AgreeOn(g: Graph, r: int, a: set<int>, b: set<int>) {
    Closure(g, r) <= a <==> Closure(g, r) <= b
  }

  lemma SameBefore(g: Graph, roots: set<int>, ranked: seq<Group>, a: set<int>, b: set<int>, k: nat)
    requires IsRanking(g, roots, ranked) && k < |ranked|
    requires forall i :: 0 <= i < k ==> AgreeOn(g, ranked[i].root, a, b)
    ensures ChosenBefore(g, roots, a, ranked[k].root) <= ChosenBefore(g, roots, b, ranked[k].root)
  {
    var r := ranked[k].root;
    forall x | x in ChosenBefore(g, roots, a, r) ensures x in ChosenBefore(g, roots, b, r) {
      var q :| q in roots && q != r && RankBefore(g, q, r) && x in Closure(g, q) && Closure(g, q) <= a;
      assert HasRoot(ranked, q);
      var i :| 0 <= i < |ranked| && ranked[i].root == q;
      RankIsPosition(g, roots, ranked, i, k);
      assert AgreeOn(g, q, a, b);
    }
  }

  lemma BeforeAgrees(g: Graph, roots: set<int>, ranked: seq<Group>, a: set<int>, b: set<int>, k: nat)
    requires IsRanking(g, roots, ranked) && k < |ranked|
    requires forall i :: 0 <= i < k ==> AgreeOn(g, ranked[i].root, a, b)
    ensures ChosenBefore(g, roots, a, ranked[k].root) == ChosenBefore(g, roots, b, ranked[k].root)
  {
    assert forall i :: 0 <= i < k ==> AgreeOn(g, ranked[i].root, b, a);
    SameBefore(g, roots, ranked, a, b, k);
    SameBefore(g, roots, ranked, b, a, k);
  }

  lemma NextAgrees(g: Graph, roots: set<int>, ranked: seq<Group>, limit: int, a: set<int>, b: set<int>, k: nat)
    requires IsRanking(g, roots, ranked) && k < |ranked| && Greedy(g, roots, limit, a) && Greedy(g, roots, limit, b)
    requires ChosenBefore(g, roots, a, ranked[k].root) == ChosenBefore(g, roots, b, ranked[k].root)
    ensures AgreeOn(g, ranked[k].root, a, b)
  {
    assert IsGroup(g, roots, ranked[k]);
  }

  /** Two greedy choices agree on every group, by rank. */
  lemma {:induction false} GreedyAgree(g: Graph, roots: set<int>, ranked: seq<Group>, limit: int, a: set<int>, b: set<int>, k: nat)
    requires IsRanking(g, roots, ranked) && k < |ranked| && Greedy(g, roots, limit, a) && Greedy(g, roots, limit, b)
    ensures AgreeOn(g, ranked[k].root, a, b)
  {
    forall i | 0 <= i < k ensures AgreeOn(g, ranked[i].root, a, b) { GreedyAgree(g, roots, ranked, limit, a, b, i); }
    BeforeAgrees(g, roots, ranked, a, b, k);
    NextAgrees(g, roots, ranked, limit, a, b, k);
  }

  lemma AgreeingUnions(g: Graph, roots: set<int>, a: set<int>, b: set<int>)
    requires UnionOfGroups(g, roots, a) && forall r :: r in roots ==> AgreeOn(g, r, a, b)
    ensures a <= b
  {
    forall x | x in a ensures x in b {
      var r :| r in roots && x in Closure(g, r) && Closure(g, r) <= a;
      assert AgreeOn(g, r, a, b);
    }
  }

  /** The promises leave one choice. */
  lemma GreedyIsUnique(g: Graph, roots: set<int>, ranked: seq<Group>, limit: int, a: set<int>, b: set<int>)
    requires IsRanking(g, roots, ranked) && Greedy(g, roots, limit, a) && Greedy(g, roots, limit, b)
    requires UnionOfGroups(g, roots, a) && UnionOfGroups(g, roots, b)
    ensures a == b
  {
    forall r | r in roots ensures AgreeOn(g, r, a, b) && AgreeOn(g, r, b, a) {
      assert HasRoot(ranked, r);
      var i :| 0 <= i < |ranked| && ranked[i].root == r;
      GreedyAgree(g, roots, ranked, limit, a, b, i);
    }
    AgreeingUnions(g, roots, a, b);
    AgreeingUnions(g, roots, b, a);
  }

  lemma PackKeepsWholeGroups(g: Graph, roots: set<int>, ranked: seq<Group>, limit: int)
    requires WellFormed(g) && IsRanking(g, roots, ranked) && limit >= 0
    ensures KeepsWholeGroups(g, roots, limit, Pack(ranked, limit))
  {
    var chosen := Pack(ranked, limit);
    PackWithinLimit(ranked, limit);
    forall x | x in chosen ensures exists r :: r in roots && x in Closure(g, r) && Closure(g, r) <= chosen {
      PackedWhole(g, roots, ranked, limit, x);
    }
    PackedGreedily(g, roots, ranked, limit);
    PackedClosed(g, roots, ranked, limit);
    forall r | r in roots ensures Closure(g, r) <= chosen || |chosen + Closure(g, r)| > limit {
      PackedOrTooBig(g, roots, ranked, limit, r);
    }
    if |Relevant(g, roots)| <= limit { PackedAll(g, roots, ranked, limit); }
    forall r | FitsFirst(g, roots, limit, r) ensures Closure(g, r) <= chosen {
      PackedLargest(g, roots, ranked, limit, r);
    }
  }

  lemma GroupsRank(g: Graph, roots: set<int>, groups: seq<Group>)
    requires GroupsFor(g, roots, groups) && DistinctRoots(groups)
    ensures IsRanking(g, roots, Sort(RankLess, groups))
  {
    assert Linear(RankLess, Elems(groups)) by {
      forall a, b | a in Elems(groups) && b in Elems(groups) && a != b ensures RankLess(a, b) || RankLess(b, a) {
        var i :| 0 <= i < |groups| && groups[i] == a;
        var j :| 0 <= j < |groups| && groups[j] == b;
      }
    }
    SortAscending(RankLess, groups);
    SameGroups(g, roots, groups, Sort(RankLess, groups));
  }

  lemma SameGroups(g: Graph, roots: set<int>, groups: seq<Group>, ranked: seq<Group>)
    requires GroupsFor(g, roots, groups) && Elems(ranked) == Elems(groups)
    ensures GroupsFor(g, roots, ranked)
  {
    forall i | 0 <= i < |ranked| ensures IsGroup(g, roots, ranked[i]) {
      assert ranked[i] in Elems(groups);
    }
    forall r | r in roots ensures HasRoot(ranked, r) {
      assert HasRoot(groups, r);
      var j :| 0 <= j < |groups| && groups[j].root == r;
      assert groups[j] in Elems(ranked);
    }
  }

  lemma GroupsAppend(g: Graph, roots: set<int>, groups: seq<Group>, group: Group)
    requires GroupsFor(g, roots, groups) && IsGroup(g, {group.root}, group)
    ensures GroupsFor(g, roots + {group.root}, groups + [group])
    ensures DistinctRoots(groups) && group.root !in roots ==> DistinctRoots(groups + [group])
  {
    var longer := groups + [group];
    assert longer[|groups|] == group;
    forall r | r in roots + {group.root} ensures HasRoot(longer, r) {
      if r in roots {
        assert HasRoot(groups, r);
        var i :| 0 <= i < |groups| && groups[i].root == r;
        assert longer[i].root == r;
      }
    }
    assert forall i :: 0 <= i < |groups| ==> IsGroup(g, roots, groups[i]);
  }

  /** One group per direct match, in list order. */
  method CollectGroups(scope: Scope, sessions: seq<Session>, byPid: map<int, Session>, waiters: map<int, seq<int>>)
    returns (groups: seq<Group>, relevant: set<int>)
    ensures GroupsFor(IndexGraph(scope, byPid, waiters), DirectPids(sessions), groups)
    ensures DistinctPids(sessions) ==> DistinctRoots(groups)
    ensures relevant == Relevant(IndexGraph(scope, byPid, waiters), DirectPids(sessions))
  {
    ghost var g := IndexGraph(scope, byPid, waiters);
    groups, relevant := [], {};
    var n := 0;
    while n < |sessions|
      invariant 0 <= n <= |sessions|
      invariant GroupsFor(g, DirectPids(sessions[..n]), groups)
      invariant DistinctPids(sessions) ==> DistinctRoots(groups)
      invariant relevant == Relevant(g, DirectPids(sessions[..n]))
    {
      var session := sessions[n];
      DirectAppend(sessions[..n], session);
      assert sessions[..n] + [session] == sessions[..n + 1];
      if session.directMatch {
        var pids := RelatedPids(scope, session.pid, byPid, waiters);
        relevant := relevant + Elems(pids);
        RelevantGrows(g, DirectPids(sessions[..n]), session.pid);
        GroupsAppend(g, DirectPids(sessions[..n]), groups, Group(session.pid, pids));
        groups := groups + [Group(session.pid, pids)];
      }
      n := n + 1;
    }
    assert sessions[..n] == sessions;
  }

  lemma DirectAppend(sessions: seq<Session>, s: Session)
    ensures DirectPids(sessions + [s]) == DirectPids(sessions) + (if s.directMatch then {s.pid} else {})
  {
    var longer := sessions + [s];
    assert longer[|sessions|] == s;
    assert forall i :: 0 <= i < |sessions| ==> longer[i] == sessions[i];
  }

  lemma RelevantGrows(g: Graph, roots: set<int>, r: int)
    ensures Relevant(g, roots + {r}) == Relevant(g, roots) + Closure(g, r)
  {}

  /** SelectTriggerSessions. For distinct PIDs, a positive limit and a closure scope the kept
      sessions are whole groups packed in rank order, in the order they came in, and truncation is
      reported exactly when something relevant was dropped. */
  method SelectTriggerSessions(scope: Scope, sessions: seq<Session>, limit: int)
    returns (selected: seq<Session>, total: int, truncated: bool)
    ensures limit <= 0 ==> selected == [] && total == |sessions| && (truncated <==> sessions != [])
    ensures limit > 0 && scope.ActiveSessions? ==>
      && selected <= sessions && total == |sessions| && (truncated <==> |selected| < |sessions|)
      && |selected| == Min(|sessions|, Min(limit, 50))
    ensures limit > 0 && !scope.ActiveSessions? ==>
      && InListOrder(selected, sessions)
      && forall s :: s in sessions ==> (s in selected <==> s.pid in Pids(selected))
    ensures limit > 0 && !scope.ActiveSessions? && DistinctPids(sessions) ==>
      var g, roots := GraphOf(scope, sessions), DirectPids(sessions);
      && selected == Keep(sessions, Pids(selected))
      && |selected| == |Pids(selected)|
      && KeepsWholeGroups(g, roots, limit, Pids(selected))
      && total == |Relevant(g, roots)|
      && (truncated <==> Pids(selected) != Relevant(g, roots))
  {
    if limit <= 0 {
      return [], |sessions|, |sessions| > 0;
    }
    if scope.ActiveSessions? {
      var cap := if limit > MaxActiveSessions then MaxActiveSessions else limit;
      selected := sessions;
      if |selected| > cap { selected := selected[..cap]; }
      return selected, |sessions|, |sessions| > |selected|;
    }
    var byPid, waiters := BuildIndexes(sessions);
    var groups, relevant := CollectGroups(scope, sessions, byPid, waiters);
    var ranked := Sort(RankLess, groups);
    SameMultisetSameElems(ranked, groups);
    SameGroups(IndexGraph(scope, byPid, waiters), DirectPids(sessions), groups, ranked);
    forall i | 0 <= i < |ranked| ensures NoDup(ranked[i].pids) {
      assert IsGroup(IndexGraph(scope, byPid, waiters), DirectPids(sessions), ranked[i]);
    }
    var chosen := PackGroups(ranked, limit);
    selected := KeepSessions(sessions, chosen);
    KeepInOrder(sessions, chosen);
    KeepPids(sessions, chosen);
    total, truncated := |relevant|, |selected| < |relevant|;
    if DistinctPids(sessions) {
      IndexesPresentTheGraph(scope, sessions, byPid, waiters);
      SelectionHolds(scope, sessions, limit, groups, chosen);
    }
  }

  method KeepSessions(sessions: seq<Session>, chosen: set<int>) returns (selected: seq<Session>)
    ensures selected == Keep(sessions, chosen)
  {
    selected := [];
    var n := 0;
    while n < |sessions|
      invariant 0 <= n <= |sessions|
      invariant selected == Keep(sessions[..n], chosen)
    {
      assert sessions[..n + 1][..n] == sessions[..n];
      if sessions[n].pid in chosen { selected := selected + [sessions[n]]; }
      n := n + 1;
    }
    assert sessions[..n] == sessions;
  }

  lemma SelectionHolds(scope: Scope, sessions: seq<Session>, limit: int, groups: seq<Group>, chosen: set<int>)
    requires limit > 0 && DistinctPids(sessions)
    requires GroupsFor(GraphOf(scope, sessions), DirectPids(sessions), groups) && DistinctRoots(groups)
    requires chosen == Pack(Sort(RankLess, groups), limit)
    ensures
      var g, roots, kept := GraphOf(scope, sessions), DirectPids(sessions), Keep(sessions, chosen);
      && Pids(kept) == chosen && |kept| == |chosen|
      && KeepsWholeGroups(g, roots, limit, chosen)
      && (|chosen| < |Relevant(g, roots)| <==> chosen != Relevant(g, roots))
  {
    WaitersMakeItSymmetric(scope, sessions);
    var g, roots := GraphOf(scope, sessions), DirectPids(sessions);
    GroupsRank(g, roots, groups);
    PackKeepsWholeGroups(g, roots, Sort(RankLess, groups), limit);
    ChosenAreRelevant(g, roots, chosen);
    SelectionCounts(sessions, chosen, Relevant(g, roots));
  }

  lemma SelectionCounts(sessions: seq<Session>, chosen: set<int>, relevant: set<int>)
    requires DistinctPids(sessions) && chosen <= relevant <= Pids(sessions)
    ensures Pids(Keep(sessions, chosen)) == chosen && |Keep(sessions, chosen)| == |chosen|
    ensures |chosen| < |relevant| <==> chosen != relevant
  {
    KeepSize(sessions, chosen);
    assert Pids(sessions) * chosen == chosen;
    ProperSubsetSize(chosen, relevant);
  }

  lemma ChosenAreRelevant(g: Graph, roots: set<int>, chosen: set<int>)
    requires UnionOfGroups(g, roots, chosen)
    ensures chosen <= Relevant(g, roots) <= g.nodes
  {
    forall x | x in chosen ensures x in Relevant(g, roots) {
      var r :| r in roots && x in Closure(g, r) && Closure(g, r) <= chosen;
    }
  }

  lemma ProperSubsetSize(a: set<int>, b: set<int>)
    requires a <= b
    ensures |a| < |b| <==> a != b
  {
    assert b == a + (b - a);
  }
}
