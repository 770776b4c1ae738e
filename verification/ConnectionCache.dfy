/** The per-instance query connection shared by collectors and trigger snapshots: goroutines that
    take an instance's use lock, look the cached connection up under the mutex, dial and install
    when it is missing, and invalidate it on failure. Each mutex-protected region is one action;
    actions of different goroutines interleave freely. */
module ConnectionCache {

  type Key = string
  type Tid = nat
  type Conn = nat

  datatype Cached = Cached(version: int, conn: Conn)

  /** Where a goroutine is. From Locked to Leaving it holds the key's use lock. */
  datatype Pc =
    | Idle
    | WantLock(key: Key, version: int)
    | Locked(key: Key, version: int)
    | Dialing(key: Key, version: int)
    | Dialled(key: Key, version: int, conn: Conn)
    | Using(key: Key, version: int, conn: Conn)
    | Leaving(key: Key)
    | DialFailed(key: Key)

  /** `closing` are connections this goroutine took out of the cache and has yet to close. */
  datatype Thread = Thread(pc: Pc, closing: set<Conn>)

  datatype State = State(
    threads: map<Tid, Thread>, holder: map<Key, Tid>, cache: map<Key, Cached>,
    dialled: map<Conn, (Key, int)>, closed: set<Conn>,
    installs: nat, rebuilds: nat, reported: nat, drained: nat)

  const Start := State(map[], map[], map[], map[], {}, 0, 0, 0, 0)

  function At(s: State, t: Tid): Thread { if t in s.threads then s.threads[t] else Thread(Idle, {}) }

  function Move(s: State, t: Tid, pc: Pc, closing: set<Conn>): State {
    s.(threads := s.threads[t := Thread(pc, closing)])
  }

  predicate HoldsLock(pc: Pc) { pc.Locked? || pc.Dialing? || pc.Dialled? || pc.Using? || pc.Leaving? }

  // ----- the actions

  datatype Action =
    | Request(t: Tid, key: Key, version: int)
    | TakeLock(t: Tid)
    | Lookup(t: Tid, reportedClosed: bool)
    | CloseOne(t: Tid, conn: Conn)
    | DialFails(t: Tid)
    | DialSucceeds(t: Tid, conn: Conn)
    | Install(t: Tid)
    | UseEnds(t: Tid, invalidate: bool)
    | Release(t: Tid)
    | AfterDialFailure(t: Tid, invalidate: bool)
    | Shutdown(t: Tid)
    | Summarise

  predicate Enabled(s: State, a: Action) {
    match a
    case Request(t, _, _) => At(s, t) == Thread(Idle, {})
    case TakeLock(t) => At(s, t).pc.WantLock? && At(s, t).pc.key !in s.holder
    case Lookup(t, _) => At(s, t).pc.Locked?
    case CloseOne(t, conn) => conn in At(s, t).closing
    case DialFails(t) => At(s, t).pc.Dialing? && At(s, t).closing == {}
    case DialSucceeds(t, conn) => At(s, t).pc.Dialing? && At(s, t).closing == {} && conn !in s.dialled
    case Install(t) => At(s, t).pc.Dialled?
    case UseEnds(t, _) => At(s, t).pc.Using?
    case Release(t) => At(s, t).pc.Leaving? && At(s, t).closing == {}
    case AfterDialFailure(t, _) => At(s, t).pc.DialFailed?
    case Shutdown(t) => At(s, t) == Thread(Idle, {})
    case Summarise => true
  }

  /** Taking a key's connection out of the cache: the goroutine must close it, and it counts as a
      rebuild. */
  function Evict(s: State, t: Tid, key: Key, pc: Pc): State {
    if key in s.cache then
      Move(s, t, pc, At(s, t).closing + {s.cache[key].conn}).(cache := s.cache - {key}, rebuilds := s.rebuilds + 1)
    else Move(s, t, pc, At(s, t).closing)
  }

  function Conns(cache: map<Key, Cached>): set<Conn> { set k | k in cache :: cache[k].conn }

  function Apply(s: State, a: Action): State
    requires Enabled(s, a)
  {
    match a
    case Request(t, key, version) => Move(s, t, WantLock(key, version), {})
    case TakeLock(t) =>
      var pc := At(s, t).pc;
      Move(s, t, Locked(pc.key, pc.version), {}).(holder := s.holder[pc.key := t])
    case Lookup(t, reportedClosed) =>
      var pc := At(s, t).pc;
      if pc.key in s.cache && s.cache[pc.key].version == pc.version && !reportedClosed
      then Move(s, t, Using(pc.key, pc.version, s.cache[pc.key].conn), At(s, t).closing)
      else Evict(s, t, pc.key, Dialing(pc.key, pc.version))
    case CloseOne(t, conn) =>
      Move(s, t, At(s, t).pc, At(s, t).closing - {conn}).(closed := s.closed + {conn})
    case DialFails(t) =>
      var key := At(s, t).pc.key;
      Move(s, t, DialFailed(key), {}).(holder := s.holder - {key})
    case DialSucceeds(t, conn) =>
      var pc := At(s, t).pc;
      Move(s, t, Dialled(pc.key, pc.version, conn), {}).(dialled := s.dialled[conn := (pc.key, pc.version)])
    case Install(t) =>
      var pc := At(s, t).pc;
      Move(s, t, Using(pc.key, pc.version, pc.conn), At(s, t).closing).(
        cache := s.cache[pc.key := Cached(pc.version, pc.conn)], installs := s.installs + 1)
    case UseEnds(t, invalidate) =>
      var key := At(s, t).pc.key;
      if invalidate then Evict(s, t, key, Leaving(key)) else Move(s, t, Leaving(key), At(s, t).closing)
    case Release(t) =>
      Move(s, t, Idle, {}).(holder := s.holder - {At(s, t).pc.key})
    case AfterDialFailure(t, invalidate) =>
      if invalidate then Evict(s, t, At(s, t).pc.key, Idle) else Move(s, t, Idle, At(s, t).closing)
    case Shutdown(t) =>
      Move(s, t, Idle, Conns(s.cache)).(cache := map[], drained := s.drained + |s.cache|)
    case Summarise => s.(reported := s.reported + s.rebuilds, rebuilds := 0)
  }

  // ----- the invariant

  /** The holder map is exactly who is between lock and unlock. */
  ghost predicate LocksOk(s: State) {
    && (forall t :: HoldsLock(At(s, t).pc) ==> At(s, t).pc.key in s.holder && s.holder[At(s, t).pc.key] == t)
    && (forall k :: k in s.holder ==> HoldsLock(At(s, s.holder[k]).pc) && At(s, s.holder[k]).pc.key == k)
  }

  ghost predicate JustDialled(s: State, t: Tid, c: Conn) { At(s, t).pc.Dialled? && At(s, t).pc.conn == c }

  ghost predicate IsCached(s: State, k: Key, c: Conn) { k in s.cache && s.cache[k].conn == c }

  ghost predicate HandedTo(s: State, t: Tid, c: Conn) { c in At(s, t).closing }

  ghost predicate AnyDialling(s: State, c: Conn) { exists t :: JustDialled(s, t, c) }
  ghost predicate AnyCached(s: State, c: Conn) { exists k :: IsCached(s, k, c) }
  ghost predicate AnyClosing(s: State, c: Conn) { exists t :: HandedTo(s, t, c) }

  /** The places of a connection: held by the goroutine that dialled it, cached, being closed, closed. */
  ghost function Places(s: State, c: Conn): int {
    (if AnyDialling(s, c) then 1 else 0) + (if AnyCached(s, c) then 1 else 0)
    + (if AnyClosing(s, c) then 1 else 0) + (if c in s.closed then 1 else 0)
  }

  ghost predicate OnePlace(s: State) {
    && (forall c :: Places(s, c) == if c in s.dialled then 1 else 0)
    && (forall t, u, c :: JustDialled(s, t, c) && JustDialled(s, u, c) ==> t == u)
    && (forall k, j, c :: IsCached(s, k, c) && IsCached(s, j, c) ==> k == j)
    && (forall t, u, c :: HandedTo(s, t, c) && HandedTo(s, u, c) ==> t == u)
  }

  /** Cached, just dialled and used connections were dialled for that key and version. */
  ghost predicate VersionsOk(s: State) {
    && (forall k :: k in s.cache ==> s.cache[k].conn in s.dialled && s.dialled[s.cache[k].conn] == (k, s.cache[k].version))
    && (forall t :: var pc := At(s, t).pc;
          pc.Dialled? || pc.Using? ==> pc.conn in s.dialled && s.dialled[pc.conn] == (pc.key, pc.version))
  }

  /** While a holder dials, its key is not cached. */
  ghost predicate DialOk(s: State) {
    forall t :: At(s, t).pc.Dialing? || At(s, t).pc.Dialled? ==> At(s, t).pc.key !in s.cache
  }

  /** While a holder uses a connection, only that one can be cached, and nobody is dialling it. */
  ghost predicate UseOk(s: State) {
    && (forall t :: At(s, t).pc.Using? && At(s, t).pc.key in s.cache ==> s.cache[At(s, t).pc.key].conn == At(s, t).pc.conn)
    && (forall t :: At(s, t).pc.Using? ==> !AnyDialling(s, At(s, t).pc.conn))
  }

  ghost predicate CacheOk(s: State) { DialOk(s) && UseOk(s) }

  /** Every installed connection is still cached, was counted as a rebuild, or was drained. */
  ghost predicate CountsOk(s: State) {
    s.installs == |s.cache| + s.rebuilds + s.reported + s.drained
  }

  /** Goroutines outside a region that can evict carry nothing to close. */
  ghost predicate HandsOk(s: State) {
    forall t :: At(s, t).pc.WantLock? || At(s, t).pc.Locked? || At(s, t).pc.Dialled? || At(s, t).pc.Using? || At(s, t).pc.DialFailed?
                ==> At(s, t).closing == {}
  }

  ghost predicate Inv(s: State) {
    LocksOk(s) && OnePlace(s) && VersionsOk(s) && CacheOk(s) && CountsOk(s) && HandsOk(s)
  }

  // ----- every action keeps it

  /** Only the acting goroutine moves. */
  lemma OthersStay(s: State, a: Action)
    requires Enabled(s, a)
    ensures a.Summarise? ==> forall u :: At(Apply(s, a), u) == At(s, u)
    ensures !a.Summarise? ==> forall u :: u != a.t ==> At(Apply(s, a), u) == At(s, u)
  {}

  lemma HandsKept(s: State, a: Action)
    requires Enabled(s, a) && HandsOk(s)
    ensures HandsOk(Apply(s, a))
  {
    OthersStay(s, a);
  }

  lemma LocksKept(s: State, a: Action)
    requires Enabled(s, a) && LocksOk(s)
    ensures LocksOk(Apply(s, a))
  {
    var next := Apply(s, a);
    OthersStay(s, a);
    match a
    case TakeLock(t) => LockTaken(s, next, t, At(s, t).pc.key);
    case DialFails(t) => LockDropped(s, next, t, At(s, t).pc.key);
    case Release(t) => LockDropped(s, next, t, At(s, t).pc.key);
    case Summarise =>
    case _ => LockUnmoved(s, next, a.t);
  }

  lemma LockTaken(s: State, next: State, t: Tid, key: Key)
    requires LocksOk(s) && key !in s.holder && !HoldsLock(At(s, t).pc)
    requires next.holder == s.holder[key := t] && HoldsLock(At(next, t).pc) && At(next, t).pc.key == key
    requires forall u :: u != t ==> At(next, u) == At(s, u)
    ensures LocksOk(next)
  {}

  lemma LockDropped(s: State, next: State, t: Tid, key: Key)
    requires LocksOk(s) && HoldsLock(At(s, t).pc) && At(s, t).pc.key == key
    requires next.holder == s.holder - {key} && !HoldsLock(At(next, t).pc)
    requires forall u :: u != t ==> At(next, u) == At(s, u)
    ensures LocksOk(next)
  {}

  lemma LockUnmoved(s: State, next: State, t: Tid)
    requires LocksOk(s) && next.holder == s.holder
    requires HoldsLock(At(next, t).pc) <==> HoldsLock(At(s, t).pc)
    requires HoldsLock(At(s, t).pc) ==> At(next, t).pc.key == At(s, t).pc.key
    requires forall u :: u != t ==> At(next, u) == At(s, u)
    ensures LocksOk(next)
  {}

  lemma EvictCounts(s: State, t: Tid, key: Key, pc: Pc)
    requires CountsOk(s)
    ensures CountsOk(Evict(s, t, key, pc))
  {
    if key in s.cache { assert (s.cache - {key}).Keys == s.cache.Keys - {key}; }
  }

  lemma InstallCounts(cache: map<Key, Cached>, key: Key, c: Cached)
    requires key !in cache
    ensures |cache[key := c]| == |cache| + 1
  {
    assert cache[key := c].Keys == cache.Keys + {key};
  }

  lemma CountsKept(s: State, a: Action)
    requires Enabled(s, a) && CountsOk(s)
    requires a.Install? ==> At(s, a.t).pc.key !in s.cache
    ensures CountsOk(Apply(s, a))
  {
    match a
    case Install(t) => InstallCounts(s.cache, At(s, t).pc.key, Cached(At(s, t).pc.version, At(s, t).pc.conn));
    case Lookup(t, _) => EvictCounts(s, t, At(s, t).pc.key, Dialing(At(s, t).pc.key, At(s, t).pc.version));
    case UseEnds(t, _) => EvictCounts(s, t, At(s, t).pc.key, Leaving(At(s, t).pc.key));
    case AfterDialFailure(t, _) => EvictCounts(s, t, At(s, t).pc.key, Idle);
    case _ =>
  }

  /** Two goroutines never hold the same instance's use lock. */
  lemma OneHolder(s: State, t: Tid, u: Tid)
    requires LocksOk(s) && HoldsLock(At(s, t).pc) && HoldsLock(At(s, u).pc) && At(s, t).pc.key == At(s, u).pc.key
    ensures t == u
  {}

  // ----- one place per connection

  /** The parts of the state that decide where connections are are unchanged. */
  lemma PlacesUnmoved(s: State, next: State, t: Tid)
    requires OnePlace(s)
    requires next.cache == s.cache && next.dialled == s.dialled && next.closed == s.closed
    requires At(next, t).closing == At(s, t).closing
    requires At(next, t).pc == At(s, t).pc || (!At(s, t).pc.Dialled? && !At(next, t).pc.Dialled?)
    requires forall u :: u != t ==> At(next, u) == At(s, u)
    ensures OnePlace(next)
  {
    assert forall u, c :: JustDialled(next, u, c) <==> JustDialled(s, u, c);
    assert forall u, c :: HandedTo(next, u, c) <==> HandedTo(s, u, c);
    assert forall k, c :: IsCached(next, k, c) <==> IsCached(s, k, c);
    forall c ensures Places(next, c) == Places(s, c) {
      SamePlaces(s, next, c);
    }
  }

  lemma SamePlaces(s: State, next: State, c: Conn)
    requires forall u :: JustDialled(next, u, c) <==> JustDialled(s, u, c)
    requires forall u :: HandedTo(next, u, c) <==> HandedTo(s, u, c)
    requires forall k :: IsCached(next, k, c) <==> IsCached(s, k, c)
    requires c in next.closed <==> c in s.closed
    ensures Places(next, c) == Places(s, c)
  {
    if AnyDialling(s, c) { var u :| JustDialled(s, u, c); assert JustDialled(next, u, c); }
    if AnyDialling(next, c) { var u :| JustDialled(next, u, c); assert JustDialled(s, u, c); }
    if AnyClosing(s, c) { var u :| HandedTo(s, u, c); assert HandedTo(next, u, c); }
    if AnyClosing(next, c) { var u :| HandedTo(next, u, c); assert HandedTo(s, u, c); }
    if AnyCached(s, c) { var k :| IsCached(s, k, c); assert IsCached(next, k, c); }
    if AnyCached(next, c) { var k :| IsCached(next, k, c); assert IsCached(s, k, c); }
  }

  /** A fresh connection appears, held by the goroutine that dialled it. */
  lemma PlacesDialled(s: State, next: State, t: Tid, c: Conn, info: (Key, int))
    requires OnePlace(s) && c !in s.dialled
    requires next.cache == s.cache && next.dialled == s.dialled[c := info] && next.closed == s.closed
    requires At(next, t).closing == At(s, t).closing && !At(s, t).pc.Dialled?
    requires At(next, t).pc.Dialled? && At(next, t).pc.conn == c
    requires forall u :: u != t ==> At(next, u) == At(s, u)
    ensures OnePlace(next)
  {
    assert Places(s, c) == 0;
    assert forall u, d :: JustDialled(next, u, d) <==> JustDialled(s, u, d) || (u == t && d == c);
    assert forall u, d :: HandedTo(next, u, d) <==> HandedTo(s, u, d);
    assert forall k, d :: IsCached(next, k, d) <==> IsCached(s, k, d);
    forall d ensures Places(next, d) == if d in next.dialled then 1 else 0 {
      assert Places(s, d) == if d in s.dialled then 1 else 0;
      if d != c { SamePlaces(s, next, d); } else { assert JustDialled(next, t, c); }
    }
  }

  /** The dialled connection goes into the cache. */
  lemma PlacesInstalled(s: State, next: State, t: Tid, c: Conn, key: Key, version: int)
    requires OnePlace(s) && key !in s.cache && At(s, t).pc.Dialled? && At(s, t).pc.conn == c
    requires next.cache == s.cache[key := Cached(version, c)] && next.dialled == s.dialled && next.closed == s.closed
    requires At(next, t).closing == At(s, t).closing && !At(next, t).pc.Dialled?
    requires forall u :: u != t ==> At(next, u) == At(s, u)
    ensures OnePlace(next)
  {
    assert JustDialled(s, t, c) && AnyDialling(s, c);
    assert Places(s, c) == if c in s.dialled then 1 else 0;
    assert forall u, d :: JustDialled(next, u, d) <==> JustDialled(s, u, d) && u != t;
    assert forall u, d :: HandedTo(next, u, d) <==> HandedTo(s, u, d);
    assert forall k, d :: IsCached(next, k, d) <==> IsCached(s, k, d) || (k == key && d == c);
    forall d ensures Places(next, d) == Places(s, d) {
      if d != c { SamePlaces(s, next, d); } else { assert IsCached(next, key, c); }
    }
  }

  /** A cached connection is handed to a closer. */
  lemma PlacesEvicted(s: State, next: State, t: Tid, key: Key)
    requires OnePlace(s) && key in s.cache
    requires next.cache == s.cache - {key} && next.dialled == s.dialled && next.closed == s.closed
    requires At(next, t).closing == At(s, t).closing + {s.cache[key].conn}
    requires !At(s, t).pc.Dialled? && !At(next, t).pc.Dialled?
    requires forall u :: u != t ==> At(next, u) == At(s, u)
    ensures OnePlace(next)
  {
    var c := s.cache[key].conn;
    assert IsCached(s, key, c) && AnyCached(s, c);
    assert Places(s, c) == if c in s.dialled then 1 else 0;
    assert forall u, d :: JustDialled(next, u, d) <==> JustDialled(s, u, d);
    assert forall u, d :: HandedTo(next, u, d) <==> HandedTo(s, u, d) || (u == t && d == c);
    assert forall k, d :: IsCached(next, k, d) <==> IsCached(s, k, d) && k != key;
    forall d ensures Places(next, d) == Places(s, d) {
      if d != c { SamePlaces(s, next, d); } else { assert HandedTo(next, t, c); }
    }
  }

  lemma PlacesClosed(s: State, next: State, t: Tid, c: Conn)
    requires OnePlace(s) && c in At(s, t).closing
    requires next.cache == s.cache && next.dialled == s.dialled && next.closed == s.closed + {c}
    requires At(next, t).closing == At(s, t).closing - {c} && At(next, t).pc == At(s, t).pc
    requires forall u :: u != t ==> At(next, u) == At(s, u)
    ensures OnePlace(next)
  {
    assert HandedTo(s, t, c) && AnyClosing(s, c);
    assert Places(s, c) == if c in s.dialled then 1 else 0;
    assert forall u, d :: JustDialled(next, u, d) <==> JustDialled(s, u, d);
    assert forall u, d :: HandedTo(next, u, d) <==> HandedTo(s, u, d) && !(u == t && d == c);
    assert forall k, d :: IsCached(next, k, d) <==> IsCached(s, k, d);
    forall d ensures Places(next, d) == Places(s, d) {
      if d != c { SamePlaces(s, next, d); }
    }
  }

  /** Shutdown hands every cached connection to one closer. */
  lemma PlacesDrained(s: State, next: State, t: Tid)
    requires OnePlace(s) && next.cache == map[] && next.dialled == s.dialled && next.closed == s.closed
    requires At(s, t).closing == {} && At(next, t).closing == Conns(s.cache)
    requires !At(s, t).pc.Dialled? && !At(next, t).pc.Dialled?
    requires forall u :: u != t ==> At(next, u) == At(s, u)
    ensures OnePlace(next)
  {
    assert forall u, d :: JustDialled(next, u, d) <==> JustDialled(s, u, d);
    assert forall u, d :: HandedTo(next, u, d) <==> HandedTo(s, u, d) || (u == t && d in Conns(s.cache));
    forall c ensures c in Conns(s.cache) <==> AnyCached(s, c) {
      if AnyCached(s, c) { var k :| IsCached(s, k, c); }
      if c in Conns(s.cache) { var k :| k in s.cache && s.cache[k].conn == c; assert IsCached(s, k, c); }
    }
    forall u, c | HandedTo(s, u, c) ensures !AnyCached(s, c) {
      assert AnyClosing(s, c) && Places(s, c) <= 1;
    }
    forall c ensures Places(next, c) == Places(s, c) {
      assert Places(s, c) <= 1;
      if AnyCached(s, c) { assert HandedTo(next, t, c); } else { SamePlaces(s, next, c); }
    }
  }

  lemma EvictPlaces(s: State, t: Tid, key: Key, pc: Pc)
    requires OnePlace(s) && !At(s, t).pc.Dialled? && !pc.Dialled?
    ensures OnePlace(Evict(s, t, key, pc))
  {
    var next := Evict(s, t, key, pc);
    if key in s.cache { PlacesEvicted(s, next, t, key); } else { PlacesUnmoved(s, next, t); }
  }

  lemma PlacesKept(s: State, a: Action)
    requires Enabled(s, a) && OnePlace(s) && HandsOk(s) && CacheOk(s)
    ensures OnePlace(Apply(s, a))
  {
    var next := Apply(s, a);
    OthersStay(s, a);
    match a
    case Lookup(t, _) =>
      if next.cache == s.cache { PlacesUnmoved(s, next, t); }
      else { EvictPlaces(s, t, At(s, t).pc.key, Dialing(At(s, t).pc.key, At(s, t).pc.version)); }
    case CloseOne(t, conn) => PlacesClosed(s, next, t, conn);
    case DialSucceeds(t, conn) => PlacesDialled(s, next, t, conn, (At(s, t).pc.key, At(s, t).pc.version));
    case Install(t) => PlacesInstalled(s, next, t, At(s, t).pc.conn, At(s, t).pc.key, At(s, t).pc.version);
    case UseEnds(t, invalidate) =>
      if invalidate { EvictPlaces(s, t, At(s, t).pc.key, Leaving(At(s, t).pc.key)); } else { PlacesUnmoved(s, next, t); }
    case AfterDialFailure(t, invalidate) =>
      if invalidate { EvictPlaces(s, t, At(s, t).pc.key, Idle); } else { PlacesUnmoved(s, next, t); }
    case Shutdown(t) => PlacesDrained(s, next, t);
    case Summarise => PlacesUnmoved(s, next, 0);
    case _ => PlacesUnmoved(s, next, a.t);
  }

  // ----- versions and the cache under dialling and use

  lemma DialledGrows(s: State, a: Action)
    requires Enabled(s, a)
    ensures forall c :: c in s.dialled ==> c in Apply(s, a).dialled && Apply(s, a).dialled[c] == s.dialled[c]
  {}

  lemma VersionsKept(s: State, a: Action)
    requires Enabled(s, a) && VersionsOk(s)
    ensures VersionsOk(Apply(s, a))
  {
    OthersStay(s, a);
    DialledGrows(s, a);
    if !a.Install? { CacheShrinks(s, a); }
  }

  /** A goroutine uses a connection that is not just dialled by anyone: it is cached, or was handed
      to a closer. */
  lemma UsedNotDialling(s: State, a: Action)
    requires Enabled(s, a) && UseOk(s) && OnePlace(s) && VersionsOk(s)
    ensures forall t :: At(Apply(s, a), t).pc.Using? ==> !AnyDialling(Apply(s, a), At(Apply(s, a), t).pc.conn)
  {
    var next := Apply(s, a);
    forall t | At(next, t).pc.Using? ensures !AnyDialling(next, At(next, t).pc.conn) {
      var c := At(next, t).pc.conn;
      NotDiallingBefore(s, a, t);
      forall u | JustDialled(next, u, c) ensures false { DiallingNow(s, a, u, c); }
    }
  }

  /** Who has just dialled a connection had done so before, unless this action dialled it. */
  lemma DiallingNow(s: State, a: Action, u: Tid, c: Conn)
    requires Enabled(s, a) && JustDialled(Apply(s, a), u, c)
    ensures JustDialled(s, u, c) || (a.DialSucceeds? && a.conn == c)
    ensures JustDialled(s, u, c) ==> !(a.Install? && a.t == u)
  {
    OthersStay(s, a);
  }

  /** A connection used after an action was dialled before it, and by nobody that still holds it just
      dialled, unless this action installs it. */
  lemma NotDiallingBefore(s: State, a: Action, t: Tid)
    requires Enabled(s, a) && UseOk(s) && OnePlace(s) && VersionsOk(s) && At(Apply(s, a), t).pc.Using?
    ensures
      var c := At(Apply(s, a), t).pc.conn;
      c in s.dialled && forall u :: JustDialled(s, u, c) ==> a.Install? && a.t == u
  {
    OthersStay(s, a);
    var c := At(Apply(s, a), t).pc.conn;
    if At(s, t).pc.Using? {
      assert !AnyDialling(s, c);
    } else if At(s, t).pc.Locked? {
      assert IsCached(s, At(s, t).pc.key, c) && AnyCached(s, c);
      assert Places(s, c) <= 1;
    } else {
      assert JustDialled(s, t, c);
    }
  }

  /** Only the holder of a key's lock can be dialling for it or using its connection. */
  lemma KeyIsOurs(s: State, t: Tid)
    requires LocksOk(s) && HoldsLock(At(s, t).pc)
    ensures forall u :: u != t && HoldsLock(At(s, u).pc) ==> At(s, u).pc.key != At(s, t).pc.key
  {}

  /** Apart from an install, the cache only shrinks. */
  lemma CacheShrinks(s: State, a: Action)
    requires Enabled(s, a) && !a.Install?
    ensures forall k :: k in Apply(s, a).cache ==> k in s.cache && Apply(s, a).cache[k] == s.cache[k]
  {}

  lemma DialKept(s: State, a: Action)
    requires Enabled(s, a) && DialOk(s) && LocksOk(s)
    ensures DialOk(Apply(s, a))
  {
    OthersStay(s, a);
    if a.Install? { KeyIsOurs(s, a.t); } else { CacheShrinks(s, a); }
  }

  /** The first half of UseOk: only the connection in use can be cached. */
  ghost predicate UsedIsCached(s: State) {
    forall t :: At(s, t).pc.Using? && At(s, t).pc.key in s.cache ==> s.cache[At(s, t).pc.key].conn == At(s, t).pc.conn
  }

  lemma UsedCacheKept(s: State, a: Action)
    requires Enabled(s, a) && UsedIsCached(s) && LocksOk(s)
    ensures UsedIsCached(Apply(s, a))
  {
    OthersStay(s, a);
    if a.Install? { KeyIsOurs(s, a.t); } else { CacheShrinks(s, a); }
  }

  lemma UseKept(s: State, a: Action)
    requires Enabled(s, a) && UseOk(s) && LocksOk(s) && OnePlace(s) && VersionsOk(s)
    ensures UseOk(Apply(s, a))
  {
    UsedNotDialling(s, a);
    UsedCacheKept(s, a);
  }

  lemma CacheKept(s: State, a: Action)
    requires Enabled(s, a) && CacheOk(s) && LocksOk(s) && OnePlace(s) && VersionsOk(s)
    ensures CacheOk(Apply(s, a))
  {
    DialKept(s, a);
    UseKept(s, a);
  }

  lemma ActionKeepsInv(s: State, a: Action)
    requires Inv(s) && Enabled(s, a)
    ensures Inv(Apply(s, a))
  {
    LocksKept(s, a);
    HandsKept(s, a);
    CountsKept(s, a);
    PlacesKept(s, a);
    VersionsKept(s, a);
    CacheKept(s, a);
  }

  // ----- every interleaving

  ghost predicate IsRun(actions: seq<Action>)
    decreases |actions|, 0
  {
    actions == [] || (IsRun(actions[..|actions| - 1]) && Enabled(Final(actions[..|actions| - 1]), actions[|actions| - 1]))
  }

  ghost function Final(actions: seq<Action>): State
    requires IsRun(actions)
    decreases |actions|, 1
  {
    if actions == [] then Start else Apply(Final(actions[..|actions| - 1]), actions[|actions| - 1])
  }

  lemma {:induction false} RunKeepsInv(actions: seq<Action>)
    requires IsRun(actions)
    ensures Inv(Final(actions))
  {
    if actions == [] {
      assert forall c :: Places(Start, c) == 0;
    } else {
      RunKeepsInv(actions[..|actions| - 1]);
      ActionKeepsInv(Final(actions[..|actions| - 1]), actions[|actions| - 1]);
    }
  }

  /** Under every interleaving: one holder per instance's use lock; every dialled connection is in
      exactly one of the dialling goroutine's hands, the cache, a closer's hands, or closed; a
      holder's connection was dialled for its instance and requested credential version; and every
      installed connection is cached, counted as a rebuild, or drained at shutdown. */
  lemma ProtocolHolds(actions: seq<Action>)
    requires IsRun(actions)
    ensures
      var s := Final(actions);
      && (forall t, u :: HoldsLock(At(s, t).pc) && HoldsLock(At(s, u).pc) && At(s, t).pc.key == At(s, u).pc.key ==> t == u)
      && (forall c :: Places(s, c) == if c in s.dialled then 1 else 0)
      && (forall t :: At(s, t).pc.Using? ==>
            var pc := At(s, t).pc;
            && pc.conn in s.dialled && s.dialled[pc.conn] == (pc.key, pc.version)
            && (IsCached(s, pc.key, pc.conn) || AnyClosing(s, pc.conn) || pc.conn in s.closed))
      && s.installs == |s.cache| + s.rebuilds + s.reported + s.drained
  {
    RunKeepsInv(actions);
    var s := Final(actions);
    forall t, u | HoldsLock(At(s, t).pc) && HoldsLock(At(s, u).pc) && At(s, t).pc.key == At(s, u).pc.key ensures t == u {
      OneHolder(s, t, u);
    }
    forall t | At(s, t).pc.Using?
      ensures IsCached(s, At(s, t).pc.key, At(s, t).pc.conn) || AnyClosing(s, At(s, t).pc.conn) || At(s, t).pc.conn in s.closed
    {
      var c := At(s, t).pc.conn;
      assert Places(s, c) == 1;
      if AnyCached(s, c) { var k :| IsCached(s, k, c); }
    }
  }

  /** Under every interleaving: installing never overwrites a cached connection, and no connection
      is closed twice. */
  lemma NothingLostOrClosedTwice(actions: seq<Action>, a: Action)
    requires IsRun(actions) && Enabled(Final(actions), a)
    ensures a.Install? ==> At(Final(actions), a.t).pc.key !in Final(actions).cache
    ensures a.CloseOne? ==> a.conn in Final(actions).dialled && a.conn !in Final(actions).closed
                            && !AnyCached(Final(actions), a.conn)
  {
    RunKeepsInv(actions);
    if a.CloseOne? {
      assert HandedTo(Final(actions), a.t, a.conn) && AnyClosing(Final(actions), a.conn);
      assert Places(Final(actions), a.conn) <= 1;
    }
  }
}
