/** When a cached connection is reused, how long it stays cached, and whose request a goroutine serves. */
module ConnectionReuse {
  import opened Basics
  import opened ConnectionCache
  import opened ConnectionUse

  // ----- what a lookup finds

  /** The key is cached under the version and the connection is not reported closed. */
  predicate Usable(s: State, key: Key, version: int, reportedClosed: bool) {
    key in s.cache && s.cache[key].version == version && !reportedClosed
  }

  /** A lookup goes on to use a connection exactly when a usable one is cached; then it uses that very
      connection and changes nothing else. Otherwise it dials, with the key's place empty, and what was
      there is counted as rebuilt and its to close. */
  lemma LookupReuses(s: State, t: Tid, reportedClosed: bool)
    requires HandsOk(s) && Enabled(s, Lookup(t, reportedClosed))
    ensures
      var next, key, version := Apply(s, Lookup(t, reportedClosed)), At(s, t).pc.key, At(s, t).pc.version;
      && (At(next, t).pc.Using? <==> Usable(s, key, version, reportedClosed))
      && (At(next, t).pc.Using? ==>
            && IsCached(s, key, At(next, t).pc.conn)
            && next == s.(threads := s.threads[t := Thread(At(next, t).pc, {})]))
      && (!At(next, t).pc.Using? ==>
            && At(next, t).pc == Dialing(key, version) && next.cache == s.cache - {key}
            && At(next, t).closing == (if key in s.cache then {s.cache[key].conn} else {})
            && next.rebuilds == s.rebuilds + if key in s.cache then 1 else 0)
  {
    if At(s, t).pc.key !in s.cache { assert s.cache - {At(s, t).pc.key} == s.cache; }
  }

  // ----- how long it stays cached

  /** An action that empties the key's place: a lookup that finds another version or a closed connection,
      a use that ends in failure, or one of those that need no lock. */
  predicate Empties(s: State, a: Action, key: Key) {
    || (a.Lookup? && At(s, a.t).pc.Locked? && At(s, a.t).pc.key == key
        && !Usable(s, key, At(s, a.t).pc.version, a.reportedClosed))
    || (a.UseEnds? && a.invalidate && At(s, a.t).pc.Using? && At(s, a.t).pc.key == key)
    || Takes(s, a, key)
  }

  /** A cached connection leaves its place on exactly these actions. */
  lemma PlaceEmptiesExactly(s: State, a: Action, key: Key)
    requires DialOk(s) && Enabled(s, a) && key in s.cache
    ensures key !in Apply(s, a).cache <==> Empties(s, a, key)
    ensures key in Apply(s, a).cache ==> Apply(s, a).cache[key] == s.cache[key]
  {}

  ghost predicate Retired(s: State, c: Conn) { AnyClosing(s, c) || c in s.closed }

  lemma CachedWasCachedOrDialled(s: State, a: Action, k: Key, c: Conn)
    requires Enabled(s, a) && IsCached(Apply(s, a), k, c)
    ensures AnyCached(s, c) || AnyDialling(s, c)
  {
    if a.Install? && At(s, a.t).pc.key == k {
      assert JustDialled(s, a.t, c);
    } else {
      assert IsCached(s, k, c);
    }
  }

  /** What has been taken out of the cache never comes back. */
  lemma RetiredForGood(s: State, a: Action, c: Conn)
    requires Inv(s) && Enabled(s, a) && Retired(s, c)
    ensures Retired(Apply(s, a), c)
  {
    var next := Apply(s, a);
    ActionKeepsInv(s, a);
    assert Places(s, c) == 1 && Places(next, c) == 1;
    if AnyCached(next, c) {
      var k :| IsCached(next, k, c);
      CachedWasCachedOrDialled(s, a, k, c);
    }
    if AnyDialling(next, c) {
      var u :| JustDialled(next, u, c);
      DiallingNow(s, a, u, c);
      assert AnyDialling(s, c);
    }
  }

  lemma EmptiedIsRetired(s: State, a: Action, key: Key, c: Conn)
    requires Inv(s) && Enabled(s, a) && IsCached(s, key, c) && !IsCached(Apply(s, a), key, c)
    ensures Retired(Apply(s, a), c)
  {
    PlaceEmptiesExactly(s, a, key);
    assert HandedTo(Apply(s, a), a.t, c);
  }

  lemma RetiredIsNotCached(s: State, key: Key, c: Conn)
    requires Inv(s) && Retired(s, c)
    ensures !IsCached(s, key, c)
  {
    assert Places(s, c) <= 1;
    assert IsCached(s, key, c) ==> AnyCached(s, c);
  }

  /** Some action from the i-th on empties the key's place. */
  ghost predicate EmptiedSince(actions: seq<Action>, i: nat, key: Key)
    requires IsRun(actions)
  {
    i < |actions| &&
    var front := actions[..|actions| - 1];
    EmptiedSince(front, i, key) || Empties(Final(front), actions[|actions| - 1], key)
  }

  /** Under every interleaving, a cached connection is still cached later exactly when no action in
      between emptied its place, and is otherwise retired for good. */
  lemma {:induction false} CachedUntilEmptied(actions: seq<Action>, i: nat, key: Key, c: Conn)
    requires IsRun(actions) && i <= |actions| && IsRun(actions[..i]) && IsCached(Final(actions[..i]), key, c)
    ensures IsCached(Final(actions), key, c) <==> !EmptiedSince(actions, i, key)
    ensures !IsCached(Final(actions), key, c) ==> Retired(Final(actions), c)
    decreases |actions|
  {
    if i == |actions| {
      assert actions[..i] == actions;
    } else {
      var front := actions[..|actions| - 1];
      assert front[..i] == actions[..i];
      CachedUntilEmptied(front, i, key, c);
      RunKeepsInv(front);
      LastStep(Final(front), actions[|actions| - 1], Final(actions), key, c);
    }
  }

  lemma LastStep(s: State, a: Action, next: State, key: Key, c: Conn)
    requires Inv(s) && Enabled(s, a) && next == Apply(s, a) && (IsCached(s, key, c) || Retired(s, c))
    ensures IsCached(next, key, c) <==> IsCached(s, key, c) && !Empties(s, a, key)
    ensures !IsCached(next, key, c) ==> Retired(next, c)
  {
    if IsCached(s, key, c) {
      PlaceEmptiesExactly(s, a, key);
      if !IsCached(next, key, c) { EmptiedIsRetired(s, a, key, c); }
    } else {
      RetiredForGood(s, a, c);
      ActionKeepsInv(s, a);
      RetiredIsNotCached(next, key, c);
    }
  }

  // ----- whose request a goroutine serves

  function LatestRequest(actions: seq<Action>, t: Tid): Option<(Key, int)> {
    if actions == [] then None
    else
      var last := actions[|actions| - 1];
      if last.Request? && last.t == t then Some((last.key, last.version)) else LatestRequest(actions[..|actions| - 1], t)
  }

  /** The goroutine's position carries its latest request. */
  ghost predicate Carries(pc: Pc, request: Option<(Key, int)>) {
    && (!pc.Idle? ==> request.Some? && request.value.0 == pc.key)
    && (pc.WantLock? || pc.Locked? || pc.Dialing? || pc.Dialled? || pc.Using? ==> request.value.1 == pc.version)
  }

  lemma ActionCarries(s: State, a: Action, t: Tid, request: Option<(Key, int)>)
    requires Enabled(s, a) && Carries(At(s, t).pc, request)
    ensures Carries(At(Apply(s, a), t).pc, if a.Request? && a.t == t then Some((a.key, a.version)) else request)
  {
    OthersStay(s, a);
  }

  lemma {:induction false} PositionCarriesRequest(actions: seq<Action>, t: Tid)
    requires IsRun(actions)
    ensures Carries(At(Final(actions), t).pc, LatestRequest(actions, t))
  {
    if actions != [] {
      var front := actions[..|actions| - 1];
      PositionCarriesRequest(front, t);
      ActionCarries(Final(front), actions[|actions| - 1], t, LatestRequest(front, t));
    }
  }

  /** Under every interleaving, the connection a goroutine uses was dialled for the instance and credential
      version of its own latest request. */
  lemma ServesItsRequest(actions: seq<Action>, t: Tid)
    requires IsRun(actions) && At(Final(actions), t).pc.Using?
    ensures
      var s, c := Final(actions), At(Final(actions), t).pc.conn;
      c in s.dialled && LatestRequest(actions, t) == Some(s.dialled[c])
  {
    PositionCarriesRequest(actions, t);
    RunKeepsInv(actions);
  }
}
