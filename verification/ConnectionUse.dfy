/** When a connection in use is taken from under the goroutine that holds its instance's use lock. */
module ConnectionUse {
  import opened ConnectionCache

  /** An action that empties the key's place in the cache without holding its use lock: an invalidation
      by a goroutine whose own dialling failed, or the shutdown. */
  predicate Takes(s: State, a: Action, key: Key) {
    (a.AfterDialFailure? && a.invalidate && At(s, a.t).pc.DialFailed? && At(s, a.t).pc.key == key) || a.Shutdown?
  }

  ghost predicate Holds(s: State, t: Tid, key: Key, c: Conn) {
    At(s, t).pc.Using? && At(s, t).pc.key == key && At(s, t).pc.conn == c
  }

  /** What becomes of a key's place in the cache when nothing is installed there. */
  lemma PlaceAfter(s: State, a: Action, key: Key)
    requires Enabled(s, a) && !(a.Install? && At(s, a.t).pc.key == key)
    ensures key in Apply(s, a).cache ==> key in s.cache && Apply(s, a).cache[key] == s.cache[key]
    ensures key in s.cache && key !in Apply(s, a).cache ==>
              Takes(s, a, key) || ((a.Lookup? || a.UseEnds?) && At(s, a.t).pc.key == key)
    ensures Takes(s, a, key) ==> key !in Apply(s, a).cache
  {}

  /** While t uses the key's connection no action looks the key up, ends a use of it or installs there. */
  lemma HolderActsAlone(s: State, a: Action, t: Tid, key: Key, c: Conn)
    requires LocksOk(s) && Enabled(s, a) && Holds(s, t, key, c) && Holds(Apply(s, a), t, key, c)
    ensures !((a.Install? || a.Lookup? || a.UseEnds?) && At(s, a.t).pc.key == key)
  {
    KeyIsOurs(s, t);
  }

  /** While a goroutine goes on using a connection, exactly these actions take it out of the cache, and
      nothing puts it back. */
  lemma OnlyTheseTake(s: State, a: Action, t: Tid, key: Key, c: Conn)
    requires Inv(s) && Enabled(s, a) && Holds(s, t, key, c) && Holds(Apply(s, a), t, key, c)
    ensures IsCached(Apply(s, a), key, c) <==> IsCached(s, key, c) && !Takes(s, a, key)
  {
    HolderActsAlone(s, a, t, key, c);
    PlaceAfter(s, a, key);
  }

  /** A goroutine starts using a connection that is cached. */
  lemma StartsCached(s: State, a: Action, t: Tid, key: Key, c: Conn)
    requires Enabled(s, a) && !Holds(s, t, key, c) && Holds(Apply(s, a), t, key, c)
    ensures IsCached(Apply(s, a), key, c)
  {
    OthersStay(s, a);
    assert a.Lookup? || a.Install?;
  }

  lemma {:induction false} PrefixIsRun(actions: seq<Action>, i: nat)
    requires IsRun(actions) && i <= |actions|
    ensures IsRun(actions[..i])
  {
    if i < |actions| {
      PrefixIsRun(actions[..|actions| - 1], i);
      assert actions[..|actions| - 1][..i] == actions[..i];
    } else {
      assert actions[..i] == actions;
    }
  }

  ghost function StateAt(actions: seq<Action>, i: nat): State
    requires IsRun(actions) && i <= |actions|
  {
    PrefixIsRun(actions, i);
    Final(actions[..i])
  }

  /** The i-th action takes the connection, and the goroutine has been using it from then on. */
  ghost predicate TakenAt(actions: seq<Action>, i: nat, t: Tid, key: Key, c: Conn)
    requires IsRun(actions) && i < |actions|
  {
    Takes(StateAt(actions, i), actions[i], key) && HoldsFrom(actions, i, t, key, c)
  }

  ghost predicate HoldsFrom(actions: seq<Action>, i: nat, t: Tid, key: Key, c: Conn)
    requires IsRun(actions)
  {
    forall j :: i <= j <= |actions| ==> Holds(StateAt(actions, j), t, key, c)
  }

  lemma StateAtFront(actions: seq<Action>, i: nat)
    requires IsRun(actions) && i < |actions|
    ensures IsRun(actions[..|actions| - 1]) && StateAt(actions[..|actions| - 1], i) == StateAt(actions, i)
  {
    assert actions[..|actions| - 1][..i] == actions[..i];
  }

  lemma EndStates(actions: seq<Action>)
    requires IsRun(actions)
    ensures StateAt(actions, |actions|) == Final(actions)
    ensures actions != [] ==> StateAt(actions, |actions| - 1) == Final(actions[..|actions| - 1])
  {
    assert actions[..|actions|] == actions;
  }

  lemma HoldsFromFront(actions: seq<Action>, i: nat, t: Tid, key: Key, c: Conn)
    requires IsRun(actions) && actions != [] && IsRun(actions[..|actions| - 1]) && Holds(Final(actions), t, key, c)
    ensures HoldsFrom(actions, i, t, key, c) <==> HoldsFrom(actions[..|actions| - 1], i, t, key, c)
  {
    var front := actions[..|actions| - 1];
    if HoldsFrom(front, i, t, key, c) {
      forall j | i <= j <= |actions| ensures Holds(StateAt(actions, j), t, key, c) {
        if j < |actions| { StateAtFront(actions, j); } else { EndStates(actions); }
      }
    }
    if HoldsFrom(actions, i, t, key, c) {
      forall j | i <= j <= |front| ensures Holds(StateAt(front, j), t, key, c) { StateAtFront(actions, j); }
    }
  }

  /** Extending a run keeps what was taken, as long as the use goes on. */
  lemma TakenExtends(actions: seq<Action>, i: nat, t: Tid, key: Key, c: Conn)
    requires IsRun(actions) && i + 1 < |actions| && Holds(Final(actions), t, key, c)
    ensures IsRun(actions[..|actions| - 1])
    ensures TakenAt(actions, i, t, key, c) <==> TakenAt(actions[..|actions| - 1], i, t, key, c)
  {
    StateAtFront(actions, i);
    HoldsFromFront(actions, i, t, key, c);
  }

  /** Under every interleaving, the connection a goroutine is using is out of the cache exactly when,
      while it was using it, another goroutine invalidated the key after a failed dial or the
      service was shut down. */
  lemma {:induction false} TakenFromUnderItsHolder(actions: seq<Action>, t: Tid, key: Key, c: Conn)
    requires IsRun(actions) && Holds(Final(actions), t, key, c)
    ensures !IsCached(Final(actions), key, c) <==> Taken(actions, t, key, c)
  {
    EndStates(actions);
    var n := |actions| - 1;
    var front, a := actions[..n], actions[n];
    RunKeepsInv(front);
    if Holds(Final(front), t, key, c) {
      OnlyTheseTake(Final(front), a, t, key, c);
      TakenFromUnderItsHolder(front, t, key, c);
      TakenInFrontOrLast(actions, t, key, c);
    } else {
      StartsCached(Final(front), a, t, key, c);
      forall i | 0 <= i < |actions| ensures !TakenAt(actions, i, t, key, c) {
        assert !Holds(StateAt(actions, n), t, key, c);
      }
    }
  }

  ghost predicate Taken(actions: seq<Action>, t: Tid, key: Key, c: Conn)
    requires IsRun(actions)
  {
    exists i :: 0 <= i < |actions| && TakenAt(actions, i, t, key, c)
  }

  lemma TakenStays(actions: seq<Action>, t: Tid, key: Key, c: Conn)
    requires IsRun(actions) && actions != [] && IsRun(actions[..|actions| - 1]) && Holds(Final(actions), t, key, c)
    requires Taken(actions[..|actions| - 1], t, key, c)
    ensures Taken(actions, t, key, c)
  {
    var i :| 0 <= i < |actions| - 1 && TakenAt(actions[..|actions| - 1], i, t, key, c);
    TakenExtends(actions, i, t, key, c);
  }

  lemma TakenEarlierOrLast(actions: seq<Action>, i: nat, t: Tid, key: Key, c: Conn)
    requires IsRun(actions) && actions != [] && IsRun(actions[..|actions| - 1]) && Holds(Final(actions), t, key, c)
    requires i < |actions| && TakenAt(actions, i, t, key, c)
    ensures Taken(actions[..|actions| - 1], t, key, c) || Takes(Final(actions[..|actions| - 1]), actions[|actions| - 1], key)
  {
    if i < |actions| - 1 {
      TakenExtends(actions, i, t, key, c);
    }
  }

  lemma TakenInFrontOrLast(actions: seq<Action>, t: Tid, key: Key, c: Conn)
    requires IsRun(actions) && actions != [] && IsRun(actions[..|actions| - 1])
    requires Holds(Final(actions), t, key, c) && Holds(Final(actions[..|actions| - 1]), t, key, c)
    ensures Taken(actions, t, key, c) <==>
            Taken(actions[..|actions| - 1], t, key, c) || Takes(Final(actions[..|actions| - 1]), actions[|actions| - 1], key)
  {
    if Taken(actions, t, key, c) {
      var i :| 0 <= i < |actions| && TakenAt(actions, i, t, key, c);
      TakenEarlierOrLast(actions, i, t, key, c);
    } else if Takes(Final(actions[..|actions| - 1]), actions[|actions| - 1], key) {
      LastTakes(actions, t, key, c);
    } else if Taken(actions[..|actions| - 1], t, key, c) {
      TakenStays(actions, t, key, c);
    }
  }

  lemma LastTakes(actions: seq<Action>, t: Tid, key: Key, c: Conn)
    requires IsRun(actions) && actions != [] && Holds(Final(actions), t, key, c)
    requires Holds(Final(actions[..|actions| - 1]), t, key, c)
    requires Takes(Final(actions[..|actions| - 1]), actions[|actions| - 1], key)
    ensures TakenAt(actions, |actions| - 1, t, key, c)
  {
    EndStates(actions);
    var n := |actions| - 1;
    forall j | n <= j <= |actions| ensures Holds(StateAt(actions, j), t, key, c) {
      assert j == n || j == |actions|;
    }
  }

  // ----- a run that shows it

  lemma Extend(actions: seq<Action>, a: Action)
    requires IsRun(actions) && Enabled(Final(actions), a)
    ensures IsRun(actions + [a]) && Final(actions + [a]) == Apply(Final(actions), a)
  {
    var longer := actions + [a];
    assert longer[..|longer| - 1] == actions;
  }

  /** A goroutine whose dialling fails, and that invalidates only after another one has dialled. */
  lemma {:induction false} LateInvalidation(key: Key, c: Conn) returns (actions: seq<Action>)
    ensures IsRun(actions) && Holds(Final(actions), 0, key, c) && !IsCached(Final(actions), key, c)
    ensures HandedTo(Final(actions), 1, c)
  {
    actions := FailedDial(key);
    Extend(actions, Request(0, key, 1));
    actions := actions + [Request(0, key, 1)];
    Extend(actions, TakeLock(0));
    actions := actions + [TakeLock(0)];
    Extend(actions, Lookup(0, false));
    actions := actions + [Lookup(0, false)];
    Extend(actions, DialSucceeds(0, c));
    actions := actions + [DialSucceeds(0, c)];
    Extend(actions, Install(0));
    actions := actions + [Install(0)];
    Extend(actions, AfterDialFailure(1, true));
    actions := actions + [AfterDialFailure(1, true)];
  }

  lemma FailedDial(key: Key) returns (actions: seq<Action>)
    ensures IsRun(actions) && At(Final(actions), 1) == Thread(DialFailed(key), {}) && At(Final(actions), 0) == Thread(Idle, {})
    ensures Final(actions).holder == map[] && Final(actions).cache == map[] && Final(actions).dialled == map[]
  {
    actions := [];
    Extend(actions, Request(1, key, 1));
    actions := actions + [Request(1, key, 1)];
    Extend(actions, TakeLock(1));
    actions := actions + [TakeLock(1)];
    Extend(actions, Lookup(1, false));
    actions := actions + [Lookup(1, false)];
    Extend(actions, DialFails(1));
    actions := actions + [DialFails(1)];
  }
}
