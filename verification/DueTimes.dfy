/** When a task is due: the lattice of due times of a phase and an interval. Times and intervals
    are whole nanoseconds. */
module DueTimes {

  /** The k-th due time. */
  function Point(phase: int, interval: int, k: int): int { phase + k * interval }

  ghost predicate OnLattice(t: int, phase: int, interval: int) {
    exists k :: t == Point(phase, interval, k)
  }

  function NextDueAfter(now: int, phase: int, interval: int): int
    requires interval > 0
  {
    if now < phase then phase else phase + ((now - phase) / interval + 1) * interval
  }

  lemma MulOrder(a: int, b: int, m: int)
    requires m > 0
    ensures a <= b <==> a * m <= b * m
  {
    if a <= b {
      assert (b - a) * m >= 0;
    } else {
      assert (a - b) * m > 0;
    }
  }

  lemma DivBounds(x: int, m: int)
    requires m > 0
    ensures (x / m) * m <= x < (x / m + 1) * m
  {
    assert x == (x / m) * m + x % m;
  }

  /** It is the earliest due time after now: on the lattice, not before the phase, and none lies
      between. */
  lemma NextDueAfterIsNext(now: int, phase: int, interval: int)
    requires interval > 0
    ensures
      var r := NextDueAfter(now, phase, interval);
      && r > now && r >= phase && OnLattice(r, phase, interval)
      && forall t :: OnLattice(t, phase, interval) && t > now && t >= phase ==> t >= r
  {
    var r := NextDueAfter(now, phase, interval);
    if now < phase {
      assert r == Point(phase, interval, 0);
    } else {
      var q := (now - phase) / interval;
      DivBounds(now - phase, interval);
      assert r == Point(phase, interval, q + 1);
      forall t | OnLattice(t, phase, interval) && t > now && t >= phase ensures t >= r {
        var k :| t == Point(phase, interval, k);
        MulOrder(q + 1, k, interval);
        MulOrder(k, q, interval);
      }
    }
  }

  lemma LatticeStep(t: int, phase: int, interval: int)
    requires OnLattice(t, phase, interval)
    ensures OnLattice(t + interval, phase, interval)
  {
    var k :| t == Point(phase, interval, k);
    assert (k + 1) * interval == k * interval + interval;
    assert t + interval == Point(phase, interval, k + 1);
  }

  // ----- catching up

  /** How many whole intervals lie between a due time and now. */
  function Missed(due: int, interval: int, now: int): int
    requires interval > 0
  {
    (now - due) / interval
  }

  /** The due times from `due` up to, but not including, the n-th after it. */
  function Dues(due: int, interval: int, n: int): set<int> {
    set j | 0 <= j < n :: Point(due, interval, j)
  }

  lemma MissedStep(due: int, interval: int, now: int)
    requires interval > 0 && due <= now
    ensures due + interval <= now ==> Missed(due, interval, now) == 1 + Missed(due + interval, interval, now)
    ensures due + interval > now ==> Missed(due, interval, now) == 0
  {
    var q := Missed(due, interval, now);
    DivBounds(now - due, interval);
    DivBounds(now - (due + interval), interval);
    var p := Missed(due + interval, interval, now);
    // p*i <= now-due-i < (p+1)*i  and  q*i <= now-due < (q+1)*i
    assert (p + 1) * interval == p * interval + interval;
    assert (p + 2) * interval == p * interval + 2 * interval;
    MulOrder(p + 1, q, interval);
    MulOrder(q, p + 1, interval);
    MulOrder(q + 1, p + 1, interval);
    MulOrder(p + 2, q, interval);
    if due + interval > now {
      MulOrder(1, q, interval);
      assert now - due >= 0;
      MulOrder(q + 1, 0, interval);
    }
  }

  lemma PointShift(due: int, interval: int, j: int)
    ensures Point(due + interval, interval, j) == Point(due, interval, j + 1)
  {
    assert (j + 1) * interval == j * interval + interval;
  }

  lemma DuesStep(due: int, interval: int, n: int)
    requires n >= 0
    ensures Dues(due, interval, n + 1) == {due} + Dues(due + interval, interval, n)
  {
    var all, rest := Dues(due, interval, n + 1), Dues(due + interval, interval, n);
    assert Point(due, interval, 0) == due;
    forall x | x in all ensures x == due || x in rest {
      var j :| 0 <= j < n + 1 && x == Point(due, interval, j);
      if j > 0 { PointShift(due, interval, j - 1); }
    }
    forall x | x in rest ensures x in all {
      var j :| 0 <= j < n && x == Point(due + interval, interval, j);
      PointShift(due, interval, j);
    }
  }

  /** Catching up from one due equals taking it and catching up from the next. */
  lemma CatchUpNumbers(due: int, interval: int, now: int)
    requires interval > 0 && due + interval <= now
    ensures
      var n, m := Missed(due, interval, now), Missed(due + interval, interval, now);
      && m >= 0 && n == m + 1
      && Point(due, interval, n) == Point(due + interval, interval, m)
      && Point(due, interval, n + 1) == Point(due + interval, interval, m + 1)
      && Dues(due, interval, n) == {due} + Dues(due + interval, interval, m)
      && Dues(due, interval, n + 1) == {due} + Dues(due + interval, interval, m + 1)
  {
    MissedStep(due, interval, now);
    var m := Missed(due + interval, interval, now);
    DivBounds(now - (due + interval), interval);
    MulOrder(m + 1, 0, interval);
    PointShift(due, interval, m);
    PointShift(due, interval, m + 1);
    DuesStep(due, interval, m);
    DuesStep(due, interval, m + 1);
  }
}
