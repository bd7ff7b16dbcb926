/** Clock readings of cyclictest: normalising, comparing and subtracting timespecs, and the grid of wake-up
    times a measuring thread keeps. */
module Timespecs {
  import opened Arith

  const NSEC_PER_SEC: int := 1000000000
  const USEC_PER_SEC: int := 1000000

  /** The value of a struct timespec. */
  datatype Time = Time(sec: int, nsec: int) {
    function Total(): int { NSEC_PER_SEC * sec + nsec }
    predicate Normal() { 0 <= nsec < NSEC_PER_SEC }
  }

  /** Whole seconds carried out of the nanoseconds; negative nanoseconds are left alone. */
  function Normed(t: Time): (r: Time)
    ensures r.Total() == t.Total() && r.nsec < NSEC_PER_SEC
    ensures t.nsec >= 0 ==> r.Normal()
  {
    if t.nsec < NSEC_PER_SEC then t else Time(t.sec + t.nsec / NSEC_PER_SEC, t.nsec % NSEC_PER_SEC)
  }

  function Plus(t: Time, d: Time): (r: Time)
    ensures r.Total() == t.Total() + d.Total()
  {
    Time(t.sec + d.sec, t.nsec + d.nsec)
  }

  /** struct timespec, updated in place. */
  class Timespec {
    var tv_sec: int
    var tv_nsec: int

    constructor (t: Time)
      ensures Value() == t
    {
      tv_sec, tv_nsec := t.sec, t.nsec;
    }

    function Value(): Time
      reads this
    {
      Time(tv_sec, tv_nsec)
    }

    /** tsnorm */
    method Norm()
      modifies this
      ensures Value() == Normed(old(Value()))
      ensures old(tv_nsec) < 0 ==> Value() == old(Value())
    {
      while tv_nsec >= NSEC_PER_SEC
        invariant Normed(Value()) == Normed(old(Value()))
        decreases tv_nsec
      {
        tv_nsec := tv_nsec - NSEC_PER_SEC;
        tv_sec := tv_sec + 1;
      }
    }

    /** One interval later, not normalised. */
    method Add(interval: Time)
      modifies this
      ensures Value() == Plus(old(Value()), interval)
    {
      tv_sec := tv_sec + interval.sec;
      tv_nsec := tv_nsec + interval.nsec;
    }

    /** Several intervals later, not normalised. */
    method AddTimes(interval: Time, times: nat)
      modifies this
      ensures Value().Total() == old(Value().Total()) + interval.Total() * times
      ensures tv_nsec == old(tv_nsec) + interval.nsec * times
      ensures interval.nsec >= 0 ==> interval.nsec * times >= 0
    {
      tv_sec := tv_sec + interval.sec * times;
      tv_nsec := tv_nsec + interval.nsec * times;
      assert NSEC_PER_SEC * (interval.sec * times) == (NSEC_PER_SEC * interval.sec) * times;
    }
  }

  // ------------------------------------------------------------------ comparing and subtracting

  /** tsgreater */
  function Greater(a: Time, b: Time): (r: bool)
    ensures a.Normal() && b.Normal() ==> (r <==> a.Total() > b.Total())
  {
    a.sec > b.sec || (a.sec == b.sec && a.nsec > b.nsec)
  }

  /** The division of C: rounds toward zero. */
  function TruncDiv(a: int, b: int): (q: int)
    requires b > 0
    ensures -b < a - b * q < b
    ensures a >= 0 ==> q >= 0 && a - b * q >= 0
    ensures a <= 0 ==> q <= 0 && a - b * q <= 0
  {
    if a >= 0 then a / b
    else
      assert (-a) == b * ((-a) / b) + (-a) % b;
      -((-a) / b)
  }

  function CalcDiff(t1: Time, t2: Time): int {
    USEC_PER_SEC * (t1.sec - t2.sec) + TruncDiv(t1.nsec - t2.nsec, 1000)
  }

  function CalcDiffNs(t1: Time, t2: Time): int {
    NSEC_PER_SEC * (t1.sec - t2.sec) + (t1.nsec - t2.nsec)
  }

  /** calcdiff is within a microsecond of the exact difference, which calcdiff_ns computes; it is rounded down if the
      nanoseconds of the first argument are not the smaller ones, and up otherwise, whatever the seconds are; both
      change sign with their arguments. */
  lemma CalcDiffIsClose(t1: Time, t2: Time)
    ensures CalcDiffNs(t1, t2) == t1.Total() - t2.Total()
    ensures -1000 < 1000 * CalcDiff(t1, t2) - (t1.Total() - t2.Total()) < 1000
    ensures t1.nsec >= t2.nsec ==> 1000 * CalcDiff(t1, t2) <= t1.Total() - t2.Total()
    ensures t1.nsec <= t2.nsec ==> 1000 * CalcDiff(t1, t2) >= t1.Total() - t2.Total()
    ensures CalcDiff(t2, t1) == -CalcDiff(t1, t2) && CalcDiffNs(t2, t1) == -CalcDiffNs(t1, t2)
  {
    TruncDivOdd(t1.nsec - t2.nsec, 1000);
  }

  lemma TruncDivOdd(a: int, b: int)
    requires b > 0
    ensures TruncDiv(-a, b) == -TruncDiv(a, b)
  {}

  /** A later reading never gives a smaller difference, although the truncation is not that of the total. */
  lemma CalcDiffIsMonotone(t1: Time, u1: Time, t2: Time)
    requires t1.Normal() && u1.Normal() && t1.Total() <= u1.Total()
    ensures CalcDiff(t1, t2) <= CalcDiff(u1, t2)
    ensures CalcDiffNs(t1, t2) <= CalcDiffNs(u1, t2)
  {
    if t1.sec == u1.sec {
    } else {
      assert t1.sec + 1 <= u1.sec;
      assert u1.nsec - t2.nsec > t1.nsec - t2.nsec - NSEC_PER_SEC;
    }
  }

  // ------------------------------------------------------------------ the grid of wake-up times

  /** The interval of a thread, given in microseconds. */
  function IntervalOf(us: nat): (t: Time)
    ensures t.Normal() && t.Total() == 1000 * us
  {
    Time(us / USEC_PER_SEC, (us % USEC_PER_SEC) * 1000)
  }

  /** The least number of intervals that covers x. */
  function CeilDiv(x: int, interval: int): (q: int)
    requires interval > 0
    ensures interval * (q - 1) < x <= interval * q
  {
    -((-x) / interval)
  }

  lemma CeilDivIs(x: int, interval: int, q: int)
    requires interval > 0 && interval * (q - 1) < x <= interval * q
    ensures CeilDiv(x, interval) == q
  {
    var p := CeilDiv(x, interval);
    Cancel(interval, q - 1, p);
    Cancel(interval, p - 1, q);
  }

  lemma CeilDivAtMost(x: int, interval: int, q: int)
    requires interval > 0 && x <= interval * q
    ensures CeilDiv(x, interval) <= q
  {
    Cancel(interval, CeilDiv(x, interval) - 1, q);
  }

  /** By how many intervals one cycle moves on: past the overruns of the timer, and as far as `now`. */
  function StepsAhead(old_: int, interval: nat, overrun: nat, now: int): (k: nat)
    ensures k >= 1 + overrun
  {
    var least := 1 + overrun;
    if interval == 0 || CeilDiv(now - old_, interval) <= least then least else CeilDiv(now - old_, interval)
  }

  function Point(from: int, period: nat, m: nat): int { from + period * m }

  /** t is the first point of the grid that is at least `least` periods on and not before `now`. */
  ghost predicate FirstPoint(from: int, period: nat, least: nat, now: int, t: int) {
    && t >= now && (exists m: nat :: m >= least && t == Point(from, period, m))
    && forall m: nat :: m >= least && Point(from, period, m) >= now ==> t <= Point(from, period, m)
  }

  lemma PointsRise(from: int, period: nat, m: nat, k: nat)
    ensures m <= k ==> Point(from, period, m) <= Point(from, period, k)
    ensures m < k ==> Point(from, period, m) <= Point(from, period, k - 1)
  {
    if m <= k { MultipleMonotone(m, k, period); }
    if m < k { MultipleMonotone(m, k - 1, period); }
  }

  lemma FirstPointIs(from: int, period: nat, least: nat, now: int, k: nat)
    requires Point(from, period, k) >= now
    requires k == least || (k > least && period > 0 && Point(from, period, k - 1) < now)
    ensures FirstPoint(from, period, least, now, Point(from, period, k))
  {
    forall m: nat | m >= least && Point(from, period, m) >= now
      ensures Point(from, period, k) <= Point(from, period, m)
    {
      PointsRise(from, period, m, k);
      PointsRise(from, period, k, m);
    }
  }

  /** `next` after some rounds of the catch-up loop. */
  function Later(next: Time, interval: Time, rounds: nat): Time {
    if rounds == 0 then next else Normed(Plus(Later(next, interval, rounds - 1), interval))
  }

  lemma {:induction false} LaterTotal(next: Time, interval: Time, rounds: nat)
    requires next.Normal() && interval.Normal()
    ensures Later(next, interval, rounds).Normal()
    ensures Later(next, interval, rounds).Total() == next.Total() + interval.Total() * rounds
  {
    if rounds > 0 {
      LaterTotal(next, interval, rounds - 1);
      assert Later(next, interval, rounds - 1).nsec + interval.nsec >= 0;
      assert interval.Total() * rounds == interval.Total() * (rounds - 1) + interval.Total();
    }
  }

  lemma CaughtUp(next: Time, interval: Time, now: Time, start: int, least: nat, rounds: nat)
    requires next.Normal() && interval.Normal() && now.Normal() && interval.Total() >= 0
    requires next.Total() == start + interval.Total() * least
    requires interval.Total() > 0 || rounds == 0
    requires rounds > 0 ==> Greater(now, Later(next, interval, rounds - 1))
    ensures Later(next, interval, rounds).Total() == start + interval.Total() * (least + rounds)
    ensures rounds == 0 || (interval.Total() > 0 && start + interval.Total() * (least + rounds - 1) < now.Total())
  {
    LaterTotal(next, interval, rounds);
    Distribute(interval.Total(), least, rounds);
    if rounds > 0 {
      LaterTotal(next, interval, rounds - 1);
      Distribute(interval.Total(), least, rounds - 1);
    }
  }

  lemma Distribute(x: nat, k: nat, steps: nat)
    ensures x * k + x * steps == x * (k + steps)
  {}

  /** The catch-up loop: `next`, which stands `least` intervals after `start`, is moved on to the first point
      that is not past. */
  method CatchUp(next: Timespec, interval: Time, now: Time, ghost start: int, ghost least: nat) returns (ghost k: nat)
    requires next.Value().Normal() && interval.Normal() && now.Normal() && interval.Total() >= 0
    requires next.Value().Total() == start + interval.Total() * least
    requires interval.Total() > 0 || now.Total() <= next.Value().Total()
    modifies next
    ensures next.Value().Normal() && next.Value().Total() == start + interval.Total() * k >= now.Total()
    ensures k == least || (k > least && interval.Total() > 0 && start + interval.Total() * (k - 1) < now.Total())
    ensures k >= least && next.Value() == Later(old(next.Value()), interval, k - least)
    ensures !Greater(now, next.Value())
    ensures forall r: nat :: r < k - least ==> Greater(now, Later(old(next.Value()), interval, r))
  {
    ghost var rounds := 0;
    while Greater(now, next.Value())
      invariant next.Value() == Later(old(next.Value()), interval, rounds) && next.Value().Normal()
      invariant forall r: nat :: r < rounds ==> Greater(now, Later(old(next.Value()), interval, r))
      invariant interval.Total() > 0 || (rounds == 0 && now.Total() <= next.Value().Total())
      decreases now.Total() - next.Value().Total()
    {
      next.Add(interval);
      next.Norm();
      rounds := rounds + 1;
    }
    k := least + rounds;
    CaughtUp(old(next.Value()), interval, now, start, least, rounds);
  }

  lemma StepsAheadIs(start: int, period: nat, overrun: nat, now: int, k: nat)
    requires start + period * k >= now
    requires k == 1 + overrun || (k > 1 + overrun && period > 0 && start + period * (k - 1) < now)
    ensures StepsAhead(start, period, overrun, now) == k
  {
    if k > 1 + overrun {
      CeilDivIs(now - start, period, k);
    } else if period > 0 {
      CeilDivAtMost(now - start, period, k);
    }
  }

  /** The update of `next` at the end of a cycle.  Without an interval the catch-up loop could not move, so it
      must not be entered. */
  method Advance(next: Timespec, interval: Time, overrun: nat, now: Time)
    requires next.Value().Normal() && interval.Normal() && now.Normal() && interval.Total() >= 0
    requires interval.Total() > 0 || now.Total() <= next.Value().Total()
    modifies next
    ensures next.Value().Normal() && next.Value().Total() >= now.Total()
    ensures next.Value().Total() ==
      old(next.Value().Total())
      + interval.Total() * StepsAhead(old(next.Value().Total()), interval.Total(), overrun, now.Total())
    ensures FirstPoint(old(next.Value().Total()), interval.Total(), 1 + overrun, now.Total(), next.Value().Total())
  {
    ghost var start := next.Value().Total();
    next.Add(interval);
    next.AddTimes(interval, overrun);
    next.Norm();
    NextMultiple(overrun, interval.Total());
    ghost var k := CatchUp(next, interval, now, start, 1 + overrun);
    StepsAheadIs(start, interval.Total(), overrun, now.Total(), k);
    FirstPointIs(start, interval.Total(), 1 + overrun, now.Total(), k);
  }

  /** The loop's test on `next` after some rounds, in nanoseconds. */
  lemma TestAfter(next: Time, interval: Time, now: Time, rounds: nat)
    requires next.Normal() && interval.Normal() && now.Normal()
    ensures Greater(now, Later(next, interval, rounds)) <==> now.Total() - next.Total() > interval.Total() * rounds
  {
    LaterTotal(next, interval, rounds);
  }

  lemma EnoughRounds(x: int, interval: int)
    requires interval > 0 && x > 0
    ensures x <= interval * x
  {}

  lemma CatchesUp(next: Time, interval: Time, now: Time) returns (rounds: nat)
    requires next.Normal() && interval.Normal() && now.Normal() && interval.Total() > 0
    ensures !Greater(now, Later(next, interval, rounds))
  {
    var x := now.Total() - next.Total();
    rounds := if x > 0 then x else 0;
    TestAfter(next, interval, now, rounds);
    if x > 0 { EnoughRounds(x, interval.Total()); }
  }

  lemma StandsStill(next: Time, interval: Time, now: Time, rounds: nat)
    requires next.Normal() && interval.Normal() && now.Normal() && interval.Total() == 0 && Greater(now, next)
    ensures Greater(now, Later(next, interval, rounds))
  {
    TestAfter(next, interval, now, rounds);
  }

  /** The catch-up loop comes to a round at which its test fails exactly if there is an interval to add or the test
      fails at once; the options do not exclude an interval of 0. */
  lemma CatchUpEndsExactlyWhen(next: Time, interval: Time, now: Time)
    requires next.Normal() && interval.Normal() && now.Normal() && interval.Total() >= 0
    ensures (exists rounds: nat :: !Greater(now, Later(next, interval, rounds)))
       <==> interval.Total() > 0 || !Greater(now, next)
  {
    if interval.Total() > 0 {
      var rounds := CatchesUp(next, interval, now);
    } else if Greater(now, next) {
      forall rounds: nat ensures Greater(now, Later(next, interval, rounds)) {
        StandsStill(next, interval, now, rounds);
      }
    } else {
      assert !Greater(now, Later(next, interval, 0));
    }
  }

  /** Without overruns the new wake-up time is the first point of the grid after the old one that is not
      already past. */
  lemma FirstPointNotPast(old_: int, interval: nat, now: int, k: nat)
    requires interval > 0 && k >= 1 && old_ + interval * k >= now
    ensures k >= StepsAhead(old_, interval, 0, now)
  {
    CeilDivAtMost(now - old_, interval, k);
  }

  /** What one cycle sees: the clock after waking up, and the overruns of its timer (0 without a timer). */
  datatype Wake = Wake(now: Time, overrun: nat)

  /** `next` lies Ticks intervals after the start of the grid, once the given cycles are over. */
  function Ticks(start: int, interval: nat, wakes: seq<Wake>): (k: nat)
    ensures k > |wakes| && (wakes == [] ==> k == 1)
  {
    if wakes == [] then 1
    else
      var k := Ticks(start, interval, wakes[..|wakes| - 1]);
      var w := wakes[|wakes| - 1];
      k + StepsAhead(start + interval * k, interval, w.overrun, w.now.Total())
  }

  /** Later wake-ups lie further along the grid, by at least one interval a cycle. */
  lemma {:induction false} TicksIncrease(start: int, interval: nat, wakes: seq<Wake>, i: nat)
    requires i <= |wakes|
    ensures Ticks(start, interval, wakes[..i]) + (|wakes| - i) <= Ticks(start, interval, wakes)
    decreases |wakes|
  {
    if i < |wakes| {
      var before := wakes[..|wakes| - 1];
      assert before[..i] == wakes[..i];
      TicksIncrease(start, interval, before, i);
    } else {
      assert wakes[..i] == wakes;
    }
  }

  ghost predicate OnGrid(start: Time, us: nat, wakes: seq<Wake>, next: Time) {
    next.Normal() && next.Total() == start.Total() + 1000 * us * Ticks(start.Total(), 1000 * us, wakes)
  }

  lemma StaysOnGrid(start: Time, us: nat, wakes: seq<Wake>, next: Time, w: Wake, next': Time)
    requires OnGrid(start, us, wakes, next) && next'.Normal()
    requires next'.Total() ==
      next.Total() + 1000 * us * StepsAhead(next.Total(), 1000 * us, w.overrun, w.now.Total())
    ensures OnGrid(start, us, wakes + [w], next')
  {
    var k := Ticks(start.Total(), 1000 * us, wakes);
    var steps := StepsAhead(next.Total(), 1000 * us, w.overrun, w.now.Total());
    assert (wakes + [w])[..|wakes|] == wakes;
    Distribute(1000 * us, k, steps);
  }

  /** The wake-up times for these cycles: the first is one interval after `start`, and each later one the first point
      of the grid after it and its overruns that is not before the last reading. */
  ghost predicate AreWakeUps(start: Time, us: nat, wakes: seq<Wake>, nexts: seq<Time>) {
    && |nexts| == |wakes| + 1 && nexts[0].Total() == start.Total() + 1000 * us
    && (forall i :: 0 <= i <= |wakes| ==> OnGrid(start, us, wakes[..i], nexts[i]))
    && (forall i :: 0 <= i < |wakes| ==> Follows(us, nexts[i], wakes[i], nexts[i + 1]))
  }

  ghost predicate Follows(us: nat, next: Time, w: Wake, next': Time) {
    FirstPoint(next.Total(), 1000 * us, 1 + w.overrun, w.now.Total(), next'.Total())
  }

  lemma NextWakeUp(start: Time, us: nat, wakes: seq<Wake>, nexts: seq<Time>, w: Wake, next': Time)
    requires AreWakeUps(start, us, wakes, nexts) && Follows(us, nexts[|wakes|], w, next')
    requires OnGrid(start, us, wakes + [w], next')
    ensures AreWakeUps(start, us, wakes + [w], nexts + [next'])
  {
    forall i | 0 <= i <= |wakes| + 1 ensures OnGrid(start, us, (wakes + [w])[..i], (nexts + [next'])[i]) {
      if i <= |wakes| {
        assert (wakes + [w])[..i] == wakes[..i];
      } else {
        assert (wakes + [w])[..i] == wakes + [w];
      }
    }
  }

  lemma FirstOnGrid(start: Time, us: nat, next: Time)
    requires next.Normal() && next.Total() == start.Total() + 1000 * us
    ensures AreWakeUps(start, us, [], [next])
  {}

  /** The end of one cycle. */
  method EndCycle(next: Timespec, us: nat, interval: Time, w: Wake, ghost start: Time, ghost wakes: seq<Wake>)
    requires us >= 1 && interval.Normal() && interval.Total() == 1000 * us && w.now.Normal()
    requires OnGrid(start, us, wakes, next.Value())
    modifies next
    ensures OnGrid(start, us, wakes + [w], next.Value()) && Follows(us, old(next.Value()), w, next.Value())
  {
    ghost var before := next.Value();
    Advance(next, interval, w.overrun, w.now);
    StaysOnGrid(start, us, wakes, before, w, next.Value());
  }

  lemma LastOnGrid(start: Time, us: nat, wakes: seq<Wake>, nexts: seq<Time>)
    requires AreWakeUps(start, us, wakes, nexts)
    ensures OnGrid(start, us, wakes, nexts[|wakes|])
  {
    assert wakes[..|wakes|] == wakes;
  }

  /** The wake-up times of a thread in absolute mode: `next` starts one interval after `start` and is updated
      at the end of every cycle. */
  method WakeUpTimes(start: Time, us: nat, wakes: seq<Wake>) returns (nexts: seq<Time>)
    requires start.Normal() && us >= 1
    requires forall i :: 0 <= i < |wakes| ==> wakes[i].now.Normal()
    ensures AreWakeUps(start, us, wakes, nexts)
  {
    var interval := IntervalOf(us);
    var next := new Timespec(start);
    next.Add(interval);
    next.Norm();
    FirstOnGrid(start, us, next.Value());
    nexts := [next.Value()];
    var cycles := 0;
    while cycles < |wakes|
      invariant 0 <= cycles <= |wakes| && AreWakeUps(start, us, wakes[..cycles], nexts)
      invariant fresh(next) && next.Value() == nexts[cycles]
    {
      LastOnGrid(start, us, wakes[..cycles], nexts);
      EndCycle(next, us, interval, wakes[cycles], start, wakes[..cycles]);
      NextWakeUp(start, us, wakes[..cycles], nexts, wakes[cycles], next.Value());
      assert wakes[..cycles + 1] == wakes[..cycles] + [wakes[cycles]];
      nexts := nexts + [next.Value()];
      cycles := cycles + 1;
    }
    assert wakes[..|wakes|] == wakes;
  }
}
