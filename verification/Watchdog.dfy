/** The deadlock watchdog of pi_stress: high counts finished inversions in `watchdog`, each pass of the
    reporter looks at those counters and then clears them, and a group found idle too often is reported. */
module Watchdog {

  const WATCHDOG_LIMIT: nat := 5

  /** The fields of struct group_parameters that the watchdog uses. */
  class Group {
    var inversions: int
    var total: nat
    var watchdog: nat
    var hits: nat

    constructor (inversions: int)
      ensures this.inversions == inversions && total == watchdog == hits == 0
      ensures Now() == Counters(0, 0, 0, false)
    {
      this.inversions := inversions;
      total, watchdog, hits := 0, 0, 0;
    }

    function Now(): Counters
      reads this
    {
      Counters(total, watchdog, hits, false)
    }

    /** What high does after each finish_barrier. */
    method FinishInversion()
      modifies this
      ensures Now() == Finished(inversions, old(Now()), 1)
      ensures inversions == old(inversions)
    {
      total := total + 1;
      watchdog := watchdog + 1;
    }
  }

  /** `idle`: the check has found `watchdog` 0 and has yet to compare `total`. */
  datatype Counters = Counters(total: nat, watchdog: nat, hits: nat, idle: bool)

  // ------------------------------------------------------------------ what happens to one group

  /** High adds to `total`; high adds to `watchdog`, which completes an inversion, writing one more than the
      value `seen` it read, perhaps before a clear.  In each pass the reporter looks at `watchdog`, compares
      `total`, and later clears `watchdog`; high goes on meanwhile. */
  datatype Event = Total | Dog(seen: nat) | Look | Compare | Clear

  predicate Counts(inversions: int, c: Counters) { c.idle && inversions != c.total }

  function After(inversions: int, c: Counters, e: Event): Counters {
    match e
    case Total => c.(total := c.total + 1)
    case Dog(seen) => c.(watchdog := seen + 1)
    case Look => if c.watchdog == 0 then c.(idle := true) else c.(hits := 0, idle := false)
    case Compare => c.(hits := if Counts(inversions, c) then c.hits + 1 else c.hits, idle := false)
    case Clear => c.(watchdog := 0, idle := false)
  }

  function Play(inversions: int, events: seq<Event>): Counters {
    if events == [] then Counters(0, 0, 0, false)
    else After(inversions, Play(inversions, events[..|events| - 1]), events[|events| - 1])
  }

  /** The comparison to come reports the group. */
  predicate Reports(inversions: int, c: Counters) { Counts(inversions, c) && c.hits + 1 >= WATCHDOG_LIMIT }

  function Checked(inversions: int, c: Counters): Counters {
    After(inversions, After(inversions, c, Look), Compare)
  }

  function Finished(inversions: int, c: Counters, n: nat): Counters {
    if n == 0 then c
    else
      var d := After(inversions, Finished(inversions, c, n - 1), Total);
      After(inversions, d, Dog(d.watchdog))
  }

  // ------------------------------------------------------------------ the two loops over all groups

  predicate Distinct(groups: seq<Group>) {
    forall i, j :: 0 <= i < j < |groups| ==> groups[i] != groups[j]
  }

  method WatchdogClear(groups: seq<Group>)
    requires Distinct(groups)
    modifies groups
    ensures forall i :: 0 <= i < |groups| ==>
              && groups[i].inversions == old(groups[i].inversions)
              && groups[i].Now() == After(groups[i].inversions, old(groups[i].Now()), Clear)
  {
    var i := 0;
    while i < |groups|
      invariant 0 <= i <= |groups|
      invariant forall k :: 0 <= k < |groups| ==> groups[k].inversions == old(groups[k].inversions)
      invariant forall k :: 0 <= k < |groups| ==>
                  groups[k].Now() == if k < i then old(groups[k].Now()).(watchdog := 0) else old(groups[k].Now())
    {
      groups[i].watchdog := 0;
      i := i + 1;
    }
  }

  predicate Failing(inversions: int, c: Counters) { Reports(inversions, After(inversions, c, Look)) }

  /** Returns whether some group has to be reported, and leaves every group's hits as the check says. */
  method WatchdogCheck(groups: seq<Group>) returns (failed: bool)
    requires Distinct(groups)
    modifies groups
    ensures forall i :: 0 <= i < |groups| ==>
              && groups[i].inversions == old(groups[i].inversions)
              && groups[i].Now() == Checked(groups[i].inversions, old(groups[i].Now()))
    ensures failed <==> exists i :: 0 <= i < |groups| && Failing(old(groups[i].inversions), old(groups[i].Now()))
  {
    var failures := 0;
    var i := 0;
    while i < |groups|
      invariant 0 <= i <= |groups| && failures >= 0
      invariant forall k :: 0 <= k < |groups| ==> groups[k].inversions == old(groups[k].inversions)
      invariant forall k :: 0 <= k < |groups| ==>
                  groups[k].Now() ==
                    if k < i then Checked(groups[k].inversions, old(groups[k].Now())) else old(groups[k].Now())
      invariant failures > 0 <==> exists k :: 0 <= k < i && Failing(old(groups[k].inversions), old(groups[k].Now()))
    {
      var g := groups[i];
      assert g.Now() == old(groups[i].Now());
      if g.watchdog == 0 {
        if g.inversions != g.total {
          g.hits := g.hits + 1;
          if g.hits >= WATCHDOG_LIMIT {
            failures := failures + 1;
            assert Failing(old(groups[i].inversions), old(groups[i].Now()));
          }
        }
      } else {
        g.hits := 0;
      }
      i := i + 1;
    }
    failed := failures > 0;
  }

  /** Between the check and the clear group i finishes `finished[i]` more inversions. */
  method OtherThreads(groups: seq<Group>, finished: seq<nat>)
    requires Distinct(groups) && |finished| == |groups|
    modifies groups
    ensures forall i :: 0 <= i < |groups| ==>
              && groups[i].inversions == old(groups[i].inversions)
              && groups[i].Now() == Finished(groups[i].inversions, old(groups[i].Now()), finished[i])
  {
    for i := 0 to |groups|
      invariant forall k :: 0 <= k < |groups| ==> groups[k].inversions == old(groups[k].inversions)
      invariant forall k :: 0 <= k < i ==>
                  groups[k].Now() == Finished(groups[k].inversions, old(groups[k].Now()), finished[k])
      invariant forall k :: i <= k < |groups| ==> groups[k].Now() == old(groups[k].Now())
    {
      for n := 0 to finished[i]
        invariant forall k :: 0 <= k < |groups| ==> groups[k].inversions == old(groups[k].inversions)
        invariant forall k :: 0 <= k < i ==>
                    groups[k].Now() == Finished(groups[k].inversions, old(groups[k].Now()), finished[k])
        invariant forall k :: i < k < |groups| ==> groups[k].Now() == old(groups[k].Now())
        invariant groups[i].Now() == Finished(groups[i].inversions, old(groups[i].Now()), n)
      {
        groups[i].FinishInversion();
      }
    }
  }

  /** One pass of the reporter, with what the groups do between its two loops: unless some group is reported,
      every group is checked, goes on, and is cleared. */
  method ReporterPass(groups: seq<Group>, finished: seq<nat>) returns (failed: bool)
    requires Distinct(groups) && |finished| == |groups|
    modifies groups
    ensures failed <==> exists i :: 0 <= i < |groups| && Failing(old(groups[i].inversions), old(groups[i].Now()))
    ensures !failed ==> forall i :: 0 <= i < |groups| ==>
              var inversions := old(groups[i].inversions);
              groups[i].Now() ==
                After(inversions, Finished(inversions, Checked(inversions, old(groups[i].Now())), finished[i]), Clear)
  {
    failed := WatchdogCheck(groups);
    if !failed {
      OtherThreads(groups, finished);
      WatchdogClear(groups);
    }
  }

  // ------------------------------------------------------------------ positions in the list of events

  function Totals(events: seq<Event>): nat {
    if events == [] then 0
    else Totals(events[..|events| - 1]) + if events[|events| - 1].Total? then 1 else 0
  }

  function LastLook(events: seq<Event>): (k: nat)
    ensures k <= |events|
  {
    if events == [] then 0 else if events[|events| - 1].Look? then |events| else LastLook(events[..|events| - 1])
  }

  function LastClear(events: seq<Event>): (k: nat)
    ensures k <= |events|
  {
    if events == [] then 0 else if events[|events| - 1].Clear? then |events| else LastClear(events[..|events| - 1])
  }

  predicate NoDog(events: seq<Event>, from: nat, to: nat)
    requires to <= |events|
  {
    forall p :: from <= p < to ==> !events[p].Dog?
  }

  /** Where the reporter stands with the group: past the clear, after its look, after its comparison. */
  datatype Stage = Outside | Looked | Compared

  function StageOf(events: seq<Event>): Stage {
    if events == [] then Outside
    else
      match events[|events| - 1]
      case Look => Looked
      case Compare => Compared
      case Clear => Outside
      case _ => StageOf(events[..|events| - 1])
  }

  /** The group's present idle stretch begins just after the last look that saw progress. */
  function Since(events: seq<Event>): (k: nat)
    ensures k <= |events|
  {
    if events == [] then 0
    else
      var before := events[..|events| - 1];
      if events[|events| - 1].Look? && !NoDog(before, LastClear(before), |before|) then |events| else Since(before)
  }

  /** Position p is a comparison that belongs to a look later than k, with `total` not the number asked for. */
  predicate Counted(inversions: int, events: seq<Event>, k: nat, p: nat)
    requires p < |events|
  {
    && events[p].Compare? && StageOf(events[..p]).Looked? && LastLook(events[..p]) > k
    && Totals(events[..p]) != inversions
  }

  function CountedFrom(inversions: int, events: seq<Event>, k: nat): nat {
    if events == [] then 0
    else
      CountedFrom(inversions, events[..|events| - 1], k) + if Counted(inversions, events, k, |events| - 1) then 1 else 0
  }

  // ------------------------------------------------------------------ what the hits count

  lemma {:induction false} PlayCounts(inversions: int, events: seq<Event>)
    ensures Play(inversions, events).total == Totals(events)
    ensures Play(inversions, events).watchdog == 0 <==> NoDog(events, LastClear(events), |events|)
  {
    if events != [] {
      PlayCounts(inversions, events[..|events| - 1]);
    }
  }

  lemma {:induction false} NothingCountedYet(inversions: int, events: seq<Event>, k: nat)
    requires |events| <= k
    ensures CountedFrom(inversions, events, k) == 0
  {
    if events != [] {
      NothingCountedYet(inversions, events[..|events| - 1], k);
    }
  }

  /** At every moment the hits are the counted comparisons since the last look that saw progress. */
  lemma {:induction false} HitsCountIdlePasses(inversions: int, events: seq<Event>)
    ensures var k, c := Since(events), Play(inversions, events);
      && c.hits == CountedFrom(inversions, events, k)
      && (c.idle <==> StageOf(events).Looked? && LastLook(events) > k)
      && (k == 0 || events[k - 1].Look?)
  {
    if events != [] {
      var before := events[..|events| - 1];
      HitsCountIdlePasses(inversions, before);
      PlayCounts(inversions, before);
      if Since(events) == |events| {
        NothingCountedYet(inversions, events, |events|);
      }
    }
  }

  /** In the idle stretch the group finished no inversion between any clear and the next look. */
  lemma {:induction false} NothingSeen(events: seq<Event>, q: nat)
    requires Since(events) <= q < |events| && events[q].Look?
    ensures NoDog(events, LastClear(events[..q]), q)
  {
    var before := events[..|events| - 1];
    if q < |events| - 1 {
      assert before[..q] == events[..q];
      NothingSeen(before, q);
    }
  }

  /** No comparison so far has reported the group; the first report ends the reporter. */
  predicate NoReportYet(inversions: int, events: seq<Event>) {
    forall p :: 0 <= p < |events| && events[p].Compare? ==> !Reports(inversions, Play(inversions, events[..p]))
  }

  lemma {:induction false} HitsStayBelowLimit(inversions: int, events: seq<Event>)
    requires NoReportYet(inversions, events)
    ensures Play(inversions, events).hits < WATCHDOG_LIMIT
  {
    if events != [] {
      var before := events[..|events| - 1];
      assert NoReportYet(inversions, before) by {
        forall p | 0 <= p < |before| && before[p].Compare?
          ensures !Reports(inversions, Play(inversions, before[..p]))
        {
          assert before[..p] == events[..p] && events[p].Compare?;
        }
      }
      HitsStayBelowLimit(inversions, before);
      assert events[|events| - 1].Compare? ==> !Reports(inversions, Play(inversions, events[..|events| - 1]));
    }
  }

  /** A group is reported at a comparison exactly if that is the fifth counted one since progress was last seen;
      it has then finished no inversion between any clear and the next look of that stretch. */
  lemma ReportedAtFifthPass(inversions: int, events: seq<Event>)
    requires NoReportYet(inversions, events)
    ensures Reports(inversions, Play(inversions, events)) <==>
              && StageOf(events).Looked? && LastLook(events) > Since(events) && Totals(events) != inversions
              && CountedFrom(inversions, events, Since(events)) == 4
    ensures forall q :: Since(events) <= q < |events| && events[q].Look? ==> NoDog(events, LastClear(events[..q]), q)
  {
    HitsCountIdlePasses(inversions, events);
    HitsStayBelowLimit(inversions, events);
    PlayCounts(inversions, events);
    forall q | Since(events) <= q < |events| && events[q].Look? ensures NoDog(events, LastClear(events[..q]), q) {
      NothingSeen(events, q);
    }
  }

  // ------------------------------------------------------------------ the window between look and clear

  /** The reporter looks, compares and clears in turn. */
  predicate InTurn(events: seq<Event>) {
    forall p :: 0 <= p < |events| ==>
      match events[p]
      case Look => StageOf(events[..p]).Outside?
      case Compare => StageOf(events[..p]).Looked?
      case Clear => StageOf(events[..p]).Compared?
      case _ => true
  }

  /** An inversion finished between the look and the clear of one pass is wiped before the next look. */
  predicate Lost(events: seq<Event>, p: nat)
    requires p < |events|
  {
    events[p].Dog? && !StageOf(events[..p]).Outside?
  }

  predicate NoneLost(events: seq<Event>, from: nat) {
    forall p :: from <= p < |events| ==> !Lost(events, p)
  }

  lemma {:induction false} NoneLostNoneFinished(inversions: int, events: seq<Event>)
    requires InTurn(events) && NoneLost(events, Since(events))
    requires !StageOf(events).Outside? || NoDog(events, LastClear(events), |events|)
    ensures NoDog(events, Since(events), |events|)
  {
    if events != [] && Since(events) < |events| {
      var before, e := events[..|events| - 1], events[|events| - 1];
      assert forall p :: 0 <= p < |before| ==> before[..p] == events[..p];
      assert InTurn(before) by {
        forall p | 0 <= p < |before|
          ensures match before[p]
                  case Look => StageOf(before[..p]).Outside?
                  case Compare => StageOf(before[..p]).Looked?
                  case Clear => StageOf(before[..p]).Compared?
                  case _ => true
        {
          assert before[p] == events[p] && before[..p] == events[..p];
        }
      }
      assert NoneLost(before, Since(before)) by {
        forall p | Since(before) <= p < |before| ensures !Lost(before, p) {
          assert !Lost(events, p) && before[..p] == events[..p];
        }
      }
      assert !Lost(events, |before|);
      NoneLostNoneFinished(inversions, before);
    }
  }

  /** A reported group has finished no inversion at all since progress was last seen if and only if it finished
      none between a look and the following clear. */
  lemma NothingFinishedExactlyWhen(inversions: int, events: seq<Event>)
    requires InTurn(events) && NoReportYet(inversions, events) && Reports(inversions, Play(inversions, events))
    ensures NoDog(events, Since(events), |events|) <==> NoneLost(events, Since(events))
  {
    ReportedAtFifthPass(inversions, events);
    if NoneLost(events, Since(events)) {
      NoneLostNoneFinished(inversions, events);
    }
  }

  /** n passes, in each of which the group finishes an inversion just before the clear. */
  function BusyPasses(n: nat): seq<Event> {
    if n == 0 then [] else BusyPasses(n - 1) + [Look, Compare, Total, Dog(0), Clear]
  }

  lemma PlayNext(inversions: int, events: seq<Event>, e: Event)
    ensures Play(inversions, events + [e]) == After(inversions, Play(inversions, events), e)
  {
    assert (events + [e])[..|events|] == events;
  }

  /** All of them count as idle: after four such passes the next check reports a group that has just finished
      its fourth inversion. */
  lemma {:induction false} BusyGroupReported(n: nat)
    ensures Play(-1, BusyPasses(n)) == Counters(n, 0, n, false)
    ensures n == 4 ==> Reports(-1, Play(-1, BusyPasses(n) + [Look]))
  {
    if n > 0 {
      BusyGroupReported(n - 1);
      var b := BusyPasses(n - 1);
      PlayNext(-1, b, Look);
      PlayNext(-1, b + [Look], Compare);
      PlayNext(-1, b + [Look] + [Compare], Total);
      PlayNext(-1, b + [Look] + [Compare] + [Total], Dog(0));
      PlayNext(-1, b + [Look] + [Compare] + [Total] + [Dog(0)], Clear);
      assert BusyPasses(n) == b + [Look] + [Compare] + [Total] + [Dog(0)] + [Clear];
    }
    PlayNext(-1, BusyPasses(n), Look);
  }
}
