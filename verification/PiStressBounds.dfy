/** pi_stress with a given number of inversions: how many iterations a group makes. */
module PiStressBounds {
  import opened Options
  import opened Runs
  import opened PiStress
  import opened PiStressGroup
  import opened PiStressSystem
  import opened PiStressProgress

  lemma SharedBarrierKeepsBounds(g: Group, r: Role, w: Pc, n: int, shutdown: bool)
    requires (g.At(r).Ready? && w.ReadyW?) || (g.At(r).DoneB? && w.DoneBW?)
    ensures BoundsKept(g, g.Go(r, w), n, shutdown)
  {
    MoveKeepsBounds(g, r, w, n, shutdown);
  }

  lemma SharedReleaseKeepsBounds(g: Group, w: Pc, n: int, shutdown: bool)
    requires n >= 0 && Core(g, shutdown) && g.Waiting(w) == 3 && (w.ReadyW? || w.DoneBW?)
    ensures BoundsKept(g, g.Release(w, Low), n, shutdown)
  {
    assert g.low == w && g.med == w && g.high == w;
  }

  lemma ArrivalKeepsBounds(g: Group, h: Group, r: Role, w: Pc, n: int, shutdown: bool)
    requires n >= 0 && Core(g, shutdown) && Arrives(g, h, r, w)
    ensures BoundsKept(g, h, n, shutdown)
  {
    SharedBarrierKeepsBounds(g, r, w, n, shutdown);
    if h != g.Go(r, w) {
      JoinSharedBarrier(g, r, w, shutdown);
      SharedReleaseKeepsBounds(g.Go(r, w), w, n, shutdown);
    }
  }

  lemma InnerStepKeepsBounds(cfg: Config, g: Group, me: Who, r: Role, seen: nat, serial: Role,
                             shutdown: bool, shutOwner: Option<Who>)
    requires Core(g, shutdown) && cfg.inversions >= 0 && Enabled(g, r, shutOwner.None?)
    requires g.At(r) != Ready && g.At(r) != DoneB
    requires seen <= g.total && (r == High ==> seen == g.total)
    ensures var e := GroupStep(cfg, g, me, r, seen, serial, shutdown, shutOwner);
      && (WithinBound(g, cfg.inversions, shutdown) ==> WithinBound(e.g, cfg.inversions, e.shutdown))
      && (AtLeastBound(g, cfg.inversions, shutdown) ==> AtLeastBound(e.g, cfg.inversions, e.shutdown))
  {
    if IsInversionPc(g.At(r)) {
      InversionStepKeepsBounds(g, r, serial, cfg.inversions, shutdown);
    } else {
      CanFlagStep(g, r, shutOwner.None?);
      if WithinBound(g, cfg.inversions, shutdown) {
        FlagStepKeepsBound(cfg, g, me, r, seen, serial, shutdown, shutOwner);
      }
      if AtLeastBound(g, cfg.inversions, shutdown) {
        FlagStepKeepsAtLeast(cfg, g, me, r, seen, serial, shutdown, shutOwner);
      }
    }
  }

  lemma BoundOutlastsShutdown(g: Group, n: int, shutdown: bool)
    requires WithinBound(g, n, shutdown)
    ensures WithinBound(g, n, true)
  {}

  lemma ClearedDogKeepsBounds(g: Group, n: int, shutdown: bool)
    ensures BoundsKept(g, g.(watchdog := 0), n, shutdown)
  {}

  /** If the step from s to t raises `shutdown`, it is a step of one of the threads of group i. */
  ghost predicate OwnRaise(cfg: Config, s: System, t: System, i: nat) {
    !s.shutdown && t.shutdown ==>
      exists r: Role, seen: nat, serial: Role :: WorkerNext(cfg, s, t, i, r, seen, serial)
  }

  /** Every step keeps the upper bound of group i; and the lower one, if no other thread raises `shutdown`. */
  lemma StepKeepsBounds(cfg: Config, s: System, t: System, i: nat)
    requires cfg.inversions >= 0 && StepOnGroup(cfg, s, t, i) && Core(s.groups[i], s.shutdown)
    ensures WithinBound(s.groups[i], cfg.inversions, s.shutdown) ==>
              WithinBound(t.groups[i], cfg.inversions, t.shutdown)
    ensures (s.shutdown == t.shutdown || exists r, seen, serial :: Inner(cfg, s, t, i, r, seen, serial)) ==>
      AtLeastBound(s.groups[i], cfg.inversions, s.shutdown) ==> AtLeastBound(t.groups[i], cfg.inversions, t.shutdown)
  {
    var g, h := s.groups[i], t.groups[i];
    if r, seen, serial :| Inner(cfg, s, t, i, r, seen, serial) {
      InnerStepKeepsBounds(cfg, g, Worker(i, r), r, seen, serial, s.shutdown, s.shutOwner);
    } else if r, w :| t.shutdown == s.shutdown && Arrives(g, h, r, w) {
      ArrivalKeepsBounds(g, h, r, w, cfg.inversions, s.shutdown);
    } else if w :| t.shutdown == s.shutdown && Released(g, h, w) {
      SharedReleaseKeepsBounds(g, w, cfg.inversions, s.shutdown);
    } else if h == g {
      if WithinBound(g, cfg.inversions, s.shutdown) { BoundOutlastsShutdown(g, cfg.inversions, s.shutdown); }
    } else {
      ClearedDogKeepsBounds(g, cfg.inversions, s.shutdown);
    }
  }

  lemma ArrivalDoesNotRaise(cfg: Config, s: System, i: nat, r: Role, seen: nat, serial: Role)
    requires i < |s.groups| && WorkerStep(cfg, s, i, r, seen, serial).shutdown != s.shutdown
    ensures s.groups[i].At(r) != Ready && s.groups[i].At(r) != DoneB
  {}

  lemma WorkerStepIsInner(cfg: Config, s: System, t: System, i: nat, r: Role, seen: nat, serial: Role)
    requires WorkerNext(cfg, s, t, i, r, seen, serial)
    requires s.groups[i].At(r) != Ready && s.groups[i].At(r) != DoneB
    ensures |s.groups| == |t.groups| && Inner(cfg, s, t, i, r, seen, serial)
  {}

  lemma RaiseIsInner(cfg: Config, s: System, t: System, i: nat)
    requires OwnRaise(cfg, s, t, i) && !s.shutdown && t.shutdown
    ensures i < |s.groups| == |t.groups| && exists r, seen, serial :: Inner(cfg, s, t, i, r, seen, serial)
  {
    var r: Role, seen: nat, serial: Role :| WorkerNext(cfg, s, t, i, r, seen, serial);
    ArrivalDoesNotRaise(cfg, s, i, r, seen, serial);
    WorkerStepIsInner(cfg, s, t, i, r, seen, serial);
  }

  lemma BoundsMean(g: Group, n: int, shutdown: bool)
    requires n >= 0 && Core(g, shutdown)
    ensures WithinBound(g, n, shutdown) ==> g.total <= n + 1
    ensures WithinBound(g, n, shutdown) && AtLeastBound(g, n, shutdown) && Leaving(g.high) ==> g.total == n + 1
  {}

  lemma FreshGroupBounds(g: Group, n: int)
    requires Fresh(g)
    ensures WithinBound(g, n, false) && AtLeastBound(g, n, false)
  {}

  lemma StartsWithinBounds(cfg: Config, s: System, i: nat)
    requires s == Init(cfg) && i < cfg.ngroups
    ensures |s.groups| == cfg.ngroups && !s.shutdown
    ensures WithinBound(s.groups[i], cfg.inversions, false) && AtLeastBound(s.groups[i], cfg.inversions, false)
  {
    FreshGroupBounds(s.groups[i], cfg.inversions);
  }

  ghost predicate Bounded(cfg: Config, s: System, i: nat) {
    i < |s.groups| && WithinBound(s.groups[i], cfg.inversions, s.shutdown)
  }

  ghost predicate NotEarly(cfg: Config, s: System, i: nat) {
    i < |s.groups| && AtLeastBound(s.groups[i], cfg.inversions, s.shutdown)
  }

  lemma BoundsInRun(cfg: Config, run: seq<System>, k: nat, i: nat)
    requires cfg.inversions >= 0 && IsRun(Rel(cfg), run) && run[0] == Init(cfg) && k + 1 < |run| && i < cfg.ngroups
    ensures Bounded(cfg, run[k], i) ==> Bounded(cfg, run[k + 1], i)
    ensures OwnRaise(cfg, run[k], run[k + 1], i) && NotEarly(cfg, run[k], i) ==> NotEarly(cfg, run[k + 1], i)
  {
    ReachableInv(cfg, run, k);
    ConsecutiveStates(cfg, run, k);
    NextOnGroup(cfg, run[k], run[k + 1], i);
    StepKeepsBounds(cfg, run[k], run[k + 1], i);
    ShutdownStays(cfg, run[k], run[k + 1], i);
    if OwnRaise(cfg, run[k], run[k + 1], i) && run[k].shutdown != run[k + 1].shutdown {
      RaiseIsInner(cfg, run[k], run[k + 1], i);
    }
  }

  lemma ShutdownStays(cfg: Config, s: System, t: System, i: nat)
    requires Inv(cfg, s) && StepOnGroup(cfg, s, t, i)
    ensures s.shutdown ==> t.shutdown
  {
    if r, seen, serial :| Inner(cfg, s, t, i, r, seen, serial) {
      GroupStepKeepsCore(cfg, s.groups[i], Worker(i, r), r, seen, serial, s.shutdown, s.shutOwner);
    }
  }

  lemma {:induction false} BoundsAlong(cfg: Config, run: seq<System>, k: nat, i: nat)
    requires cfg.inversions >= 0 && IsRun(Rel(cfg), run) && run[0] == Init(cfg) && k < |run| && i < cfg.ngroups
    ensures Bounded(cfg, run[k], i)
    ensures (forall j :: 0 <= j < k ==> OwnRaise(cfg, run[j], run[j + 1], i)) ==> NotEarly(cfg, run[k], i)
  {
    if k == 0 {
      StartsWithinBounds(cfg, run[0], i);
    } else {
      BoundsAlong(cfg, run, k - 1, i);
      BoundsInRun(cfg, run, k - 1, i);
      assert (forall j :: 0 <= j < k ==> OwnRaise(cfg, run[j], run[j + 1], i)) ==>
          OwnRaise(cfg, run[k - 1], run[k - 1 + 1], i);
    }
  }

  /** A group told to do N inversions never does more than N + 1, whatever stale totals low and med read.  If only
      its own threads raise `shutdown`, it has done exactly N + 1 when high leaves, with any number of other groups
      and with or without a duration. */
  lemma BoundedGroups(cfg: Config, run: seq<System>, k: nat, i: nat)
    requires cfg.inversions >= 0 && IsRun(Rel(cfg), run) && run[0] == Init(cfg) && k < |run| && i < cfg.ngroups
    ensures |run[k].groups| == cfg.ngroups && run[k].groups[i].total <= cfg.inversions + 1
    ensures (forall j :: 0 <= j < k ==> OwnRaise(cfg, run[j], run[j + 1], i)) && Leaving(run[k].groups[i].high) ==>
              run[k].groups[i].total == cfg.inversions + 1
  {
    ReachableInv(cfg, run, k);
    BoundsAlong(cfg, run, k, i);
    BoundsMean(run[k].groups[i], cfg.inversions, run[k].shutdown);
  }

  // ------------------------------------------------------------------ a bounded program ends

  lemma BoundedIters(g: Group, n: int, shutdown: bool)
    requires n >= 0 && WithinBound(g, n, shutdown)
    ensures g.iters <= n + 1
  {}

  /** With a bound of N inversions a group makes at most 120 + 111 * (N + 1) moves in any run, under any schedule. */
  lemma BoundedGroupMoves(cfg: Config, run: seq<System>, k: nat, i: nat)
    requires cfg.inversions >= 0 && IsRun(Rel(cfg), run) && run[0] == Init(cfg) && k < |run| && i < cfg.ngroups
    ensures Moves(run, i, k) <= 120 + (LAP + 1) * (cfg.inversions + 1)
  {
    MovesBoundedByIterations(cfg, run, i, 0, k);
    LapIsBounded(run[0].groups[i]);
    BoundsAlong(cfg, run, k, i);
    BoundedIters(run[k].groups[i], cfg.inversions, run[k].shutdown);
  }

  /** No worker of any group can take a step. */
  ghost predicate WorkersBlocked(s: System) {
    forall i: nat, r: Role :: i < |s.groups| ==> !Enabled(s.groups[i], r, s.shutOwner.None?)
  }

  ghost predicate AtTheEnd(s: System, i: nat)
    requires i < |s.groups|
  {
    s.shutdown && forall r: Role :: s.groups[i].At(r).DoneBW? || s.groups[i].At(r).Exited?
  }

  lemma BlockedMeansDone(s: System, i: nat)
    requires i < |s.groups| && GoesOn(s, i) && WorkersBlocked(s) && !s.main.MReady? && !MainHoldsShut(s.main)
    ensures AtTheEnd(s, i)
  {}

  /** So the only way in which it does not end is that nobody but main is scheduled: once no worker can step, and
      main is neither before all_threads_ready nor inside a section of shutdown_mtx, `shutdown` is set and every
      worker is at all_threads_done or past it.  That holds with or without a bound. */
  lemma BlockedOnlyAtTheEnd(cfg: Config, run: seq<System>, k: nat)
    requires IsRun(Rel(cfg), run) && run[0] == Init(cfg) && k < |run| && cfg.ngroups > 0
    requires WorkersBlocked(run[k]) && !run[k].main.MReady? && !MainHoldsShut(run[k].main)
    ensures run[k].shutdown && forall i: nat :: i < |run[k].groups| ==> AtTheEnd(run[k], i)
  {
    SameNumberOfGroups(cfg, run, k);
    forall i: nat | i < |run[k].groups| ensures AtTheEnd(run[k], i) {
      NoDeadlock(cfg, run, k, i);
      BlockedMeansDone(run[k], i);
    }
    assert AtTheEnd(run[k], 0);
  }
}
