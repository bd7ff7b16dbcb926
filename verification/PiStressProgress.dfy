/** Progress in pi_stress under every schedule: no group deadlocks, whether or not main's reporter keeps running,
    and a group completes an iteration within a fixed number of its own steps. */
module PiStressProgress {
  import opened Options
  import opened Runs
  import opened Sums
  import opened PiStress
  import opened PiStressGroup
  import opened PiStressSystem

  // ------------------------------------------------------------------ deadlock freedom

  ghost predicate SomeEnabled(s: System, i: nat)
    requires i < |s.groups|
  {
    exists r: Role :: Enabled(s.groups[i], r, s.shutOwner.None?)
  }

  /** shutdown_mtx is taken, and the thread inside its critical section can take its next step there. */
  ghost predicate OwnerCanMove(s: System) {
    match s.shutOwner
    case None => false
    case Some(Main) => MainHoldsShut(s.main) && MainEnabled(s)
    case Some(Worker(j, q)) => j < |s.groups| && HoldsShut(s.groups[j].At(q)) && Enabled(s.groups[j], q, false)
  }

  /** Group i can go on; or all that keeps it is shutdown_mtx, whose owner can go on; or all its threads wait for
      the start, which main or some other group has not reached and can; or all have finished, after `shutdown`. */
  ghost predicate GoesOn(s: System, i: nat)
    requires i < |s.groups|
  {
    var g := s.groups[i];
    || SomeEnabled(s, i)
    || (OwnerCanMove(s) && exists r: Role :: Enabled(g, r, true))
    || (g.Waiting(ReadyW) == 3 && (s.main.MReady? || exists j: nat :: j < |s.groups| && SomeEnabled(s, j)))
    || (s.shutdown && forall r: Role :: g.At(r).DoneBW? || g.At(r).Exited?)
  }

  lemma OwnerMoves(s: System)
    requires GroupsOk(s) && OwnerOk(s) && s.shutOwner.Some?
    ensures OwnerCanMove(s)
  {
    if s.shutOwner.value.Worker? {
      var j, q := s.shutOwner.value.group, s.shutOwner.value.role;
      HolderCanMove(s.groups[j], q, s.shutdown, false);
    }
  }

  lemma AllWaitAtShared(g: Group, w: Pc, shutdown: bool)
    requires Core(g, shutdown) && NoneGone(g) && forall r: Role :: !Enabled(g, r, true)
    requires if ZoneOf(g.low).Boot? then w.ReadyW? else w.DoneBW?
    ensures g.Waiting(w) == 3
  {
    OnlySharedBarriersBlock(g, shutdown);
    if g.Waiting(ReadyW) != 3 {
      assert g.At(Low).DoneBW? && g.At(Med).DoneBW? && g.At(High).DoneBW?;
    }
  }

  /** If main and shutdown_mtx do not let anybody go on, some worker can. */
  lemma SomebodyCanMove(cfg: Config, s: System)
    requires Inv(cfg, s) && !MainEnabled(s) && !s.main.XExited? && s.shutOwner.None?
    ensures exists i: nat, r: Role :: i < |s.groups| && Enabled(s.groups[i], r, true)
  {
    if forall i: nat, r: Role :: i < |s.groups| ==> !Enabled(s.groups[i], r, true) {
      var w := if s.main.MReadyW? then ReadyW else DoneBW;
      forall i | 0 <= i < |s.groups| ensures AtBarrier(w)(s.groups[i]) == 3 {
        AllWaitAtShared(s.groups[i], w, s.shutdown);
      }
      SumByAtMost(AtBarrier(w), s.groups, 3);
      assert false;
    }
  }

  /** Before the start nobody is inside a section of shutdown_mtx. */
  lemma NoOwnerBeforeStart(cfg: Config, s: System, i: nat)
    requires Base(cfg, s) && i < |s.groups| && ZoneOf(s.groups[i].low).Boot?
    ensures MainBooting(s.main) && s.shutOwner.None?
  {
    if s.shutOwner.Some? && s.shutOwner.value.Worker? {
      var j, q := s.shutOwner.value.group, s.shutOwner.value.role;
      assert Core(s.groups[j], s.shutdown) && ZoneOf(s.groups[j].low).Boot?;
      BootHoldsNothing(s.groups[j], q, s.shutdown);
    }
  }

  lemma BootHoldsNothing(g: Group, r: Role, shutdown: bool)
    requires Core(g, shutdown) && ZoneOf(g.low).Boot?
    ensures !HoldsShut(g.At(r))
  {}

  lemma WaitingGroupGoesOn(cfg: Config, s: System, i: nat)
    requires Inv(cfg, s) && i < |s.groups| && s.groups[i].Waiting(ReadyW) == 3
    ensures GoesOn(s, i)
  {
    assert s.groups[i].low.ReadyW?;
    NoOwnerBeforeStart(cfg, s, i);
    if !s.main.MReady? {
      SomebodyCanMove(cfg, s);
      var j: nat, r: Role :| j < |s.groups| && Enabled(s.groups[j], r, true);
      assert SomeEnabled(s, j);
    }
  }

  lemma EndsAfterShutdown(g: Group, r: Role, shutdown: bool)
    requires Core(g, shutdown) && Leaving(g.At(r))
    ensures shutdown
  {}

  lemma GroupGoesOn(cfg: Config, s: System, i: nat)
    requires Inv(cfg, s) && i < |s.groups|
    ensures GoesOn(s, i)
  {
    var g := s.groups[i];
    if r: Role :| Enabled(g, r, true) {
      if s.shutOwner.None? { assert SomeEnabled(s, i); } else { OwnerMoves(s); }
    } else {
      OnlySharedBarriersBlock(g, s.shutdown);
      if g.Waiting(ReadyW) == 3 {
        WaitingGroupGoesOn(cfg, s, i);
      } else {
        EndsAfterShutdown(g, Low, s.shutdown);
      }
    }
  }

  /** In every state of every run no group is deadlocked.  What main's reporter could do does not count. */
  lemma NoDeadlock(cfg: Config, run: seq<System>, k: nat, i: nat)
    requires IsRun(Rel(cfg), run) && run[0] == Init(cfg) && k < |run| && i < |run[k].groups|
    ensures GoesOn(run[k], i)
  {
    ReachableInv(cfg, run, k);
    GroupGoesOn(cfg, run[k], i);
  }

  // ------------------------------------------------------------------ the program as a whole

  ghost predicate Finished(s: System) {
    s.main.XExited? && forall i :: 0 <= i < |s.groups| ==> AllGone(s.groups[i])
  }

  /** A worker that can go on when main cannot: the owner of shutdown_mtx, or, if it is free, anybody. */
  lemma Mover(cfg: Config, s: System) returns (i: nat, r: Role)
    requires Inv(cfg, s) && !Finished(s) && !MainEnabled(s)
    ensures i < |s.groups| && Enabled(s.groups[i], r, s.shutOwner.None?)
  {
    if s.shutOwner.None? {
      SomebodyCanMove(cfg, s);
      i, r :| i < |s.groups| && Enabled(s.groups[i], r, true);
    } else {
      OwnerMoves(s);
      i, r := s.shutOwner.value.group, s.shutOwner.value.role;
    }
  }

  lemma NotStuck(cfg: Config, s: System)
    requires Inv(cfg, s) && !Finished(s)
    ensures exists t :: Next(cfg, s, t)
  {
    if MainEnabled(s) {
      assert MainNext(cfg, s, MainStep(cfg, s, false), false);
      assert Next(cfg, s, MainStep(cfg, s, false));
    } else {
      var i, r := Mover(cfg, s);
      var seen := s.groups[i].total;
      assert WorkerNext(cfg, s, WorkerStep(cfg, s, i, r, seen, Low), i, r, seen, Low);
      assert Next(cfg, s, WorkerStep(cfg, s, i, r, seen, Low));
    }
  }

  // ------------------------------------------------------------------ what one step does to one group

  /** A thread of group i takes a step that concerns no barrier shared by the groups. */
  ghost predicate Inner(cfg: Config, s: System, t: System, i: nat, r: Role, seen: nat, serial: Role)
    requires i < |s.groups| == |t.groups|
  {
    var g := s.groups[i];
    && Enabled(g, r, s.shutOwner.None?) && g.At(r) != Ready && g.At(r) != DoneB
    && seen <= g.total && (r == High ==> seen == g.total)
    && var e := GroupStep(cfg, g, Worker(i, r), r, seen, serial, s.shutdown, s.shutOwner);
       t.groups[i] == e.g && t.shutdown == e.shutdown
  }

  predicate Joins(g: Group, h: Group, r: Role, w: Pc) {
    ((g.At(r).Ready? && w.ReadyW?) || (g.At(r).DoneB? && w.DoneBW?)) && h == g.Go(r, w)
  }

  predicate Released(g: Group, h: Group, w: Pc) {
    (w.ReadyW? || w.DoneBW?) && g.Waiting(w) == 3 && h == g.Release(w, Low)
  }

  /** One of its threads arrives at a shared barrier, perhaps as the last of all. */
  predicate Arrives(g: Group, h: Group, r: Role, w: Pc) {
    Joins(g, g.Go(r, w), r, w) && (h == g.Go(r, w) || Released(g.Go(r, w), h, w))
  }

  ghost predicate Elsewhere(s: System, t: System, i: nat)
    requires i < |s.groups| == |t.groups|
  {
    || (t.groups[i] == s.groups[i] && (s.shutdown ==> t.shutdown))
    || (t.groups[i] == s.groups[i].(watchdog := 0) && t.shutdown == s.shutdown
        && s.main == Clear(i) && t.main == Clear(i + 1))
  }

  ghost predicate StepOnGroup(cfg: Config, s: System, t: System, i: nat) {
    && i < |s.groups| == |t.groups|
    && (|| (exists r, seen, serial :: Inner(cfg, s, t, i, r, seen, serial))
        || (t.shutdown == s.shutdown && exists r, w :: Arrives(s.groups[i], t.groups[i], r, w))
        || (t.shutdown == s.shutdown && exists w :: Released(s.groups[i], t.groups[i], w))
        || Elsewhere(s, t, i))
  }

  /** Nothing happens to group i at a shared barrier unless the barrier lets everybody go. */
  ghost predicate LetGo(s: System, t: System, i: nat, w: Pc)
    requires i < |s.groups| == |t.groups|
  {
    t.shutdown == s.shutdown && (t.groups[i] == s.groups[i] || Released(s.groups[i], t.groups[i], w))
  }

  lemma ReadyArrivalOnGroup(cfg: Config, s: System, i: nat)
    requires Base(cfg, s) && ReadyCount(s, 1) && i < |s.groups|
    ensures var t := ArriveReady(cfg, s); |t.groups| == |s.groups| && LetGo(s, t, i, ReadyW)
  {
    if s.readyN + 1 == Parties(cfg) { AllWaiting(cfg, s, ReadyW, s.main.MReadyW?); }
  }

  lemma DoneArrivalOnGroup(cfg: Config, s: System, i: nat)
    requires Base(cfg, s) && DoneCount(s, 1) && i < |s.groups|
    ensures var t := ArriveDone(cfg, s); |t.groups| == |s.groups| && LetGo(s, t, i, DoneBW)
  {
    if s.doneN + 1 == Parties(cfg) { AllWaiting(cfg, s, DoneBW, s.main.XDoneW?); }
  }

  lemma SharedStepOnGroup(cfg: Config, s: System, j: nat, r: Role, seen: nat, serial: Role, i: nat)
    requires Inv(cfg, s) && j < |s.groups| && i < |s.groups|
    requires s.groups[j].At(r) == Ready || s.groups[j].At(r) == DoneB
    ensures StepOnGroup(cfg, s, WorkerStep(cfg, s, j, r, seen, serial), i)
  {
    var g := s.groups[j];
    var w := if g.At(r) == Ready then ReadyW else DoneBW;
    var u := s.(groups := s.groups[j := g.Go(r, w)]);
    var t := WorkerStep(cfg, s, j, r, seen, serial);
    SharedJoinKeepsBase(cfg, s, j, r, w);
    if g.At(r) == Ready { ReadyArrivalOnGroup(cfg, u, i); } else { DoneArrivalOnGroup(cfg, u, i); }
    LetGoAfterJoin(cfg, s, u, t, j, r, w, i);
  }

  lemma LetGoAfterJoin(cfg: Config, s: System, u: System, t: System, j: nat, r: Role, w: Pc, i: nat)
    requires j < |s.groups| && Joins(s.groups[j], s.groups[j].Go(r, w), r, w)
    requires u == s.(groups := s.groups[j := s.groups[j].Go(r, w)])
    requires i < |s.groups| == |t.groups| && LetGo(u, t, i, w)
    ensures StepOnGroup(cfg, s, t, i)
  {
    if i == j {
      assert Arrives(s.groups[i], t.groups[i], r, w);
    }
  }

  lemma InnerStepOnGroup(cfg: Config, s: System, j: nat, r: Role, seen: nat, serial: Role, i: nat)
    requires GroupsOk(s) && j < |s.groups| && i < |s.groups| && Enabled(s.groups[j], r, s.shutOwner.None?)
    requires seen <= s.groups[j].total && (r == High ==> seen == s.groups[j].total)
    requires s.groups[j].At(r) != Ready && s.groups[j].At(r) != DoneB
    ensures StepOnGroup(cfg, s, WorkerStep(cfg, s, j, r, seen, serial), i)
  {
    GroupStepKeepsCore(cfg, s.groups[j], Worker(j, r), r, seen, serial, s.shutdown, s.shutOwner);
    var t := WorkerStep(cfg, s, j, r, seen, serial);
    if i == j {
      assert Inner(cfg, s, t, i, r, seen, serial);
    } else {
      assert Elsewhere(s, t, i);
    }
  }

  lemma MainArrivalOnGroup(cfg: Config, s: System, expired: bool, i: nat)
    requires Inv(cfg, s) && (s.main.MReady? || s.main.XDone?) && i < |s.groups|
    ensures var t := MainStep(cfg, s, expired);
      |t.groups| == |s.groups| && LetGo(s, t, i, if s.main.MReady? then ReadyW else DoneBW)
  {
    MainArrives(cfg, s, expired);
    if s.main.MReady? {
      MainJoinKeepsBase(cfg, s, MReadyW);
      ReadyArrivalOnGroup(cfg, s.(main := MReadyW), i);
    } else {
      MainJoinKeepsBase(cfg, s, XDoneW);
      DoneArrivalOnGroup(cfg, s.(main := XDoneW), i);
    }
  }

  lemma MainStepOnGroup(cfg: Config, s: System, expired: bool, i: nat)
    requires Inv(cfg, s) && MainEnabled(s) && i < |s.groups|
    ensures StepOnGroup(cfg, s, MainStep(cfg, s, expired), i)
  {
    if s.main.MReady? || s.main.XDone? {
      MainArrivalOnGroup(cfg, s, expired, i);
      LetGoIsStep(cfg, s, MainStep(cfg, s, expired), i, if s.main.MReady? then ReadyW else DoneBW);
    } else {
      MainAloneOnGroup(cfg, s, expired, i);
    }
  }

  lemma LetGoIsStep(cfg: Config, s: System, t: System, i: nat, w: Pc)
    requires i < |s.groups| == |t.groups| && LetGo(s, t, i, w)
    ensures StepOnGroup(cfg, s, t, i)
  {
    if t.groups[i] == s.groups[i] { assert Elsewhere(s, t, i); }
  }

  lemma MainAloneOnGroup(cfg: Config, s: System, expired: bool, i: nat)
    requires MainOk(cfg, s) && (MainHoldsShut(s.main) <==> s.shutOwner == Some(Main))
    requires MainEnabled(s) && i < |s.groups| && !s.main.MReady? && !s.main.XDone?
    ensures var t := MainStep(cfg, s, expired); |t.groups| == |s.groups| && Elsewhere(s, t, i)
  {
    if !Clears(s) { MainStepShape(cfg, s, expired); }
  }

  /** A worker's step moves main at most out of a barrier. */
  lemma WorkerLeavesMain(cfg: Config, s: System, t: System, j: nat, r: Role, seen: nat, serial: Role)
    requires WorkerNext(cfg, s, t, j, r, seen, serial)
    ensures t.main == s.main || (s.main.MReadyW? && t.main.RFirstSleep?) || (s.main.XDoneW? && t.main.XExited?)
  {}

  lemma NextOnGroup(cfg: Config, s: System, t: System, i: nat)
    requires Inv(cfg, s) && Next(cfg, s, t) && i < |s.groups|
    ensures StepOnGroup(cfg, s, t, i)
  {
    if j: nat, r: Role, seen: nat, serial: Role :| WorkerNext(cfg, s, t, j, r, seen, serial) {
      if s.groups[j].At(r) == Ready || s.groups[j].At(r) == DoneB {
        SharedStepOnGroup(cfg, s, j, r, seen, serial, i);
      } else {
        InnerStepOnGroup(cfg, s, j, r, seen, serial, i);
      }
    } else {
      var expired :| MainNext(cfg, s, t, expired);
      MainStepOnGroup(cfg, s, expired, i);
    }
  }

  // ------------------------------------------------------------------ when `loop` may change

  lemma FlagStepFixesLoop(cfg: Config, pc: Pc, f: Flags, me: Who, seen: nat)
    requires !IsSer(pc)
    ensures FlagStep(cfg, pc, f, me, seen).1.loop == f.loop
  {}

  lemma InversionStepFixesLoop(g: Group, r: Role, serial: Role)
    ensures InversionStep(g, r, serial).loop == g.loop
  {}

  lemma GroupStepFixesLoop(cfg: Config, g: Group, me: Who, r: Role, seen: nat, serial: Role,
                           shutdown: bool, shutOwner: Option<Who>)
    requires !IsSer(g.At(r))
    ensures GroupStep(cfg, g, me, r, seen, serial, shutdown, shutOwner).g.loop == g.loop
  {
    if IsInversionPc(g.At(r)) {
      InversionStepFixesLoop(g, r, serial);
    } else {
      FlagStepFixesLoop(cfg, g.At(r), Flags(g.loop, g.loopLocked, shutdown, shutOwner), me, seen);
    }
  }

  lemma NoSerialAtTop(g: Group, q: Role, r: Role, shutdown: bool)
    requires Core(g, shutdown) && ZoneOf(g.At(q)).Top?
    ensures !IsSer(g.At(r))
  {}

  /** `loop` does not change while any thread of the group is between finish_barrier and loop_barr. */
  lemma LoopFixedAtTop(cfg: Config, run: seq<System>, k: nat, i: nat, q: Role)
    requires IsRun(Rel(cfg), run) && run[0] == Init(cfg) && k + 1 < |run| && i < |run[k].groups|
    requires ZoneOf(run[k].groups[i].At(q)).Top?
    ensures i < |run[k + 1].groups| && run[k + 1].groups[i].loop == run[k].groups[i].loop
  {
    ReachableInv(cfg, run, k);
    ConsecutiveStates(cfg, run, k);
    NextOnGroup(cfg, run[k], run[k + 1], i);
    NextFixesLoopAtTop(cfg, run[k], run[k + 1], i, q);
  }

  lemma SharedFixesLoop(g: Group, h: Group)
    requires (exists r, w :: Arrives(g, h, r, w)) || (exists w :: Released(g, h, w))
    ensures h.loop == g.loop
  {}

  lemma InnerFixesLoopAtTop(cfg: Config, s: System, t: System, i: nat, q: Role, r: Role, seen: nat, serial: Role)
    requires i < |s.groups| == |t.groups| && Core(s.groups[i], s.shutdown) && ZoneOf(s.groups[i].At(q)).Top?
    requires Inner(cfg, s, t, i, r, seen, serial)
    ensures t.groups[i].loop == s.groups[i].loop
  {
    NoSerialAtTop(s.groups[i], q, r, s.shutdown);
    GroupStepFixesLoop(cfg, s.groups[i], Worker(i, r), r, seen, serial, s.shutdown, s.shutOwner);
  }

  lemma NextFixesLoopAtTop(cfg: Config, s: System, t: System, i: nat, q: Role)
    requires Inv(cfg, s) && StepOnGroup(cfg, s, t, i) && ZoneOf(s.groups[i].At(q)).Top?
    ensures t.groups[i].loop == s.groups[i].loop
  {
    if r, seen, serial :| Inner(cfg, s, t, i, r, seen, serial) {
      InnerFixesLoopAtTop(cfg, s, t, i, q, r, seen, serial);
    } else if !Elsewhere(s, t, i) {
      SharedFixesLoop(s.groups[i], t.groups[i]);
    }
  }

  // ------------------------------------------------------------------ steps of a group between two iterations

  predicate SamePlaces(g: Group, h: Group) { h.low == g.low && h.med == g.med && h.high == g.high }

  /** In one step of the program a group stands still or goes onward. */
  lemma NextStandsOrOnward(cfg: Config, s: System, t: System, i: nat)
    requires Inv(cfg, s) && Next(cfg, s, t) && i < |s.groups|
    ensures i < |t.groups|
    ensures var g, h := s.groups[i], t.groups[i]; (SamePlaces(g, h) && h.iters == g.iters) || Onward(h, g)
  {
    NextOnGroup(cfg, s, t, i);
    var g, h := s.groups[i], t.groups[i];
    if r, seen, serial :| Inner(cfg, s, t, i, r, seen, serial) {
      GroupStepOnward(cfg, g, Worker(i, r), r, seen, serial, s.shutdown, s.shutOwner);
    } else if r, w :| Arrives(g, h, r, w) {
      ArrivalOnward(g, h, r, w, s.shutdown);
    } else if w :| Released(g, h, w) {
      SharedReleaseShutsDown(g, w, s.shutdown);
    }
  }

  lemma ArrivalOnward(g: Group, h: Group, r: Role, w: Pc, shutdown: bool)
    requires Core(g, shutdown) && Arrives(g, h, r, w)
    ensures Onward(h, g)
  {
    SharedBarrierShutsDown(g, r, w);
    if h != g.Go(r, w) {
      JoinSharedBarrier(g, r, w, shutdown);
      SharedReleaseShutsDown(g.Go(r, w), w, shutdown);
    }
  }

  /** A thread of group i moved. */
  predicate Moved(s: System, t: System, i: nat) {
    i < |s.groups| && i < |t.groups| && !SamePlaces(s.groups[i], t.groups[i])
  }

  /** The steps among the first `k` in which a thread of group i moved. */
  ghost function Moves(run: seq<System>, i: nat, k: nat): nat
    requires k < |run|
  {
    if k == 0 then 0 else Moves(run, i, k - 1) + if Moved(run[k - 1], run[k], i) then 1 else 0
  }

  /** What the group has moved, set against its way round the loop. */
  ghost function Balance(run: seq<System>, i: nat, k: nat): int {
    if k < |run| && i < |run[k].groups| then
      var g := run[k].groups[i];
      Moves(run, i, k) + Lap(g) - (LAP + 1) * g.iters
    else 0
  }

  ghost function Iters(run: seq<System>, i: nat, k: nat): nat {
    if k < |run| && i < |run[k].groups| then run[k].groups[i].iters else 0
  }

  lemma BalanceFalls(cfg: Config, run: seq<System>, i: nat, k: nat)
    requires IsRun(Rel(cfg), run) && run[0] == Init(cfg) && k + 1 < |run| && i < cfg.ngroups
    ensures Balance(run, i, k + 1) <= Balance(run, i, k) && Iters(run, i, k) <= Iters(run, i, k + 1)
  {
    ReachableInv(cfg, run, k);
    ConsecutiveStates(cfg, run, k);
    NextStandsOrOnward(cfg, run[k], run[k + 1], i);
  }

  ghost predicate BalanceFallsAt(run: seq<System>, i: nat, n: nat) {
    Balance(run, i, n + 1) <= Balance(run, i, n) && Iters(run, i, n) <= Iters(run, i, n + 1)
  }

  lemma {:induction false} BalanceAlong(run: seq<System>, i: nat, j: nat, k: nat)
    requires j <= k && forall n: nat :: j <= n < k ==> BalanceFallsAt(run, i, n)
    ensures Balance(run, i, k) <= Balance(run, i, j) && Iters(run, i, j) <= Iters(run, i, k)
  {
    if j < k {
      BalanceAlong(run, i, j, k - 1);
      assert BalanceFallsAt(run, i, k - 1);
    }
  }

  lemma SameNumberOfGroups(cfg: Config, run: seq<System>, k: nat)
    requires IsRun(Rel(cfg), run) && run[0] == Init(cfg) && k < |run|
    ensures |run[k].groups| == cfg.ngroups
  {
    ReachableInv(cfg, run, k);
  }

  /** With or without `shutdown`, a group makes at most LAP + 1 moves for each iteration it completes, apart from
      those of the iteration in which it is. */
  lemma MovesBoundedByIterations(cfg: Config, run: seq<System>, i: nat, j: nat, k: nat)
    requires IsRun(Rel(cfg), run) && run[0] == Init(cfg) && j <= k < |run| && i < cfg.ngroups
    ensures |run[j].groups| == |run[k].groups| == cfg.ngroups
    ensures var g, h := run[j].groups[i], run[k].groups[i];
      && g.iters <= h.iters
      && Moves(run, i, k) - Moves(run, i, j) + Lap(h) <= Lap(g) + (LAP + 1) * (h.iters - g.iters)
  {
    SameNumberOfGroups(cfg, run, j);
    SameNumberOfGroups(cfg, run, k);
    forall n: nat | j <= n < k ensures BalanceFallsAt(run, i, n) {
      BalanceFalls(cfg, run, i, n);
    }
    BalanceAlong(run, i, j, k);
  }

  lemma LapIsBounded(g: Group)
    ensures Lap(g) <= 3 * 40
  {}

  /** So after 120 moves it has completed an iteration. */
  lemma IterationWithinMoves(cfg: Config, run: seq<System>, i: nat, j: nat, k: nat)
    requires IsRun(Rel(cfg), run) && run[0] == Init(cfg) && j <= k < |run| && i < cfg.ngroups
    ensures |run[j].groups| == |run[k].groups| == cfg.ngroups
    ensures Moves(run, i, k) > Moves(run, i, j) + 120 ==> run[k].groups[i].iters > run[j].groups[i].iters
  {
    MovesBoundedByIterations(cfg, run, i, j, k);
    LapIsBounded(run[j].groups[i]);
  }

  lemma SharedStepMoves(cfg: Config, s: System, i: nat, r: Role, seen: nat, serial: Role)
    requires Inv(cfg, s) && i < |s.groups| && (s.groups[i].At(r) == Ready || s.groups[i].At(r) == DoneB)
    ensures Moved(s, WorkerStep(cfg, s, i, r, seen, serial), i)
  {
    var g := s.groups[i];
    var w := if g.At(r) == Ready then ReadyW else DoneBW;
    var u := s.(groups := s.groups[i := g.Go(r, w)]);
    SharedJoinKeepsBase(cfg, s, i, r, w);
    if g.At(r) == Ready { ReadyArrivalOnGroup(cfg, u, i); } else { DoneArrivalOnGroup(cfg, u, i); }
    var h := WorkerStep(cfg, s, i, r, seen, serial).groups[i];
    assert Arrives(g, h, r, w);
    ArrivalOnward(g, h, r, w, s.shutdown);
    OnwardMoves(g, h);
  }

  lemma OnwardMoves(g: Group, h: Group)
    requires Onward(h, g)
    ensures !SamePlaces(g, h)
  {}

  /** Every step of one of its threads is such a move. */
  lemma OwnStepMoves(cfg: Config, s: System, i: nat, r: Role, seen: nat, serial: Role)
    requires Inv(cfg, s) && i < |s.groups| && Enabled(s.groups[i], r, s.shutOwner.None?)
    ensures Moved(s, WorkerStep(cfg, s, i, r, seen, serial), i)
  {
    var g := s.groups[i];
    if g.At(r) == Ready || g.At(r) == DoneB {
      SharedStepMoves(cfg, s, i, r, seen, serial);
    } else {
      GroupStepOnward(cfg, g, Worker(i, r), r, seen, serial, s.shutdown, s.shutOwner);
      OnwardMoves(g, WorkerStep(cfg, s, i, r, seen, serial).groups[i]);
    }
  }
}
