/** What the watchdog check of pi_stress finds when a group has finished. */
module PiStressReporter {
  import opened Options
  import opened Runs
  import opened PiStress
  import opened PiStressGroup
  import opened PiStressSystem
  import opened PiStressProgress
  import opened PiStressShutdown

  // ------------------------------------------------------------------ one group

  /** If `loop` has fallen, and the threads have come round since and high is through with its statistics,
      then `watchdog` has been counted up. */
  predicate Counted(g: Group) {
    !g.loop && ZoneOf(g.low).Top? && !g.high.IncTotal? && !g.high.IncDog? ==> g.watchdog > 0
  }

  lemma MoveKeepsCounted(g: Group, h: Group, r: Role, pc: Pc, f: Flags, f': Flags)
    requires Counted(g) && ZoneOf(g.low) == ZoneOf(g.At(r)) && f.loop == g.loop
    requires LoopMove(g.At(r), f, pc, f') && Common(g.At(r)) && Common(pc)
    requires h == g.Go(r, pc).(loop := f'.loop, loopLocked := f'.loopLocked)
    ensures Counted(h)
  {}

  lemma FlagStepKeepsCounted(cfg: Config, g: Group, me: Who, r: Role, seen: nat, serial: Role,
                             shutdown: bool, shutOwner: Option<Who>)
    requires Core(g, shutdown) && Counted(g) && Common(g.At(r)) && !IsInversionPc(g.At(r))
    ensures Counted(GroupStep(cfg, g, me, r, seen, serial, shutdown, shutOwner).g)
  {
    var f := Flags(g.loop, g.loopLocked, shutdown, shutOwner);
    FlagStepLoopMove(cfg, g.At(r), f, me, seen);
    FlagStepShape(cfg, g.At(r), f, me, seen);
    var (pc, f') := FlagStep(cfg, g.At(r), f, me, seen);
    FlagStepEffect(cfg, g, me, r, seen, serial, shutdown, shutOwner);
    MoveKeepsCounted(g, GroupStep(cfg, g, me, r, seen, serial, shutdown, shutOwner).g, r, pc, f, f');
  }

  lemma LoopBarrierKeepsCounted(g: Group, r: Role, serial: Role)
    requires Counted(g) && g.At(r).LoopB? && ZoneOf(g.low).Top?
    ensures Counted(InversionStep(g, r, serial))
  {
    LoopShape(g, r, serial);
    if Last(g, r, LoopBW, 3) { LastMeansAll(g, r, LoopBW); }
  }

  /** The release of finish_barrier sends high to its statistics. */
  lemma FinishBarrierKeepsCounted(g: Group, r: Role, serial: Role)
    requires g.At(r).FinB? && ZoneOf(g.low).Active?
    ensures Counted(InversionStep(g, r, serial))
  {
    FinishShape(g, r, serial);
    if Last(g, r, FinBW, 3) { LastMeansAll(g, r, FinBW); }
  }

  lemma StartBarrierKeepsCounted(g: Group, r: Role, serial: Role)
    requires g.At(r).StartB? && ZoneOf(g.low).Serial?
    ensures Counted(InversionStep(g, r, serial))
  {
    if Last(g, r, StartBW, 3) { LastMeansAll(g, r, StartBW); }
  }

  lemma StatisticsKeepCounted(g: Group, serial: Role)
    requires g.high.IncTotal? || g.high.IncDog?
    ensures Counted(InversionStep(g, High, serial))
  {}

  lemma MiddleStepKeepsCounted(g: Group, r: Role, serial: Role, shutdown: bool)
    requires Core(g, shutdown) && Enabled(g, r, true)
    requires g.At(r).Lock? || g.At(r).Unlock? || g.At(r).LockedB? || g.At(r).ElevB?
    ensures Counted(InversionStep(g, r, serial))
  {
    MidIsCore(g, r, shutdown);
    MiddleStepKeepsMid(g, r, serial, shutdown);
  }

  lemma InversionStepKeepsCounted(g: Group, r: Role, serial: Role, shutdown: bool)
    requires Core(g, shutdown) && Counted(g) && Enabled(g, r, true) && IsInversionPc(g.At(r))
    ensures Counted(InversionStep(g, r, serial))
  {
    CoreFacts(g, r, shutdown);
    match g.At(r)
    case LoopB => LoopBarrierKeepsCounted(g, r, serial);
    case StartB => StartBarrierKeepsCounted(g, r, serial);
    case FinB => FinishBarrierKeepsCounted(g, r, serial);
    case IncTotal => StatisticsKeepCounted(g, serial);
    case IncDog => StatisticsKeepCounted(g, serial);
    case _ => MiddleStepKeepsCounted(g, r, serial, shutdown);
  }

  lemma SharedKeepsCounted(g: Group, h: Group, shutdown: bool)
    requires Core(g, shutdown) && Counted(g)
    requires (exists r, w :: Arrives(g, h, r, w)) || (exists w :: Released(g, h, w))
    ensures Counted(h)
  {
    if r, w :| Arrives(g, h, r, w) {
      assert g.At(r).Ready? ==> g.loop;
    } else {
      var w :| Released(g, h, w);
      assert w.ReadyW? ==> g.low.ReadyW?;
    }
  }

  // ------------------------------------------------------------------ the reporter on its way to a group

  /** Main has seen `shutdown` unset and will look at the counter of group i, which it has cleared before. */
  predicate BoundToCheck(pc: MainPc, i: nat) {
    || pc.RGo? || pc.RSleep? || pc.PLock? || pc.PRead? || pc.PUnlock? || pc.Timer?
    || (pc.Watch? && pc.next <= i)
  }

  ghost predicate Covered(s: System, i: nat) {
    i < |s.groups| && (BoundToCheck(s.main, i) ==> Counted(s.groups[i]))
  }

  /** Only a main that has just seen `shutdown` unset sets out for a check. */
  lemma SetsOutBeforeShutdown(cfg: Config, s: System, t: System, i: nat)
    requires Next(cfg, s, t) && BoundToCheck(t.main, i)
    ensures BoundToCheck(s.main, i) || !t.shutdown
  {
    if j: nat, r: Role, seen: nat, serial: Role :| WorkerNext(cfg, s, t, j, r, seen, serial) {
      WorkerLeavesMain(cfg, s, t, j, r, seen, serial);
    } else {
      var expired :| MainNext(cfg, s, t, expired);
      MainSetsOut(cfg, s, expired, i);
    }
  }

  lemma MainSetsOut(cfg: Config, s: System, expired: bool, i: nat)
    requires MainEnabled(s)
    ensures var t := MainStep(cfg, s, expired); BoundToCheck(t.main, i) ==> BoundToCheck(s.main, i) || !t.shutdown
  {}

  lemma InnerKeepsCounted(cfg: Config, s: System, t: System, i: nat, r: Role, seen: nat, serial: Role)
    requires i < |s.groups| == |t.groups| && Core(s.groups[i], s.shutdown) && Counted(s.groups[i])
    requires Inner(cfg, s, t, i, r, seen, serial)
    ensures Counted(t.groups[i])
  {
    var g := s.groups[i];
    if IsInversionPc(g.At(r)) {
      InversionStepKeepsCounted(g, r, serial, s.shutdown);
    } else {
      CanFlagStep(g, r, s.shutOwner.None?);
      FlagStepKeepsCounted(cfg, g, Worker(i, r), r, seen, serial, s.shutdown, s.shutOwner);
    }
  }

  lemma StepKeepsCounted(cfg: Config, s: System, t: System, i: nat)
    requires StepOnGroup(cfg, s, t, i) && Core(s.groups[i], s.shutdown) && Counted(s.groups[i]) && !s.main.Clear?
    ensures Counted(t.groups[i])
  {
    if r, seen, serial :| Inner(cfg, s, t, i, r, seen, serial) {
      InnerKeepsCounted(cfg, s, t, i, r, seen, serial);
    } else if !Elsewhere(s, t, i) {
      SharedKeepsCounted(s.groups[i], t.groups[i], s.shutdown);
    }
  }

  lemma NotYetFallen(g: Group)
    requires Core(g, false)
    ensures Counted(g)
  {}

  lemma StepKeepsCovered(cfg: Config, s: System, t: System, i: nat)
    requires Inv(cfg, s) && Next(cfg, s, t) && Covered(s, i)
    ensures Covered(t, i)
  {
    NextOnGroup(cfg, s, t, i);
    if BoundToCheck(t.main, i) {
      SetsOutBeforeShutdown(cfg, s, t, i);
      if BoundToCheck(s.main, i) {
        StepKeepsCounted(cfg, s, t, i);
      } else {
        StepKeepsInv(cfg, s, t);
        NotYetFallen(t.groups[i]);
      }
    }
  }

  lemma CoveredNext(cfg: Config, run: seq<System>, i: nat, k: nat)
    requires IsRun(Rel(cfg), run) && k + 1 < |run| && Inv(cfg, run[0])
    ensures Covered(run[k], i) ==> Covered(run[k + 1], i)
  {
    InvAlong(cfg, run, k);
    ConsecutiveStates(cfg, run, k);
    if Covered(run[k], i) { StepKeepsCovered(cfg, run[k], run[k + 1], i); }
  }

  lemma {:induction false} CoveredAlong(cfg: Config, run: seq<System>, i: nat, k: nat)
    requires IsRun(Rel(cfg), run) && k < |run| && Inv(cfg, run[0]) && Covered(run[0], i)
    ensures Covered(run[k], i)
  {
    if k > 0 {
      CoveredAlong(cfg, run, i, k - 1);
      CoveredNext(cfg, run, i, k - 1);
    }
  }

  lemma StartsCovered(cfg: Config, s: System, i: nat)
    requires s == Init(cfg) && i < cfg.ngroups
    ensures Inv(cfg, s) && Covered(s, i)
  {
    InitInv(cfg);
  }

  lemma CheckFindsCounted(s: System, i: nat)
    requires GroupsOk(s) && Covered(s, i) && s.main == Watch(i) && Leaving(s.groups[i].high)
    ensures s.groups[i].watchdog > 0
  {
    assert Core(s.groups[i], s.shutdown);
  }

  /** When the watchdog check comes to a group of which high has left its loop, it finds `watchdog` above 0, so it
      neither compares the totals nor counts a hit: a finished group is never taken for a deadlocked one. */
  lemma FinishedGroupNotIdle(cfg: Config, run: seq<System>, k: nat, i: nat)
    requires IsRun(Rel(cfg), run) && run[0] == Init(cfg) && k < |run| && i < |run[k].groups|
    requires run[k].main == Watch(i) && Leaving(run[k].groups[i].high)
    ensures run[k].groups[i].watchdog > 0
  {
    ReachableInv(cfg, run, k);
    StartsCovered(cfg, run[0], i);
    CoveredAlong(cfg, run, i, k);
    CheckFindsCounted(run[k], i);
  }

  // ------------------------------------------------------------------ how often it comes to a finished group

  /** The watchdog check looks at group i. */
  predicate LooksAt(s: System, t: System, i: nat) { s.main == Watch(i) && t.main == Watch(i + 1) }

  ghost function Looks(run: seq<System>, i: nat, j: nat, k: nat): nat
    requires j <= k < |run|
    decreases k
  {
    if j == k then 0 else Looks(run, i, j, k - 1) + if LooksAt(run[k - 1], run[k], i) then 1 else 0
  }

  /** `shutdown` stays, and a look at group i uses up the one that main was bound for. */
  ghost predicate Winds(s: System, t: System, i: nat) {
    s.shutdown ==>
      && t.shutdown && (BoundToCheck(t.main, i) ==> BoundToCheck(s.main, i))
      && (LooksAt(s, t, i) ==> !BoundToCheck(t.main, i))
  }

  lemma StepWinds(cfg: Config, run: seq<System>, k: nat, i: nat)
    requires IsRun(Rel(cfg), run) && run[0] == Init(cfg) && k + 1 < |run|
    ensures Winds(run[k], run[k + 1], i)
  {
    if run[k].shutdown {
      ConsecutiveStates(cfg, run, k);
      ReachableInv(cfg, run, k);
      StepShutsDown(cfg, run[k], run[k + 1]);
      if BoundToCheck(run[k + 1].main, i) { SetsOutBeforeShutdown(cfg, run[k], run[k + 1], i); }
    }
  }

  lemma {:induction false} LooksAfterShutdown(run: seq<System>, i: nat, j: nat, k: nat)
    requires j <= k < |run| && run[j].shutdown
    requires forall n :: j <= n < k ==> Winds(run[n], run[n + 1], i)
    ensures run[k].shutdown
    ensures Looks(run, i, j, k) + (if BoundToCheck(run[k].main, i) then 1 else 0) <= 1
    decreases k
  {
    if j < k {
      LooksAfterShutdown(run, i, j, k - 1);
      assert Winds(run[k - 1], run[k - 1 + 1], i);
    }
  }

  /** Once high of some group has left its loop, the watchdog check looks at each group once more at most. */
  lemma FinishedGroupSeenOnce(cfg: Config, run: seq<System>, i: nat, j: nat, k: nat, l: nat)
    requires IsRun(Rel(cfg), run) && run[0] == Init(cfg) && j <= k < |run| && l < |run[j].groups|
    requires Leaving(run[j].groups[l].high)
    ensures Looks(run, i, j, k) <= 1
  {
    ReachableInv(cfg, run, j);
    EndsAfterShutdown(run[j].groups[l], High, run[j].shutdown);
    forall n | j <= n < k ensures Winds(run[n], run[n + 1], i) {
      StepWinds(cfg, run, n, i);
    }
    LooksAfterShutdown(run, i, j, k);
  }
}
