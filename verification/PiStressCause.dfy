/** Why `shutdown` rises in pi_stress: a group has done its inversions, or the duration is over. */
module PiStressCause {
  import opened Options
  import opened Runs
  import opened PiStress
  import opened PiStressGroup
  import opened PiStressSystem
  import opened PiStressProgress
  import opened PiStressBounds

  // ------------------------------------------------------------------ one group

  /** The group was given a number of inversions and has done that many. */
  predicate Spent(cfg: Config, g: Group) { 0 <= cfg.inversions <= g.total }

  /** A thread that is about to raise `shutdown` at the top of its loop does so for that reason. */
  ghost predicate Asked(cfg: Config, g: Group) {
    forall r: Role :: AboutToShut(g.At(r)) ==> Spent(cfg, g)
  }

  lemma MoveKeepsAsked(cfg: Config, g: Group, h: Group, r: Role, pc: Pc)
    requires Asked(cfg, g) && h.total == g.total && h.low == g.Go(r, pc).low && h.med == g.Go(r, pc).med
    requires h.high == g.Go(r, pc).high && (AboutToShut(pc) ==> AboutToShut(g.At(r)) || Spent(cfg, g))
    ensures Asked(cfg, h)
  {
    forall q: Role | AboutToShut(h.At(q)) ensures Spent(cfg, h) {
      assert h.At(q) == if q == r then pc else g.At(q);
    }
  }

  lemma FlagStepAsks(cfg: Config, pc: Pc, f: Flags, me: Who, seen: nat)
    ensures AboutToShut(FlagStep(cfg, pc, f, me, seen).0) ==> AboutToShut(pc) || 0 <= cfg.inversions <= seen
  {}

  lemma FlagStepKeepsAsked(cfg: Config, g: Group, me: Who, r: Role, seen: nat, serial: Role,
                           shutdown: bool, shutOwner: Option<Who>)
    requires Asked(cfg, g) && !IsInversionPc(g.At(r)) && seen <= g.total
    ensures Asked(cfg, GroupStep(cfg, g, me, r, seen, serial, shutdown, shutOwner).g)
  {
    var f := Flags(g.loop, g.loopLocked, shutdown, shutOwner);
    FlagStepAsks(cfg, g.At(r), f, me, seen);
    FlagStepEffect(cfg, g, me, r, seen, serial, shutdown, shutOwner);
    MoveKeepsAsked(cfg, g, GroupStep(cfg, g, me, r, seen, serial, shutdown, shutOwner).g, r,
                   FlagStep(cfg, g.At(r), f, me, seen).0);
  }

  /** No thread is sent to raise `shutdown`, and the total does not fall. */
  ghost predicate NotSent(g: Group, h: Group) {
    h.total >= g.total && forall r: Role :: AboutToShut(h.At(r)) ==> AboutToShut(g.At(r))
  }

  lemma AfterBarrierNotSent(w: Pc, r: Role, serial: Role)
    requires !AboutToShut(w)
    ensures !AboutToShut(AfterBarrier(w, r, serial))
  {}

  lemma ReleaseNotSent(g: Group, w: Pc, serial: Role)
    requires !AboutToShut(w)
    ensures NotSent(g, g.Release(w, serial))
  {
    forall r: Role | AboutToShut(g.Release(w, serial).At(r)) ensures AboutToShut(g.At(r)) {
      AfterBarrierNotSent(w, r, serial);
      assert g.Release(w, serial).At(r) == if g.At(r) == w then AfterBarrier(w, r, serial) else g.At(r);
    }
  }

  lemma GoNotSent(g: Group, r: Role, w: Pc)
    requires !AboutToShut(w)
    ensures NotSent(g, g.Go(r, w))
  {
    forall q: Role | AboutToShut(g.Go(r, w).At(q)) ensures AboutToShut(g.At(q)) {
      assert g.Go(r, w).At(q) == if q == r then w else g.At(q);
    }
  }

  lemma ArriveNotSent(g: Group, r: Role, w: Pc, need: nat, serial: Role)
    requires !AboutToShut(w)
    ensures NotSent(g, g.Arrive(r, w, need, serial))
  {
    GoNotSent(g, r, w);
    ReleaseNotSent(g.Go(r, w), w, serial);
  }

  lemma SamePlacesNotSent(g: Group, h: Group, h': Group)
    requires NotSent(g, h) && SamePlaces(h, h') && h'.total == h.total
    ensures NotSent(g, h')
  {
    forall r: Role ensures h'.At(r) == h.At(r) { match r case Low => case Med => case High => }
  }

  lemma LoopStepNotSent(g: Group, r: Role, serial: Role)
    requires g.At(r).LoopB?
    ensures NotSent(g, InversionStep(g, r, serial))
  {
    ArriveNotSent(g, r, LoopBW, 3, serial);
    SamePlacesNotSent(g, g.Arrive(r, LoopBW, 3, serial), InversionStep(g, r, serial));
  }

  lemma FinishStepNotSent(g: Group, r: Role, serial: Role)
    requires g.At(r).FinB?
    ensures NotSent(g, InversionStep(g, r, serial))
  {
    ArriveNotSent(g, r, FinBW, 3, serial);
    SamePlacesNotSent(g, g.Arrive(r, FinBW, 3, serial), InversionStep(g, r, serial));
  }

  lemma BarrierStepNotSent(g: Group, r: Role, serial: Role)
    requires g.At(r).LoopB? || g.At(r).StartB? || g.At(r).LockedB? || g.At(r).ElevB? || g.At(r).FinB?
    ensures NotSent(g, InversionStep(g, r, serial))
  {
    match g.At(r)
    case LoopB => LoopStepNotSent(g, r, serial);
    case StartB => ArriveNotSent(g, r, StartBW, 3, serial);
    case LockedB => ArriveNotSent(g, r, LockedBW, 2, serial);
    case ElevB => ArriveNotSent(g, r, ElevBW, 2, serial);
    case FinB => FinishStepNotSent(g, r, serial);
  }

  lemma StatisticsNotSent(g: Group, r: Role, serial: Role)
    requires g.At(r).Lock? || g.At(r).Unlock? || g.At(r).IncTotal? || g.At(r).IncDog?
    ensures NotSent(g, InversionStep(g, r, serial))
  {
    var pc := InversionStep(g, r, serial).At(r);
    GoNotSent(g, r, pc);
    assert SamePlaces(g.Go(r, pc), InversionStep(g, r, serial));
    forall q: Role ensures InversionStep(g, r, serial).At(q) == g.Go(r, pc).At(q) {
      match q case Low => case Med => case High =>
    }
  }

  lemma InversionStepNotSent(g: Group, r: Role, serial: Role)
    requires IsInversionPc(g.At(r))
    ensures NotSent(g, InversionStep(g, r, serial))
  {
    if g.At(r).Lock? || g.At(r).Unlock? || g.At(r).IncTotal? || g.At(r).IncDog? {
      StatisticsNotSent(g, r, serial);
    } else {
      BarrierStepNotSent(g, r, serial);
    }
  }

  lemma NotSentKeepsAsked(cfg: Config, g: Group, h: Group)
    requires Asked(cfg, g) && NotSent(g, h)
    ensures Asked(cfg, h)
  {}

  lemma SharedKeepsAsked(cfg: Config, g: Group, h: Group)
    requires Asked(cfg, g)
    requires (exists r, w :: Arrives(g, h, r, w)) || (exists w :: Released(g, h, w))
    ensures Asked(cfg, h)
  {
    if r, w :| Arrives(g, h, r, w) {
      GoNotSent(g, r, w);
      NotSentKeepsAsked(cfg, g, g.Go(r, w));
      ReleaseNotSent(g.Go(r, w), w, Low);
      NotSentKeepsAsked(cfg, g.Go(r, w), g.Go(r, w).Release(w, Low));
    } else {
      var w :| Released(g, h, w);
      ReleaseNotSent(g, w, Low);
      NotSentKeepsAsked(cfg, g, h);
    }
  }

  // ------------------------------------------------------------------ the program

  lemma InnerKeepsAsked(cfg: Config, s: System, t: System, i: nat, r: Role, seen: nat, serial: Role)
    requires i < |s.groups| == |t.groups| && Asked(cfg, s.groups[i]) && Inner(cfg, s, t, i, r, seen, serial)
    ensures Asked(cfg, t.groups[i])
  {
    var g := s.groups[i];
    if IsInversionPc(g.At(r)) {
      InversionStepNotSent(g, r, serial);
      NotSentKeepsAsked(cfg, g, t.groups[i]);
    } else {
      FlagStepKeepsAsked(cfg, g, Worker(i, r), r, seen, serial, s.shutdown, s.shutOwner);
    }
  }

  lemma ClearKeepsAsked(cfg: Config, g: Group)
    requires Asked(cfg, g)
    ensures Asked(cfg, g.(watchdog := 0))
  {
    ClearedDogFrame(g);
  }

  lemma StepKeepsAsked(cfg: Config, s: System, t: System, i: nat)
    requires StepOnGroup(cfg, s, t, i) && Asked(cfg, s.groups[i])
    ensures Asked(cfg, t.groups[i])
  {
    if r, seen, serial :| Inner(cfg, s, t, i, r, seen, serial) {
      InnerKeepsAsked(cfg, s, t, i, r, seen, serial);
    } else if Elsewhere(s, t, i) {
      ClearKeepsAsked(cfg, s.groups[i]);
    } else {
      SharedKeepsAsked(cfg, s.groups[i], t.groups[i]);
    }
  }

  /** Main raises `shutdown` when the duration is over. */
  predicate DurationOver(cfg: Config, s: System, t: System) {
    cfg.timed && s.expired && s.main.DurSet? && t.main.DurUnlock?
  }

  /** A thread of group i, which has done its inversions, raises `shutdown` at the top of its loop. */
  ghost predicate GroupSpent(cfg: Config, s: System, t: System, i: nat) {
    && i < |s.groups| == |t.groups| && Spent(cfg, s.groups[i])
    && exists r: Role :: s.groups[i].At(r).TopSet? && t.groups[i].At(r).TopUnlock?
  }

  ghost predicate HasCause(cfg: Config, s: System, t: System) {
    DurationOver(cfg, s, t) || exists i: nat :: GroupSpent(cfg, s, t, i)
  }

  lemma FlagStepRaises(cfg: Config, pc: Pc, f: Flags, me: Who, seen: nat)
    requires !f.shutdown && FlagStep(cfg, pc, f, me, seen).1.shutdown && !Leaving(pc)
    ensures pc.TopSet? && FlagStep(cfg, pc, f, me, seen).0.TopUnlock?
  {}

  lemma WorkerHasCause(cfg: Config, s: System, t: System, i: nat, r: Role, seen: nat, serial: Role)
    requires i < |s.groups| && Core(s.groups[i], false) && Asked(cfg, s.groups[i])
    requires WorkerNext(cfg, s, t, i, r, seen, serial) && !s.shutdown && t.shutdown
    ensures GroupSpent(cfg, s, t, i)
  {
    var g, me := s.groups[i], Worker(i, r);
    ArrivalDoesNotRaise(cfg, s, i, r, seen, serial);
    assert !IsInversionPc(g.At(r));
    var f := Flags(g.loop, g.loopLocked, false, s.shutOwner);
    if Leaving(g.At(r)) { EndsAfterShutdown(g, r, false); }
    FlagStepEffect(cfg, g, me, r, seen, serial, false, s.shutOwner);
    FlagStepRaises(cfg, g.At(r), f, me, seen);
    assert t.groups[i].At(r) == FlagStep(cfg, g.At(r), f, me, seen).0;
  }

  lemma MainHasCause(cfg: Config, s: System, t: System, expired: bool)
    requires MainOk(cfg, s) && MainNext(cfg, s, t, expired) && !s.shutdown && t.shutdown
    ensures DurationOver(cfg, s, t)
  {}

  ghost predicate AllAsked(cfg: Config, s: System) {
    forall i: nat :: i < |s.groups| ==> Asked(cfg, s.groups[i])
  }

  lemma StepHasCause(cfg: Config, s: System, t: System)
    requires Inv(cfg, s) && AllAsked(cfg, s) && Next(cfg, s, t) && !s.shutdown && t.shutdown
    ensures HasCause(cfg, s, t)
  {
    if i: nat, r: Role, seen: nat, serial: Role :| WorkerNext(cfg, s, t, i, r, seen, serial) {
      WorkerHasCause(cfg, s, t, i, r, seen, serial);
    } else {
      var expired :| MainNext(cfg, s, t, expired);
      MainHasCause(cfg, s, t, expired);
    }
  }

  lemma NextKeepsAllAsked(cfg: Config, s: System, t: System)
    requires Inv(cfg, s) && AllAsked(cfg, s) && Next(cfg, s, t)
    ensures AllAsked(cfg, t)
  {
    StepKeepsInv(cfg, s, t);
    forall i: nat | i < |t.groups| ensures Asked(cfg, t.groups[i]) {
      NextOnGroup(cfg, s, t, i);
      StepKeepsAsked(cfg, s, t, i);
    }
  }

  lemma FreshAsked(cfg: Config, g: Group)
    requires Fresh(g)
    ensures Asked(cfg, g)
  {
    forall r: Role ensures g.At(r).Ready? { match r case Low => case Med => case High => }
  }

  lemma FreshAllAsked(cfg: Config, s: System)
    requires forall i :: 0 <= i < |s.groups| ==> Fresh(s.groups[i])
    ensures AllAsked(cfg, s)
  {
    forall i: nat | i < |s.groups| ensures Asked(cfg, s.groups[i]) { FreshAsked(cfg, s.groups[i]); }
  }

  lemma StartsAsked(cfg: Config, s: System)
    requires s == Init(cfg)
    ensures AllAsked(cfg, s) && !s.shutdown
  {
    FreshAllAsked(cfg, s);
  }

  lemma NextInRun(cfg: Config, run: seq<System>, k: nat)
    requires IsRun(Rel(cfg), run) && k + 1 < |run| && Inv(cfg, run[0])
    ensures AllAsked(cfg, run[k]) ==> AllAsked(cfg, run[k + 1])
    ensures AllAsked(cfg, run[k]) && !run[k].shutdown && run[k + 1].shutdown ==> HasCause(cfg, run[k], run[k + 1])
  {
    InvAlong(cfg, run, k);
    ConsecutiveStates(cfg, run, k);
    if AllAsked(cfg, run[k]) {
      NextKeepsAllAsked(cfg, run[k], run[k + 1]);
      if !run[k].shutdown && run[k + 1].shutdown { StepHasCause(cfg, run[k], run[k + 1]); }
    }
  }

  /** The step from the j-th state raises `shutdown`, and for a reason. */
  ghost predicate RisesAt(cfg: Config, run: seq<System>, j: nat)
    requires j + 1 < |run|
  {
    !run[j].shutdown && run[j + 1].shutdown && HasCause(cfg, run[j], run[j + 1])
  }

  lemma {:induction false} CauseAlong(cfg: Config, run: seq<System>, k: nat)
    requires IsRun(Rel(cfg), run) && k < |run| && Inv(cfg, run[0]) && AllAsked(cfg, run[0]) && !run[0].shutdown
    ensures AllAsked(cfg, run[k])
    ensures run[k].shutdown ==> exists j: nat :: j < k && RisesAt(cfg, run, j)
  {
    if k > 0 {
      CauseAlong(cfg, run, k - 1);
      NextInRun(cfg, run, k - 1);
      if run[k].shutdown && !run[k - 1].shutdown { assert RisesAt(cfg, run, k - 1); }
    }
  }

  /** If `shutdown` is set, then at some earlier step it was raised by main, whose given duration was over, or by a
      thread of a group that was given a number of inversions and had done that many. */
  lemma ShutdownHasCause(cfg: Config, run: seq<System>, k: nat)
    requires IsRun(Rel(cfg), run) && run[0] == Init(cfg) && k < |run|
    ensures run[k].shutdown ==> exists j: nat :: j < k && RisesAt(cfg, run, j)
  {
    InitInv(cfg);
    StartsAsked(cfg, run[0]);
    CauseAlong(cfg, run, k);
  }

  /** Without a number of inversions and without a duration the program never stops: `shutdown` is never set, some
      thread can always go on, no thread of any group ever leaves, and no group is ever kept from going on for good. */
  lemma UnboundedRunsOn(cfg: Config, run: seq<System>, k: nat)
    requires IsRun(Rel(cfg), run) && run[0] == Init(cfg) && k < |run| && cfg.inversions < 0 && !cfg.timed
    ensures !run[k].shutdown && exists t :: Next(cfg, run[k], t)
    ensures forall i: nat, r: Role :: i < |run[k].groups| ==>
              !Leaving(run[k].groups[i].At(r)) && GoesOn(run[k], i)
  {
    ShutdownHasCause(cfg, run, k);
    ReachableInv(cfg, run, k);
    NotStuck(cfg, run[k]);
    forall i: nat, r: Role | i < |run[k].groups| ensures !Leaving(run[k].groups[i].At(r)) && GoesOn(run[k], i) {
      NoDeadlock(cfg, run, k, i);
      if Leaving(run[k].groups[i].At(r)) { EndsAfterShutdown(run[k].groups[i], r, run[k].shutdown); }
    }
  }

  /** Once the reporter has found the given duration over, `shutdown` is set or main is about to set it. */
  lemma DurationStops(cfg: Config, run: seq<System>, k: nat)
    requires IsRun(Rel(cfg), run) && run[0] == Init(cfg) && k < |run| && cfg.timed && run[k].expired
    ensures run[k].shutdown || run[k].main.DurLock? || run[k].main.DurSet?
  {
    ReachableInv(cfg, run, k);
  }
}
