/** pi_stress from the moment `shutdown` is set: how far each group still goes, and that the program ends. */
module PiStressShutdown {
  import opened Runs
  import opened Sums
  import opened PiStress
  import opened PiStressGroup
  import opened PiStressSystem
  import opened PiStressProgress

  ghost function Ranks(): Group -> nat { (g: Group) => Rank(g) }

  /** With n groups; main still goes round its reporter loop once before it sees `shutdown`. */
  function MainRank(pc: MainPc, n: nat): nat {
    match pc
    case MReady => 30 + 2 * n case MReadyW => 29 + 2 * n case RFirstSleep => 28 + 2 * n
    case RGo => 27 + 2 * n case RSleep => 26 + 2 * n case PLock => 25 + 2 * n case PRead => 24 + 2 * n
    case PUnlock => 23 + 2 * n case Timer => 22 + 2 * n
    case DurLock => 21 case DurSet => 20 case DurUnlock => 19
    case Watch(i) => 19 + n + (if i < n then n - i else 0)
    case Clear(i) => 18 + (if i < n then n - i else 0)
    case RLock => 17 case RRead => 16 case RStop => 15
    case QLock => 14 case QSet => 13 case QUnlock => 12
    case XLock => 11 case XSet => 10 case XUnlock => 9
    case XDone => 8 case XDoneW => 7 case XExited => 0
  }

  ghost function SystemRank(s: System): nat { SumBy(Ranks(), s.groups) + MainRank(s.main, |s.groups|) }

  /** What group `i` has completed plus what it will still complete. */
  ghost function Destined(s: System, i: nat): nat
    requires i < |s.groups|
  { s.groups[i].iters + Remaining(s.groups[i]) }

  ghost predicate ShutsDown(s: System, t: System) {
    && t.shutdown && |t.groups| == |s.groups|
    && SystemRank(t) < SystemRank(s)
    && forall i: nat :: i < |s.groups| ==> Destined(t, i) == Destined(s, i)
  }

  lemma ReleaseShutsDown(s: System, w: Pc)
    requires GroupsOk(s) && s.shutdown && (w.ReadyW? || w.DoneBW?)
    requires forall i :: 0 <= i < |s.groups| ==> s.groups[i].Waiting(w) == 3
    ensures var gs := ReleaseAll(s.groups, w);
      && SumBy(Ranks(), gs) <= SumBy(Ranks(), s.groups)
      && forall i :: 0 <= i < |gs| ==> gs[i].iters + Remaining(gs[i]) == s.groups[i].iters + Remaining(s.groups[i])
  {
    var gs := ReleaseAll(s.groups, w);
    forall i | 0 <= i < |gs| ensures Closer(gs[i], s.groups[i]) {
      SharedReleaseShutsDown(s.groups[i], w, true);
    }
    SumByPointwise(Ranks(), gs, s.groups);
  }

  /** Marking an arrival has already lowered the rank; letting everybody go does not raise it. */
  lemma ReadyArrivalShutsDown(cfg: Config, s: System)
    requires GroupsOk(s) && |s.groups| == cfg.ngroups && ReadyCount(s, 1) && s.shutdown
    ensures var t := ArriveReady(cfg, s);
      && t.shutdown && |t.groups| == |s.groups| && SystemRank(t) <= SystemRank(s)
      && forall i: nat :: i < |s.groups| ==> Destined(t, i) == Destined(s, i)
  {
    if s.readyN + 1 == Parties(cfg) {
      AllWaiting(cfg, s, ReadyW, s.main.MReadyW?);
      ReleaseWithMain(s, ArriveReady(cfg, s), ReadyW);
    }
  }

  lemma ReleaseWithMain(s: System, t: System, w: Pc)
    requires GroupsOk(s) && s.shutdown && t.shutdown && (w.ReadyW? || w.DoneBW?)
    requires forall i :: 0 <= i < |s.groups| ==> s.groups[i].Waiting(w) == 3
    requires t.groups == ReleaseAll(s.groups, w) && MainRank(t.main, |s.groups|) <= MainRank(s.main, |s.groups|)
    ensures |t.groups| == |s.groups| && SystemRank(t) <= SystemRank(s)
    ensures forall i: nat :: i < |s.groups| ==> Destined(t, i) == Destined(s, i)
  {
    ReleaseShutsDown(s, w);
  }

  lemma DoneArrivalShutsDown(cfg: Config, s: System)
    requires GroupsOk(s) && |s.groups| == cfg.ngroups && DoneCount(s, 1) && s.shutdown
    ensures var t := ArriveDone(cfg, s);
      && t.shutdown && |t.groups| == |s.groups| && SystemRank(t) <= SystemRank(s)
      && forall i: nat :: i < |s.groups| ==> Destined(t, i) == Destined(s, i)
  {
    if s.doneN + 1 == Parties(cfg) {
      AllWaiting(cfg, s, DoneBW, s.main.XDoneW?);
      ReleaseWithMain(s, ArriveDone(cfg, s), DoneBW);
    }
  }

  lemma ReplaceGroupShutsDown(s: System, i: nat, h: Group, t: System)
    requires i < |s.groups| && Closer(h, s.groups[i])
    requires t.groups == s.groups[i := h] && t.main == s.main && t.shutdown
    ensures ShutsDown(s, t)
  {
    SumByUpdate(Ranks(), s.groups, i, h);
  }

  lemma WorkerStepShutsDown(cfg: Config, s: System, i: nat, r: Role, seen: nat, serial: Role)
    requires Inv(cfg, s) && s.shutdown && i < |s.groups| && Enabled(s.groups[i], r, s.shutOwner.None?)
    ensures ShutsDown(s, WorkerStep(cfg, s, i, r, seen, serial))
  {
    var g := s.groups[i];
    if g.At(r) == Ready || g.At(r) == DoneB {
      var w := if g.At(r) == Ready then ReadyW else DoneBW;
      var u := s.(groups := s.groups[i := g.Go(r, w)]);
      SharedJoinKeepsBase(cfg, s, i, r, w);
      SharedBarrierShutsDown(g, r, w);
      ReplaceGroupShutsDown(s, i, g.Go(r, w), u);
      if g.At(r) == Ready { ReadyArrivalShutsDown(cfg, u); } else { DoneArrivalShutsDown(cfg, u); }
    } else {
      GroupStepShutsDown(cfg, g, Worker(i, r), r, seen, serial, s.shutOwner);
      GroupStepKeepsCore(cfg, g, Worker(i, r), r, seen, serial, s.shutdown, s.shutOwner);
      var e := GroupStep(cfg, g, Worker(i, r), r, seen, serial, s.shutdown, s.shutOwner);
      ReplaceGroupShutsDown(s, i, e.g, WorkerStep(cfg, s, i, r, seen, serial));
    }
  }

  lemma MainRankFalls(cfg: Config, s: System, expired: bool)
    requires MainEnabled(s) && s.shutdown && !s.main.MReady? && !s.main.XDone?
    ensures MainRank(MainStep(cfg, s, expired).main, |s.groups|) < MainRank(s.main, |s.groups|)
  {}

  lemma ClearShutsDown(s: System)
    requires Clears(s) && s.shutdown
    ensures ShutsDown(s, s.(main := Clear(s.main.next + 1), groups := ClearDog(s.groups, s.main.next)))
  {
    var i := s.main.next;
    SumByUpdate(Ranks(), s.groups, i, s.groups[i].(watchdog := 0));
  }

  lemma MainAloneShutsDown(cfg: Config, s: System, expired: bool)
    requires Inv(cfg, s) && s.shutdown && MainEnabled(s) && !s.main.MReady? && !s.main.XDone? && !Clears(s)
    ensures ShutsDown(s, MainStep(cfg, s, expired))
  {
    MainStepShape(cfg, s, expired);
    MainRankFalls(cfg, s, expired);
  }

  lemma MainJoinShutsDown(s: System, main: MainPc, t: System)
    requires MainJoins(s.main, main)
    requires var u := s.(main := main); t.shutdown && |t.groups| == |s.groups| && SystemRank(t) <= SystemRank(u)
    requires forall i: nat :: i < |s.groups| ==> Destined(t, i) == Destined(s.(main := main), i)
    ensures ShutsDown(s, t)
  {
    assert forall i: nat :: i < |s.groups| ==> Destined(s.(main := main), i) == Destined(s, i);
  }

  lemma MainReadyShutsDown(cfg: Config, s: System)
    requires Inv(cfg, s) && s.shutdown && s.main.MReady?
    ensures ShutsDown(s, ArriveReady(cfg, s.(main := MReadyW)))
  {
    var u := s.(main := MReadyW);
    MainJoinKeepsBase(cfg, s, MReadyW);
    ReadyArrivalShutsDown(cfg, u);
    MainJoinShutsDown(s, MReadyW, ArriveReady(cfg, u));
  }

  lemma MainDoneShutsDown(cfg: Config, s: System)
    requires Inv(cfg, s) && s.shutdown && s.main.XDone?
    ensures ShutsDown(s, ArriveDone(cfg, s.(main := XDoneW)))
  {
    var u := s.(main := XDoneW);
    MainJoinKeepsBase(cfg, s, XDoneW);
    DoneArrivalShutsDown(cfg, u);
    MainJoinShutsDown(s, XDoneW, ArriveDone(cfg, u));
  }

  lemma MainArrivalShutsDown(cfg: Config, s: System, expired: bool)
    requires Inv(cfg, s) && s.shutdown && (s.main.MReady? || s.main.XDone?)
    ensures ShutsDown(s, MainStep(cfg, s, expired))
  {
    MainArrives(cfg, s, expired);
    if s.main.MReady? { MainReadyShutsDown(cfg, s); } else { MainDoneShutsDown(cfg, s); }
  }

  lemma MainStepShutsDown(cfg: Config, s: System, expired: bool)
    requires Inv(cfg, s) && s.shutdown && MainEnabled(s)
    ensures ShutsDown(s, MainStep(cfg, s, expired))
  {
    if s.main.MReady? || s.main.XDone? {
      MainArrivalShutsDown(cfg, s, expired);
    } else if Clears(s) {
      ClearShutsDown(s);
    } else {
      MainAloneShutsDown(cfg, s, expired);
    }
  }

  lemma StepShutsDown(cfg: Config, s: System, t: System)
    requires Inv(cfg, s) && s.shutdown && Next(cfg, s, t)
    ensures ShutsDown(s, t)
  {
    if i, r, seen, serial :| WorkerNext(cfg, s, t, i, r, seen, serial) {
      WorkerStepShutsDown(cfg, s, i, r, seen, serial);
    } else {
      var expired :| MainNext(cfg, s, t, expired);
      MainStepShutsDown(cfg, s, expired);
    }
  }

  lemma RemainingAtMostTwo(g: Group)
    ensures Remaining(g) <= 2
  {}

  lemma FinishedAsDestined(s: System, i: nat)
    requires i < |s.groups| && Core(s.groups[i], true) && AllGone(s.groups[i])
    ensures s.groups[i].iters == Destined(s, i)
  {}

  ghost predicate Down(s: System, t: System) { s.shutdown ==> ShutsDown(s, t) }

  lemma {:induction false} DestinedAlong(run: seq<System>, k: nat)
    requires k < |run| && run[0].shutdown && forall n :: 0 <= n < k ==> Down(run[n], run[n + 1])
    ensures k + SystemRank(run[k]) <= SystemRank(run[0])
    ensures run[k].shutdown && |run[k].groups| == |run[0].groups|
    ensures forall i: nat :: i < |run[0].groups| ==> Destined(run[k], i) == Destined(run[0], i)
  {
    if k > 0 {
      DestinedAlong(run, k - 1);
      assert Down(run[k - 1], run[k - 1 + 1]);
    }
  }

  lemma StepGoesDown(cfg: Config, run: seq<System>, n: nat)
    requires IsRun(Rel(cfg), run) && Inv(cfg, run[0]) && n + 1 < |run|
    ensures Down(run[n], run[n + 1])
  {
    if run[n].shutdown {
      InvAlong(cfg, run, n);
      ConsecutiveStates(cfg, run, n);
      StepShutsDown(cfg, run[n], run[n + 1]);
    }
  }

  /** Once `shutdown` is set, every continuation of the run is finite, each group completes at most two more
      iterations, and a continuation that cannot be extended has taken all workers and main past
      all_threads_done, each group after exactly the iteration that was already destined. */
  lemma ShutdownTerminates(cfg: Config, run: seq<System>, k: nat)
    requires IsRun(Rel(cfg), run) && Inv(cfg, run[0]) && run[0].shutdown && k < |run|
    ensures k + SystemRank(run[k]) <= SystemRank(run[0])
    ensures run[k].shutdown && |run[k].groups| == |run[0].groups|
    ensures forall i: nat :: i < |run[0].groups| ==>
              Destined(run[k], i) == Destined(run[0], i) && run[k].groups[i].iters <= run[0].groups[i].iters + 2
    ensures (exists t :: Next(cfg, run[k], t)) || Finished(run[k])
    ensures Finished(run[k]) ==> forall i: nat :: i < |run[0].groups| ==> run[k].groups[i].iters == Destined(run[0], i)
  {
    InvAlong(cfg, run, k);
    forall n | 0 <= n < k ensures Down(run[n], run[n + 1]) {
      StepGoesDown(cfg, run, n);
    }
    DestinedAlong(run, k);
    if !Finished(run[k]) { NotStuck(cfg, run[k]); }
    forall i: nat | i < |run[0].groups| ensures run[k].groups[i].iters <= run[0].groups[i].iters + 2 {
      RemainingAtMostTwo(run[0].groups[i]);
      assert Destined(run[k], i) == Destined(run[0], i);
    }
    if Finished(run[k]) {
      forall i: nat | i < |run[0].groups| ensures run[k].groups[i].iters == Destined(run[0], i) {
        FinishedAsDestined(run[k], i);
        assert Destined(run[k], i) == Destined(run[0], i);
      }
    }
  }

  /** The same, said of a run of the program: from the moment `shutdown` is set at step `j`. */
  lemma ShutdownEndsTheProgram(cfg: Config, run: seq<System>, j: nat, k: nat)
    requires IsRun(Rel(cfg), run) && run[0] == Init(cfg) && j <= k < |run| && run[j].shutdown
    ensures k - j <= SystemRank(run[j])
    ensures |run[k].groups| == |run[j].groups|
    ensures forall i: nat :: i < |run[j].groups| ==> run[k].groups[i].iters <= run[j].groups[i].iters + 2
    ensures (exists t :: Next(cfg, run[k], t)) || Finished(run[k])
    ensures Finished(run[k]) ==> forall i: nat :: i < |run[j].groups| ==> run[k].groups[i].iters == Destined(run[j], i)
  {
    InitInv(cfg);
    InvAlong(cfg, run, j);
    var tail := run[j..];
    assert IsRun(Rel(cfg), tail) by {
      forall i | 0 <= i < |tail| - 1 ensures Rel(cfg)(tail[i], tail[i + 1]) {
        assert Rel(cfg)(run[j + i], run[j + i + 1]);
      }
    }
    ShutdownTerminates(cfg, tail, k - j);
  }
}
