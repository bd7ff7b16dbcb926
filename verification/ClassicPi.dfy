/** classic_pi: low, med and high stage `inversions` priority inversions; main waits for them.  With every
    thread pinned to one CPU under strict priorities the next step is the one of the runnable thread of
    highest effective priority; without pinning it is the step of any runnable thread. */
module ClassicPi {
  import opened Options
  import opened Runs

  datatype Role = Low | Med | High | Main

  /** Where a thread stands.  A name ending in `W` means: arrived at that barrier and waiting. */
  datatype Pc =
    | Ready | ReadyW
    | Loop                        // while (p->inversions-- > 0)
    | Clear                       // high: high_has_run = 0
    | StartB | StartBW
    | Lock | LockedB | LockedBW
    | Zero                        // low: low_unlocked = 0
    | ElevB | ElevBW
    | One                         // low: low_unlocked = 1
    | SetRun                      // high: high_has_run = 1
    | Unlock
    | TestRun | TestUnl           // med: the two reads of while (!high_has_run && !low_unlocked)
    | FinB | FinBW
    | DoneB | DoneBW | Exited

  /** `pi`: the mutex has PTHREAD_PRIO_INHERIT.  `pinned`: all threads share one CPU. */
  datatype Config = Config(pi: bool, pinned: bool)

  datatype System = System(
    low: Pc, med: Pc, high: Pc, main: Pc,
    lowLeft: int, medLeft: int, highLeft: int,   // p->inversions of each worker
    hasRun: bool, unlocked: bool,                // high_has_run, low_unlocked
    owner: Option<Role>)
  {
    function At(r: Role): Pc {
      match r case Low => low case Med => med case High => high case Main => main
    }

    function Go(r: Role, pc: Pc): System {
      match r
      case Low => this.(low := pc) case Med => this.(med := pc)
      case High => this.(high := pc) case Main => this.(main := pc)
    }

    function Waiting(w: Pc): nat {
      (if low == w then 1 else 0) + (if med == w then 1 else 0)
      + (if high == w then 1 else 0) + (if main == w then 1 else 0)
    }

    function Release(w: Pc): System {
      this.(low := if low == w then AfterBarrier(w, Low) else low,
            med := if med == w then AfterBarrier(w, Med) else med,
            high := if high == w then AfterBarrier(w, High) else high,
            main := if main == w then AfterBarrier(w, Main) else main)
    }

    /** pthread_barrier_wait: the `need`-th arrival lets everybody go. */
    function Arrive(r: Role, w: Pc, need: nat): System {
      var a := Go(r, w);
      if a.Waiting(w) == need then a.Release(w) else a
    }

    /** `while (p->inversions-- > 0)`: the test, and the decrement that happens either way. */
    function Enter(r: Role): System {
      match r
      case Low => this.(low := if lowLeft > 0 then StartB else DoneB, lowLeft := lowLeft - 1)
      case Med => this.(med := if medLeft > 0 then StartB else DoneB, medLeft := medLeft - 1)
      case High => this.(high := if highLeft > 0 then Clear else DoneB, highLeft := highLeft - 1)
      case Main => this
    }
  }

  function AfterBarrier(w: Pc, r: Role): Pc {
    match w
    case ReadyW => if r.Main? then DoneB else Loop
    case StartBW => if r.Low? then Lock else if r.Med? then ElevB else LockedB
    case LockedBW => if r.Low? then Zero else Lock
    case ElevBW => if r.Low? then One else TestRun
    case FinBW => Loop
    case DoneBW => Exited
    case _ => w
  }

  function Init(n: int): System {
    System(Ready, Ready, Ready, Ready, n, n, n, false, false, None)
  }

  predicate Enabled(s: System, r: Role) {
    match s.At(r)
    case Lock => s.owner.None?
    case ReadyW | StartBW | LockedBW | ElevBW | FinBW | DoneBW | Exited => false
    case _ => true
  }

  function Step(s: System, r: Role): System {
    match s.At(r)
    case Ready => s.Arrive(r, ReadyW, 4)
    case Loop => s.Enter(r)
    case Clear => s.Go(r, StartB).(hasRun := false)
    case StartB => s.Arrive(r, StartBW, 3)
    case Lock => s.Go(r, if r.Low? then LockedB else SetRun).(owner := Some(r))
    case LockedB => s.Arrive(r, LockedBW, 2)
    case Zero => s.Go(r, ElevB).(unlocked := false)
    case ElevB => s.Arrive(r, ElevBW, 2)
    case One => s.Go(r, Unlock).(unlocked := true)
    case SetRun => s.Go(r, Unlock).(hasRun := true)
    case Unlock => s.Go(r, FinB).(owner := None)
    case TestRun => s.Go(r, if s.hasRun then FinB else TestUnl)
    case TestUnl => s.Go(r, if s.unlocked then FinB else ElevB)
    case FinB => s.Arrive(r, FinBW, 3)
    case DoneB => s.Arrive(r, DoneBW, 4)
    case _ => s
  }

  function Priority(r: Role): nat {
    match r case Low => 1 case Med => 2 case High => 3 case Main => 4
  }

  /** Under priority inheritance the owner of the mutex runs at the priority of the highest thread blocked on it. */
  function Effective(cfg: Config, s: System, r: Role): nat {
    if cfg.pi && r.Low? && s.owner == Some(Low) && s.high.Lock? then Priority(High) else Priority(r)
  }

  ghost predicate Scheduled(cfg: Config, s: System, r: Role) {
    && Enabled(s, r)
    && (cfg.pinned ==> forall q: Role :: q != r && Enabled(s, q) ==> Effective(cfg, s, q) < Effective(cfg, s, r))
  }

  ghost predicate Next(cfg: Config, s: System, t: System) {
    exists r: Role :: Scheduled(cfg, s, r) && t == Step(s, r)
  }

  ghost function Rel(cfg: Config): (System, System) -> bool {
    (s: System, t: System) => Next(cfg, s, t)
  }

  predicate Finished(s: System) { s.low.Exited? && s.med.Exited? && s.high.Exited? && s.main.Exited? }

  /** The deadlock: med waits alone at elevate_barrier, everybody else waits for it. */
  predicate MedStuck(s: System) { s.med.ElevBW? && s.low.FinBW? && s.high.FinBW? && s.main.DoneBW? }

  ghost predicate CanGoOn(cfg: Config, s: System) { exists t :: Next(cfg, s, t) }

  ghost predicate RunsWithin(cfg: Config, n: int, bound: nat) {
    forall run: seq<System> :: IsRun(Rel(cfg), run) && run[0] == Init(n) ==> |run| <= bound
  }

  /** Every run of `n` inversions ends, and only with all threads finished. */
  ghost predicate AlwaysCompletes(cfg: Config, n: int) {
    && (exists bound: nat :: RunsWithin(cfg, n, bound))
    && forall run: seq<System> :: IsRun(Rel(cfg), run) && run[0] == Init(n) ==>
         var end := run[|run| - 1]; CanGoOn(cfg, end) || Finished(end)
  }

  // ------------------------------------------------------------------ what every schedule keeps

  predicate Active(pc: Pc) {
    || pc.Lock? || pc.LockedB? || pc.LockedBW? || pc.Zero? || pc.ElevB? || pc.ElevBW? || pc.One?
    || pc.SetRun? || pc.Unlock? || pc.TestRun? || pc.TestUnl? || pc.FinB? || pc.FinBW?
  }

  predicate Booting(pc: Pc) { pc.Ready? || pc.ReadyW? }

  predicate Leaving(pc: Pc) { pc.DoneB? || pc.DoneBW? || pc.Exited? }

  predicate BeforeLocked(pc: Pc) { pc.Lock? || pc.LockedB? || pc.LockedBW? }
  predicate BeforeElevate(pc: Pc) { BeforeLocked(pc) || pc.Zero? || pc.ElevB? || pc.ElevBW? }
  predicate LowOwns(pc: Pc) {
    pc.LockedB? || pc.LockedBW? || pc.Zero? || pc.ElevB? || pc.ElevBW? || pc.One? || pc.Unlock?
  }

  predicate RoleOk(r: Role, pc: Pc) {
    match r
    case Low => !pc.Clear? && !pc.SetRun? && !pc.TestRun? && !pc.TestUnl?
    case Med => Active(pc) ==> pc.ElevB? || pc.ElevBW? || pc.TestRun? || pc.TestUnl? || pc.FinB? || pc.FinBW?
    case High => Active(pc) ==>
        pc.LockedB? || pc.LockedBW? || pc.Lock? || pc.SetRun? || pc.Unlock? || pc.FinB? || pc.FinBW?
    case Main => Booting(pc) || Leaving(pc)
  }

  /** The value of the loop counter with which the thread entered, or will enter, its present pass. */
  function Pass(pc: Pc, left: int): int { if Booting(pc) || pc.Loop? then left else left + 1 }

  ghost predicate PassOk(pc: Pc, pass: int) {
    && (Leaving(pc) ==> pass <= 0)
    && (Active(pc) || pc.Clear? || pc.StartB? || pc.StartBW? ==> pass >= 1)
  }

  ghost predicate PassesOk(s: System) {
    && Pass(s.low, s.lowLeft) == Pass(s.med, s.medLeft) == Pass(s.high, s.highLeft)
    && PassOk(s.low, Pass(s.low, s.lowLeft)) && PassOk(s.med, Pass(s.low, s.lowLeft))
    && PassOk(s.high, Pass(s.low, s.lowLeft))
  }

  ghost predicate TogetherOk(low: Pc, med: Pc, high: Pc, main: Pc) {
    && RoleOk(Low, low) && RoleOk(Med, med) && !med.Clear? && RoleOk(High, high) && RoleOk(Main, main)
    && (Booting(low) <==> Booting(main)) && (Booting(med) <==> Booting(main)) && (Booting(high) <==> Booting(main))
    && (low.Exited? <==> main.Exited?) && (med.Exited? <==> main.Exited?) && (high.Exited? <==> main.Exited?)
    && (Active(low) <==> Active(med)) && (Active(low) <==> Active(high))
    && !(low.ReadyW? && med.ReadyW? && high.ReadyW? && main.ReadyW?)
    && !(low.DoneBW? && med.DoneBW? && high.DoneBW? && main.DoneBW?)
    && !(low.StartBW? && med.StartBW? && high.StartBW?)
    && !(low.FinBW? && med.FinBW? && high.FinBW?)
    && !(low.LockedBW? && high.LockedBW?)
  }

  /** Med has gone back to elevate_barrier although low has already passed it. */
  predicate Doomed(s: System) {
    Active(s.low) && !BeforeElevate(s.low) && (s.med.ElevB? || s.med.ElevBW?)
  }

  ghost predicate StagedOk(s: System) {
    && s.owner == (if LowOwns(s.low) then Some(Low)
                   else if s.high.SetRun? || s.high.Unlock? then Some(High) else None)
    && (Active(s.low) ==>
          && (BeforeLocked(s.low) <==> s.high.LockedB? || s.high.LockedBW?)
          && (BeforeElevate(s.low) ==> (s.med.ElevB? || s.med.ElevBW?) && !(s.low.ElevBW? && s.med.ElevBW?))
          && (s.high.SetRun? || s.high.Unlock? || s.high.FinB? || s.high.FinBW? ==> s.low.FinB? || s.low.FinBW?)
          && (s.hasRun <==> s.high.Unlock? || s.high.FinB? || s.high.FinBW?))
    && (s.low.ElevB? || s.low.ElevBW? || s.low.One? ==> !s.unlocked)
    && (s.low.Unlock? || s.low.FinB? || s.low.FinBW? ==> s.unlocked)
    && (s.high.StartB? || s.high.StartBW? ==> !s.hasRun)
  }

  ghost predicate Inv(s: System) { TogetherOk(s.low, s.med, s.high, s.main) && PassesOk(s) && StagedOk(s) }

  lemma InitInv(n: int)
    ensures Inv(Init(n))
  {}

  // Barriers of four, of three and of two threads, and the steps that concern no barrier.

  predicate AllAt(s: System, w: Pc) { s.low == w && s.med == w && s.high == w }

  lemma JoinShared(s: System, r: Role, w: Pc)
    requires Inv(s) && ((s.At(r).Ready? && w.ReadyW?) || (s.At(r).DoneB? && w.DoneBW?))
    requires !(AllAt(s.Go(r, w), w) && s.Go(r, w).main == w)
    ensures Inv(s.Go(r, w))
  {}

  lemma ReleaseShared(h: System, w: Pc)
    requires AllAt(h, w) && h.main == w && (w.ReadyW? || w.DoneBW?) && PassesOk(h) && h.owner.None?
    ensures Inv(h.Release(w))
  {}

  lemma SharedKeepsInv(s: System, r: Role)
    requires Inv(s) && (s.At(r).Ready? || s.At(r).DoneB?)
    ensures Inv(Step(s, r))
  {
    var w := if s.At(r).Ready? then ReadyW else DoneBW;
    var h := s.Go(r, w);
    if h.Waiting(w) == 4 {
      assert PassesOk(h);
      ReleaseShared(h, w);
    } else {
      JoinShared(s, r, w);
    }
  }

  lemma JoinTrio(s: System, r: Role, w: Pc)
    requires Inv(s) && ((s.At(r).StartB? && w.StartBW?) || (s.At(r).FinB? && w.FinBW?))
    requires !AllAt(s.Go(r, w), w)
    ensures Inv(s.Go(r, w))
  {}

  lemma ReleaseStart(h: System)
    requires AllAt(h, StartBW) && RoleOk(Main, h.main) && !Booting(h.main) && !h.main.Exited?
    requires PassesOk(h) && h.owner.None? && !h.hasRun
    ensures Inv(h.Release(StartBW))
  {}

  lemma ReleaseFin(h: System)
    requires AllAt(h, FinBW) && RoleOk(Main, h.main) && !Booting(h.main) && !h.main.Exited?
    requires PassesOk(h) && h.owner.None?
    ensures Inv(h.Release(FinBW))
  {}

  lemma TrioKeepsInv(s: System, r: Role)
    requires Inv(s) && (s.At(r).StartB? || s.At(r).FinB?)
    ensures Inv(Step(s, r))
  {
    var w := if s.At(r).StartB? then StartBW else FinBW;
    var h := s.Go(r, w);
    if h.Waiting(w) == 3 {
      assert AllAt(h, w) && PassesOk(h);
      if w.StartBW? { ReleaseStart(h); } else { ReleaseFin(h); }
    } else {
      JoinTrio(s, r, w);
    }
  }

  lemma JoinPair(s: System, r: Role, w: Pc)
    requires Inv(s) && ((s.At(r).LockedB? && w.LockedBW?) || (s.At(r).ElevB? && w.ElevBW?))
    requires s.Go(r, w).Waiting(w) < 2
    ensures Inv(s.Go(r, w))
  {}

  lemma LockedKeepsInv(s: System, r: Role)
    requires Inv(s) && s.At(r).LockedB?
    ensures Inv(Step(s, r))
  {
    var h := s.Go(r, LockedBW);
    if h.Waiting(LockedBW) == 2 {
      assert h.Release(LockedBW) == s.(low := Zero, high := Lock);
    } else {
      JoinPair(s, r, LockedBW);
    }
  }

  lemma ElevKeepsInv(s: System, r: Role)
    requires Inv(s) && s.At(r).ElevB?
    ensures Inv(Step(s, r))
  {
    var h := s.Go(r, ElevBW);
    if h.Waiting(ElevBW) == 2 {
      assert h.Release(ElevBW) == s.(low := One, med := TestRun);
    } else {
      JoinPair(s, r, ElevBW);
    }
  }

  lemma OwnLowLoops(s: System)
    requires Inv(s) && Enabled(s, Low) && s.low.Loop?
    ensures Inv(Step(s, Low))
  {}

  lemma OwnLowMutex(s: System)
    requires Inv(s) && Enabled(s, Low) && (s.low.Lock? || s.low.Unlock?)
    ensures Inv(Step(s, Low))
  {}

  lemma OwnLowInside(s: System)
    requires Inv(s) && Enabled(s, Low) && (s.low.Zero? || s.low.One?)
    ensures Inv(Step(s, Low))
  {}

  lemma OwnMed(s: System)
    requires Inv(s) && Enabled(s, Med) && (s.med.Loop? || s.med.TestRun? || s.med.TestUnl?)
    ensures Inv(Step(s, Med))
  {}

  lemma OwnHigh(s: System)
    requires Inv(s) && Enabled(s, High)
    requires s.high.Loop? || s.high.Clear? || s.high.Lock? || s.high.SetRun? || s.high.Unlock?
    ensures Inv(Step(s, High))
  {}

  predicate BeforeBarrier(pc: Pc) {
    pc.Ready? || pc.DoneB? || pc.StartB? || pc.FinB? || pc.LockedB? || pc.ElevB?
  }

  lemma OwnLow(s: System)
    requires Inv(s) && Enabled(s, Low) && !BeforeBarrier(s.low)
    ensures Inv(Step(s, Low))
  {
    match s.low
    case Loop => OwnLowLoops(s);
    case Zero => OwnLowInside(s);
    case One => OwnLowInside(s);
    case _ => OwnLowMutex(s);
  }

  lemma OwnKeepsInv(s: System, r: Role)
    requires Inv(s) && Enabled(s, r) && !BeforeBarrier(s.At(r))
    ensures Inv(Step(s, r))
  {
    match r
    case Low => OwnLow(s);
    case Med => OwnMed(s);
    case High => OwnHigh(s);
    case Main => assert false;
  }

  lemma StepKeepsInv(s: System, r: Role)
    requires Inv(s) && Enabled(s, r)
    ensures Inv(Step(s, r))
  {
    match s.At(r)
    case Ready => SharedKeepsInv(s, r);
    case DoneB => SharedKeepsInv(s, r);
    case StartB => TrioKeepsInv(s, r);
    case FinB => TrioKeepsInv(s, r);
    case LockedB => LockedKeepsInv(s, r);
    case ElevB => ElevKeepsInv(s, r);
    case _ => OwnKeepsInv(s, r);
  }

  /** The priority of a thread is the greatest among its own and, with inheritance, those of the threads blocked on
      the mutex it owns. */
  lemma EffectiveIsGreatest(cfg: Config, s: System, r: Role)
    requires Inv(s)
    ensures Effective(cfg, s, r) >= Priority(r)
    ensures cfg.pi && s.owner == Some(r) ==> forall q: Role :: s.At(q).Lock? ==> Effective(cfg, s, r) >= Priority(q)
    ensures Effective(cfg, s, r) == Priority(r)
         || (cfg.pi && s.owner == Some(r) && exists q: Role :: s.At(q).Lock? && Effective(cfg, s, r) == Priority(q))
  {
    if Effective(cfg, s, r) != Priority(r) { assert s.At(High).Lock?; }
    forall q: Role | s.At(q).Lock? ensures q.Low? || q.High? {
      match q case Low => case Med => case High => case Main =>
    }
  }

  // ------------------------------------------------------------------ every run ends

  function Dist(r: Role, pc: Pc, doomed: bool): nat {
    match pc
    case Ready => 30 case ReadyW => 29
    case Loop => 28 case Clear => 27 case StartB => 26 case StartBW => 25
    case Lock => if r.Low? then 24 else 21
    case LockedB => 23 case LockedBW => 22
    case Zero => 21 case SetRun => 20
    case ElevB => if doomed then 16 else 20
    case ElevBW => if doomed then 15 else 19
    case One => 18 case TestRun => 18 case TestUnl => 17 case Unlock => 17
    case FinB => 14 case FinBW => 13
    case DoneB => 5 case DoneBW => 4 case Exited => 0
  }

  function Rank(s: System): nat {
    var pass := Pass(s.low, s.lowLeft);
    100 * (if pass > 0 then pass else 0)
    + Dist(Low, s.low, false) + Dist(Med, s.med, Doomed(s)) + Dist(High, s.high, false) + Dist(Main, s.main, false)
  }

  predicate AtBarrier(pc: Pc) { pc.Ready? || pc.StartB? || pc.LockedB? || pc.ElevB? || pc.FinB? || pc.DoneB? }

  /** One thread moves on without leaving its pass or its side of elevate_barrier. */
  lemma MoveRank(s: System, r: Role, pc: Pc)
    requires Dist(r, pc, false) < Dist(r, s.At(r), false) && Dist(r, pc, true) < Dist(r, s.At(r), true)
    requires r.Low? ==> Active(pc) == Active(s.At(r)) && BeforeElevate(pc) == BeforeElevate(s.At(r))
    requires r.Med? ==> (pc.ElevB? || pc.ElevBW?) == (s.At(r).ElevB? || s.At(r).ElevBW?)
    requires (Booting(pc) || pc.Loop?) == (Booting(s.At(r)) || s.At(r).Loop?)
    ensures Rank(s.Go(r, pc)) < Rank(s)
  {}

  lemma SharedReleaseRank(h: System, w: Pc)
    requires AllAt(h, w) && h.main == w && (w.ReadyW? || w.DoneBW?)
    ensures Rank(h.Release(w)) < Rank(h)
  {}

  lemma StartReleaseRank(h: System)
    requires AllAt(h, StartBW) && !h.main.StartBW?
    ensures Rank(h.Release(StartBW)) < Rank(h)
  {}

  lemma FinReleaseRank(h: System)
    requires AllAt(h, FinBW) && !h.main.FinBW? && h.lowLeft >= 0
    ensures Rank(h.Release(FinBW)) < Rank(h)
  {}

  lemma LockedReleaseRank(h: System)
    requires h.low.LockedBW? && h.high.LockedBW? && !h.med.LockedBW? && !h.main.LockedBW?
    ensures Rank(h.Release(LockedBW)) < Rank(h)
  {}

  lemma ElevReleaseRank(h: System)
    requires h.low.ElevBW? && h.med.ElevBW? && !h.high.ElevBW? && !h.main.ElevBW?
    ensures Rank(h.Release(ElevBW)) < Rank(h)
  {}

  lemma SharedRank(s: System, r: Role)
    requires s.At(r).Ready? || s.At(r).DoneB?
    ensures Rank(Step(s, r)) < Rank(s)
  {
    var w := if s.At(r).Ready? then ReadyW else DoneBW;
    MoveRank(s, r, w);
    if s.Go(r, w).Waiting(w) == 4 { SharedReleaseRank(s.Go(r, w), w); }
  }

  lemma StartRank(s: System, r: Role)
    requires Inv(s) && s.At(r).StartB?
    ensures Rank(Step(s, r)) < Rank(s)
  {
    MoveRank(s, r, StartBW);
    if s.Go(r, StartBW).Waiting(StartBW) == 3 { StartReleaseRank(s.Go(r, StartBW)); }
  }

  lemma FinRank(s: System, r: Role)
    requires Inv(s) && s.At(r).FinB?
    ensures Rank(Step(s, r)) < Rank(s)
  {
    MoveRank(s, r, FinBW);
    if s.Go(r, FinBW).Waiting(FinBW) == 3 { FinReleaseRank(s.Go(r, FinBW)); }
  }

  lemma LockedRank(s: System, r: Role)
    requires Inv(s) && s.At(r).LockedB?
    ensures Rank(Step(s, r)) < Rank(s)
  {
    MoveRank(s, r, LockedBW);
    if s.Go(r, LockedBW).Waiting(LockedBW) == 2 { LockedReleaseRank(s.Go(r, LockedBW)); }
  }

  lemma ElevRank(s: System, r: Role)
    requires Inv(s) && s.At(r).ElevB?
    ensures Rank(Step(s, r)) < Rank(s)
  {
    MoveRank(s, r, ElevBW);
    if s.Go(r, ElevBW).Waiting(ElevBW) == 2 { ElevReleaseRank(s.Go(r, ElevBW)); }
  }

  lemma LoopRank(s: System, r: Role)
    requires Inv(s) && s.At(r).Loop?
    ensures Rank(Step(s, r)) < Rank(s)
  {}

  /** Where a thread goes that neither arrives at a barrier nor enters a pass. */
  function NextPc(s: System, r: Role): Pc { Step(s, r).At(r) }

  lemma OwnStepMoves(s: System, r: Role)
    requires Inv(s) && Enabled(s, r) && !AtBarrier(s.At(r)) && !s.At(r).Loop?
    ensures Rank(Step(s, r)) == Rank(s.Go(r, NextPc(s, r)))
  {}

  lemma OwnRank(s: System, r: Role)
    requires Inv(s) && Enabled(s, r) && !AtBarrier(s.At(r)) && !s.At(r).Loop? && !s.At(r).TestUnl?
    ensures Rank(Step(s, r)) < Rank(s)
  {
    OwnStepMoves(s, r);
    MoveRank(s, r, NextPc(s, r));
  }

  /** Med goes on, or back to elevate_barrier: then low has left it, and med is doomed. */
  lemma TestRank(s: System)
    requires Inv(s) && s.med.TestUnl?
    ensures Rank(Step(s, Med)) < Rank(s)
  {}

  /** Under every schedule a step lowers the rank: also when med goes back to elevate_barrier. */
  lemma StepLowersRank(s: System, r: Role)
    requires Inv(s) && Enabled(s, r)
    ensures Rank(Step(s, r)) < Rank(s)
  {
    match s.At(r)
    case Ready => SharedRank(s, r);
    case DoneB => SharedRank(s, r);
    case StartB => StartRank(s, r);
    case FinB => FinRank(s, r);
    case LockedB => LockedRank(s, r);
    case ElevB => ElevRank(s, r);
    case Loop => LoopRank(s, r);
    case TestUnl => TestRank(s);
    case _ => OwnRank(s, r);
  }

  lemma RunKeepsInv(cfg: Config, run: seq<System>, k: nat)
    requires IsRun(Rel(cfg), run) && Inv(run[0]) && k < |run|
    ensures Inv(run[k]) && Rank(run[k]) + k <= Rank(run[0])
  {
    forall s, t | Inv(s) && Next(cfg, s, t) ensures Inv(t) && Rank(t) < Rank(s) {
      var r: Role :| Scheduled(cfg, s, r) && t == Step(s, r);
      StepKeepsInv(s, r);
      StepLowersRank(s, r);
    }
    RankAlong(Rel(cfg), s => Inv(s), s => Rank(s), run, k);
  }

  // ------------------------------------------------------------------ how a run can end

  lemma SomebodyScheduled(cfg: Config, s: System, r: Role)
    requires Inv(s) && Enabled(s, r)
    ensures CanGoOn(cfg, s)
  {
    var top := if Enabled(s, Main) then Main
               else if Enabled(s, High) then High
               else if Enabled(s, Low) && Effective(cfg, s, Low) == 3 then Low
               else if Enabled(s, Med) then Med else Low;
    assert Scheduled(cfg, s, top);
    assert Next(cfg, s, Step(s, top));
  }

  lemma NobodyEnabled(s: System)
    requires Inv(s) && forall r: Role :: !Enabled(s, r)
    ensures Finished(s) || (Doomed(s) && MedStuck(s))
  {
    assert !Enabled(s, Low) && !Enabled(s, Med) && !Enabled(s, High) && !Enabled(s, Main);
  }

  /** Whatever the priorities, the mutex protocol and the number of CPUs: a run that cannot go on is either
      finished or has med alone at elevate_barrier. */
  lemma OnlyMedGetsStuck(cfg: Config, run: seq<System>, n: int, k: nat)
    requires IsRun(Rel(cfg), run) && run[0] == Init(n) && k < |run|
    ensures CanGoOn(cfg, run[k]) || Finished(run[k]) || (Doomed(run[k]) && MedStuck(run[k]))
    ensures k <= Rank(Init(n))
  {
    InitInv(n);
    RunKeepsInv(cfg, run, k);
    if r: Role :| Enabled(run[k], r) {
      SomebodyScheduled(cfg, run[k], r);
    } else {
      NobodyEnabled(run[k]);
    }
  }

  /** Once doomed, always doomed; and only med's test of two unset flags dooms a run (below). */
  lemma DoomLasts(s: System, r: Role)
    requires Inv(s) && Enabled(s, r)
    ensures Doomed(s) ==> Doomed(Step(s, r))
  {
    match r case Low => case Med => case High => case Main =>
  }

  lemma LowDoesNotDoom(s: System)
    requires Inv(s) && Enabled(s, Low) && !Doomed(s)
    ensures !Doomed(Step(s, Low))
  {}

  lemma HighAndMainDoNotDoom(s: System, r: Role)
    requires Inv(s) && Enabled(s, r) && !Doomed(s) && (r.High? || r.Main?)
    ensures !Doomed(Step(s, r))
  {
    match r case High => case Main =>
  }

  lemma MedDooms(s: System)
    requires Inv(s) && Enabled(s, Med) && !Doomed(s) && Doomed(Step(s, Med))
    ensures s.med.TestUnl? && !s.unlocked
  {}

  lemma OnlyMedDooms(s: System, r: Role)
    requires Inv(s) && Enabled(s, r) && !Doomed(s) && Doomed(Step(s, r))
    ensures r == Med && s.med.TestUnl? && !s.unlocked
  {
    if r.Low? {
      LowDoesNotDoom(s);
    } else if r.Med? {
      MedDooms(s);
    } else {
      HighAndMainDoNotDoom(s, r);
    }
  }

  // ------------------------------------------------------------------ inheritance on one CPU: no inversion lasts

  ghost predicate Safe(s: System) { Inv(s) && !s.med.TestUnl? && !Doomed(s) }

  /** With inheritance med does not get the CPU between elevate_barrier and high's critical section: first the
      boosted low runs, then high itself. */
  lemma MedSeesHighDone(cfg: Config, s: System)
    requires cfg.pi && cfg.pinned && Inv(s) && s.med.TestRun? && Scheduled(cfg, s, Med)
    ensures s.hasRun
  {
    assert !Enabled(s, High);
    assert Enabled(s, Low) ==> Effective(cfg, s, Low) < 2;
  }

  lemma OthersDoNotTest(s: System, r: Role)
    requires Enabled(s, r) && !r.Med? && !s.med.TestUnl?
    ensures !Step(s, r).med.TestUnl?
  {}

  lemma OnlyMedTests(s: System, r: Role)
    requires Enabled(s, r) && Step(s, r).med.TestUnl? && !s.med.TestUnl?
    ensures r == Med && s.med.TestRun? && !s.hasRun
  {
    if !r.Med? { OthersDoNotTest(s, r); }
  }

  lemma PinnedStepStaysSafe(cfg: Config, s: System, t: System)
    requires cfg.pi && cfg.pinned && Safe(s) && Next(cfg, s, t)
    ensures Safe(t)
  {
    var r: Role :| Scheduled(cfg, s, r) && t == Step(s, r);
    StepKeepsInv(s, r);
    if Doomed(t) { OnlyMedDooms(s, r); }
    if t.med.TestUnl? {
      OnlyMedTests(s, r);
      MedSeesHighDone(cfg, s);
    }
  }

  lemma PinnedRunsStaySafe(cfg: Config, run: seq<System>, n: int, k: nat)
    requires cfg.pi && cfg.pinned && IsRun(Rel(cfg), run) && run[0] == Init(n) && k < |run|
    ensures Safe(run[k])
  {
    forall s, t | Safe(s) && Next(cfg, s, t) ensures Safe(t) { PinnedStepStaysSafe(cfg, s, t); }
    InitInv(n);
    InvariantAlong(Rel(cfg), s => Safe(s), run, k);
  }

  // ------------------------------------------------------------------ no inheritance on one CPU

  /** The pass is the first; and once low has passed elevate_barrier med goes, or has gone, back to it. */
  ghost predicate FirstPass(s: System, n: int) {
    && Pass(s.low, s.lowLeft) == n
    && (Active(s.low) && !BeforeElevate(s.low) ==>
          Doomed(s) || (s.low.One? && s.high.Lock? && (s.med.TestRun? || s.med.TestUnl?)))
  }

  ghost predicate Inverted(s: System, n: int) { Inv(s) && FirstPass(s, n) }

  lemma InvertedLow(cfg: Config, s: System, n: int)
    requires !cfg.pi && cfg.pinned && n >= 1 && Inverted(s, n) && Scheduled(cfg, s, Low)
    ensures FirstPass(Step(s, Low), n)
  {
    assert s.low.One? && !Doomed(s) ==> Enabled(s, Med);
  }

  lemma InvertedMed(s: System, n: int)
    requires n >= 1 && Inverted(s, n) && Enabled(s, Med)
    ensures FirstPass(Step(s, Med), n)
  {}

  lemma InvertedHigh(s: System, n: int)
    requires n >= 1 && Inverted(s, n) && Enabled(s, High)
    ensures FirstPass(Step(s, High), n)
  {}

  lemma InvertedMain(s: System, n: int)
    requires n >= 1 && Inverted(s, n) && Enabled(s, Main)
    ensures FirstPass(Step(s, Main), n)
  {}

  lemma PinnedStepStaysInverted(cfg: Config, s: System, t: System, n: int)
    requires !cfg.pi && cfg.pinned && n >= 1 && Inverted(s, n) && Next(cfg, s, t)
    ensures Inverted(t, n)
  {
    var r: Role :| Scheduled(cfg, s, r) && t == Step(s, r);
    StepKeepsInv(s, r);
    match r
    case Low => InvertedLow(cfg, s, n);
    case Med => InvertedMed(s, n);
    case High => InvertedHigh(s, n);
    case Main => InvertedMain(s, n);
  }

  /** Without inheritance every run stays in its first inversion, and a run that cannot go on has med stuck. */
  lemma FirstInversionGetsStuck(cfg: Config, run: seq<System>, n: int, k: nat)
    requires !cfg.pi && cfg.pinned && n >= 1 && IsRun(Rel(cfg), run) && run[0] == Init(n) && k < |run|
    ensures Pass(run[k].low, run[k].lowLeft) == n && !Finished(run[k])
    ensures !CanGoOn(cfg, run[k]) ==> MedStuck(run[k])
  {
    forall s, t | Inverted(s, n) && Next(cfg, s, t) ensures Inverted(t, n) { PinnedStepStaysInverted(cfg, s, t, n); }
    InitInv(n);
    InvariantAlong(Rel(cfg), s => Inverted(s, n), run, k);
    OnlyMedGetsStuck(cfg, run, n, k);
  }

  // ------------------------------------------------------------------ exactly when the test completes

  /** Letting the scheduler go on as long as it can. */
  lemma {:induction false} RunToTheEnd(cfg: Config, s: System) returns (run: seq<System>)
    requires Inv(s)
    ensures IsRun(Rel(cfg), run) && run[0] == s && !CanGoOn(cfg, run[|run| - 1])
    decreases Rank(s)
  {
    if CanGoOn(cfg, s) {
      var t :| Next(cfg, s, t);
      var r: Role :| Scheduled(cfg, s, r) && t == Step(s, r);
      StepKeepsInv(s, r);
      StepLowersRank(s, r);
      var tail := RunToTheEnd(cfg, t);
      run := [s] + tail;
      forall i | 0 <= i < |run| - 1 ensures Rel(cfg)(run[i], run[i + 1]) {
        if i > 0 { assert Rel(cfg)(tail[i - 1], tail[i - 1 + 1]); }
      }
    } else {
      run := [s];
    }
  }

  lemma NoPassStep(s: System, r: Role, n: int)
    requires n <= 0 && Inv(s) && Pass(s.low, s.lowLeft) == n && Enabled(s, r)
    ensures var t := Step(s, r); Pass(t.low, t.lowLeft) == n
  {
    assert !Active(s.low);
  }

  lemma NoPassNoInversion(cfg: Config, run: seq<System>, n: int, k: nat)
    requires n <= 0 && IsRun(Rel(cfg), run) && run[0] == Init(n) && k < |run|
    ensures Inv(run[k]) && Pass(run[k].low, run[k].lowLeft) == n
  {
    forall s, t | Inv(s) && Pass(s.low, s.lowLeft) == n && Next(cfg, s, t)
      ensures Inv(t) && Pass(t.low, t.lowLeft) == n
    {
      var r: Role :| Scheduled(cfg, s, r) && t == Step(s, r);
      StepKeepsInv(s, r);
      NoPassStep(s, r, n);
    }
    InitInv(n);
    InvariantAlong(Rel(cfg), s => Inv(s) && Pass(s.low, s.lowLeft) == n, run, k);
  }

  lemma Completes(cfg: Config, n: int)
    requires n <= 0 || (cfg.pi && cfg.pinned)
    ensures AlwaysCompletes(cfg, n)
  {
    forall run: seq<System> | IsRun(Rel(cfg), run) && run[0] == Init(n)
      ensures |run| <= Rank(Init(n)) + 1
      ensures var end := run[|run| - 1]; CanGoOn(cfg, end) || Finished(end)
    {
      var k := |run| - 1;
      OnlyMedGetsStuck(cfg, run, n, k);
      if n <= 0 { NoPassNoInversion(cfg, run, n, k); } else { PinnedRunsStaySafe(cfg, run, n, k); }
    }
    assert RunsWithin(cfg, n, Rank(Init(n)) + 1);
  }

  /** The schedule a single CPU without inheritance produces is one that several CPUs can produce as well. */
  lemma GetsStuck(cfg: Config, n: int)
    requires n >= 1 && !(cfg.pi && cfg.pinned)
    ensures !AlwaysCompletes(cfg, n)
  {
    var worst := Config(false, true);
    InitInv(n);
    var run := RunToTheEnd(worst, Init(n));
    var k := |run| - 1;
    FirstInversionGetsStuck(worst, run, n, k);
    forall i | 0 <= i < |run| - 1 ensures Rel(cfg)(run[i], run[i + 1]) {
      assert Rel(worst)(run[i], run[i + 1]);
      var r: Role :| Scheduled(worst, run[i], r) && run[i + 1] == Step(run[i], r);
      assert Scheduled(cfg, run[i], r);
    }
    assert IsRun(Rel(cfg), run);
    assert !CanGoOn(cfg, run[k]) by {
      forall r: Role ensures !Enabled(run[k], r) { match r case Low => case Med => case High => case Main => }
    }
  }

  /** The test passes for every number of inversions exactly because of both inheritance and pinning. */
  lemma CompletesExactlyWhen(cfg: Config, n: int)
    ensures AlwaysCompletes(cfg, n) <==> n <= 0 || (cfg.pi && cfg.pinned)
  {
    if n <= 0 || (cfg.pi && cfg.pinned) { Completes(cfg, n); } else { GetsStuck(cfg, n); }
  }
}
