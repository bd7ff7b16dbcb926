/** What the three threads of one pi_stress group keep under every schedule, how far the group still has to
    go once `shutdown` is set, and how often a bounded group runs. */
module PiStressGroup {
  import opened Options
  import opened PiStress

  /** The four stretches of code between the barriers that all three threads pass together. */
  datatype Zone = Boot | Top | Serial | Active

  function ZoneOf(pc: Pc): Zone {
    match pc
    case Ready | ReadyW => Boot
    case SerLock | SerRead | SerLoopLock | SerLoopSet | SerLoopUnlock | SerUnlock | StartB | StartBW => Serial
    case Lock | LockedB | LockedBW | ElevB | ElevBW | Unlock | FinB | FinBW => Active
    case _ => Top
  }

  predicate IsSer(pc: Pc) {
    pc.SerLock? || pc.SerRead? || pc.SerLoopLock? || pc.SerLoopSet? || pc.SerLoopUnlock? || pc.SerUnlock?
  }

  predicate HoldsLoop(pc: Pc) {
    pc.LoopRead? || pc.LoopGo? || pc.LoopStop? || pc.SerLoopSet? || pc.SerLoopUnlock?
  }

  /** This thread read loop == 1 and is bound for loop_barr / read loop == 0 and has left the loop. */
  predicate Going(pc: Pc) { pc.LoopGo? || pc.LoopB? || pc.LoopBW? }

  predicate Leaving(pc: Pc) {
    pc.LoopStop? || pc.EndLock? || pc.EndSet? || pc.EndUnlock? || pc.DoneB? || pc.DoneBW? || pc.Exited?
  }

  /** What one thread's position says about the flags. */
  predicate PcOk(pc: Pc, loop: bool, loopLocked: bool, shutdown: bool) {
    && (Going(pc) || pc.Ready? || pc.ReadyW? ==> loop)
    && (Leaving(pc) ==> !loop)
    && (pc.SerLock? || pc.SerRead? || pc.SerLoopLock? || pc.SerLoopSet? ==> loop)
    && (pc.SerLoopLock? || pc.SerLoopSet? || pc.TopUnlock? || pc.EndUnlock? ==> shutdown)
    && (pc.SerLoopUnlock? ==> !loop)
    && (HoldsLoop(pc) ==> loopLocked)
  }

  /** All three threads are in the same stretch; one of them at most is the serial thread, one at most
      holds loop_mtx; `loop` falls only after `shutdown` has risen.  Symmetric in the threads. */
  ghost predicate Together(a: Pc, b: Pc, c: Pc, loop: bool, loopLocked: bool, shutdown: bool) {
    && ZoneOf(a) == ZoneOf(b) == ZoneOf(c)
    && PcOk(a, loop, loopLocked, shutdown) && PcOk(b, loop, loopLocked, shutdown) && PcOk(c, loop, loopLocked, shutdown)
    && !(IsSer(a) && IsSer(b)) && !(IsSer(a) && IsSer(c)) && !(IsSer(b) && IsSer(c))
    && !(HoldsLoop(a) && HoldsLoop(b)) && !(HoldsLoop(a) && HoldsLoop(c)) && !(HoldsLoop(b) && HoldsLoop(c))
    && (loopLocked ==> HoldsLoop(a) || HoldsLoop(b) || HoldsLoop(c))
    && (loop || shutdown)
    && !(a.LoopBW? && b.LoopBW? && c.LoopBW?)
    && !(a.StartBW? && b.StartBW? && c.StartBW?)
    && !(a.FinBW? && b.FinBW? && c.FinBW?)
  }

  /** The position lets the thread take its step, as far as loop_mtx is concerned. */
  predicate MayStep(pc: Pc, loopLocked: bool) { (pc.LoopLock? || pc.SerLoopLock?) ==> !loopLocked }

  /** One thread moves within its stretch, not to a barrier; the flags stay. */
  lemma Replace(a: Pc, a': Pc, b: Pc, c: Pc, loop: bool, loopLocked: bool, shutdown: bool)
    requires Together(a, b, c, loop, loopLocked, shutdown)
    requires ZoneOf(a') == ZoneOf(a) && IsSer(a') == IsSer(a) && HoldsLoop(a') == HoldsLoop(a)
    requires PcOk(a', loop, loopLocked, shutdown)
    requires !a'.LoopBW? && !a'.StartBW? && !a'.FinBW?
    ensures Together(a', b, c, loop, loopLocked, shutdown)
  {}

  /** One thread takes or releases loop_mtx. */
  lemma ReplaceHolder(a: Pc, a': Pc, b: Pc, c: Pc, loop: bool, shutdown: bool)
    requires Together(a, b, c, loop, HoldsLoop(a), shutdown)
    requires ZoneOf(a') == ZoneOf(a) && IsSer(a') == IsSer(a) && HoldsLoop(a') != HoldsLoop(a)
    requires PcOk(a', loop, HoldsLoop(a'), shutdown)
    requires !a'.LoopBW? && !a'.StartBW? && !a'.FinBW?
    ensures Together(a', b, c, loop, HoldsLoop(a'), shutdown)
  {}

  /** `shutdown` rises. */
  lemma OutlastsShutdown(a: Pc, b: Pc, c: Pc, loop: bool, loopLocked: bool, shutdown: bool)
    requires Together(a, b, c, loop, loopLocked, shutdown)
    ensures Together(a, b, c, loop, loopLocked, true)
  {}

  predicate InSetShutdown(pc: Pc) {
    pc.Check? || pc.TopLock? || pc.TopSet? || pc.TopUnlock? || pc.EndLock? || pc.EndSet? || pc.EndUnlock?
  }

  lemma SetShutdownShape(cfg: Config, a: Pc, f: Flags, me: Who, seen: nat)
    requires InSetShutdown(a) && PcOk(a, f.loop, f.loopLocked, f.shutdown)
    ensures ZoneOf(a).Top? && !IsSer(a) && !HoldsLoop(a)
    ensures var (a', f') := FlagStep(cfg, a, f, me, seen);
      && ZoneOf(a').Top? && !IsSer(a') && !HoldsLoop(a') && !a'.LoopBW?
      && PcOk(a', f'.loop, f'.loopLocked, f'.shutdown)
      && f'.loop == f.loop && f'.loopLocked == f.loopLocked && (f'.shutdown == f.shutdown || f'.shutdown)
  {}

  lemma TopMoveKeepsTogether(a: Pc, a': Pc, b: Pc, c: Pc, f: Flags, f': Flags)
    requires Together(a, b, c, f.loop, f.loopLocked, f.shutdown)
    requires ZoneOf(a).Top? && !IsSer(a) && !HoldsLoop(a)
    requires ZoneOf(a').Top? && !IsSer(a') && !HoldsLoop(a') && !a'.LoopBW?
    requires PcOk(a', f'.loop, f'.loopLocked, f'.shutdown)
    requires f'.loop == f.loop && f'.loopLocked == f.loopLocked && (f'.shutdown == f.shutdown || f'.shutdown)
    ensures Together(a', b, c, f'.loop, f'.loopLocked, f'.shutdown)
  {
    if f'.shutdown { OutlastsShutdown(a, b, c, f.loop, f.loopLocked, f.shutdown); }
    Replace(a, a', b, c, f'.loop, f'.loopLocked, f'.shutdown);
  }

  /** `set_shutdown_flag`, and the comparison before it. */
  lemma SetShutdownKeepsTogether(cfg: Config, a: Pc, b: Pc, c: Pc, f: Flags, me: Who, seen: nat)
    requires Together(a, b, c, f.loop, f.loopLocked, f.shutdown) && InSetShutdown(a)
    ensures var (a', f') := FlagStep(cfg, a, f, me, seen);
      Together(a', b, c, f'.loop, f'.loopLocked, f'.shutdown) && (f.shutdown ==> f'.shutdown)
  {
    SetShutdownShape(cfg, a, f, me, seen);
    var (a', f') := FlagStep(cfg, a, f, me, seen);
    TopMoveKeepsTogether(a, a', b, c, f, f');
  }

  lemma LoopTestKeepsTogether(cfg: Config, a: Pc, b: Pc, c: Pc, f: Flags, me: Who, seen: nat)
    requires Together(a, b, c, f.loop, f.loopLocked, f.shutdown) && MayStep(a, f.loopLocked)
    requires a.LoopLock? || a.LoopRead? || a.LoopGo? || a.LoopStop?
    ensures var (a', f') := FlagStep(cfg, a, f, me, seen);
      Together(a', b, c, f'.loop, f'.loopLocked, f'.shutdown) && f.shutdown == f'.shutdown
  {
    var (a', f') := FlagStep(cfg, a, f, me, seen);
    if a.LoopRead? {
      Replace(a, a', b, c, f.loop, f.loopLocked, f.shutdown);
    } else {
      ReplaceHolder(a, a', b, c, f.loop, f.shutdown);
    }
  }

  lemma DropLoop(a: Pc, b: Pc, c: Pc, loopLocked: bool, shutdown: bool)
    requires Together(a, b, c, true, loopLocked, shutdown) && a.SerLoopSet?
    ensures Together(SerLoopUnlock, b, c, false, loopLocked, shutdown)
  {
    assert !IsSer(b) && !IsSer(c) && ZoneOf(b).Serial? && ZoneOf(c).Serial?;
  }

  lemma LeaveSerial(a: Pc, b: Pc, c: Pc, loop: bool, loopLocked: bool, shutdown: bool)
    requires Together(a, b, c, loop, loopLocked, shutdown) && a.SerUnlock?
    ensures Together(StartB, b, c, loop, loopLocked, shutdown)
  {
    assert ZoneOf(StartB) == ZoneOf(a) && !IsSer(StartB) && !HoldsLoop(StartB) && !HoldsLoop(a);
  }

  /** The serial thread's way through its section, position and flags together. */
  lemma SerialShape(cfg: Config, a: Pc, f: Flags, me: Who, seen: nat)
    requires IsSer(a)
    ensures var (a', f') := FlagStep(cfg, a, f, me, seen);
      && f'.shutdown == f.shutdown && f'.loop == (f.loop && !a.SerLoopSet?)
      && (a.SerLock? || a.SerRead? || a.SerLoopSet? || a.SerUnlock? ==> f'.loopLocked == f.loopLocked)
      && (a.SerLock? ==> a'.SerRead?) && (a.SerRead? ==> a' == if f.shutdown then SerLoopLock else SerUnlock)
      && (a.SerLoopLock? ==> a'.SerLoopSet? && f'.loopLocked) && (a.SerLoopSet? ==> a'.SerLoopUnlock?)
      && (a.SerLoopUnlock? ==> a'.SerUnlock? && !f'.loopLocked) && (a.SerUnlock? ==> a'.StartB?)
  {}

  lemma SerialMoveKeepsTogether(a: Pc, b: Pc, c: Pc, loop: bool, loopLocked: bool, shutdown: bool)
    requires Together(a, b, c, loop, loopLocked, shutdown)
    ensures a.SerLock? ==> Together(SerRead, b, c, loop, loopLocked, shutdown)
    ensures a.SerRead? && shutdown ==> Together(SerLoopLock, b, c, loop, loopLocked, shutdown)
    ensures a.SerRead? ==> Together(SerUnlock, b, c, loop, loopLocked, shutdown)
  {
    if a.SerLock? { Replace(a, SerRead, b, c, loop, loopLocked, shutdown); }
    if a.SerRead? {
      Replace(a, SerUnlock, b, c, loop, loopLocked, shutdown);
      if shutdown { Replace(a, SerLoopLock, b, c, loop, loopLocked, shutdown); }
    }
  }

  lemma SerialLockKeepsTogether(a: Pc, b: Pc, c: Pc, loop: bool, loopLocked: bool, shutdown: bool)
    requires Together(a, b, c, loop, loopLocked, shutdown)
    ensures a.SerLoopLock? && !loopLocked ==> Together(SerLoopSet, b, c, loop, true, shutdown)
    ensures a.SerLoopUnlock? ==> Together(SerUnlock, b, c, loop, false, shutdown)
  {
    if a.SerLoopLock? && !loopLocked { ReplaceHolder(a, SerLoopSet, b, c, loop, shutdown); }
    if a.SerLoopUnlock? { ReplaceHolder(a, SerUnlock, b, c, loop, shutdown); }
  }

  lemma SerialKeepsTogether(cfg: Config, a: Pc, b: Pc, c: Pc, f: Flags, me: Who, seen: nat)
    requires Together(a, b, c, f.loop, f.loopLocked, f.shutdown) && MayStep(a, f.loopLocked)
    requires IsSer(a)
    ensures var (a', f') := FlagStep(cfg, a, f, me, seen);
      Together(a', b, c, f'.loop, f'.loopLocked, f'.shutdown) && f.shutdown == f'.shutdown
  {
    SerialShape(cfg, a, f, me, seen);
    SerialMoveKeepsTogether(a, b, c, f.loop, f.loopLocked, f.shutdown);
    SerialLockKeepsTogether(a, b, c, f.loop, f.loopLocked, f.shutdown);
    if a.SerLoopSet? { DropLoop(a, b, c, f.loopLocked, f.shutdown); }
    if a.SerUnlock? { LeaveSerial(a, b, c, f.loop, f.loopLocked, f.shutdown); }
  }

  // ------------------------------------------------------------------ the inversion: mutex and two-party barriers

  predicate BeforeLocked(pc: Pc) { pc.Lock? || pc.LockedB? || pc.LockedBW? }
  predicate BeforeElevate(pc: Pc) { BeforeLocked(pc) || pc.ElevB? || pc.ElevBW? }
  predicate LowOwns(pc: Pc) { pc.LockedB? || pc.LockedBW? || pc.ElevB? || pc.ElevBW? || pc.Unlock? }

  predicate RoleOk(r: Role, pc: Pc) {
    match r
    case Low => !pc.IncTotal? && !pc.IncDog?
    case Med => !pc.IncTotal? && !pc.IncDog? && !pc.Lock? && !pc.Unlock? && !pc.LockedB? && !pc.LockedBW?
    case High => !pc.ElevB? && !pc.ElevBW?
  }

  /** Low locks, meets high at locked_barrier, meets med at elevate_barrier and unlocks; only then high locks. */
  ghost predicate Staged(low: Pc, med: Pc, high: Pc, owner: Option<Role>) {
    && RoleOk(Low, low) && RoleOk(Med, med) && RoleOk(High, high)
    && owner == (if LowOwns(low) then Some(Low) else if high.Unlock? then Some(High) else None)
    && !(low.LockedBW? && high.LockedBW?) && !(low.ElevBW? && med.ElevBW?)
    && (ZoneOf(low).Active? ==>
          && (BeforeLocked(low) <==> high.LockedB? || high.LockedBW?)
          && (BeforeElevate(low) <==> med.ElevB? || med.ElevBW?)
          && (high.Unlock? || high.FinB? || high.FinBW? ==> low.FinB? || low.FinBW?))
  }

  /** Acquisitions of the group mutex made so far in the current iteration. */
  function Acquisitions(low: Pc, high: Pc): nat {
    if !ZoneOf(low).Active? || low.Lock? then 0
    else if high.Unlock? || high.FinB? || high.FinBW? then 2 else 1
  }

  ghost predicate Alternates(log: seq<Role>) {
    forall k :: 0 <= k < |log| ==> log[k] == if k % 2 == 0 then Low else High
  }

  /** 1 if the thread has committed to the iteration now being gathered or run. */
  function Entered(pc: Pc): nat {
    if ZoneOf(pc).Serial? || ZoneOf(pc).Active? || pc.LoopBW? then 1 else 0
  }

  ghost predicate History(g: Group) {
    && |g.acquired| == 2 * g.iters + Acquisitions(g.low, g.high)
    && Alternates(g.acquired)
    && g.total + (if g.high.IncTotal? then 1 else 0) == g.iters
    && g.lowRounds == g.iters + Entered(g.low)
    && g.medRounds == g.iters + Entered(g.med)
    && g.highRounds == g.iters + Entered(g.high)
  }

  ghost predicate Core(g: Group, shutdown: bool) {
    && Together(g.low, g.med, g.high, g.loop, g.loopLocked, shutdown)
    && Staged(g.low, g.med, g.high, g.owner)
    && History(g)
  }

  /** Code that is the same for low, med and high. */
  predicate Common(pc: Pc) { !ZoneOf(pc).Active? && !pc.IncTotal? && !pc.IncDog? }

  lemma FlagStepShape(cfg: Config, pc: Pc, f: Flags, me: Who, seen: nat)
    requires Common(pc) && !IsInversionPc(pc)
    ensures var pc' := FlagStep(cfg, pc, f, me, seen).0;
      Common(pc') && Entered(pc') == Entered(pc)
  {}

  /** Moving one thread within the common code leaves the inversion and the history alone. */
  lemma MoveKeepsStaged(g: Group, r: Role, pc: Pc)
    requires Staged(g.low, g.med, g.high, g.owner) && History(g)
    requires !ZoneOf(g.low).Active? && !ZoneOf(g.med).Active? && !ZoneOf(g.high).Active?
    requires Common(g.At(r)) && Common(pc) && Entered(pc) == Entered(g.At(r))
    ensures var h := g.Go(r, pc); Staged(h.low, h.med, h.high, h.owner) && History(h)
  {
    match r
    case Low =>
    case Med =>
    case High =>
  }

  lemma MoveKeepsCore(g: Group, r: Role, pc: Pc, loop: bool, loopLocked: bool, before: bool, after: bool)
    requires Core(g, before) && Common(g.At(r)) && Common(pc) && Entered(pc) == Entered(g.At(r))
    requires var h := g.Go(r, pc); Together(h.low, h.med, h.high, loop, loopLocked, after)
    ensures Core(g.Go(r, pc).(loop := loop, loopLocked := loopLocked), after)
  {
    MoveKeepsStaged(g, r, pc);
  }

  function Others(g: Group, r: Role): (Pc, Pc) {
    match r case Low => (g.med, g.high) case Med => (g.low, g.high) case High => (g.low, g.med)
  }

  lemma FlagStepKeepsTogether(cfg: Config, a: Pc, b: Pc, c: Pc, f: Flags, me: Who, seen: nat)
    requires Together(a, b, c, f.loop, f.loopLocked, f.shutdown)
    requires Common(a) && MayStep(a, f.loopLocked) && !IsInversionPc(a)
    ensures var (a', f') := FlagStep(cfg, a, f, me, seen);
      Together(a', b, c, f'.loop, f'.loopLocked, f'.shutdown) && (f.shutdown ==> f'.shutdown)
  {
    if IsSer(a) {
      SerialKeepsTogether(cfg, a, b, c, f, me, seen);
    } else if a.LoopLock? || a.LoopRead? || a.LoopGo? || a.LoopStop? {
      LoopTestKeepsTogether(cfg, a, b, c, f, me, seen);
    } else if InSetShutdown(a) {
      SetShutdownKeepsTogether(cfg, a, b, c, f, me, seen);
    }
  }

  /** `Together` does not care which of the three threads is named first. */
  lemma AnyOrder(g: Group, r: Role, pc: Pc, loop: bool, loopLocked: bool, shutdown: bool)
    ensures var h := g.Go(r, pc); var (b, c) := Others(g, r);
      Together(h.low, h.med, h.high, loop, loopLocked, shutdown) <==> Together(pc, b, c, loop, loopLocked, shutdown)
  {}

  lemma FlagStepKeepsGroupTogether(cfg: Config, g: Group, me: Who, r: Role, seen: nat, f: Flags)
    requires Together(g.low, g.med, g.high, f.loop, f.loopLocked, f.shutdown)
    requires Common(g.At(r)) && MayStep(g.At(r), f.loopLocked) && !IsInversionPc(g.At(r))
    ensures var (p, f') := FlagStep(cfg, g.At(r), f, me, seen);
      && Together(g.Go(r, p).low, g.Go(r, p).med, g.Go(r, p).high, f'.loop, f'.loopLocked, f'.shutdown)
      && (f.shutdown ==> f'.shutdown)
  {
    var (b, c) := Others(g, r);
    assert g.Go(r, g.At(r)) == g;
    AnyOrder(g, r, g.At(r), f.loop, f.loopLocked, f.shutdown);
    FlagStepKeepsTogether(cfg, g.At(r), b, c, f, me, seen);
    var (p, f') := FlagStep(cfg, g.At(r), f, me, seen);
    AnyOrder(g, r, p, f'.loop, f'.loopLocked, f'.shutdown);
  }

  lemma CanFlagStep(g: Group, r: Role, shutFree: bool)
    requires Enabled(g, r, shutFree) && !IsInversionPc(g.At(r))
    ensures Common(g.At(r)) && MayStep(g.At(r), g.loopLocked)
  {}

  lemma FlagStepEffect(cfg: Config, g: Group, me: Who, r: Role, seen: nat, serial: Role,
                       shutdown: bool, shutOwner: Option<Who>)
    requires !IsInversionPc(g.At(r))
    ensures var (p, f) := FlagStep(cfg, g.At(r), Flags(g.loop, g.loopLocked, shutdown, shutOwner), me, seen);
      GroupStep(cfg, g, me, r, seen, serial, shutdown, shutOwner)
      == Effect(g.Go(r, p).(loop := f.loop, loopLocked := f.loopLocked), f.shutdown, f.shutOwner)
  {}

  /** The same, for any position and flags that keep the threads together. */
  lemma FlagMoveKeepsCore(g: Group, r: Role, pc: Pc, f: Flags, e: Effect, shutdown: bool)
    requires Core(g, shutdown) && Common(g.At(r)) && Common(pc) && Entered(pc) == Entered(g.At(r))
    requires Together(g.Go(r, pc).low, g.Go(r, pc).med, g.Go(r, pc).high, f.loop, f.loopLocked, f.shutdown)
    requires e.g == g.Go(r, pc).(loop := f.loop, loopLocked := f.loopLocked) && e.shutdown == f.shutdown
    ensures Core(e.g, e.shutdown)
  {
    MoveKeepsCore(g, r, pc, f.loop, f.loopLocked, shutdown, f.shutdown);
  }

  lemma FlagStepKeepsCore(cfg: Config, g: Group, me: Who, r: Role, seen: nat, serial: Role,
                          shutdown: bool, shutOwner: Option<Who>)
    requires Core(g, shutdown) && Enabled(g, r, shutOwner.None?)
    requires !IsInversionPc(g.At(r)) && g.At(r) != Ready && g.At(r) != DoneB
    ensures var e := GroupStep(cfg, g, me, r, seen, serial, shutdown, shutOwner);
      Core(e.g, e.shutdown) && (shutdown ==> e.shutdown)
  {
    var f := Flags(g.loop, g.loopLocked, shutdown, shutOwner);
    CanFlagStep(g, r, shutOwner.None?);
    FlagStepKeepsGroupTogether(cfg, g, me, r, seen, f);
    FlagStepShape(cfg, g.At(r), f, me, seen);
    var (p, f') := FlagStep(cfg, g.At(r), f, me, seen);
    FlagStepEffect(cfg, g, me, r, seen, serial, shutdown, shutOwner);
    FlagMoveKeepsCore(g, r, p, f', GroupStep(cfg, g, me, r, seen, serial, shutdown, shutOwner), shutdown);
  }

  predicate Last(g: Group, r: Role, w: Pc, need: nat) { g.Go(r, w).Waiting(w) == need }

  lemma JoinTogether(a: Pc, b: Pc, c: Pc, w: Pc, loop: bool, loopLocked: bool, shutdown: bool)
    requires Together(a, b, c, loop, loopLocked, shutdown) && !(b == w && c == w)
    requires (a.LoopB? && w.LoopBW?) || (a.StartB? && w.StartBW?) || (a.FinB? && w.FinBW?)
    ensures Together(w, b, c, loop, loopLocked, shutdown)
  {
    assert ZoneOf(w) == ZoneOf(a) && IsSer(w) == IsSer(a) && HoldsLoop(w) == HoldsLoop(a);
  }

  lemma JoinKeepsTogether(g: Group, r: Role, w: Pc, shutdown: bool)
    requires Core(g, shutdown) && !Last(g, r, w, 3)
    requires var a := g.At(r); (a.LoopB? && w.LoopBW?) || (a.StartB? && w.StartBW?) || (a.FinB? && w.FinBW?)
    ensures var h := g.Go(r, w); Together(h.low, h.med, h.high, g.loop, g.loopLocked, shutdown)
  {
    var (b, c) := match r case Low => (g.med, g.high) case Med => (g.low, g.high) case High => (g.low, g.med);
    JoinTogether(g.At(r), b, c, w, g.loop, g.loopLocked, shutdown);
  }

  lemma JoinLoopKeepsHistory(g: Group, r: Role)
    requires Staged(g.low, g.med, g.high, g.owner) && History(g) && g.At(r) == LoopB
    requires ZoneOf(g.low) == ZoneOf(g.med) == ZoneOf(g.high)
    ensures var h := g.Go(r, LoopBW).NextRound(r); Staged(h.low, h.med, h.high, h.owner) && History(h)
  {
    match r
    case Low =>
    case Med =>
    case High =>
  }

  lemma JoinLoop(g: Group, r: Role, shutdown: bool)
    requires Core(g, shutdown) && g.At(r) == LoopB && !Last(g, r, LoopBW, 3)
    ensures Core(g.Go(r, LoopBW).NextRound(r), shutdown)
  {
    JoinKeepsTogether(g, r, LoopBW, shutdown);
    JoinLoopKeepsHistory(g, r);
  }

  lemma JoinStart(g: Group, r: Role, shutdown: bool)
    requires Core(g, shutdown) && g.At(r) == StartB && !Last(g, r, StartBW, 3)
    ensures Core(g.Go(r, StartBW), shutdown)
  {
    JoinKeepsTogether(g, r, StartBW, shutdown);
    MoveKeepsCore(g, r, StartBW, g.loop, g.loopLocked, shutdown, shutdown);
  }

  /** Between start_barrier and finish_barrier only the inversion is left to speak of. */
  ghost predicate Mid(g: Group, shutdown: bool) {
    && ZoneOf(g.low).Active? && ZoneOf(g.med).Active? && ZoneOf(g.high).Active?
    && Staged(g.low, g.med, g.high, g.owner) && History(g)
    && !g.loopLocked && (g.loop || shutdown) && !(g.low.FinBW? && g.med.FinBW? && g.high.FinBW?)
  }

  lemma MidIsCore(g: Group, r: Role, shutdown: bool)
    ensures Mid(g, shutdown) <==> Core(g, shutdown) && ZoneOf(g.At(r)).Active?
  {}

  lemma JoinFinish(g: Group, r: Role, shutdown: bool)
    requires Mid(g, shutdown) && g.At(r) == FinB && !Last(g, r, FinBW, 3)
    ensures Mid(g.Go(r, FinBW), shutdown)
  {}

  lemma JoinLocked(g: Group, r: Role, shutdown: bool)
    requires Mid(g, shutdown) && g.At(r) == LockedB && !Last(g, r, LockedBW, 2)
    ensures Mid(g.Go(r, LockedBW), shutdown)
  {}

  lemma JoinElev(g: Group, r: Role, shutdown: bool)
    requires Mid(g, shutdown) && g.At(r) == ElevB && !Last(g, r, ElevBW, 2)
    ensures Mid(g.Go(r, ElevBW), shutdown)
  {}

  lemma ReleaseLocked(g: Group, r: Role, serial: Role, shutdown: bool)
    requires Mid(g, shutdown) && g.At(r) == LockedB && Last(g, r, LockedBW, 2)
    ensures Mid(g.Go(r, LockedBW).Release(LockedBW, serial), shutdown)
  {
    assert g.Go(r, LockedBW).Release(LockedBW, serial) == g.(low := ElevB, high := Lock);
  }

  lemma ReleaseElev(g: Group, r: Role, serial: Role, shutdown: bool)
    requires Mid(g, shutdown) && g.At(r) == ElevB && Last(g, r, ElevBW, 2)
    ensures Mid(g.Go(r, ElevBW).Release(ElevBW, serial), shutdown)
  {
    assert g.Go(r, ElevBW).Release(ElevBW, serial) == g.(low := Unlock, med := FinB);
    ElevReleased(g, shutdown);
  }

  lemma ElevReleased(g: Group, shutdown: bool)
    requires Mid(g, shutdown) && (g.low.ElevB? || g.low.ElevBW?) && (g.med.ElevB? || g.med.ElevBW?)
    ensures Mid(g.(low := Unlock, med := FinB), shutdown)
  {}

  lemma LockKeepsMid(g: Group, r: Role, serial: Role, shutdown: bool)
    requires Mid(g, shutdown) && g.At(r) == Lock && g.owner.None?
    ensures Mid(InversionStep(g, r, serial), shutdown)
  {}

  lemma UnlockKeepsMid(g: Group, r: Role, serial: Role, shutdown: bool)
    requires Mid(g, shutdown) && g.At(r) == Unlock
    ensures Mid(InversionStep(g, r, serial), shutdown)
  {}

  /** All three wait at `w`: nothing is locked, and the history is the same for all of them. */
  ghost predicate Gathered(h: Group, w: Pc, shutdown: bool) {
    && h.low == w && h.med == w && h.high == w
    && (h.loop || shutdown) && (w.LoopBW? ==> h.loop)
    && !h.loopLocked && h.owner.None?
    && |h.acquired| == 2 * h.iters + (if w.FinBW? then 2 else 0) && Alternates(h.acquired)
    && h.total == h.iters
    && h.lowRounds == h.iters + 1 && h.medRounds == h.iters + 1 && h.highRounds == h.iters + 1
  }

  lemma LastGathers(g: Group, r: Role, w: Pc, shutdown: bool)
    requires Core(g, shutdown) && Last(g, r, w, 3)
    requires var a := g.At(r); (a.LoopB? && w.LoopBW?) || (a.StartB? && w.StartBW?) || (a.FinB? && w.FinBW?)
    ensures Gathered(if w.LoopBW? then g.Go(r, w).NextRound(r) else g.Go(r, w), w, shutdown)
  {
    var h := g.Go(r, w);
    assert h.low == w && h.med == w && h.high == w;
  }

  lemma LoopReleasesTogether(h: Group, serial: Role, shutdown: bool)
    requires Gathered(h, LoopBW, shutdown)
    ensures var g := h.Release(LoopBW, serial); Together(g.low, g.med, g.high, g.loop, g.loopLocked, shutdown)
  {}

  lemma LoopReleasesHistory(h: Group, serial: Role, shutdown: bool)
    requires Gathered(h, LoopBW, shutdown)
    ensures var g := h.Release(LoopBW, serial); Staged(g.low, g.med, g.high, g.owner) && History(g)
  {}

  lemma LoopReleases(h: Group, serial: Role, shutdown: bool)
    requires Gathered(h, LoopBW, shutdown)
    ensures Core(h.Release(LoopBW, serial), shutdown)
  {
    LoopReleasesTogether(h, serial, shutdown);
    LoopReleasesHistory(h, serial, shutdown);
  }

  lemma StartReleases(h: Group, serial: Role, shutdown: bool)
    requires Gathered(h, StartBW, shutdown)
    ensures Core(h.Release(StartBW, serial), shutdown)
  {}

  lemma FinishReleasesTogether(h: Group, serial: Role, shutdown: bool)
    requires Gathered(h, FinBW, shutdown)
    ensures var g := h.Release(FinBW, serial); Together(g.low, g.med, g.high, g.loop, g.loopLocked, shutdown)
  {}

  lemma FinishReleasesHistory(h: Group, serial: Role, shutdown: bool)
    requires Gathered(h, FinBW, shutdown)
    ensures var g := h.Release(FinBW, serial).(iters := h.iters + 1);
      Staged(g.low, g.med, g.high, g.owner) && History(g)
  {}

  lemma FinishReleases(h: Group, serial: Role, shutdown: bool)
    requires Gathered(h, FinBW, shutdown)
    ensures Core(h.Release(FinBW, serial).(iters := h.iters + 1), shutdown)
  {
    FinishReleasesTogether(h, serial, shutdown);
    FinishReleasesHistory(h, serial, shutdown);
  }

  lemma StatisticsKeepTogether(a: Pc, a': Pc, b: Pc, c: Pc, loop: bool, loopLocked: bool, shutdown: bool)
    requires Together(a, b, c, loop, loopLocked, shutdown)
    requires (a.IncTotal? && a'.IncDog?) || (a.IncDog? && a'.Check?)
    ensures Together(a', b, c, loop, loopLocked, shutdown)
  {
    Replace(a, a', b, c, loop, loopLocked, shutdown);
  }

  lemma StatisticsKeepCore(g: Group, r: Role, serial: Role, shutdown: bool)
    requires Core(g, shutdown) && (g.At(r) == IncTotal || g.At(r) == IncDog)
    ensures Core(InversionStep(g, r, serial), shutdown)
  {
    assert r == High && !ZoneOf(g.low).Active?;
    var (b, c) := Others(g, r);
    var a' := if g.high.IncTotal? then IncDog else Check;
    AnyOrder(g, r, g.high, g.loop, g.loopLocked, shutdown);
    StatisticsKeepTogether(g.high, a', b, c, g.loop, g.loopLocked, shutdown);
    AnyOrder(g, r, a', g.loop, g.loopLocked, shutdown);
  }

  lemma LoopShape(g: Group, r: Role, serial: Role)
    requires g.At(r).LoopB?
    ensures InversionStep(g, r, serial) ==
      var h := g.Go(r, LoopBW).NextRound(r); if Last(g, r, LoopBW, 3) then h.Release(LoopBW, serial) else h
  {}

  lemma LoopBarrierKeepsCore(g: Group, r: Role, serial: Role, shutdown: bool)
    requires Core(g, shutdown) && g.At(r).LoopB?
    ensures Core(InversionStep(g, r, serial), shutdown)
  {
    LoopShape(g, r, serial);
    if Last(g, r, LoopBW, 3) {
      LastGathers(g, r, LoopBW, shutdown);
      LoopReleases(g.Go(r, LoopBW).NextRound(r), serial, shutdown);
    } else {
      JoinLoop(g, r, shutdown);
    }
  }

  lemma StartBarrierKeepsCore(g: Group, r: Role, serial: Role, shutdown: bool)
    requires Core(g, shutdown) && g.At(r).StartB?
    ensures Core(InversionStep(g, r, serial), shutdown)
  {
    if Last(g, r, StartBW, 3) {
      LastGathers(g, r, StartBW, shutdown);
      StartReleases(g.Go(r, StartBW), serial, shutdown);
    } else {
      JoinStart(g, r, shutdown);
    }
  }

  lemma ReleasedFromFinish(h: Group, r: Role, serial: Role)
    requires h.At(r) == FinBW
    ensures h.Release(FinBW, serial).At(r) != FinBW
  {
    assert AfterBarrier(FinBW, r, serial) != FinBW;
  }

  /** The release of finish_barrier counts an iteration. */
  lemma FinishShape(g: Group, r: Role, serial: Role)
    requires g.At(r).FinB?
    ensures InversionStep(g, r, serial) ==
      var h := g.Go(r, FinBW); if Last(g, r, FinBW, 3) then h.Release(FinBW, serial).(iters := h.iters + 1) else h
  {
    assert g.Go(r, FinBW).At(r) == FinBW;
    ReleasedFromFinish(g.Go(r, FinBW), r, serial);
  }

  lemma FinishBarrierKeepsCore(g: Group, r: Role, serial: Role, shutdown: bool)
    requires Core(g, shutdown) && g.At(r).FinB?
    ensures Core(InversionStep(g, r, serial), shutdown)
  {
    FinishShape(g, r, serial);
    MidIsCore(g, r, shutdown);
    if Last(g, r, FinBW, 3) {
      LastGathers(g, r, FinBW, shutdown);
      FinishReleases(g.Go(r, FinBW), serial, shutdown);
    } else {
      JoinFinish(g, r, shutdown);
      MidIsCore(g.Go(r, FinBW), r, shutdown);
    }
  }

  /** Mutex and two-party barriers. */
  lemma MiddleStepKeepsMid(g: Group, r: Role, serial: Role, shutdown: bool)
    requires Mid(g, shutdown) && Enabled(g, r, true)
    requires g.At(r).Lock? || g.At(r).Unlock? || g.At(r).LockedB? || g.At(r).ElevB?
    ensures Mid(InversionStep(g, r, serial), shutdown)
  {
    match g.At(r)
    case Lock => LockKeepsMid(g, r, serial, shutdown);
    case Unlock => UnlockKeepsMid(g, r, serial, shutdown);
    case LockedB =>
      if Last(g, r, LockedBW, 2) { ReleaseLocked(g, r, serial, shutdown); } else { JoinLocked(g, r, shutdown); }
    case ElevB =>
      if Last(g, r, ElevBW, 2) { ReleaseElev(g, r, serial, shutdown); } else { JoinElev(g, r, shutdown); }
  }

  lemma InversionStepKeepsCore(g: Group, r: Role, serial: Role, shutdown: bool)
    requires Core(g, shutdown) && Enabled(g, r, true) && IsInversionPc(g.At(r))
    ensures Core(InversionStep(g, r, serial), shutdown)
  {
    match g.At(r)
    case LoopB => LoopBarrierKeepsCore(g, r, serial, shutdown);
    case StartB => StartBarrierKeepsCore(g, r, serial, shutdown);
    case FinB => FinishBarrierKeepsCore(g, r, serial, shutdown);
    case IncTotal => StatisticsKeepCore(g, r, serial, shutdown);
    case IncDog => StatisticsKeepCore(g, r, serial, shutdown);
    case _ =>
      MidIsCore(g, r, shutdown);
      MiddleStepKeepsMid(g, r, serial, shutdown);
      MidIsCore(InversionStep(g, r, serial), r, shutdown);
  }

  /** Under every schedule a step keeps the group's discipline, and never lowers `shutdown`. */
  lemma GroupStepKeepsCore(cfg: Config, g: Group, me: Who, r: Role, seen: nat, serial: Role,
                           shutdown: bool, shutOwner: Option<Who>)
    requires Core(g, shutdown) && Enabled(g, r, shutOwner.None?)
    requires g.At(r) != Ready && g.At(r) != DoneB
    ensures var e := GroupStep(cfg, g, me, r, seen, serial, shutdown, shutOwner);
      Core(e.g, e.shutdown) && (shutdown ==> e.shutdown)
  {
    if IsInversionPc(g.At(r)) {
      InversionStepKeepsCore(g, r, serial, shutdown);
    } else {
      FlagStepKeepsCore(cfg, g, me, r, seen, serial, shutdown, shutOwner);
    }
  }

  // ------------------------------------------------------------------ the barriers shared by all groups

  lemma JoinSharedTogether(a: Pc, b: Pc, c: Pc, w: Pc, loop: bool, loopLocked: bool, shutdown: bool)
    requires Together(a, b, c, loop, loopLocked, shutdown)
    requires (a.Ready? && w.ReadyW?) || (a.DoneB? && w.DoneBW?)
    ensures Together(w, b, c, loop, loopLocked, shutdown)
  {
    Replace(a, w, b, c, loop, loopLocked, shutdown);
  }

  lemma JoinSharedBarrier(g: Group, r: Role, w: Pc, shutdown: bool)
    requires Core(g, shutdown)
    requires (g.At(r).Ready? && w.ReadyW?) || (g.At(r).DoneB? && w.DoneBW?)
    ensures Core(g.Go(r, w), shutdown)
  {
    var (b, c) := Others(g, r);
    assert g.Go(r, g.At(r)) == g;
    AnyOrder(g, r, g.At(r), g.loop, g.loopLocked, shutdown);
    JoinSharedTogether(g.At(r), b, c, w, g.loop, g.loopLocked, shutdown);
    AnyOrder(g, r, w, g.loop, g.loopLocked, shutdown);
    MoveKeepsCore(g, r, w, g.loop, g.loopLocked, shutdown, shutdown);
  }

  lemma ReleaseSharedBarrier(g: Group, w: Pc, shutdown: bool)
    requires Core(g, shutdown) && g.Waiting(w) == 3 && (w.ReadyW? || w.DoneBW?)
    ensures Core(g.Release(w, Low), shutdown)
  {
    assert g.low == w && g.med == w && g.high == w;
  }

  lemma CoreOutlastsShutdown(g: Group)
    requires Core(g, false)
    ensures Core(g, true)
  {}

  // ------------------------------------------------------------------ shutting down

  /** The serial thread has not yet made its decision about `loop`. */
  predicate Undecided(pc: Pc) { pc.SerLock? || pc.SerRead? || pc.SerLoopLock? || pc.SerLoopSet? }

  predicate Deciding(g: Group) { Undecided(g.low) || Undecided(g.med) || Undecided(g.high) }

  /** Iterations the group will still complete once `shutdown` is set. */
  function Remaining(g: Group): nat {
    match ZoneOf(g.low)
    case Boot => 1
    case Top => if g.loop then 1 else 0
    case Serial => if !g.loop || Deciding(g) then 1 else 2
    case Active => if g.loop then 2 else 1
  }

  /** What one step of the common code does to `loop`, to the decision about it and to `shutdown`. */
  predicate LoopMove(pc: Pc, f: Flags, pc': Pc, f': Flags) {
    && ZoneOf(pc') == ZoneOf(pc) && (f.shutdown ==> f'.shutdown) && (f'.loop ==> f.loop)
    && (f.loop && !f'.loop ==> Undecided(pc))
    && (Undecided(pc') ==> Undecided(pc)) && (Undecided(pc) && !Undecided(pc') ==> !f'.loop || !f.shutdown)
  }

  lemma FlagStepLoopMove(cfg: Config, pc: Pc, f: Flags, me: Who, seen: nat)
    requires Common(pc) && !IsInversionPc(pc) && PcOk(pc, f.loop, f.loopLocked, f.shutdown)
    ensures var (pc', f') := FlagStep(cfg, pc, f, me, seen); LoopMove(pc, f, pc', f')
  {}

  lemma MoveKeepsRemaining(g: Group, h: Group, r: Role, pc: Pc, f: Flags, f': Flags)
    requires ZoneOf(g.low) == ZoneOf(g.At(r)) && f.loop == g.loop && f.shutdown
    requires LoopMove(g.At(r), f, pc, f') && (!f.loop ==> !Deciding(g))
    requires IsSer(g.At(r)) ==> Deciding(g) == Undecided(g.At(r))
    requires h == g.Go(r, pc).(loop := f'.loop, loopLocked := f'.loopLocked)
    ensures h.iters == g.iters && Remaining(h) == Remaining(g)
  {}

  lemma OneDecides(g: Group, r: Role, shutdown: bool)
    requires Core(g, shutdown)
    ensures !g.loop ==> !Deciding(g)
    ensures IsSer(g.At(r)) ==> Deciding(g) == Undecided(g.At(r))
  {}

  lemma FlagStepRemaining(cfg: Config, g: Group, me: Who, r: Role, seen: nat, serial: Role, shutOwner: Option<Who>)
    requires Core(g, true) && Common(g.At(r)) && !IsInversionPc(g.At(r))
    ensures var e := GroupStep(cfg, g, me, r, seen, serial, true, shutOwner);
      e.g.iters == g.iters && Remaining(e.g) == Remaining(g)
  {
    var f := Flags(g.loop, g.loopLocked, true, shutOwner);
    FlagStepLoopMove(cfg, g.At(r), f, me, seen);
    var (pc, f') := FlagStep(cfg, g.At(r), f, me, seen);
    OneDecides(g, r, true);
    FlagStepEffect(cfg, g, me, r, seen, serial, true, shutOwner);
    MoveKeepsRemaining(g, GroupStep(cfg, g, me, r, seen, serial, true, shutOwner).g, r, pc, f, f');
  }

  /** How far a thread is from the end of its present iteration, or from its exit once it leaves. */
  function Dist(r: Role, pc: Pc): nat {
    match pc
    case Ready => 40 case ReadyW => 39
    case IncTotal => 38 case IncDog => 37 case Check => 36
    case TopLock => 35 case TopSet => 34 case TopUnlock => 33
    case LoopLock => 32 case LoopRead => 31 case LoopGo => 30 case LoopB => 29 case LoopBW => 28
    case SerLock => 27 case SerRead => 26 case SerLoopLock => 25 case SerLoopSet => 24
    case SerLoopUnlock => 23 case SerUnlock => 22 case StartB => 21 case StartBW => 20
    case Lock => if r.Low? then 19 else 16
    case LockedB => 18 case LockedBW => 17
    case ElevB => 16 case ElevBW => 15 case Unlock => 14
    case FinB => 13 case FinBW => 12
    case LoopStop => 11 case EndLock => 10 case EndSet => 9 case EndUnlock => 8
    case DoneB => 7 case DoneBW => 6 case Exited => 0
  }

  /** Bounds the steps a group can still take before it completes an iteration or leaves. */
  function Lap(g: Group): nat { Dist(Low, g.low) + Dist(Med, g.med) + Dist(High, g.high) }

  const LAP: nat := 110        // Lap just after the release of finish_barrier

  /** Bounds the steps a group can still take once `shutdown` is set. */
  function Rank(g: Group): nat { 200 * Remaining(g) + Lap(g) }

  lemma FlagStepDist(cfg: Config, pc: Pc, f: Flags, me: Who, seen: nat, r: Role)
    requires Common(pc) && !IsInversionPc(pc)
    requires !pc.Ready? && !pc.ReadyW? && !pc.DoneB? && !pc.DoneBW? && !pc.Exited?
    requires !pc.LoopBW? && !pc.StartBW?
    ensures Dist(r, FlagStep(cfg, pc, f, me, seen).0) < Dist(r, pc)
  {}

  /** One step nearer to the exit, which comes after the same iteration as before. */
  predicate Closer(h: Group, g: Group) { h.iters + Remaining(h) == g.iters + Remaining(g) && Rank(h) < Rank(g) }

  /** One step on in the present iteration, or the step that completes it. */
  predicate Onward(h: Group, g: Group) {
    (h.iters == g.iters && Lap(h) < Lap(g)) || (h.iters == g.iters + 1 && Lap(h) == LAP > Lap(g))
  }

  lemma LastMeansAll(g: Group, r: Role, w: Pc)
    requires Last(g, r, w, 3)
    ensures var h := g.Go(r, w); h.low == w && h.med == w && h.high == w
  {}

  /** What the barriers of a group need to know of its discipline. */
  lemma CoreFacts(g: Group, r: Role, shutdown: bool)
    requires Core(g, shutdown)
    ensures g.At(r).LoopB? ==> g.loop
    ensures g.loop || shutdown
    ensures !g.med.LockedB? && !g.med.LockedBW? && !g.med.Lock? && !g.high.ElevB? && !g.high.ElevBW?
    ensures g.At(r).IncTotal? || g.At(r).IncDog? ==> r == High && !ZoneOf(g.low).Active?
  {}

  /** One thread moves within its stretch. */
  lemma MoveShutsDown(g: Group, r: Role, pc: Pc)
    requires Dist(r, pc) < Dist(r, g.At(r))
    requires ZoneOf(pc) == ZoneOf(g.At(r)) && Undecided(pc) == Undecided(g.At(r))
    ensures Closer(g.Go(r, pc), g)
    ensures Onward(g.Go(r, pc), g)
  {}

  lemma LoopReleaseShutsDown(h: Group, serial: Role)
    requires h.low.LoopBW? && h.med.LoopBW? && h.high.LoopBW? && h.loop
    ensures Closer(h.Release(LoopBW, serial), h)
    ensures Onward(h.Release(LoopBW, serial), h)
  {}

  lemma LoopBarrierShutsDown(g: Group, r: Role, serial: Role)
    requires g.At(r).LoopB? && g.loop
    ensures Closer(InversionStep(g, r, serial), g)
    ensures Onward(InversionStep(g, r, serial), g)
  {
    MoveShutsDown(g, r, LoopBW);
    if Last(g, r, LoopBW, 3) {
      LastMeansAll(g, r, LoopBW);
      LoopReleaseShutsDown(g.Go(r, LoopBW), serial);
    }
  }

  lemma StartReleaseShutsDown(h: Group, serial: Role)
    requires h.low.StartBW? && h.med.StartBW? && h.high.StartBW?
    ensures Closer(h.Release(StartBW, serial), h)
    ensures Onward(h.Release(StartBW, serial), h)
  {}

  lemma StartBarrierShutsDown(g: Group, r: Role, serial: Role)
    requires g.At(r).StartB?
    ensures Closer(InversionStep(g, r, serial), g)
    ensures Onward(InversionStep(g, r, serial), g)
  {
    MoveShutsDown(g, r, StartBW);
    if Last(g, r, StartBW, 3) {
      LastMeansAll(g, r, StartBW);
      StartReleaseShutsDown(g.Go(r, StartBW), serial);
    }
  }

  lemma FinishReleaseShutsDown(h: Group, serial: Role)
    requires h.low.FinBW? && h.med.FinBW? && h.high.FinBW?
    ensures Closer(h.Release(FinBW, serial).(iters := h.iters + 1), h)
    ensures Onward(h.Release(FinBW, serial).(iters := h.iters + 1), h)
  {}

  lemma FinishBarrierShutsDown(g: Group, r: Role, serial: Role)
    requires g.At(r).FinB?
    ensures Closer(InversionStep(g, r, serial), g)
    ensures Onward(InversionStep(g, r, serial), g)
  {
    FinishShape(g, r, serial);
    MoveShutsDown(g, r, FinBW);
    if Last(g, r, FinBW, 3) {
      LastMeansAll(g, r, FinBW);
      FinishReleaseShutsDown(g.Go(r, FinBW), serial);
    }
  }

  lemma LockedReleaseShutsDown(h: Group, serial: Role)
    requires h.low.LockedBW? && h.high.LockedBW? && !h.med.LockedBW?
    ensures Closer(h.Release(LockedBW, serial), h)
    ensures Onward(h.Release(LockedBW, serial), h)
  {
    assert h.Release(LockedBW, serial) == h.(low := ElevB, high := Lock);
  }

  lemma LockedBarrierShutsDown(g: Group, r: Role, serial: Role)
    requires g.At(r).LockedB? && !g.med.LockedB? && !g.med.LockedBW?
    ensures Closer(InversionStep(g, r, serial), g)
    ensures Onward(InversionStep(g, r, serial), g)
  {
    MoveShutsDown(g, r, LockedBW);
    if Last(g, r, LockedBW, 2) {
      LockedReleaseShutsDown(g.Go(r, LockedBW), serial);
    }
  }

  lemma ElevReleaseShutsDown(h: Group, serial: Role)
    requires h.low.ElevBW? && h.med.ElevBW? && !h.high.ElevBW?
    ensures Closer(h.Release(ElevBW, serial), h)
    ensures Onward(h.Release(ElevBW, serial), h)
  {
    assert h.Release(ElevBW, serial) == h.(low := Unlock, med := FinB);
  }

  lemma ElevBarrierShutsDown(g: Group, r: Role, serial: Role)
    requires g.At(r).ElevB? && !g.high.ElevB? && !g.high.ElevBW?
    ensures Closer(InversionStep(g, r, serial), g)
    ensures Onward(InversionStep(g, r, serial), g)
  {
    MoveShutsDown(g, r, ElevBW);
    if Last(g, r, ElevBW, 2) {
      ElevReleaseShutsDown(g.Go(r, ElevBW), serial);
    }
  }

  lemma MutexShutsDown(g: Group, r: Role, serial: Role)
    requires (g.At(r).Lock? && (r.Low? || r.High?)) || g.At(r).Unlock?
    ensures Closer(InversionStep(g, r, serial), g)
    ensures Onward(InversionStep(g, r, serial), g)
  {
    MoveShutsDown(g, r, if g.At(r).Unlock? then FinB else if r.Low? then LockedB else Unlock);
  }

  lemma StatisticsShutDown(g: Group, r: Role, serial: Role)
    requires r == High && !ZoneOf(g.low).Active? && (g.At(r).IncTotal? || g.At(r).IncDog?)
    ensures Closer(InversionStep(g, r, serial), g)
    ensures Onward(InversionStep(g, r, serial), g)
  {
    MoveShutsDown(g, r, if g.At(r).IncTotal? then IncDog else Check);
  }

  lemma InversionStepShutsDown(g: Group, r: Role, serial: Role, shutdown: bool)
    requires Core(g, shutdown) && Enabled(g, r, true) && IsInversionPc(g.At(r))
    ensures Closer(InversionStep(g, r, serial), g)
    ensures Onward(InversionStep(g, r, serial), g)
  {
    CoreFacts(g, r, shutdown);
    match g.At(r)
    case LoopB => LoopBarrierShutsDown(g, r, serial);
    case StartB => StartBarrierShutsDown(g, r, serial);
    case FinB => FinishBarrierShutsDown(g, r, serial);
    case LockedB => LockedBarrierShutsDown(g, r, serial);
    case ElevB => ElevBarrierShutsDown(g, r, serial);
    case IncTotal => StatisticsShutDown(g, r, serial);
    case IncDog => StatisticsShutDown(g, r, serial);
    case _ => MutexShutsDown(g, r, serial);
  }

  /** After `shutdown` every step brings the group closer to its exit, and the number of iterations it will
      have completed by then is already fixed. */
  lemma GroupStepShutsDown(cfg: Config, g: Group, me: Who, r: Role, seen: nat, serial: Role, shutOwner: Option<Who>)
    requires Core(g, true) && Enabled(g, r, shutOwner.None?)
    requires g.At(r) != Ready && g.At(r) != DoneB
    ensures var e := GroupStep(cfg, g, me, r, seen, serial, true, shutOwner);
      Closer(e.g, g)
  {
    if IsInversionPc(g.At(r)) {
      InversionStepShutsDown(g, r, serial, true);
    } else {
      FlagStepRemaining(cfg, g, me, r, seen, serial, shutOwner);
      FlagStepDist(cfg, g.At(r), Flags(g.loop, g.loopLocked, true, shutOwner), me, seen, r);
    }
  }

  /** With or without `shutdown` a step brings the group onward in its iteration. */
  lemma GroupStepOnward(cfg: Config, g: Group, me: Who, r: Role, seen: nat, serial: Role,
                        shutdown: bool, shutOwner: Option<Who>)
    requires Core(g, shutdown) && Enabled(g, r, shutOwner.None?)
    requires g.At(r) != Ready && g.At(r) != DoneB
    ensures Onward(GroupStep(cfg, g, me, r, seen, serial, shutdown, shutOwner).g, g)
  {
    if IsInversionPc(g.At(r)) {
      InversionStepShutsDown(g, r, serial, shutdown);
    } else {
      CanFlagStep(g, r, shutOwner.None?);
      FlagStepDist(cfg, g.At(r), Flags(g.loop, g.loopLocked, shutdown, shutOwner), me, seen, r);
    }
  }

  lemma SharedBarrierShutsDown(g: Group, r: Role, w: Pc)
    requires (g.At(r).Ready? && w.ReadyW?) || (g.At(r).DoneB? && w.DoneBW?)
    ensures Closer(g.Go(r, w), g)
    ensures Onward(g.Go(r, w), g)
  {
    MoveShutsDown(g, r, w);
  }

  lemma SharedReleaseShutsDown(g: Group, w: Pc, shutdown: bool)
    requires Core(g, shutdown) && g.Waiting(w) == 3 && (w.ReadyW? || w.DoneBW?)
    ensures Closer(g.Release(w, Low), g)
    ensures Onward(g.Release(w, Low), g)
  {
    assert g.low == w && g.med == w && g.high == w;
  }

  // ------------------------------------------------------------------ a bounded number of inversions

  /** High has compared its own `total` with the bound in this pass, and is on its way to loop_barr. */
  predicate HighChecked(pc: Pc) {
    pc.TopUnlock? || pc.LoopLock? || pc.LoopRead? || pc.LoopGo? || pc.LoopB? || pc.LoopBW?
  }

  /** With a bound of `n` inversions the group runs `n + 1` at most, whatever low and med read. */
  predicate WithinBound(g: Group, n: int, shutdown: bool) {
    match ZoneOf(g.low)
    case Boot => g.iters == 0
    case Top => g.iters <= n + 1 && (g.iters > n ==> !g.loop) && (g.iters >= n && HighChecked(g.high) ==> shutdown)
    case Serial => g.iters <= n && (g.iters == n ==> shutdown && (Deciding(g) || !g.loop))
    case Active => g.iters <= n && (g.iters == n ==> !g.loop)
  }

  predicate AboutToShut(pc: Pc) { pc.TopLock? || pc.TopSet? }

  /** As long as `shutdown` is raised by the group's own threads only, it is raised no earlier than after
      `n` inversions, and `loop` falls for the last iteration. */
  predicate AtLeastBound(g: Group, n: int, shutdown: bool) {
    && (shutdown || AboutToShut(g.low) || AboutToShut(g.med) || AboutToShut(g.high) ==> g.iters >= n)
    && (ZoneOf(g.low).Top? && !g.loop ==> g.iters > n)
  }

  /** What one step of the common code does to all that the bounds look at. */
  predicate BoundMove(n: int, pc: Pc, f: Flags, seen: nat, pc': Pc, f': Flags) {
    && LoopMove(pc, f, pc', f')
    && (HighChecked(pc') ==> HighChecked(pc) || f'.shutdown || seen < n)
  }

  lemma FlagStepBoundMove(cfg: Config, pc: Pc, f: Flags, me: Who, seen: nat)
    requires cfg.inversions >= 0 && Common(pc) && !IsInversionPc(pc) && !pc.Ready?
    requires PcOk(pc, f.loop, f.loopLocked, f.shutdown)
    ensures var (pc', f') := FlagStep(cfg, pc, f, me, seen); BoundMove(cfg.inversions, pc, f, seen, pc', f')
  {}

  lemma MoveWithinBound(g: Group, h: Group, r: Role, pc: Pc, n: int, f: Flags, seen: nat, f': Flags)
    requires ZoneOf(g.low) == ZoneOf(g.At(r)) && WithinBound(g, n, f.shutdown) && f.loop == g.loop
    requires BoundMove(n, g.At(r), f, seen, pc, f') && (r == High ==> seen == g.iters)
    requires h == g.Go(r, pc).(loop := f'.loop, loopLocked := f'.loopLocked)
    ensures WithinBound(h, n, f'.shutdown)
  {}

  lemma FlagStepKeepsBound(cfg: Config, g: Group, me: Who, r: Role, seen: nat, serial: Role,
                           shutdown: bool, shutOwner: Option<Who>)
    requires Core(g, shutdown) && cfg.inversions >= 0 && WithinBound(g, cfg.inversions, shutdown)
    requires Common(g.At(r)) && !IsInversionPc(g.At(r)) && !g.At(r).Ready?
    requires r == High ==> seen == g.total
    ensures var e := GroupStep(cfg, g, me, r, seen, serial, shutdown, shutOwner);
      WithinBound(e.g, cfg.inversions, e.shutdown)
  {
    var f := Flags(g.loop, g.loopLocked, shutdown, shutOwner);
    FlagStepBoundMove(cfg, g.At(r), f, me, seen);
    var (pc, f') := FlagStep(cfg, g.At(r), f, me, seen);
    var e := GroupStep(cfg, g, me, r, seen, serial, shutdown, shutOwner);
    FlagStepEffect(cfg, g, me, r, seen, serial, shutdown, shutOwner);
    MoveWithinBound(g, e.g, r, pc, cfg.inversions, f, seen, f');
  }

  lemma FlagStepKeepsAtLeast(cfg: Config, g: Group, me: Who, r: Role, seen: nat, serial: Role,
                             shutdown: bool, shutOwner: Option<Who>)
    requires Core(g, shutdown) && cfg.inversions >= 0 && AtLeastBound(g, cfg.inversions, shutdown)
    requires Common(g.At(r)) && !IsInversionPc(g.At(r)) && !g.At(r).Ready?
    requires seen <= g.total
    ensures var e := GroupStep(cfg, g, me, r, seen, serial, shutdown, shutOwner);
      AtLeastBound(e.g, cfg.inversions, e.shutdown)
  {
    FlagStepShape(cfg, g.At(r), Flags(g.loop, g.loopLocked, shutdown, shutOwner), me, seen);
  }

  predicate BoundsKept(g: Group, h: Group, n: int, shutdown: bool) {
    && (WithinBound(g, n, shutdown) ==> WithinBound(h, n, shutdown))
    && (AtLeastBound(g, n, shutdown) ==> AtLeastBound(h, n, shutdown))
  }

  /** One thread moves within its stretch. */
  lemma MoveKeepsBounds(g: Group, r: Role, pc: Pc, n: int, shutdown: bool)
    requires ZoneOf(pc) == ZoneOf(g.At(r)) && Undecided(pc) == Undecided(g.At(r))
    requires HighChecked(pc) == HighChecked(g.At(r)) && AboutToShut(pc) == AboutToShut(g.At(r))
    ensures BoundsKept(g, g.Go(r, pc), n, shutdown)
  {}

  lemma LoopReleaseKeepsBounds(h: Group, serial: Role, n: int, shutdown: bool)
    requires h.low.LoopBW? && h.med.LoopBW? && h.high.LoopBW? && h.loop
    ensures BoundsKept(h, h.Release(LoopBW, serial), n, shutdown)
  {}

  lemma LoopBarrierKeepsBounds(g: Group, r: Role, serial: Role, n: int, shutdown: bool)
    requires n >= 0 && g.At(r).LoopB? && g.loop
    ensures BoundsKept(g, InversionStep(g, r, serial), n, shutdown)
  {
    MoveKeepsBounds(g, r, LoopBW, n, shutdown);
    if Last(g, r, LoopBW, 3) {
      LastMeansAll(g, r, LoopBW);
      LoopReleaseKeepsBounds(g.Go(r, LoopBW), serial, n, shutdown);
    }
  }

  lemma StartReleaseKeepsBounds(h: Group, serial: Role, n: int, shutdown: bool)
    requires h.low.StartBW? && h.med.StartBW? && h.high.StartBW?
    ensures BoundsKept(h, h.Release(StartBW, serial), n, shutdown)
  {}

  lemma StartBarrierKeepsBounds(g: Group, r: Role, serial: Role, n: int, shutdown: bool)
    requires n >= 0 && g.At(r).StartB?
    ensures BoundsKept(g, InversionStep(g, r, serial), n, shutdown)
  {
    MoveKeepsBounds(g, r, StartBW, n, shutdown);
    if Last(g, r, StartBW, 3) {
      LastMeansAll(g, r, StartBW);
      StartReleaseKeepsBounds(g.Go(r, StartBW), serial, n, shutdown);
    }
  }

  lemma FinishReleaseKeepsBounds(h: Group, serial: Role, n: int, shutdown: bool)
    requires h.low.FinBW? && h.med.FinBW? && h.high.FinBW? && n >= 0 && (h.loop || shutdown)
    ensures BoundsKept(h, h.Release(FinBW, serial).(iters := h.iters + 1), n, shutdown)
  {}

  lemma FinishBarrierKeepsBounds(g: Group, r: Role, serial: Role, n: int, shutdown: bool)
    requires n >= 0 && g.At(r).FinB? && (g.loop || shutdown)
    ensures BoundsKept(g, InversionStep(g, r, serial), n, shutdown)
  {
    FinishShape(g, r, serial);
    MoveKeepsBounds(g, r, FinBW, n, shutdown);
    if Last(g, r, FinBW, 3) {
      LastMeansAll(g, r, FinBW);
      FinishReleaseKeepsBounds(g.Go(r, FinBW), serial, n, shutdown);
    }
  }

  lemma AfterPairStaysActive(w: Pc, r: Role, serial: Role)
    requires (w.LockedBW? && r != Med) || (w.ElevBW? && r != High)
    ensures ZoneOf(AfterBarrier(w, r, serial)).Active?
  {}

  lemma MutexStepShape(g: Group, r: Role, serial: Role)
    requires g.At(r).Lock? || g.At(r).Unlock?
    ensures var h := InversionStep(g, r, serial);
      h.iters == g.iters && h.loop == g.loop && ZoneOf(h.At(r)).Active?
  {}

  lemma PairBarrierShape(g: Group, r: Role, serial: Role)
    requires RoleOk(r, g.At(r)) && (g.At(r).LockedB? || g.At(r).ElevB?)
    ensures var h := InversionStep(g, r, serial);
      h.iters == g.iters && h.loop == g.loop && ZoneOf(h.At(r)).Active?
  {
    AfterPairStaysActive(if g.At(r).LockedB? then LockedBW else ElevBW, r, serial);
  }

  lemma MiddleStepKeepsBounds(g: Group, r: Role, serial: Role, n: int, shutdown: bool)
    requires Core(g, shutdown) && n >= 0 && Enabled(g, r, true)
    requires g.At(r).Lock? || g.At(r).Unlock? || g.At(r).LockedB? || g.At(r).ElevB?
    ensures BoundsKept(g, InversionStep(g, r, serial), n, shutdown)
  {
    if g.At(r).Lock? || g.At(r).Unlock? { MutexStepShape(g, r, serial); } else { PairBarrierShape(g, r, serial); }
    InversionStepKeepsCore(g, r, serial, shutdown);
    MidIsCore(g, r, shutdown);
    MidIsCore(InversionStep(g, r, serial), r, shutdown);
  }

  lemma StatisticsKeepBounds(g: Group, serial: Role, n: int, shutdown: bool)
    requires g.high.IncTotal? || g.high.IncDog?
    ensures BoundsKept(g, InversionStep(g, High, serial), n, shutdown)
  {}

  lemma InversionStepKeepsBounds(g: Group, r: Role, serial: Role, n: int, shutdown: bool)
    requires Core(g, shutdown) && n >= 0 && Enabled(g, r, true) && IsInversionPc(g.At(r))
    ensures BoundsKept(g, InversionStep(g, r, serial), n, shutdown)
  {
    CoreFacts(g, r, shutdown);
    match g.At(r)
    case LoopB => LoopBarrierKeepsBounds(g, r, serial, n, shutdown);
    case StartB => StartBarrierKeepsBounds(g, r, serial, n, shutdown);
    case FinB => FinishBarrierKeepsBounds(g, r, serial, n, shutdown);
    case IncTotal => StatisticsKeepBounds(g, serial, n, shutdown);
    case IncDog => StatisticsKeepBounds(g, serial, n, shutdown);
    case _ => MiddleStepKeepsBounds(g, r, serial, n, shutdown);
  }

  // ------------------------------------------------------------------ who can move

  predicate HoldsShut(pc: Pc) {
    || pc.TopSet? || pc.TopUnlock? || pc.EndSet? || pc.EndUnlock?
    || pc.SerRead? || pc.SerLoopLock? || pc.SerLoopSet? || pc.SerLoopUnlock? || pc.SerUnlock?
  }

  /** The thread inside a shutdown_mtx section is never blocked there, not even on loop_mtx. */
  lemma HolderCanMove(g: Group, r: Role, shutdown: bool, shutFree: bool)
    requires Core(g, shutdown) && HoldsShut(g.At(r))
    ensures Enabled(g, r, shutFree)
  {}

  /** If shutdown_mtx is free and still no thread of the group can move, all three wait for the other groups. */
  lemma OnlySharedBarriersBlock(g: Group, shutdown: bool)
    requires Core(g, shutdown) && !Enabled(g, Low, true) && !Enabled(g, Med, true) && !Enabled(g, High, true)
    ensures g.Waiting(ReadyW) == 3
         || forall r: Role :: g.At(r).DoneBW? || g.At(r).Exited?
  {
    assert !g.loopLocked;
    forall r: Role ensures g.Waiting(ReadyW) == 3 || g.At(r).DoneBW? || g.At(r).Exited? {
      assert !Enabled(g, r, true);
    }
  }

  /** Where a thread stands with respect to the barriers shared by all groups. */
  datatype Tag = Booting | AtReady | Inside | AtDone | Gone

  function TagOf(pc: Pc): Tag {
    match pc
    case Ready => Booting case ReadyW => AtReady case DoneBW => AtDone case Exited => Gone case _ => Inside
  }

  predicate Framed(g: Group, h: Group) {
    TagOf(h.low) == TagOf(g.low) && TagOf(h.med) == TagOf(g.med) && TagOf(h.high) == TagOf(g.high)
  }

  lemma FlagStepTag(cfg: Config, pc: Pc, f: Flags, me: Who, seen: nat)
    ensures TagOf(FlagStep(cfg, pc, f, me, seen).0) == TagOf(pc)
  {}

  /** Steps of the inversion do not concern shutdown_mtx either. */
  predicate Quiet(g: Group, h: Group) {
    && Framed(g, h)
    && HoldsShut(h.low) == HoldsShut(g.low) && HoldsShut(h.med) == HoldsShut(g.med)
    && HoldsShut(h.high) == HoldsShut(g.high)
  }

  predicate SameStanding(a: Pc, b: Pc) { TagOf(a) == TagOf(b) && HoldsShut(a) == HoldsShut(b) }

  lemma AfterBarrierQuiet(w: Pc, r: Role, serial: Role)
    requires TagOf(w).Inside? && !HoldsShut(w)
    ensures SameStanding(AfterBarrier(w, r, serial), w)
  {}

  lemma PickQuiet(a: Pc, w: Pc, x: Pc)
    requires SameStanding(x, w)
    ensures SameStanding(if a == w then x else a, a)
  {}

  lemma ReleaseQuiet(g: Group, w: Pc, serial: Role)
    requires TagOf(w).Inside? && !HoldsShut(w)
    ensures Quiet(g, g.Release(w, serial))
  {
    AfterBarrierQuiet(w, Low, serial);
    AfterBarrierQuiet(w, Med, serial);
    AfterBarrierQuiet(w, High, serial);
    PickQuiet(g.low, w, AfterBarrier(w, Low, serial));
    PickQuiet(g.med, w, AfterBarrier(w, Med, serial));
    PickQuiet(g.high, w, AfterBarrier(w, High, serial));
  }

  lemma GoQuiet(g: Group, r: Role, pc: Pc)
    requires SameStanding(pc, g.At(r))
    ensures Quiet(g, g.Go(r, pc))
  {}

  lemma ArriveQuiet(g: Group, r: Role, w: Pc, need: nat, serial: Role)
    requires TagOf(g.At(r)).Inside? && TagOf(w).Inside? && !HoldsShut(g.At(r)) && !HoldsShut(w)
    ensures Quiet(g, g.Arrive(r, w, need, serial))
  {
    GoQuiet(g, r, w);
    ReleaseQuiet(g.Go(r, w), w, serial);
  }

  lemma BarrierStepQuiet(g: Group, r: Role, serial: Role)
    requires g.At(r).LoopB? || g.At(r).StartB? || g.At(r).LockedB? || g.At(r).ElevB? || g.At(r).FinB?
    ensures Quiet(g, InversionStep(g, r, serial))
  {
    match g.At(r)
    case LoopB => ArriveQuiet(g, r, LoopBW, 3, serial);
    case StartB => ArriveQuiet(g, r, StartBW, 3, serial);
    case LockedB => ArriveQuiet(g, r, LockedBW, 2, serial);
    case ElevB => ArriveQuiet(g, r, ElevBW, 2, serial);
    case FinB => ArriveQuiet(g, r, FinBW, 3, serial);
  }

  lemma InversionStepQuiet(g: Group, r: Role, serial: Role)
    requires IsInversionPc(g.At(r))
    ensures Quiet(g, InversionStep(g, r, serial))
  {
    match g.At(r)
    case Lock => GoQuiet(g, r, if r == Low then LockedB else Unlock);
    case Unlock => GoQuiet(g, r, FinB);
    case IncTotal => GoQuiet(g, r, IncDog);
    case IncDog => GoQuiet(g, r, Check);
    case _ => BarrierStepQuiet(g, r, serial);
  }

  lemma GroupStepFrame(cfg: Config, g: Group, me: Who, r: Role, seen: nat, serial: Role,
                       shutdown: bool, shutOwner: Option<Who>)
    ensures Framed(g, GroupStep(cfg, g, me, r, seen, serial, shutdown, shutOwner).g)
  {
    if IsInversionPc(g.At(r)) {
      InversionStepQuiet(g, r, serial);
    } else {
      FlagStepTag(cfg, g.At(r), Flags(g.loop, g.loopLocked, shutdown, shutOwner), me, seen);
    }
  }

  /** `shutOwner` follows the thread that moved, and the other threads' claims to it do not change. */
  lemma FlagStepOwner(cfg: Config, pc: Pc, f: Flags, me: Who, seen: nat)
    requires HoldsShut(pc) <==> f.shutOwner == Some(me)
    requires (pc.TopLock? || pc.EndLock? || pc.SerLock?) ==> f.shutOwner.None?
    ensures var (pc', f') := FlagStep(cfg, pc, f, me, seen);
      && (HoldsShut(pc') <==> f'.shutOwner == Some(me))
      && (f'.shutOwner != f.shutOwner ==> {f.shutOwner, f'.shutOwner} == {None, Some(me)})
  {}
}
