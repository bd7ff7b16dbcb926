/** pi_stress: groups of three threads (low, med, high) that stage a priority inversion over and over,
    a shared `shutdown` flag, and the main thread with its reporter loop.  One step is one access to
    shared state by one thread; any enabled thread may take the next step. */
module PiStress {
  import opened Options

  datatype Role = Low | Med | High

  /** Where a worker stands.  A name ending in `W` means: arrived at that barrier and waiting. */
  datatype Pc =
    | Ready | ReadyW
    | Check                                   // p->total >= p->inversions ?
    | TopLock | TopSet | TopUnlock            // set_shutdown_flag at the top of the loop
    | LoopLock | LoopRead | LoopGo | LoopStop // read `loop` under loop_mtx; unlock and go on / leave
    | LoopB | LoopBW
    | SerLock | SerRead | SerLoopLock | SerLoopSet | SerLoopUnlock | SerUnlock // SERIAL thread only
    | StartB | StartBW
    | Lock | LockedB | LockedBW | ElevB | ElevBW | Unlock
    | FinB | FinBW
    | IncTotal | IncDog                       // high only
    | EndLock | EndSet | EndUnlock            // set_shutdown_flag after the loop
    | DoneB | DoneBW | Exited

  datatype MainPc =
    | MReady | MReadyW
    | RFirstSleep
    | RLock | RRead | RGo | RStop             // head of the reporter loop
    | RSleep
    | PLock | PRead | PUnlock                 // print the running total under shutdown_mtx
    | Timer                                   // duration expired ?
    | DurLock | DurSet | DurUnlock
    | Watch(next: nat) | Clear(next: nat)     // the loops of watchdog_check and watchdog_clear, at group `next`
    | QLock | QSet | QUnlock                  // set_shutdown_flag at the end of reporter
    | XLock | XSet | XUnlock                  // set_shutdown_flag in main
    | XDone | XDoneW | XExited

  datatype Who = Worker(group: nat, role: Role) | Main

  /** `inversions` < 0 means unbounded; `timed` says that a duration was given, so the reporter may shut down. */
  datatype Config = Config(ngroups: nat, inversions: int, timed: bool)

  /** What is guarded by the two flag mutexes, and the state of those mutexes. */
  datatype Flags = Flags(loop: bool, loopLocked: bool, shutdown: bool, shutOwner: Option<Who>)

  /** One group: thread positions and the fields of struct group_parameters.  How many threads have arrived
      at a barrier is the number of threads waiting there.  `rounds` counts a thread's arrivals at loop_barr,
      `iters` the releases of finish_barrier, `acquired` lists who took the group mutex: history only. */
  datatype Group = Group(
    low: Pc, med: Pc, high: Pc,
    loop: bool, loopLocked: bool, owner: Option<Role>,
    total: nat, watchdog: nat,
    lowRounds: nat, medRounds: nat, highRounds: nat, iters: nat, acquired: seq<Role>)
  {
    function At(r: Role): Pc {
      match r case Low => low case Med => med case High => high
    }

    function Go(r: Role, pc: Pc): Group {
      match r case Low => this.(low := pc) case Med => this.(med := pc) case High => this.(high := pc)
    }

    function Rounds(r: Role): nat {
      match r case Low => lowRounds case Med => medRounds case High => highRounds
    }

    function NextRound(r: Role): Group {
      match r
      case Low => this.(lowRounds := lowRounds + 1)
      case Med => this.(medRounds := medRounds + 1)
      case High => this.(highRounds := highRounds + 1)
    }

    function Waiting(w: Pc): nat {
      (if low == w then 1 else 0) + (if med == w then 1 else 0) + (if high == w then 1 else 0)
    }

    /** Every thread waiting at `w` returns from the barrier. */
    function Release(w: Pc, serial: Role): Group {
      this.(low := if low == w then AfterBarrier(w, Low, serial) else low,
            med := if med == w then AfterBarrier(w, Med, serial) else med,
            high := if high == w then AfterBarrier(w, High, serial) else high)
    }

    /** pthread_barrier_wait: the `need`-th arrival lets everybody go. */
    function Arrive(r: Role, w: Pc, need: nat, serial: Role): Group {
      var a := Go(r, w);
      if a.Waiting(w) == need then a.Release(w, serial) else a
    }
  }

  /** `expired` says that the reporter has found the duration over: history. */
  datatype System = System(
    groups: seq<Group>, main: MainPc,
    shutdown: bool, shutOwner: Option<Who>,
    readyN: nat, doneN: nat, expired: bool)

  /** What a thread does after the barrier at which it waited; only the serial thread looks at `shutdown`. */
  function AfterBarrier(w: Pc, r: Role, serial: Role): Pc {
    match w
    case ReadyW => Check
    case LoopBW => if r == serial then SerLock else StartB
    case StartBW => if r == Med then ElevB else if r == Low then Lock else LockedB
    case LockedBW => if r == Low then ElevB else Lock
    case ElevBW => if r == Low then Unlock else FinB
    case FinBW => if r == High then IncTotal else Check
    case DoneBW => Exited
    case _ => w
  }

  function InitGroup(): Group {
    Group(Ready, Ready, Ready, true, false, None, 0, 0, 0, 0, 0, 0, [])
  }

  function Init(cfg: Config): System {
    System(seq(cfg.ngroups, _ => InitGroup()), MReady, false, None, 0, 0, false)
  }

  function Parties(cfg: Config): nat { 3 * cfg.ngroups + 1 }

  // ------------------------------------------------------------------ steps of a worker

  /** Barrier waits, and lock attempts on a held lock, are the only things that block. */
  predicate Enabled(g: Group, r: Role, shutFree: bool) {
    match g.At(r)
    case TopLock | EndLock | SerLock => shutFree
    case LoopLock | SerLoopLock => !g.loopLocked
    case Lock => g.owner.None?
    case ReadyW | LoopBW | StartBW | LockedBW | ElevBW | FinBW | DoneBW | Exited => false
    case _ => true
  }

  /** The code around the loop, the same for all three threads: it moves one thread and touches only flags.
      `seen` is the value of `total` the thread reads. */
  function FlagStep(cfg: Config, pc: Pc, f: Flags, me: Who, seen: nat): (Pc, Flags) {
    match pc
    case Check => (if cfg.inversions >= 0 && seen >= cfg.inversions then TopLock else LoopLock, f)
    case TopLock => (TopSet, f.(shutOwner := Some(me)))
    case TopSet => (TopUnlock, f.(shutdown := true))
    case TopUnlock => (LoopLock, f.(shutOwner := None))
    case LoopLock => (LoopRead, f.(loopLocked := true))
    case LoopRead => (if f.loop then LoopGo else LoopStop, f)
    case LoopGo => (LoopB, f.(loopLocked := false))
    case LoopStop => (EndLock, f.(loopLocked := false))
    case SerLock => (SerRead, f.(shutOwner := Some(me)))
    case SerRead => (if f.shutdown then SerLoopLock else SerUnlock, f)
    case SerLoopLock => (SerLoopSet, f.(loopLocked := true))
    case SerLoopSet => (SerLoopUnlock, f.(loop := false))
    case SerLoopUnlock => (SerUnlock, f.(loopLocked := false))
    case SerUnlock => (StartB, f.(shutOwner := None))
    case EndLock => (EndSet, f.(shutOwner := Some(me)))
    case EndSet => (EndUnlock, f.(shutdown := true))
    case EndUnlock => (DoneB, f.(shutOwner := None))
    case _ => (pc, f)
  }

  /** Steps inside the inversion itself: the group's barriers, its mutex and its statistics.
      `serial` is whom loop_barr names should this arrival release it. */
  function InversionStep(g: Group, r: Role, serial: Role): Group {
    match g.At(r)
    case LoopB => g.Arrive(r, LoopBW, 3, serial).NextRound(r)
    case StartB => g.Arrive(r, StartBW, 3, serial)
    case Lock => g.Go(r, if r == Low then LockedB else Unlock).(owner := Some(r), acquired := g.acquired + [r])
    case LockedB => g.Arrive(r, LockedBW, 2, serial)
    case ElevB => g.Arrive(r, ElevBW, 2, serial)
    case Unlock => g.Go(r, FinB).(owner := None)
    case FinB =>
      var a := g.Arrive(r, FinBW, 3, serial);
      if a.At(r) == FinBW then a else a.(iters := g.iters + 1)
    case IncTotal => g.Go(r, IncDog).(total := g.total + 1)
    case IncDog => g.Go(r, Check).(watchdog := g.watchdog + 1)
    case _ => g
  }

  predicate IsInversionPc(pc: Pc) {
    || pc.LoopB? || pc.StartB? || pc.Lock? || pc.LockedB? || pc.ElevB? || pc.Unlock? || pc.FinB?
    || pc.IncTotal? || pc.IncDog?
  }

  /** The group, `shutdown` and the owner of shutdown_mtx, as a worker's step leaves them. */
  datatype Effect = Effect(g: Group, shutdown: bool, shutOwner: Option<Who>)

  function GroupStep(cfg: Config, g: Group, me: Who, r: Role, seen: nat, serial: Role,
                     shutdown: bool, shutOwner: Option<Who>): Effect
  {
    if IsInversionPc(g.At(r)) then Effect(InversionStep(g, r, serial), shutdown, shutOwner)
    else
      var (pc, f) := FlagStep(cfg, g.At(r), Flags(g.loop, g.loopLocked, shutdown, shutOwner), me, seen);
      Effect(g.Go(r, pc).(loop := f.loop, loopLocked := f.loopLocked), f.shutdown, f.shutOwner)
  }

  function ReleaseAll(groups: seq<Group>, w: Pc): seq<Group> {
    seq(|groups|, i requires 0 <= i < |groups| => groups[i].Release(w, Low))
  }

  function ArriveReady(cfg: Config, s: System): System {
    if s.readyN + 1 == Parties(cfg)
    then s.(groups := ReleaseAll(s.groups, ReadyW), readyN := 0,
            main := if s.main == MReadyW then RFirstSleep else s.main)
    else s.(readyN := s.readyN + 1)
  }

  function ArriveDone(cfg: Config, s: System): System {
    if s.doneN + 1 == Parties(cfg)
    then s.(groups := ReleaseAll(s.groups, DoneBW), doneN := 0,
            main := if s.main == XDoneW then XExited else s.main)
    else s.(doneN := s.doneN + 1)
  }

  function WorkerStep(cfg: Config, s: System, i: nat, r: Role, seen: nat, serial: Role): System
    requires i < |s.groups|
  {
    var g := s.groups[i];
    if g.At(r) == Ready then ArriveReady(cfg, s.(groups := s.groups[i := g.Go(r, ReadyW)]))
    else if g.At(r) == DoneB then ArriveDone(cfg, s.(groups := s.groups[i := g.Go(r, DoneBW)]))
    else
      var e := GroupStep(cfg, g, Worker(i, r), r, seen, serial, s.shutdown, s.shutOwner);
      s.(groups := s.groups[i := e.g], shutdown := e.shutdown, shutOwner := e.shutOwner)
  }

  /** Thread `r` of group `i` moves.  High alone writes `total`, so it reads the current value;
      low and med may read any value it had before. */
  ghost predicate WorkerNext(cfg: Config, s: System, t: System, i: nat, r: Role, seen: nat, serial: Role) {
    && i < |s.groups|
    && Enabled(s.groups[i], r, s.shutOwner.None?)
    && seen <= s.groups[i].total
    && (r == High ==> seen == s.groups[i].total)
    && t == WorkerStep(cfg, s, i, r, seen, serial)
  }

  // ------------------------------------------------------------------ steps of main and its reporter

  predicate MainEnabled(s: System) {
    match s.main
    case RLock | PLock | DurLock | QLock | XLock => s.shutOwner.None?
    case MReadyW | XDoneW | XExited => false
    case _ => true
  }

  function ClearDog(groups: seq<Group>, n: nat): seq<Group>
    requires n < |groups|
  {
    groups[n := groups[n].(watchdog := 0)]
  }

  function MainStep(cfg: Config, s: System, expired: bool): System {
    match s.main
    case MReady => ArriveReady(cfg, s.(main := MReadyW))
    case RFirstSleep => s.(main := RLock)
    case RLock => s.(main := RRead, shutOwner := Some(Main))
    case RRead => s.(main := if s.shutdown then RStop else RGo)
    case RGo => s.(main := RSleep, shutOwner := None)
    case RStop => s.(main := QLock, shutOwner := None)
    case RSleep => s.(main := PLock)
    case PLock => s.(main := PRead, shutOwner := Some(Main))
    case PRead => s.(main := PUnlock)
    case PUnlock => s.(main := Timer, shutOwner := None)
    case Timer => s.(main := if cfg.timed && expired then DurLock else Watch(0), expired := s.expired || expired)
    case DurLock => s.(main := DurSet, shutOwner := Some(Main))
    case DurSet => s.(main := DurUnlock, shutdown := true)
    case DurUnlock => s.(main := RLock, shutOwner := None)
    case Watch(n) => s.(main := if n < |s.groups| then Watch(n + 1) else Clear(0))
    case Clear(n) =>
      if n < |s.groups| then s.(main := Clear(n + 1), groups := ClearDog(s.groups, n)) else s.(main := RLock)
    case QLock => s.(main := QSet, shutOwner := Some(Main))
    case QSet => s.(main := QUnlock, shutdown := true)
    case QUnlock => s.(main := XLock, shutOwner := None)
    case XLock => s.(main := XSet, shutOwner := Some(Main))
    case XSet => s.(main := XUnlock, shutdown := true)
    case XUnlock => s.(main := XDone, shutOwner := None)
    case XDone => ArriveDone(cfg, s.(main := XDoneW))
    case _ => s
  }

  ghost predicate MainNext(cfg: Config, s: System, t: System, expired: bool) {
    MainEnabled(s) && t == MainStep(cfg, s, expired)
  }

  ghost predicate Next(cfg: Config, s: System, t: System) {
    || (exists i, r, seen, serial :: WorkerNext(cfg, s, t, i, r, seen, serial))
    || (exists expired :: MainNext(cfg, s, t, expired))
  }

  ghost function Rel(cfg: Config): (System, System) -> bool {
    (s: System, t: System) => Next(cfg, s, t)
  }
}
