/** The aligned start of cyclictest's threads: two barriers around one reading of the clock. */
module AlignedStart {
  import opened Runs
  import opened Timespecs

  /** `secaligned` instead of aligned; offset in nanoseconds, of either sign. */
  datatype Config = Config(threads: nat, secaligned: bool, offset: int)

  datatype Pc =
    | Enter                 // pthread_barrier_wait(&globalt_barr)
    | InGlobalt             // waiting there
    | Clock                 // clock_gettime(&globalt), thread 0 only
    | Second                // move globalt to a full second, thread 0 only
    | Align                 // pthread_barrier_wait(&align_barr)
    | InAlign               // waiting there
    | Take                  // now = globalt, add the offset
    | Started

  /** `starts[i]` is `now` of thread i once it has started; `readings` lists the clock readings: history. */
  datatype System = System(pcs: seq<Pc>, globalt: Time, starts: seq<Time>, readings: seq<Time>)

  /** globalt after a reading of the clock. */
  function SecondAfter(t: Time): Time {
    Time(if t.nsec > 900000000 then t.sec + 2 else t.sec + 1, 0)
  }

  function Base(cfg: Config, reading: Time): Time {
    if cfg.secaligned then SecondAfter(reading) else reading
  }

  function StartOf(cfg: Config, base: Time, thread: nat): Time {
    if cfg.offset == 0 then base
    else Normed(base.(nsec := base.nsec + if cfg.secaligned then cfg.offset else cfg.offset * thread))
  }

  predicate IsInit(cfg: Config, s: System) {
    && |s.pcs| == |s.starts| == cfg.threads && s.readings == []
    && forall i :: 0 <= i < cfg.threads ==> s.pcs[i] == Enter
  }

  predicate AllOthers(pcs: seq<Pc>, i: nat, pc: Pc) {
    forall j :: 0 <= j < |pcs| && j != i ==> pcs[j] == pc
  }

  /** Thread i acts; `time` is the clock, if it reads it.  The last thread to reach a barrier releases all. */
  datatype Action = Action(thread: nat, time: Time)

  predicate Possible(s: System, a: Action) {
    && a.thread < |s.pcs| == |s.starts| && a.time.Normal()
    && !s.pcs[a.thread].InGlobalt? && !s.pcs[a.thread].InAlign? && !s.pcs[a.thread].Started?
  }

  function AfterGlobalt(n: nat): (pcs: seq<Pc>)
    ensures |pcs| == n && forall i :: 0 <= i < n ==> pcs[i] == if i == 0 then Clock else Align
  {
    seq(n, i => if i == 0 then Clock else Align)
  }

  function AfterAlign(n: nat): (pcs: seq<Pc>)
    ensures |pcs| == n && forall i :: 0 <= i < n ==> pcs[i] == Take
  {
    seq(n, _ => Take)
  }

  function Act(cfg: Config, s: System, a: Action): System
    requires Possible(s, a)
  {
    var i := a.thread;
    match s.pcs[i]
    case Enter =>
      s.(pcs := if AllOthers(s.pcs, i, InGlobalt) then AfterGlobalt(|s.pcs|) else s.pcs[i := InGlobalt])
    case Clock =>
      s.(pcs := s.pcs[i := if cfg.secaligned then Second else Align],
         globalt := a.time, readings := s.readings + [a.time])
    case Second => s.(pcs := s.pcs[i := Align], globalt := SecondAfter(s.globalt))
    case Align =>
      s.(pcs := if AllOthers(s.pcs, i, InAlign) then AfterAlign(|s.pcs|) else s.pcs[i := InAlign])
    case Take => s.(pcs := s.pcs[i := Started], starts := s.starts[i := StartOf(cfg, s.globalt, i)])
    case _ => s
  }

  ghost predicate Next(cfg: Config, s: System, t: System) {
    exists a: Action :: Possible(s, a) && t == Act(cfg, s, a)
  }

  ghost function Rel(cfg: Config): (System, System) -> bool {
    (s: System, t: System) => Next(cfg, s, t)
  }

  // ------------------------------------------------------------------ the three phases

  predicate Arriving(pc: Pc) { pc.Enter? || pc.InGlobalt? }
  predicate Aligning(pc: Pc) { pc.Align? || pc.InAlign? }
  predicate Leaving(pc: Pc) { pc.Take? || pc.Started? }

  ghost predicate FirstPhase(s: System) {
    && s.readings == [] && (forall i :: 0 <= i < |s.pcs| ==> Arriving(s.pcs[i]))
    && exists i :: 0 <= i < |s.pcs| && s.pcs[i] == Enter
  }

  /** Thread 0 has read the clock, and moved globalt to its final value. */
  ghost predicate HasBase(cfg: Config, s: System) {
    |s.readings| == 1 && s.readings[0].Normal() && s.globalt == Base(cfg, s.readings[0])
  }

  ghost predicate SecondPhase(cfg: Config, s: System) {
    && (forall i :: 1 <= i < |s.pcs| ==> Aligning(s.pcs[i]))
    && (exists i :: 0 <= i < |s.pcs| && !s.pcs[i].InAlign?)
    && match s.pcs[0]
       case Clock => s.readings == []
       case Second => cfg.secaligned && |s.readings| == 1 && s.globalt == s.readings[0] && s.readings[0].Normal()
       case _ => Aligning(s.pcs[0]) && HasBase(cfg, s)
  }

  ghost predicate LastPhase(cfg: Config, s: System) {
    && HasBase(cfg, s) && |s.starts| == |s.pcs|
    && forall i :: 0 <= i < |s.pcs| ==>
         Leaving(s.pcs[i]) && (s.pcs[i].Started? ==> s.starts[i] == StartOf(cfg, Base(cfg, s.readings[0]), i))
  }

  ghost predicate Inv(cfg: Config, s: System) {
    && |s.pcs| == |s.starts| == cfg.threads > 0
    && (FirstPhase(s) || SecondPhase(cfg, s) || LastPhase(cfg, s))
  }

  lemma FirstStep(cfg: Config, s: System, a: Action)
    requires |s.pcs| == |s.starts| == cfg.threads > 0 && FirstPhase(s) && Possible(s, a)
    ensures FirstPhase(Act(cfg, s, a)) || SecondPhase(cfg, Act(cfg, s, a))
  {
    var t := Act(cfg, s, a);
    assert s.pcs[a.thread].Enter?;
    if AllOthers(s.pcs, a.thread, InGlobalt) {
      assert t.pcs[0] == Clock;
    } else {
      var j :| 0 <= j < |s.pcs| && j != a.thread && s.pcs[j] != InGlobalt;
      assert t.pcs[j] == Enter;
    }
  }

  lemma SecondStep(cfg: Config, s: System, a: Action)
    requires |s.pcs| == |s.starts| == cfg.threads > 0 && SecondPhase(cfg, s) && Possible(s, a)
    ensures SecondPhase(cfg, Act(cfg, s, a)) || LastPhase(cfg, Act(cfg, s, a))
  {
    var t := Act(cfg, s, a);
    if s.pcs[a.thread].Align? {
      if AllOthers(s.pcs, a.thread, InAlign) {
        assert Aligning(s.pcs[0]);
      } else {
        var j :| 0 <= j < |s.pcs| && j != a.thread && s.pcs[j] != InAlign;
        assert !t.pcs[j].InAlign?;
      }
    } else {
      assert a.thread == 0;
      assert !t.pcs[0].InAlign?;
    }
  }

  lemma LastStep(cfg: Config, s: System, a: Action)
    requires |s.pcs| == |s.starts| == cfg.threads > 0 && LastPhase(cfg, s) && Possible(s, a)
    ensures LastPhase(cfg, Act(cfg, s, a))
  {
    assert Leaving(s.pcs[a.thread]);
  }

  lemma RunKeepsInv(cfg: Config, run: seq<System>, i: nat)
    requires IsRun(Rel(cfg), run) && IsInit(cfg, run[0]) && cfg.threads > 0 && i < |run|
    ensures Inv(cfg, run[i])
  {
    assert run[0].pcs[0] == Enter;
    forall s, t | Inv(cfg, s) && Rel(cfg)(s, t) ensures Inv(cfg, t) {
      var a: Action :| Possible(s, a) && t == Act(cfg, s, a);
      if FirstPhase(s) {
        FirstStep(cfg, s, a);
      } else if SecondPhase(cfg, s) {
        SecondStep(cfg, s, a);
      } else {
        LastStep(cfg, s, a);
      }
    }
    InvariantAlong(Rel(cfg), (s: System) => Inv(cfg, s), run, i);
  }

  /** The start of a thread's grid, in nanoseconds after the common base. */
  function Displacement(cfg: Config, thread: nat): int {
    if cfg.secaligned then cfg.offset else cfg.offset * thread
  }

  lemma StartIsDisplaced(cfg: Config, base: Time, thread: nat)
    ensures StartOf(cfg, base, thread).Total() == base.Total() + Displacement(cfg, thread)
    ensures base.Normal() && cfg.offset >= 0 ==> StartOf(cfg, base, thread).Normal()
  {
    if cfg.offset == 0 {
      assert cfg.offset * thread == 0;
    } else if cfg.offset > 0 {
      assert cfg.offset * thread >= 0;
    }
  }

  /** A full second at least 0.1 s and less than 1.1 s after the reading. */
  lemma SecondAfterIsClose(t: Time)
    requires t.Normal()
    ensures SecondAfter(t).nsec == 0
    ensures 100000000 <= SecondAfter(t).Total() - t.Total() < 1100000000
  {}

  /** In every run the clock is read once at most, and every thread that has started took its start from that
      one reading: at multiples of the offset after it, or all at one offset from a second shortly after it. */
  lemma AllStartFromOneReading(cfg: Config, run: seq<System>, i: nat, thread: nat)
    requires IsRun(Rel(cfg), run) && IsInit(cfg, run[0]) && cfg.threads > 0 && i < |run|
    requires thread < cfg.threads
    ensures |run[i].pcs| == |run[i].starts| == cfg.threads && |run[i].readings| <= 1
    ensures run[i].pcs[thread].Started? ==>
      && |run[i].readings| == 1
      && var reading, start := run[i].readings[0], run[i].starts[thread];
         && start.Total() == Base(cfg, reading).Total() + Displacement(cfg, thread)
         && (cfg.offset >= 0 ==> start.Normal())
         && (!cfg.secaligned ==> start.Total() == reading.Total() + cfg.offset * thread)
         && (cfg.secaligned ==> 100000000 <= start.Total() - cfg.offset - reading.Total() < 1100000000)
  {
    RunKeepsInv(cfg, run, i);
    var s := run[i];
    if s.pcs[thread].Started? {
      assert LastPhase(cfg, s);
      StartIsDisplaced(cfg, Base(cfg, s.readings[0]), thread);
      SecondAfterIsClose(s.readings[0]);
    }
  }

  /** No run gets stuck before all threads have started. */
  lemma SomeThreadCanAct(cfg: Config, run: seq<System>, i: nat)
    requires IsRun(Rel(cfg), run) && IsInit(cfg, run[0]) && cfg.threads > 0 && i < |run|
    ensures (exists a: Action :: Possible(run[i], a))
         || (|run[i].pcs| == cfg.threads && forall j :: 0 <= j < cfg.threads ==> run[i].pcs[j].Started?)
  {
    RunKeepsInv(cfg, run, i);
    var s := run[i];
    if j :| 0 <= j < |s.pcs| && !s.pcs[j].InGlobalt? && !s.pcs[j].InAlign? && !s.pcs[j].Started? {
      assert Possible(s, Action(j, Time(0, 0)));
    }
  }
}
