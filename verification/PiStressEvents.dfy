/** A run of pi_stress as the watchdog of one group sees it: what happens to the group's counters is a list of
    events of the watchdog's own model, with one look, one comparison and one clear in every pass of the reporter. */
module PiStressEvents {
  import opened Options
  import opened Runs
  import opened PiStress
  import opened PiStressGroup
  import opened PiStressSystem
  import opened PiStressProgress
  import W = Watchdog

  // ------------------------------------------------------------------ the events of one step

  /** What the step from s to t is for the watchdog of group i. */
  function EventsOf(s: System, t: System, i: nat): seq<W.Event>
    requires i < |s.groups| && i < |t.groups|
  {
    var g, h := s.groups[i], t.groups[i];
    if s.main == Watch(i) && t.main == Watch(i + 1) then [W.Look, W.Compare]
    else if s.main == Clear(i) && t.main == Clear(i + 1) then [W.Clear]
    else if g.high.IncTotal? && h.high.IncDog? then [W.Total]
    else if g.high.IncDog? && h.high.Check? then [W.Dog(g.watchdog)]
    else []
  }

  predicate SameCounters(g: Group, h: Group) { h.total == g.total && h.watchdog == g.watchdog }

  /** High is not at its statistics, or stays where it is. */
  predicate HighStays(g: Group, h: Group) { g.high.IncTotal? || g.high.IncDog? ==> h.high == g.high }

  /** What a step of one of the group's threads does to the counters. */
  predicate Ticked(g: Group, h: Group) {
    || (g.high.IncTotal? && h.high.IncDog? && h.total == g.total + 1 && h.watchdog == g.watchdog)
    || (g.high.IncDog? && h.high.Check? && h.total == g.total && h.watchdog == g.watchdog + 1)
    || (SameCounters(g, h) && HighStays(g, h))
  }

  lemma ReleaseTicks(g: Group, w: Pc, serial: Role)
    requires !w.IncTotal? && !w.IncDog?
    ensures var h := g.Release(w, serial); SameCounters(g, h) && HighStays(g, h)
  {}

  lemma ArriveTicks(g: Group, r: Role, w: Pc, need: nat, serial: Role)
    requires !w.IncTotal? && !w.IncDog? && !g.At(r).IncTotal? && !g.At(r).IncDog?
    ensures var h := g.Arrive(r, w, need, serial); SameCounters(g, h) && HighStays(g, h)
  {
    ReleaseTicks(g.Go(r, w), w, serial);
  }

  lemma BarrierStepTicks(g: Group, r: Role, serial: Role)
    requires g.At(r).LoopB? || g.At(r).StartB? || g.At(r).LockedB? || g.At(r).ElevB? || g.At(r).FinB?
    ensures Ticked(g, InversionStep(g, r, serial))
  {
    match g.At(r)
    case LoopB => ArriveTicks(g, r, LoopBW, 3, serial);
    case StartB => ArriveTicks(g, r, StartBW, 3, serial);
    case LockedB => ArriveTicks(g, r, LockedBW, 2, serial);
    case ElevB => ArriveTicks(g, r, ElevBW, 2, serial);
    case FinB => ArriveTicks(g, r, FinBW, 3, serial);
  }

  lemma InversionStepTicks(g: Group, r: Role, serial: Role, shutdown: bool)
    requires Core(g, shutdown) && IsInversionPc(g.At(r))
    ensures Ticked(g, InversionStep(g, r, serial))
  {
    CoreFacts(g, r, shutdown);
    if !g.At(r).Lock? && !g.At(r).Unlock? && !g.At(r).IncTotal? && !g.At(r).IncDog? {
      BarrierStepTicks(g, r, serial);
    }
  }

  lemma FlagStepTicks(cfg: Config, g: Group, me: Who, r: Role, seen: nat, serial: Role,
                      shutdown: bool, shutOwner: Option<Who>)
    requires !IsInversionPc(g.At(r))
    ensures Ticked(g, GroupStep(cfg, g, me, r, seen, serial, shutdown, shutOwner).g)
  {
    FlagStepEffect(cfg, g, me, r, seen, serial, shutdown, shutOwner);
  }

  lemma SharedTicks(g: Group, h: Group)
    requires (exists r, w :: Arrives(g, h, r, w)) || (exists w :: Released(g, h, w))
    ensures SameCounters(g, h) && HighStays(g, h)
  {
    if r, w :| Arrives(g, h, r, w) {
      ReleaseTicks(g.Go(r, w), w, Low);
    } else {
      var w :| Released(g, h, w);
      ReleaseTicks(g, w, Low);
    }
  }

  // ------------------------------------------------------------------ one step of the program

  function AfterAll(inversions: int, c: W.Counters, events: seq<W.Event>): W.Counters
    decreases events
  {
    if events == [] then c else AfterAll(inversions, W.After(inversions, c, events[0]), events[1..])
  }

  predicate Agree(g: Group, c: W.Counters) { c.total == g.total && c.watchdog == g.watchdog }

  /** The events of a step do to the watchdog's counters what the step does to the group's. */
  predicate Follows(inversions: int, s: System, t: System, i: nat, c: W.Counters) {
    && i < |s.groups| && i < |t.groups|
    && (Agree(s.groups[i], c) ==> Agree(t.groups[i], AfterAll(inversions, c, EventsOf(s, t, i))))
  }

  lemma OneEvent(inversions: int, c: W.Counters, e: W.Event)
    ensures AfterAll(inversions, c, [e]) == W.After(inversions, c, e)
  {}

  lemma LookAndCompare(inversions: int, c: W.Counters)
    ensures AfterAll(inversions, c, [W.Look, W.Compare])
         == W.After(inversions, W.After(inversions, c, W.Look), W.Compare)
  {
    assert [W.Look, W.Compare][1..] == [W.Compare];
    OneEvent(inversions, W.After(inversions, c, W.Look), W.Compare);
  }

  lemma TickedFollows(inversions: int, s: System, t: System, i: nat, c: W.Counters)
    requires i < |s.groups| && i < |t.groups| && Ticked(s.groups[i], t.groups[i])
    requires !(s.main == Watch(i) && t.main == Watch(i + 1)) && !(s.main == Clear(i) && t.main == Clear(i + 1))
    ensures Follows(inversions, s, t, i, c)
  {
    var es := EventsOf(s, t, i);
    if es != [] { OneEvent(inversions, c, es[0]); }
  }

  lemma WorkerTicks(cfg: Config, s: System, t: System, i: nat)
    requires i < |s.groups| && StepOnGroup(cfg, s, t, i) && Core(s.groups[i], s.shutdown)
    requires !(s.main == Clear(i) && t.main == Clear(i + 1))
    ensures Ticked(s.groups[i], t.groups[i])
  {
    var g := s.groups[i];
    if r, seen, serial :| Inner(cfg, s, t, i, r, seen, serial) {
      if IsInversionPc(g.At(r)) {
        InversionStepTicks(g, r, serial, s.shutdown);
      } else {
        FlagStepTicks(cfg, g, Worker(i, r), r, seen, serial, s.shutdown, s.shutOwner);
      }
    } else if !Elsewhere(s, t, i) {
      SharedTicks(g, t.groups[i]);
    }
  }

  lemma MainArrivalTicks(cfg: Config, s: System, expired: bool, i: nat)
    requires Inv(cfg, s) && (s.main.MReady? || s.main.XDone?) && i < |s.groups|
    ensures var t := MainStep(cfg, s, expired);
      i < |t.groups| && SameCounters(s.groups[i], t.groups[i]) && HighStays(s.groups[i], t.groups[i])
  {
    var t, w := MainStep(cfg, s, expired), if s.main.MReady? then ReadyW else DoneBW;
    MainArrivalOnGroup(cfg, s, expired, i);
    if t.groups[i] != s.groups[i] {
      assert Released(s.groups[i], t.groups[i], w);
      SharedTicks(s.groups[i], t.groups[i]);
    }
  }

  lemma ClearTicks(cfg: Config, s: System, expired: bool, i: nat)
    requires Clears(s) && i < |s.groups|
    ensures var t := MainStep(cfg, s, expired);
      && |t.groups| == |s.groups| && t.main == Clear(s.main.next + 1)
      && t.groups[i] == if s.main.next == i then s.groups[i].(watchdog := 0) else s.groups[i]
  {}

  lemma MainAloneTicks(cfg: Config, s: System, expired: bool)
    requires Inv(cfg, s) && MainEnabled(s) && !s.main.MReady? && !s.main.XDone? && !Clears(s)
    ensures MainStep(cfg, s, expired).groups == s.groups
  {
    MainStepShape(cfg, s, expired);
  }

  /** What main's step is for group i. */
  lemma MainTicks(cfg: Config, s: System, expired: bool, i: nat)
    requires Inv(cfg, s) && MainEnabled(s) && i < |s.groups|
    ensures var t := MainStep(cfg, s, expired);
      && i < |t.groups|
      && if s.main == Clear(i) then t.main == Clear(i + 1) && t.groups[i] == s.groups[i].(watchdog := 0)
         else SameCounters(s.groups[i], t.groups[i]) && HighStays(s.groups[i], t.groups[i])
  {
    if s.main.MReady? || s.main.XDone? {
      MainArrivalTicks(cfg, s, expired, i);
    } else if Clears(s) {
      ClearTicks(cfg, s, expired, i);
    } else {
      MainAloneTicks(cfg, s, expired);
    }
  }

  lemma WorkerFollows(cfg: Config, s: System, t: System, j: nat, r: Role, seen: nat, serial: Role,
                      i: nat, c: W.Counters)
    requires Inv(cfg, s) && WorkerNext(cfg, s, t, j, r, seen, serial) && i < |s.groups|
    ensures Follows(cfg.inversions, s, t, i, c)
  {
    assert Next(cfg, s, t);
    NextOnGroup(cfg, s, t, i);
    WorkerLeavesMain(cfg, s, t, j, r, seen, serial);
    WorkerTicks(cfg, s, t, i);
    TickedFollows(cfg.inversions, s, t, i, c);
  }

  /** The same for any step with which main does to group i what its position says. */
  lemma MainTicksFollow(inversions: int, s: System, t: System, i: nat, c: W.Counters)
    requires i < |s.groups| && i < |t.groups|
    requires if s.main == Clear(i) then t.main == Clear(i + 1) && t.groups[i] == s.groups[i].(watchdog := 0)
             else SameCounters(s.groups[i], t.groups[i]) && HighStays(s.groups[i], t.groups[i])
    ensures Follows(inversions, s, t, i, c)
  {
    if s.main == Clear(i) {
      OneEvent(inversions, c, W.Clear);
    } else if s.main == Watch(i) && t.main == Watch(i + 1) {
      LookAndCompare(inversions, c);
    } else {
      TickedFollows(inversions, s, t, i, c);
    }
  }

  lemma MainFollows(cfg: Config, s: System, expired: bool, i: nat, c: W.Counters)
    requires Inv(cfg, s) && MainEnabled(s) && i < |s.groups|
    ensures Follows(cfg.inversions, s, MainStep(cfg, s, expired), i, c)
  {
    MainTicks(cfg, s, expired, i);
    MainTicksFollow(cfg.inversions, s, MainStep(cfg, s, expired), i, c);
  }

  lemma StepFollows(cfg: Config, s: System, t: System, i: nat, c: W.Counters)
    requires Inv(cfg, s) && Next(cfg, s, t) && i < |s.groups|
    ensures Follows(cfg.inversions, s, t, i, c)
  {
    if j: nat, r: Role, seen: nat, serial: Role :| WorkerNext(cfg, s, t, j, r, seen, serial) {
      WorkerFollows(cfg, s, t, j, r, seen, serial, i, c);
    } else {
      var expired :| MainNext(cfg, s, t, expired);
      MainFollows(cfg, s, expired, i, c);
    }
  }

  // ------------------------------------------------------------------ lists of events

  lemma {:induction false} PlayOn(inversions: int, events: seq<W.Event>, more: seq<W.Event>)
    ensures W.Play(inversions, events + more) == AfterAll(inversions, W.Play(inversions, events), more)
    decreases more
  {
    if more == [] {
      assert events + more == events;
    } else {
      W.PlayNext(inversions, events, more[0]);
      PlayOn(inversions, events + [more[0]], more[1..]);
      assert events + [more[0]] + more[1..] == events + more;
    }
  }

  /** Whose turn it is. */
  predicate MayFollow(stage: W.Stage, e: W.Event) {
    match e
    case Look => stage.Outside?
    case Compare => stage.Looked?
    case Clear => stage.Compared?
    case _ => true
  }

  function StageAfter(stage: W.Stage, e: W.Event): W.Stage {
    match e
    case Look => W.Looked
    case Compare => W.Compared
    case Clear => W.Outside
    case _ => stage
  }

  lemma InTurnNext(events: seq<W.Event>, e: W.Event)
    requires W.InTurn(events) && MayFollow(W.StageOf(events), e)
    ensures W.InTurn(events + [e]) && W.StageOf(events + [e]) == StageAfter(W.StageOf(events), e)
  {
    var more := events + [e];
    assert more[..|events|] == events;
    forall p | 0 <= p < |more| ensures MayFollow(W.StageOf(more[..p]), more[p]) {
      if p < |events| {
        assert more[..p] == events[..p] && more[p] == events[p];
        assert MayFollow(W.StageOf(events[..p]), events[p]);
      }
    }
  }

  function Looks(events: seq<W.Event>): nat {
    if events == [] then 0
    else Looks(events[..|events| - 1]) + if events[|events| - 1].Look? then 1 else 0
  }

  lemma LooksNext(events: seq<W.Event>, e: W.Event)
    ensures Looks(events + [e]) == Looks(events) + if e.Look? then 1 else 0
  {
    assert (events + [e])[..|events|] == events;
  }

  // ------------------------------------------------------------------ whole runs

  /** Main's place in its pass says where the watchdog stands with group i. */
  function StageFor(main: MainPc, i: nat): W.Stage {
    if (main.Watch? && main.next > i) || (main.Clear? && main.next <= i) then W.Compared else W.Outside
  }

  /** Main has set out for its check and not yet come to group i. */
  predicate OnItsWay(main: MainPc, i: nat) { main.Watch? && main.next <= i }

  /** Main goes from the test of the duration to a watchdog check. */
  predicate SetsOut(s: System, t: System) { s.main.Timer? && !t.main.Timer? && !t.main.DurLock? }

  predicate InPass(pc: MainPc) { pc.Watch? || pc.Clear? }

  /** How main may move through a pass. */
  predicate PassStep(n: nat, pc: MainPc, pc': MainPc) {
    match pc
    case Watch(k) => pc' == pc || pc' == if k < n then Watch(k + 1) else Clear(0)
    case Clear(k) => pc' == pc || pc' == if k < n then Clear(k + 1) else RLock
    case Timer => pc' == pc || pc' == Watch(0) || pc' == DurLock
    case _ => !InPass(pc')
  }

  lemma MainPasses(cfg: Config, s: System, t: System)
    requires Next(cfg, s, t)
    ensures PassStep(|s.groups|, s.main, t.main)
  {
    if j: nat, r: Role, seen: nat, serial: Role :| WorkerNext(cfg, s, t, j, r, seen, serial) {
      WorkerLeavesMain(cfg, s, t, j, r, seen, serial);
    } else {
      var expired :| MainNext(cfg, s, t, expired);
    }
  }

  predicate LooksAt(s: System, t: System, i: nat) { s.main == Watch(i) && t.main == Watch(i + 1) }

  predicate ClearsAt(s: System, t: System, i: nat) { s.main == Clear(i) && t.main == Clear(i + 1) }

  function One(b: bool): nat { if b then 1 else 0 }

  /** Main's way through a pass, apart from the look at group i and the clear. */
  lemma StageOfStep(s: System, t: System, i: nat)
    requires i < |s.groups| && PassStep(|s.groups|, s.main, t.main) && !LooksAt(s, t, i) && !ClearsAt(s, t, i)
    ensures StageFor(t.main, i) == StageFor(s.main, i)
    ensures One(OnItsWay(t.main, i)) == One(OnItsWay(s.main, i)) + One(SetsOut(s, t))
  {}

  lemma QuietInTurn(log: seq<W.Event>, es: seq<W.Event>)
    requires W.InTurn(log) && (es == [] || (|es| == 1 && (es[0].Total? || es[0].Dog?)))
    ensures W.InTurn(log + es) && W.StageOf(log + es) == W.StageOf(log) && Looks(log + es) == Looks(log)
  {
    if es == [] {
      assert log + es == log;
    } else {
      InTurnNext(log, es[0]);
      LooksNext(log, es[0]);
      assert log + es == log + [es[0]];
    }
  }

  lemma TurnOfStep(s: System, t: System, i: nat, log: seq<W.Event>)
    requires i < |s.groups| && i < |t.groups| && PassStep(|s.groups|, s.main, t.main)
    requires W.InTurn(log) && W.StageOf(log) == StageFor(s.main, i)
    ensures W.InTurn(log + EventsOf(s, t, i)) && W.StageOf(log + EventsOf(s, t, i)) == StageFor(t.main, i)
    ensures Looks(log + EventsOf(s, t, i)) + One(OnItsWay(t.main, i))
         == Looks(log) + One(OnItsWay(s.main, i)) + One(SetsOut(s, t))
  {
    if LooksAt(s, t, i) {
      LookAndCompareInTurn(log);
    } else if ClearsAt(s, t, i) {
      InTurnNext(log, W.Clear);
      LooksNext(log, W.Clear);
    } else {
      StageOfStep(s, t, i);
      QuietInTurn(log, EventsOf(s, t, i));
    }
  }

  lemma LookAndCompareInTurn(log: seq<W.Event>)
    requires W.InTurn(log) && W.StageOf(log).Outside?
    ensures var more := log + [W.Look, W.Compare];
      W.InTurn(more) && W.StageOf(more).Compared? && Looks(more) == Looks(log) + 1
  {
    InTurnNext(log, W.Look);
    LooksNext(log, W.Look);
    InTurnNext(log + [W.Look], W.Compare);
    LooksNext(log + [W.Look], W.Compare);
    assert log + [W.Look, W.Compare] == log + [W.Look] + [W.Compare];
  }

  /** The events of group i in the first k steps. */
  ghost function Log(run: seq<System>, i: nat, k: nat): seq<W.Event>
    requires k < |run|
  {
    if k == 0 then []
    else
      Log(run, i, k - 1)
      + if i < |run[k - 1].groups| && i < |run[k].groups| then EventsOf(run[k - 1], run[k], i) else []
  }

  /** The steps among the first k with which the reporter set out for a watchdog check. */
  ghost function Passes(run: seq<System>, k: nat): nat
    requires k < |run|
  {
    if k == 0 then 0 else Passes(run, k - 1) + One(SetsOut(run[k - 1], run[k]))
  }

  ghost predicate Mirrors(cfg: Config, run: seq<System>, i: nat, k: nat)
    requires k < |run|
  {
    var log := Log(run, i, k);
    && i < |run[k].groups| && Agree(run[k].groups[i], W.Play(cfg.inversions, log))
    && W.InTurn(log) && W.StageOf(log) == StageFor(run[k].main, i)
    && Looks(log) + One(OnItsWay(run[k].main, i)) == Passes(run, k)
  }

  lemma MirrorsNext(cfg: Config, run: seq<System>, i: nat, k: nat)
    requires k + 1 < |run| && Mirrors(cfg, run, i, k) && i < |run[k + 1].groups|
    requires PassStep(|run[k].groups|, run[k].main, run[k + 1].main)
    requires Follows(cfg.inversions, run[k], run[k + 1], i, W.Play(cfg.inversions, Log(run, i, k)))
    ensures Mirrors(cfg, run, i, k + 1)
  {
    var log, es := Log(run, i, k), EventsOf(run[k], run[k + 1], i);
    PlayOn(cfg.inversions, log, es);
    TurnOfStep(run[k], run[k + 1], i, log);
    assert Log(run, i, k + 1) == log + es;
  }

  lemma MirrorsInRun(cfg: Config, run: seq<System>, i: nat, k: nat)
    requires IsRun(Rel(cfg), run) && run[0] == Init(cfg) && k + 1 < |run| && i < cfg.ngroups
    ensures Mirrors(cfg, run, i, k) ==> Mirrors(cfg, run, i, k + 1)
  {
    ReachableInv(cfg, run, k);
    ConsecutiveStates(cfg, run, k);
    SameNumberOfGroups(cfg, run, k + 1);
    StepFollows(cfg, run[k], run[k + 1], i, W.Play(cfg.inversions, Log(run, i, k)));
    MainPasses(cfg, run[k], run[k + 1]);
    if Mirrors(cfg, run, i, k) { MirrorsNext(cfg, run, i, k); }
  }

  lemma StartsEmpty(cfg: Config, s: System, i: nat)
    requires s == Init(cfg) && i < cfg.ngroups
    ensures i < |s.groups| && s.groups[i].total == s.groups[i].watchdog == 0 && s.main.MReady?
  {}

  lemma {:induction false} MirrorsAlong(cfg: Config, run: seq<System>, i: nat, k: nat)
    requires k < |run| && Mirrors(cfg, run, i, 0)
    requires forall n: nat :: n < k ==> Mirrors(cfg, run, i, n) ==> Mirrors(cfg, run, i, n + 1)
    ensures Mirrors(cfg, run, i, k)
  {
    if k > 0 {
      MirrorsAlong(cfg, run, i, k - 1);
      assert Mirrors(cfg, run, i, k - 1) ==> Mirrors(cfg, run, i, k - 1 + 1);
    }
  }

  /** In every run, the counters of each group are those that the watchdog's model computes from the group's events;
      the reporter looks, compares and clears in turn; and it has looked at the group once in every pass for which it
      set out.  So whatever holds of all lists of events that are in turn holds of every run. */
  lemma RunsMirrorWatchdog(cfg: Config, run: seq<System>, i: nat, k: nat)
    requires IsRun(Rel(cfg), run) && run[0] == Init(cfg) && k < |run| && i < cfg.ngroups
    ensures Mirrors(cfg, run, i, k)
  {
    StartsEmpty(cfg, run[0], i);
    forall n: nat | n < k ensures Mirrors(cfg, run, i, n) ==> Mirrors(cfg, run, i, n + 1) {
      MirrorsInRun(cfg, run, i, n);
    }
    MirrorsAlong(cfg, run, i, k);
  }
}
