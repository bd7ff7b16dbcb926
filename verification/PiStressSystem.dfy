/** The whole of pi_stress: any number of groups, main and its reporter, under every schedule. */
module PiStressSystem {
  import opened Options
  import opened Runs
  import opened Sums
  import opened PiStress
  import opened PiStressGroup

  // ------------------------------------------------------------------ the invariant

  predicate MainHoldsShut(pc: MainPc) {
    || pc.RRead? || pc.RGo? || pc.RStop? || pc.PRead? || pc.PUnlock? || pc.DurSet? || pc.DurUnlock?
    || pc.QSet? || pc.QUnlock? || pc.XSet? || pc.XUnlock?
  }

  /** Main has seen or raised `shutdown`. */
  predicate MainStops(pc: MainPc) {
    || pc.DurUnlock? || pc.RStop? || pc.QLock? || pc.QSet? || pc.QUnlock?
    || pc.XLock? || pc.XSet? || pc.XUnlock? || pc.XDone? || pc.XDoneW? || pc.XExited?
  }

  predicate MainBooting(pc: MainPc) { pc.MReady? || pc.MReadyW? }

  ghost function AtBarrier(w: Pc): Group -> nat { (g: Group) => g.Waiting(w) }

  ghost predicate GroupsOk(s: System) {
    forall i :: 0 <= i < |s.groups| ==> Core(s.groups[i], s.shutdown)
  }

  /** shutdown_mtx is owned by exactly the thread that is inside one of its critical sections. */
  ghost predicate OwnerOk(s: System) {
    && (forall i: nat, r: Role :: i < |s.groups| ==>
          (HoldsShut(s.groups[i].At(r)) <==> s.shutOwner == Some(Worker(i, r))))
    && (MainHoldsShut(s.main) <==> s.shutOwner == Some(Main))
    && (s.shutOwner.Some? && s.shutOwner.value.Worker? ==> s.shutOwner.value.group < |s.groups|)
  }

  predicate AllGone(g: Group) { g.low.Exited? && g.med.Exited? && g.high.Exited? }
  predicate NoneGone(g: Group) { !g.low.Exited? && !g.med.Exited? && !g.high.Exited? }

  /** Everybody leaves all_threads_ready together, and later everybody leaves all_threads_done together. */
  ghost predicate StagesOk(s: System) {
    && (forall i :: 0 <= i < |s.groups| ==> (ZoneOf(s.groups[i].low).Boot? <==> MainBooting(s.main)))
    && (forall i :: 0 <= i < |s.groups| ==> if s.main.XExited? then AllGone(s.groups[i]) else NoneGone(s.groups[i]))
  }

  ghost predicate MainOk(cfg: Config, s: System) {
    && (MainStops(s.main) ==> s.shutdown)
    && (s.main.DurLock? || s.main.DurSet? ==> cfg.timed && s.expired)
    && (cfg.timed && s.expired ==> s.shutdown || s.main.DurLock? || s.main.DurSet?)
  }

  ghost predicate Base(cfg: Config, s: System) {
    && |s.groups| == cfg.ngroups
    && GroupsOk(s) && OwnerOk(s) && StagesOk(s) && MainOk(cfg, s)
  }

  ghost predicate ReadyCount(s: System, extra: nat) {
    s.readyN + extra == SumBy(AtBarrier(ReadyW), s.groups) + if s.main.MReadyW? then 1 else 0
  }

  ghost predicate DoneCount(s: System, extra: nat) {
    s.doneN + extra == SumBy(AtBarrier(DoneBW), s.groups) + if s.main.XDoneW? then 1 else 0
  }

  ghost predicate Inv(cfg: Config, s: System) {
    && Base(cfg, s)
    && ReadyCount(s, 0) && s.readyN < Parties(cfg)
    && DoneCount(s, 0) && s.doneN < Parties(cfg)
  }

  ghost predicate Fresh(g: Group) {
    && g.low.Ready? && g.med.Ready? && g.high.Ready? && g.loop && !g.loopLocked && g.owner.None? && g.total == 0
    && g.lowRounds == g.medRounds == g.highRounds == g.iters == 0 && g.acquired == []
  }

  lemma FreshGroupOk(g: Group)
    requires Fresh(g)
    ensures Core(g, false) && ZoneOf(g.low).Boot? && NoneGone(g)
    ensures g.Waiting(ReadyW) == 0 && g.Waiting(DoneBW) == 0
    ensures forall r: Role :: !HoldsShut(g.At(r))
  {
    forall r: Role ensures !HoldsShut(g.At(r)) { match r case Low => case Med => case High => }
  }

  lemma FreshSystemOk(cfg: Config, s: System)
    requires |s.groups| == cfg.ngroups && s.main.MReady? && !s.shutdown && s.shutOwner.None? && !s.expired
    requires s.readyN == s.doneN == 0 && forall i :: 0 <= i < |s.groups| ==> Fresh(s.groups[i])
    ensures Inv(cfg, s)
  {
    FreshGroupsOk(s.groups);
    DetachedSums(s.groups, false);
    FreshBase(cfg, s);
  }

  lemma FreshBase(cfg: Config, s: System)
    requires |s.groups| == cfg.ngroups && s.main.MReady? && !s.shutdown && s.shutOwner.None? && !s.expired
    requires forall i :: 0 <= i < |s.groups| ==>
               Detached(s.groups[i], false) && ZoneOf(s.groups[i].low).Boot? && NoneGone(s.groups[i])
    ensures Base(cfg, s)
  {}

  lemma FreshGroupsOk(groups: seq<Group>)
    requires forall i :: 0 <= i < |groups| ==> Fresh(groups[i])
    ensures forall i :: 0 <= i < |groups| ==>
              Detached(groups[i], false) && ZoneOf(groups[i].low).Boot? && NoneGone(groups[i])
  {
    forall i | 0 <= i < |groups|
      ensures Detached(groups[i], false) && ZoneOf(groups[i].low).Boot? && NoneGone(groups[i])
    {
      FreshGroupOk(groups[i]);
    }
  }

  lemma InitInv(cfg: Config)
    ensures Inv(cfg, Init(cfg))
  {
    FreshSystemOk(cfg, Init(cfg));
  }

  /** A barrier of all threads is complete exactly when every thread of every group and main wait there. */
  lemma AllWaiting(cfg: Config, s: System, w: Pc, mainWaits: bool)
    requires |s.groups| == cfg.ngroups
    requires SumBy(AtBarrier(w), s.groups) + (if mainWaits then 1 else 0) == Parties(cfg)
    ensures mainWaits && forall i :: 0 <= i < |s.groups| ==> s.groups[i].Waiting(w) == 3
  {
    SumByAtMost(AtBarrier(w), s.groups, 3);
    forall i | 0 <= i < |s.groups| ensures s.groups[i].Waiting(w) == 3 {
      assert AtBarrier(w)(s.groups[i]) == 3;
    }
  }

  lemma ReleasedGroup(g: Group, w: Pc)
    requires g.Waiting(w) == 3 && (w.ReadyW? || w.DoneBW?)
    ensures var h := g.Release(w, Low);
      && h.Waiting(ReadyW) == 0 && h.Waiting(DoneBW) == 0
      && (w.ReadyW? ==> h.low.Check? && h.med.Check? && h.high.Check?)
      && (w.DoneBW? ==> AllGone(h))
      && forall r: Role :: !HoldsShut(h.At(r)) && !HoldsShut(g.At(r))
  {
    assert g.low == w && g.med == w && g.high == w;
    forall r: Role ensures !HoldsShut(g.Release(w, Low).At(r)) && !HoldsShut(g.At(r)) {
      match r case Low => case Med => case High =>
    }
  }

  /** No thread of either group holds shutdown_mtx or waits at a shared barrier. */
  ghost predicate Detached(g: Group, shutdown: bool) {
    && Core(g, shutdown) && g.Waiting(ReadyW) == 0 && g.Waiting(DoneBW) == 0
    && forall r: Role :: !HoldsShut(g.At(r))
  }

  lemma ReleasedGroups(s: System, w: Pc)
    requires GroupsOk(s) && (w.ReadyW? || w.DoneBW?)
    requires forall i :: 0 <= i < |s.groups| ==> s.groups[i].Waiting(w) == 3
    ensures var gs := ReleaseAll(s.groups, w);
      forall i: nat :: i < |gs| ==>
        && Detached(gs[i], s.shutdown)
        && (w.ReadyW? ==> gs[i].low.Check? && NoneGone(gs[i])) && (w.DoneBW? ==> AllGone(gs[i]))
        && forall r: Role :: !HoldsShut(s.groups[i].At(r))
  {
    var gs := ReleaseAll(s.groups, w);
    forall i: nat | i < |gs|
      ensures Detached(gs[i], s.shutdown)
      ensures (w.ReadyW? ==> gs[i].low.Check? && NoneGone(gs[i])) && (w.DoneBW? ==> AllGone(gs[i]))
      ensures forall r: Role :: !HoldsShut(s.groups[i].At(r))
    {
      ReleaseSharedBarrier(s.groups[i], w, s.shutdown);
      ReleasedGroup(s.groups[i], w);
    }
  }

  lemma DetachedSums(gs: seq<Group>, shutdown: bool)
    requires forall i :: 0 <= i < |gs| ==> Detached(gs[i], shutdown)
    ensures SumBy(AtBarrier(ReadyW), gs) == SumBy(AtBarrier(DoneBW), gs) == 0
  {
    SumByZero(AtBarrier(ReadyW), gs);
    SumByZero(AtBarrier(DoneBW), gs);
  }

  lemma NoOwner(s: System, t: System)
    requires OwnerOk(s) && |t.groups| == |s.groups| && !MainHoldsShut(s.main) && !MainHoldsShut(t.main)
    requires t.shutOwner == s.shutOwner
    requires forall i: nat, r: Role :: i < |t.groups| ==> !HoldsShut(s.groups[i].At(r)) && !HoldsShut(t.groups[i].At(r))
    ensures OwnerOk(t)
  {}

  lemma ReadyReleaseKeepsBase(cfg: Config, s: System, t: System)
    requires Base(cfg, s) && s.main.MReadyW? && t.main.RFirstSleep? && |t.groups| == |s.groups|
    requires t.shutdown == s.shutdown && t.expired == s.expired && OwnerOk(t)
    requires forall i :: 0 <= i < |t.groups| ==>
               Detached(t.groups[i], t.shutdown) && t.groups[i].low.Check? && NoneGone(t.groups[i])
    ensures Base(cfg, t)
  {}

  lemma ReadyReleaseCounts(cfg: Config, s: System)
    requires GroupsOk(s) && ReadyCount(s, 1) && DoneCount(s, 0) && |s.groups| == cfg.ngroups
    requires s.readyN + 1 == Parties(cfg)
    ensures var t := ArriveReady(cfg, s); ReadyCount(t, 0) && DoneCount(t, 0) && t.readyN == t.doneN == 0
  {
    AllWaiting(cfg, s, ReadyW, s.main.MReadyW?);
    ReleasedGroups(s, ReadyW);
    DetachedSums(ReleaseAll(s.groups, ReadyW), s.shutdown);
    AllReadyNoneDone(s);
  }

  lemma NoOwnerAtRelease(s: System, t: System, w: Pc)
    requires GroupsOk(s) && OwnerOk(s) && (w.ReadyW? || w.DoneBW?)
    requires forall i :: 0 <= i < |s.groups| ==> s.groups[i].Waiting(w) == 3
    requires t.groups == ReleaseAll(s.groups, w) && t.shutOwner == s.shutOwner
    requires !MainHoldsShut(s.main) && !MainHoldsShut(t.main)
    ensures OwnerOk(t)
  {
    ReleasedGroups(s, w);
    NoOwner(s, t);
  }

  lemma ReadyReleaseOwner(cfg: Config, s: System)
    requires GroupsOk(s) && OwnerOk(s) && ReadyCount(s, 1) && |s.groups| == cfg.ngroups
    requires s.readyN + 1 == Parties(cfg)
    ensures OwnerOk(ArriveReady(cfg, s))
  {
    AllWaiting(cfg, s, ReadyW, s.main.MReadyW?);
    NoOwnerAtRelease(s, ArriveReady(cfg, s), ReadyW);
  }

  lemma ReadyReleaseBase(cfg: Config, s: System)
    requires Base(cfg, s) && ReadyCount(s, 1) && s.readyN + 1 == Parties(cfg)
    requires OwnerOk(ArriveReady(cfg, s))
    ensures Base(cfg, ArriveReady(cfg, s))
  {
    AllWaiting(cfg, s, ReadyW, s.main.MReadyW?);
    ReleasedGroups(s, ReadyW);
    ReadyReleaseKeepsBase(cfg, s, ArriveReady(cfg, s));
  }

  lemma ReadyReleaseKeepsInv(cfg: Config, s: System)
    requires Base(cfg, s) && ReadyCount(s, 1) && DoneCount(s, 0) && s.readyN + 1 == Parties(cfg)
    ensures Inv(cfg, ArriveReady(cfg, s))
  {
    ReadyReleaseOwner(cfg, s);
    ReadyReleaseBase(cfg, s);
    ReadyReleaseCounts(cfg, s);
  }

  lemma ReadyArrivalKeepsInv(cfg: Config, s: System)
    requires Base(cfg, s) && ReadyCount(s, 1) && s.readyN < Parties(cfg)
    requires DoneCount(s, 0) && s.doneN < Parties(cfg)
    ensures Inv(cfg, ArriveReady(cfg, s))
  {
    if s.readyN + 1 == Parties(cfg) {
      ReadyReleaseKeepsInv(cfg, s);
    }
  }

  lemma AllReadyNoneDone(s: System)
    requires forall i :: 0 <= i < |s.groups| ==> s.groups[i].Waiting(ReadyW) == 3
    ensures SumBy(AtBarrier(DoneBW), s.groups) == 0
  {
    SumByZero(AtBarrier(DoneBW), s.groups);
  }

  lemma AllDoneNoneReady(s: System)
    requires forall i :: 0 <= i < |s.groups| ==> s.groups[i].Waiting(DoneBW) == 3
    ensures SumBy(AtBarrier(ReadyW), s.groups) == 0
  {
    SumByZero(AtBarrier(ReadyW), s.groups);
  }

  lemma DoneReleaseKeepsBase(cfg: Config, s: System, t: System)
    requires Base(cfg, s) && s.main.XDoneW? && t.main.XExited? && |t.groups| == |s.groups|
    requires t.shutdown == s.shutdown && OwnerOk(t)
    requires forall i :: 0 <= i < |t.groups| ==> Detached(t.groups[i], t.shutdown) && AllGone(t.groups[i])
    ensures Base(cfg, t)
  {}

  lemma DoneReleaseOwner(cfg: Config, s: System)
    requires GroupsOk(s) && OwnerOk(s) && DoneCount(s, 1) && |s.groups| == cfg.ngroups
    requires s.doneN + 1 == Parties(cfg)
    ensures OwnerOk(ArriveDone(cfg, s))
  {
    AllWaiting(cfg, s, DoneBW, s.main.XDoneW?);
    NoOwnerAtRelease(s, ArriveDone(cfg, s), DoneBW);
  }

  lemma DoneReleaseBase(cfg: Config, s: System)
    requires Base(cfg, s) && DoneCount(s, 1) && s.doneN + 1 == Parties(cfg)
    requires OwnerOk(ArriveDone(cfg, s))
    ensures Base(cfg, ArriveDone(cfg, s))
  {
    AllWaiting(cfg, s, DoneBW, s.main.XDoneW?);
    ReleasedGroups(s, DoneBW);
    DoneReleaseKeepsBase(cfg, s, ArriveDone(cfg, s));
  }

  lemma DoneReleaseCounts(cfg: Config, s: System)
    requires GroupsOk(s) && ReadyCount(s, 0) && DoneCount(s, 1) && |s.groups| == cfg.ngroups
    requires s.doneN + 1 == Parties(cfg)
    ensures var t := ArriveDone(cfg, s); ReadyCount(t, 0) && DoneCount(t, 0) && t.readyN == t.doneN == 0
  {
    AllWaiting(cfg, s, DoneBW, s.main.XDoneW?);
    ReleasedGroups(s, DoneBW);
    DetachedSums(ReleaseAll(s.groups, DoneBW), s.shutdown);
    AllDoneNoneReady(s);
  }

  lemma DoneReleaseKeepsInv(cfg: Config, s: System)
    requires Base(cfg, s) && ReadyCount(s, 0) && DoneCount(s, 1) && s.doneN + 1 == Parties(cfg)
    ensures Inv(cfg, ArriveDone(cfg, s))
  {
    DoneReleaseOwner(cfg, s);
    DoneReleaseBase(cfg, s);
    DoneReleaseCounts(cfg, s);
  }

  lemma DoneArrivalKeepsInv(cfg: Config, s: System)
    requires Base(cfg, s) && DoneCount(s, 1) && s.doneN < Parties(cfg)
    requires ReadyCount(s, 0) && s.readyN < Parties(cfg)
    ensures Inv(cfg, ArriveDone(cfg, s))
  {
    if s.doneN + 1 == Parties(cfg) {
      DoneReleaseKeepsInv(cfg, s);
    }
  }

  // ------------------------------------------------------------------ every step keeps it

  lemma SameTag(a: Pc, b: Pc)
    requires TagOf(a) == TagOf(b)
    ensures (a.ReadyW? <==> b.ReadyW?) && (a.DoneBW? <==> b.DoneBW?) && (a.Exited? <==> b.Exited?)
    ensures ZoneOf(a).Boot? <==> ZoneOf(b).Boot?
  {}

  lemma FramedCounts(g: Group, h: Group)
    requires Framed(g, h)
    ensures h.Waiting(ReadyW) == g.Waiting(ReadyW) && h.Waiting(DoneBW) == g.Waiting(DoneBW)
    ensures (NoneGone(h) <==> NoneGone(g)) && (AllGone(h) <==> AllGone(g))
    ensures ZoneOf(h.low).Boot? <==> ZoneOf(g.low).Boot?
  {
    SameTag(g.low, h.low);
    SameTag(g.med, h.med);
    SameTag(g.high, h.high);
  }

  /** Replacing one group by one with the same standing at the shared barriers. */
  lemma SumsUnchanged(s: System, i: nat, h: Group)
    requires i < |s.groups|
    requires h.Waiting(ReadyW) == s.groups[i].Waiting(ReadyW) && h.Waiting(DoneBW) == s.groups[i].Waiting(DoneBW)
    ensures SumBy(AtBarrier(ReadyW), s.groups[i := h]) == SumBy(AtBarrier(ReadyW), s.groups)
    ensures SumBy(AtBarrier(DoneBW), s.groups[i := h]) == SumBy(AtBarrier(DoneBW), s.groups)
  {
    SumByUpdate(AtBarrier(ReadyW), s.groups, i, h);
    SumByUpdate(AtBarrier(DoneBW), s.groups, i, h);
  }

  lemma OthersOk(s: System, shutdown: bool)
    requires GroupsOk(s) && (s.shutdown ==> shutdown)
    ensures forall i :: 0 <= i < |s.groups| ==> Core(s.groups[i], shutdown)
  {
    forall i | 0 <= i < |s.groups| ensures Core(s.groups[i], shutdown) {
      if s.shutdown != shutdown { CoreOutlastsShutdown(s.groups[i]); }
    }
  }

  /** The thread that moves may have taken or released shutdown_mtx; nobody else's claim changes. */
  lemma GroupStepOwner(cfg: Config, s: System, i: nat, r: Role, seen: nat, serial: Role)
    requires OwnerOk(s) && i < |s.groups| && Enabled(s.groups[i], r, s.shutOwner.None?)
    ensures var e := GroupStep(cfg, s.groups[i], Worker(i, r), r, seen, serial, s.shutdown, s.shutOwner);
      && (forall q: Role :: HoldsShut(e.g.At(q)) <==> e.shutOwner == Some(Worker(i, q)))
      && (e.shutOwner != s.shutOwner ==> {s.shutOwner, e.shutOwner} == {None, Some(Worker(i, r))})
  {
    var g := s.groups[i];
    var e := GroupStep(cfg, g, Worker(i, r), r, seen, serial, s.shutdown, s.shutOwner);
    if IsInversionPc(g.At(r)) {
      InversionStepQuiet(g, r, serial);
      forall q: Role ensures HoldsShut(e.g.At(q)) == HoldsShut(g.At(q)) {
        match q case Low => case Med => case High =>
      }
    } else {
      var f := Flags(g.loop, g.loopLocked, s.shutdown, s.shutOwner);
      FlagStepOwner(cfg, g.At(r), f, Worker(i, r), seen);
      var pc := FlagStep(cfg, g.At(r), f, Worker(i, r), seen).0;
      forall q: Role ensures HoldsShut(e.g.At(q)) <==> e.shutOwner == Some(Worker(i, q)) {
        assert e.g.At(q) == if q == r then pc else g.At(q);
      }
    }
  }

  lemma ReplaceGroupKeepsOwner(s: System, i: nat, e: Effect, me: Who)
    requires OwnerOk(s) && i < |s.groups| && me.Worker? && me.group == i
    requires forall q: Role :: HoldsShut(e.g.At(q)) <==> e.shutOwner == Some(Worker(i, q))
    requires e.shutOwner != s.shutOwner ==> {s.shutOwner, e.shutOwner} == {None, Some(me)}
    ensures OwnerOk(s.(groups := s.groups[i := e.g], shutdown := e.shutdown, shutOwner := e.shutOwner))
  {}

  lemma ReplaceGroupKeepsStages(cfg: Config, s: System, i: nat, h: Group)
    requires StagesOk(s) && i < |s.groups|
    requires NoneGone(h) <==> NoneGone(s.groups[i])
    requires AllGone(h) <==> AllGone(s.groups[i])
    requires ZoneOf(h.low).Boot? <==> ZoneOf(s.groups[i].low).Boot?
    ensures StagesOk(s.(groups := s.groups[i := h]))
  {}

  lemma ReplaceGroupKeepsGroups(s: System, i: nat, h: Group, shutdown: bool)
    requires GroupsOk(s) && i < |s.groups| && Core(h, shutdown) && (s.shutdown ==> shutdown)
    ensures GroupsOk(s.(groups := s.groups[i := h], shutdown := shutdown))
  {
    OthersOk(s, shutdown);
  }

  lemma ReplaceGroupKeepsBase(cfg: Config, s: System, i: nat, e: Effect)
    requires Base(cfg, s) && i < |s.groups|
    requires Core(e.g, e.shutdown) && (s.shutdown ==> e.shutdown)
    requires NoneGone(e.g) <==> NoneGone(s.groups[i])
    requires AllGone(e.g) <==> AllGone(s.groups[i])
    requires ZoneOf(e.g.low).Boot? <==> ZoneOf(s.groups[i].low).Boot?
    requires OwnerOk(s.(groups := s.groups[i := e.g], shutdown := e.shutdown, shutOwner := e.shutOwner))
    ensures Base(cfg, s.(groups := s.groups[i := e.g], shutdown := e.shutdown, shutOwner := e.shutOwner))
  {
    ReplaceGroupKeepsGroups(s, i, e.g, e.shutdown);
    ReplaceGroupKeepsStages(cfg, s, i, e.g);
  }

  /** One group and the flags change; the group's standing at the shared barriers does not. */
  lemma ReplaceGroupKeepsInv(cfg: Config, s: System, i: nat, e: Effect)
    requires Inv(cfg, s) && i < |s.groups|
    requires Core(e.g, e.shutdown) && (s.shutdown ==> e.shutdown)
    requires e.g.Waiting(ReadyW) == s.groups[i].Waiting(ReadyW) && e.g.Waiting(DoneBW) == s.groups[i].Waiting(DoneBW)
    requires NoneGone(e.g) <==> NoneGone(s.groups[i])
    requires AllGone(e.g) <==> AllGone(s.groups[i])
    requires ZoneOf(e.g.low).Boot? <==> ZoneOf(s.groups[i].low).Boot?
    requires OwnerOk(s.(groups := s.groups[i := e.g], shutdown := e.shutdown, shutOwner := e.shutOwner))
    ensures Inv(cfg, s.(groups := s.groups[i := e.g], shutdown := e.shutdown, shutOwner := e.shutOwner))
  {
    SumsUnchanged(s, i, e.g);
    ReplaceGroupKeepsBase(cfg, s, i, e);
  }

  lemma InnerStepKeepsInv(cfg: Config, s: System, i: nat, r: Role, seen: nat, serial: Role)
    requires Inv(cfg, s) && i < |s.groups| && Enabled(s.groups[i], r, s.shutOwner.None?)
    requires s.groups[i].At(r) != Ready && s.groups[i].At(r) != DoneB
    ensures Inv(cfg, WorkerStep(cfg, s, i, r, seen, serial))
  {
    var g, me := s.groups[i], Worker(i, r);
    GroupStepKeepsCore(cfg, g, me, r, seen, serial, s.shutdown, s.shutOwner);
    GroupStepFrame(cfg, g, me, r, seen, serial, s.shutdown, s.shutOwner);
    var e := GroupStep(cfg, g, me, r, seen, serial, s.shutdown, s.shutOwner);
    FramedCounts(g, e.g);
    GroupStepOwner(cfg, s, i, r, seen, serial);
    ReplaceGroupKeepsOwner(s, i, e, me);
    ReplaceGroupKeepsInv(cfg, s, i, e);
  }

  lemma SharedJoinShape(g: Group, r: Role, w: Pc)
    requires (g.At(r).Ready? && w.ReadyW?) || (g.At(r).DoneB? && w.DoneBW?)
    ensures var h := g.Go(r, w);
      && h.Waiting(ReadyW) == g.Waiting(ReadyW) + (if w.ReadyW? then 1 else 0)
      && h.Waiting(DoneBW) == g.Waiting(DoneBW) + (if w.DoneBW? then 1 else 0)
      && (ZoneOf(h.low).Boot? <==> ZoneOf(g.low).Boot?)
      && (NoneGone(g) <==> NoneGone(h)) && !AllGone(g)
      && (forall q: Role :: HoldsShut(h.At(q)) == HoldsShut(g.At(q)))
  {
    forall q: Role ensures HoldsShut(g.Go(r, w).At(q)) == HoldsShut(g.At(q)) {
      assert g.Go(r, w).At(q) == if q == r then w else g.At(q);
    }
  }

  lemma SharedJoinCounts(s: System, i: nat, r: Role, w: Pc)
    requires ReadyCount(s, 0) && DoneCount(s, 0) && i < |s.groups|
    requires var a := s.groups[i].At(r); (a.Ready? && w.ReadyW?) || (a.DoneB? && w.DoneBW?)
    ensures var t := s.(groups := s.groups[i := s.groups[i].Go(r, w)]);
      ReadyCount(t, if w.ReadyW? then 1 else 0) && DoneCount(t, if w.DoneBW? then 1 else 0)
  {
    var h := s.groups[i].Go(r, w);
    SharedJoinShape(s.groups[i], r, w);
    SumByUpdate(AtBarrier(ReadyW), s.groups, i, h);
    SumByUpdate(AtBarrier(DoneBW), s.groups, i, h);
  }

  lemma SameHoldersKeepOwner(s: System, i: nat, h: Group)
    requires OwnerOk(s) && i < |s.groups|
    requires forall q: Role :: HoldsShut(h.At(q)) == HoldsShut(s.groups[i].At(q))
    ensures OwnerOk(s.(groups := s.groups[i := h]))
  {}

  lemma SharedJoinKeepsBase(cfg: Config, s: System, i: nat, r: Role, w: Pc)
    requires Base(cfg, s) && ReadyCount(s, 0) && DoneCount(s, 0) && i < |s.groups|
    requires var a := s.groups[i].At(r); (a.Ready? && w.ReadyW?) || (a.DoneB? && w.DoneBW?)
    ensures var t := s.(groups := s.groups[i := s.groups[i].Go(r, w)]);
      && Base(cfg, t)
      && ReadyCount(t, if w.ReadyW? then 1 else 0) && DoneCount(t, if w.DoneBW? then 1 else 0)
  {
    var g := s.groups[i];
    var h := g.Go(r, w);
    JoinSharedBarrier(g, r, w, s.shutdown);
    SharedJoinShape(g, r, w);
    SharedJoinCounts(s, i, r, w);
    SameHoldersKeepOwner(s, i, h);
    ReplaceGroupKeepsBase(cfg, s, i, Effect(h, s.shutdown, s.shutOwner));
  }

  lemma WorkerStepKeepsInv(cfg: Config, s: System, i: nat, r: Role, seen: nat, serial: Role)
    requires Inv(cfg, s) && i < |s.groups| && Enabled(s.groups[i], r, s.shutOwner.None?)
    ensures Inv(cfg, WorkerStep(cfg, s, i, r, seen, serial))
  {
    var g := s.groups[i];
    if g.At(r) == Ready {
      SharedJoinKeepsBase(cfg, s, i, r, ReadyW);
      ReadyArrivalKeepsInv(cfg, s.(groups := s.groups[i := g.Go(r, ReadyW)]));
    } else if g.At(r) == DoneB {
      SharedJoinKeepsBase(cfg, s, i, r, DoneBW);
      DoneArrivalKeepsInv(cfg, s.(groups := s.groups[i := g.Go(r, DoneBW)]));
    } else {
      InnerStepKeepsInv(cfg, s, i, r, seen, serial);
    }
  }

  lemma ClearedDog(g: Group, shutdown: bool)
    requires Core(g, shutdown)
    ensures Core(g.(watchdog := 0), shutdown)
  {}

  /** Main moves without touching the groups or the barriers. */
  lemma MainAloneKeepsOwner(s: System, t: System)
    requires OwnerOk(s) && t.groups == s.groups
    requires MainHoldsShut(t.main) <==> t.shutOwner == Some(Main)
    requires t.shutOwner != s.shutOwner ==> {s.shutOwner, t.shutOwner} == {None, Some(Main)}
    ensures OwnerOk(t)
  {}

  lemma MainAloneKeepsInv(cfg: Config, s: System, t: System)
    requires Inv(cfg, s)
    requires t == s.(main := t.main, shutdown := t.shutdown, shutOwner := t.shutOwner, expired := t.expired)
    requires s.shutdown ==> t.shutdown
    requires MainHoldsShut(t.main) <==> t.shutOwner == Some(Main)
    requires t.shutOwner != s.shutOwner ==> {s.shutOwner, t.shutOwner} == {None, Some(Main)}
    requires MainOk(cfg, t)
    requires !MainBooting(s.main) && !MainBooting(t.main)
    requires !s.main.XDoneW? && !t.main.XDoneW? && !s.main.XExited? && !t.main.XExited?
    ensures Inv(cfg, t)
  {
    OthersOk(s, t.shutdown);
    MainAloneKeepsOwner(s, t);
  }

  lemma MainStepShape(cfg: Config, s: System, expired: bool)
    requires MainEnabled(s) && MainOk(cfg, s) && (MainHoldsShut(s.main) <==> s.shutOwner == Some(Main))
    requires !s.main.MReady? && !s.main.XDone? && !Clears(s)
    ensures var t := MainStep(cfg, s, expired);
      && t == s.(main := t.main, shutdown := t.shutdown, shutOwner := t.shutOwner, expired := t.expired)
      && (s.shutdown ==> t.shutdown)
      && (MainHoldsShut(t.main) <==> t.shutOwner == Some(Main))
      && (t.shutOwner != s.shutOwner ==> {s.shutOwner, t.shutOwner} == {None, Some(Main)})
      && MainOk(cfg, t)
      && !MainBooting(s.main) && !MainBooting(t.main)
      && !s.main.XDoneW? && !t.main.XDoneW? && !s.main.XExited? && !t.main.XExited?
  {}

  /** Main is about to clear the counter of a group. */
  predicate Clears(s: System) { s.main.Clear? && s.main.next < |s.groups| }

  lemma ClearedDogFrame(g: Group)
    ensures var h := g.(watchdog := 0);
      && h.Waiting(ReadyW) == g.Waiting(ReadyW) && h.Waiting(DoneBW) == g.Waiting(DoneBW)
      && forall r: Role :: h.At(r) == g.At(r)
  {
    forall r: Role ensures g.(watchdog := 0).At(r) == g.At(r) { match r case Low => case Med => case High => }
  }

  lemma ClearedDogKeepsInv(cfg: Config, s: System, i: nat)
    requires Inv(cfg, s) && i < |s.groups|
    ensures Inv(cfg, s.(groups := ClearDog(s.groups, i)))
  {
    var g := s.groups[i];
    var h := g.(watchdog := 0);
    ClearedDog(g, s.shutdown);
    ClearedDogFrame(g);
    SameHoldersKeepOwner(s, i, h);
    ReplaceGroupKeepsInv(cfg, s, i, Effect(h, s.shutdown, s.shutOwner));
  }

  lemma NextClearKeepsInv(cfg: Config, s: System)
    requires Inv(cfg, s) && s.main.Clear?
    ensures Inv(cfg, s.(main := Clear(s.main.next + 1)))
  {
    SameGroupsKeepBase(cfg, s, s.(main := Clear(s.main.next + 1)));
  }

  lemma ClearKeepsInv(cfg: Config, s: System)
    requires Inv(cfg, s) && Clears(s)
    ensures Inv(cfg, s.(main := Clear(s.main.next + 1), groups := ClearDog(s.groups, s.main.next)))
  {
    var u := s.(groups := ClearDog(s.groups, s.main.next));
    ClearedDogKeepsInv(cfg, s, s.main.next);
    NextClearKeepsInv(cfg, u);
  }

  /** Main moves to where it holds as much as before. */
  lemma SameGroupsKeepBase(cfg: Config, s: System, t: System)
    requires Base(cfg, s) && t.groups == s.groups && t.shutdown == s.shutdown && t.shutOwner == s.shutOwner
    requires MainHoldsShut(t.main) == MainHoldsShut(s.main) && MainBooting(t.main) == MainBooting(s.main)
    requires t.main.XExited? == s.main.XExited? && MainOk(cfg, t)
    ensures Base(cfg, t)
  {}

  predicate MainJoins(from: MainPc, to: MainPc) { (from.MReady? && to.MReadyW?) || (from.XDone? && to.XDoneW?) }

  lemma MainJoinCounts(s: System, main: MainPc)
    requires ReadyCount(s, 0) && DoneCount(s, 0) && MainJoins(s.main, main)
    ensures var t := s.(main := main);
      ReadyCount(t, if main.MReadyW? then 1 else 0) && DoneCount(t, if main.XDoneW? then 1 else 0)
  {}

  lemma MainJoinMeans(cfg: Config, s: System, main: MainPc)
    requires MainOk(cfg, s) && MainJoins(s.main, main)
    ensures MainHoldsShut(main) == MainHoldsShut(s.main) && MainBooting(main) == MainBooting(s.main)
    ensures main.XExited? == s.main.XExited? && MainOk(cfg, s.(main := main))
  {}

  lemma MainJoinKeepsBase(cfg: Config, s: System, main: MainPc)
    requires Base(cfg, s) && ReadyCount(s, 0) && DoneCount(s, 0) && MainJoins(s.main, main)
    ensures var t := s.(main := main);
      && Base(cfg, t)
      && ReadyCount(t, if main.MReadyW? then 1 else 0) && DoneCount(t, if main.XDoneW? then 1 else 0)
  {
    MainJoinMeans(cfg, s, main);
    SameGroupsKeepBase(cfg, s, s.(main := main));
    MainJoinCounts(s, main);
  }

  lemma MainArrives(cfg: Config, s: System, expired: bool)
    ensures s.main.MReady? ==> MainStep(cfg, s, expired) == ArriveReady(cfg, s.(main := MReadyW))
    ensures s.main.XDone? ==> MainStep(cfg, s, expired) == ArriveDone(cfg, s.(main := XDoneW))
  {}

  lemma MainArrivalKeepsInv(cfg: Config, s: System, expired: bool)
    requires Inv(cfg, s) && (s.main.MReady? || s.main.XDone?)
    ensures Inv(cfg, MainStep(cfg, s, expired))
  {
    MainArrives(cfg, s, expired);
    if s.main.MReady? {
      MainJoinKeepsBase(cfg, s, MReadyW);
      ReadyArrivalKeepsInv(cfg, s.(main := MReadyW));
    } else {
      MainJoinKeepsBase(cfg, s, XDoneW);
      DoneArrivalKeepsInv(cfg, s.(main := XDoneW));
    }
  }

  lemma MainAloneStepKeepsInv(cfg: Config, s: System, expired: bool)
    requires Inv(cfg, s) && MainEnabled(s) && !s.main.MReady? && !s.main.XDone? && !Clears(s)
    ensures Inv(cfg, MainStep(cfg, s, expired))
  {
    MainStepShape(cfg, s, expired);
    MainAloneKeepsInv(cfg, s, MainStep(cfg, s, expired));
  }

  lemma MainStepKeepsInv(cfg: Config, s: System, expired: bool)
    requires Inv(cfg, s) && MainEnabled(s)
    ensures Inv(cfg, MainStep(cfg, s, expired))
  {
    if s.main.MReady? || s.main.XDone? {
      MainArrivalKeepsInv(cfg, s, expired);
    } else if Clears(s) {
      ClearKeepsInv(cfg, s);
    } else {
      MainAloneStepKeepsInv(cfg, s, expired);
    }
  }

  lemma StepKeepsInv(cfg: Config, s: System, t: System)
    requires Inv(cfg, s) && Next(cfg, s, t)
    ensures Inv(cfg, t)
  {
    if i, r, seen, serial :| WorkerNext(cfg, s, t, i, r, seen, serial) {
      WorkerStepKeepsInv(cfg, s, i, r, seen, serial);
    } else {
      var expired :| MainNext(cfg, s, t, expired);
      MainStepKeepsInv(cfg, s, expired);
    }
  }

  // ------------------------------------------------------------------ reachable states

  lemma InvAlong(cfg: Config, run: seq<System>, k: nat)
    requires IsRun(Rel(cfg), run) && Inv(cfg, run[0]) && k < |run|
    ensures Inv(cfg, run[k])
  {
    forall s, t | Inv(cfg, s) && Next(cfg, s, t) ensures Inv(cfg, t) { StepKeepsInv(cfg, s, t); }
    InvariantAlong(Rel(cfg), s => Inv(cfg, s), run, k);
  }

  lemma ReachableInv(cfg: Config, run: seq<System>, k: nat)
    requires IsRun(Rel(cfg), run) && run[0] == Init(cfg) && k < |run|
    ensures Inv(cfg, run[k])
  {
    InitInv(cfg);
    InvAlong(cfg, run, k);
  }

  lemma ConsecutiveStates(cfg: Config, run: seq<System>, k: nat)
    requires IsRun(Rel(cfg), run) && k + 1 < |run|
    ensures Next(cfg, run[k], run[k + 1])
  {
    assert Rel(cfg)(run[k], run[k + 1]);
  }

  // ------------------------------------------------------------------ one group's discipline, over whole runs

  /** The mutex goes low, high, low, high, ..., one pair per iteration; low never finds it taken; nobody is bound
      for loop_barr while another has left; and threads that have left made equally many rounds. */
  ghost predicate Disciplined(g: Group) {
    && Alternates(g.acquired) && 2 * g.iters <= |g.acquired| <= 2 * g.iters + 2
    && (g.low.Lock? ==> g.owner.None? && |g.acquired| == 2 * g.iters)
    && (forall q: Role, r: Role :: !(Going(g.At(q)) && Leaving(g.At(r))))
    && (forall q: Role, r: Role :: Leaving(g.At(q)) ==> g.Rounds(r) == g.iters == g.Rounds(q))
  }

  lemma CoreDisciplined(g: Group, shutdown: bool)
    requires Core(g, shutdown)
    ensures Disciplined(g)
  {
    assert Leaving(g.low) || Leaving(g.med) || Leaving(g.high) ==>
        Entered(g.low) == 0 && Entered(g.med) == 0 && Entered(g.high) == 0;
    forall q: Role, r: Role ensures !(Going(g.At(q)) && Leaving(g.At(r))) {}
    forall q: Role, r: Role | Leaving(g.At(q)) ensures g.Rounds(r) == g.iters == g.Rounds(q) {
      match q case Low => case Med => case High =>
    }
  }

  lemma GroupsDisciplined(cfg: Config, run: seq<System>, k: nat, i: nat)
    requires IsRun(Rel(cfg), run) && run[0] == Init(cfg) && k < |run| && i < |run[k].groups|
    ensures Disciplined(run[k].groups[i])
  {
    ReachableInv(cfg, run, k);
    CoreDisciplined(run[k].groups[i], run[k].shutdown);
  }
}
