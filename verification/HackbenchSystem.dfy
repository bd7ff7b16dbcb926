/** All groups of hackbench behind the ready/go gate: workers report ready, main counts them and writes one
    byte that nobody consumes, and main ends when every worker has returned. */
module HackbenchSystem {
  import opened Arith
  import opened Runs
  import opened Sums
  import opened Hackbench

  /** A worker before its ready byte, in poll(), and past poll(). */
  datatype Phase = Starting | Polling | Going

  datatype MainPc = Counting | Kicking | Reaping | Ended

  /** `phases` is indexed like child_tab.  `readyBytes` and `wakeBytes` are in the two pipes; `counted` is
      the loop variable with which main reads the ready bytes. */
  datatype System = System(
    groups: seq<Group>, phases: seq<Phase>,
    readyBytes: nat, counted: nat, wakeBytes: nat, main: MainPc)

  /** Places in child_tab: a group's receivers come first, then its senders. */
  function ReceiverId(cfg: Config, g: nat, c: nat): nat { g * (2 * cfg.fds) + c }
  function SenderId(cfg: Config, g: nat, t: nat): nat { g * (2 * cfg.fds) + cfg.fds + t }

  function Init(cfg: Config): System {
    System(seq(cfg.groups, _ => InitGroup(cfg)), seq(cfg.Children(), _ => Starting), 0, 0, 0, Counting)
  }

  lemma GroupOfPlace(w: nat, d: nat, groups: nat)
    requires w < groups * d
    ensures d > 0 && w / d < groups
  {
    if d > 0 && w / d >= groups { MultipleMonotone(groups, w / d, d); }
  }

  lemma PlaceIs(w: nat, d: nat, g: nat, k: nat)
    requires k < d
    ensures w == g * d + k <==> g == w / d && k == w % d
  {
    if w == g * d + k { QuotientIs(w, d, g, k); }
  }

  predicate IsPlaceOf(cfg: Config, w: nat, g: nat, k: nat) {
    g < cfg.groups && k < cfg.fds && (w == ReceiverId(cfg, g, k) || w == SenderId(cfg, g, k))
  }

  lemma PlaceOf(cfg: Config, w: nat, g: nat, k: nat)
    requires k < cfg.fds
    ensures w == ReceiverId(cfg, g, k) <==> g == w / (2 * cfg.fds) && k == w % (2 * cfg.fds)
    ensures w == SenderId(cfg, g, k) <==> g == w / (2 * cfg.fds) && cfg.fds + k == w % (2 * cfg.fds)
  {
    PlaceIs(w, 2 * cfg.fds, g, k);
    PlaceIs(w, 2 * cfg.fds, g, cfg.fds + k);
  }

  /** Each place in child_tab belongs to a receiver or sender, */
  lemma SomePlace(cfg: Config, w: nat) returns (g: nat, k: nat)
    requires w < cfg.Children()
    ensures IsPlaceOf(cfg, w, g, k)
  {
    GroupOfPlace(w, 2 * cfg.fds, cfg.groups);
    g := w / (2 * cfg.fds);
    var m := w % (2 * cfg.fds);
    k := if m < cfg.fds then m else m - cfg.fds;
    PlaceOf(cfg, w, g, k);
  }

  /** and to one only. */
  lemma SamePlace(cfg: Config, w: nat, g: nat, k: nat, h: nat, l: nat)
    requires IsPlaceOf(cfg, w, g, k) && IsPlaceOf(cfg, w, h, l)
    ensures g == h && k == l && (w == ReceiverId(cfg, g, k) <==> w != SenderId(cfg, h, l))
  {
    PlaceOf(cfg, w, g, k);
    PlaceOf(cfg, w, h, l);
  }

  predicate IsGoing(s: System, w: nat) { w < |s.phases| && s.phases[w].Going? }

  datatype Action =
    | Signal(worker: nat)                      // write to ready_out
    | Poll(worker: nat)                        // poll returns: wakefd is readable
    | Send(group: nat, sender: nat, ret: nat)
    | Receive(group: nat, channel: nat, ret: nat)
    | Count | Kick | Reap                      // main

  predicate Possible(cfg: Config, s: System, a: Action) {
    match a
    case Signal(w) => w < |s.phases| && s.phases[w].Starting? && s.readyBytes < cfg.readyCapacity
    case Poll(w) => w < |s.phases| && s.phases[w].Polling? && s.wakeBytes > 0
    case Send(g, t, ret) => g < |s.groups| && IsGoing(s, SenderId(cfg, g, t)) && CanWrite(cfg, s.groups[g], t, ret)
    case Receive(g, c, ret) => g < |s.groups| && IsGoing(s, ReceiverId(cfg, g, c)) && CanRead(cfg, s.groups[g], c, ret)
    case Count => s.main.Counting? && (s.counted < cfg.Children() ==> s.readyBytes > 0)
    case Kick => s.main.Kicking?
    case Reap => s.main.Reaping? && AllReturned(cfg, s)
  }

  /** Every worker has passed the gate and finished its loop. */
  predicate AllReturned(cfg: Config, s: System) {
    && (forall w :: 0 <= w < |s.phases| ==> s.phases[w].Going?)
    && (forall g :: 0 <= g < |s.groups| ==> GroupDone(cfg, s.groups[g]))
  }

  function Act(cfg: Config, s: System, a: Action): System
    requires Possible(cfg, s, a)
  {
    match a
    case Signal(w) => s.(phases := s.phases[w := Polling], readyBytes := s.readyBytes + 1)
    case Poll(w) => s.(phases := s.phases[w := Going])
    case Send(g, t, ret) => s.(groups := s.groups[g := Write(cfg, s.groups[g], t, ret)])
    case Receive(g, c, ret) => s.(groups := s.groups[g := Read(cfg, s.groups[g], c, ret)])
    case Count =>
      if s.counted < cfg.Children() then s.(readyBytes := s.readyBytes - 1, counted := s.counted + 1)
      else s.(main := Kicking)
    case Kick => s.(main := Reaping, wakeBytes := s.wakeBytes + 1)
    case Reap => s.(main := Ended)
  }

  ghost predicate Next(cfg: Config, s: System, t: System) {
    exists a: Action :: Possible(cfg, s, a) && t == Act(cfg, s, a)
  }

  ghost function Rel(cfg: Config): (System, System) -> bool {
    (s: System, t: System) => Next(cfg, s, t)
  }

  // ------------------------------------------------------------------ the gate

  function IsReady(p: Phase): nat { if p.Starting? then 0 else 1 }
  ghost function Ready(): Phase -> nat { (p: Phase) => IsReady(p) }

  /** No byte of this group has been written yet. */
  ghost predicate Untouched(cfg: Config, g: Group) {
    forall c: nat :: c < cfg.fds ==> Written(cfg, g, c) == 0
  }

  ghost predicate GateOk(cfg: Config, s: System) {
    && |s.phases| == cfg.Children()
    && s.readyBytes + s.counted == SumBy(Ready(), s.phases)
    && s.counted <= cfg.Children()
    && (s.main.Counting? || s.counted == cfg.Children())
    && s.wakeBytes == (if s.main.Reaping? || s.main.Ended? then 1 else 0)
    && (forall w :: 0 <= w < |s.phases| && s.phases[w].Going? ==> s.wakeBytes > 0)
  }

  ghost predicate Inv(cfg: Config, s: System) {
    && cfg.Valid() && GateOk(cfg, s)
    && |s.groups| == cfg.groups
    && (forall g :: 0 <= g < |s.groups| ==> GroupOk(cfg, s.groups[g]))
    && (s.wakeBytes > 0 || forall g :: 0 <= g < |s.groups| ==> Untouched(cfg, s.groups[g]))
    && (s.main.Ended? ==> AllReturned(cfg, s))
  }

  lemma InitInv(cfg: Config)
    requires cfg.Valid()
    ensures Inv(cfg, Init(cfg))
  {
    var s := Init(cfg);
    InitGroupOk(cfg);
    SumByZero(Ready(), s.phases);
    forall g: nat, c: nat | g < |s.groups| && c < cfg.fds ensures Written(cfg, s.groups[g], c) == 0 {
      SumByZero(SentBy(cfg, c), s.groups[g].senders);
    }
  }

  /** The gate opens only after everybody has signalled. */
  lemma AllSignalled(cfg: Config, s: System)
    requires GateOk(cfg, s) && s.counted == cfg.Children()
    ensures forall w :: 0 <= w < |s.phases| ==> !s.phases[w].Starting?
    ensures s.readyBytes == 0
  {
    SumByAtMost(Ready(), s.phases, 1);
    forall w | 0 <= w < |s.phases| ensures !s.phases[w].Starting? {
      assert Ready()(s.phases[w]) == 1;
    }
  }

  lemma GateActKeepsInv(cfg: Config, s: System, a: Action)
    requires Inv(cfg, s) && Possible(cfg, s, a) && !a.Send? && !a.Receive?
    ensures Inv(cfg, Act(cfg, s, a))
  {
    match a
    case Signal(w) =>
      SumByUpdate(Ready(), s.phases, w, Polling);
      if !s.main.Counting? { AllSignalled(cfg, s); }
    case Poll(w) =>
      SumByUpdate(Ready(), s.phases, w, Going);
    case _ =>
  }

  lemma DataActKeepsInv(cfg: Config, s: System, a: Action)
    requires Inv(cfg, s) && Possible(cfg, s, a) && (a.Send? || a.Receive?)
    ensures Inv(cfg, Act(cfg, s, a))
  {
    match a
    case Send(g, t, ret) => WriteKeepsGroupOk(cfg, s.groups[g], t, ret);
    case Receive(g, c, ret) => ReadKeepsGroupOk(cfg, s.groups[g], c, ret);
    case _ =>
  }

  lemma ActKeepsInv(cfg: Config, s: System, a: Action)
    requires Inv(cfg, s) && Possible(cfg, s, a)
    ensures Inv(cfg, Act(cfg, s, a))
  {
    if a.Send? || a.Receive? { DataActKeepsInv(cfg, s, a); } else { GateActKeepsInv(cfg, s, a); }
  }

  // ------------------------------------------------------------------ every run ends, and ends well

  function PhaseRank(p: Phase): nat { match p case Starting => 2 case Polling => 1 case Going => 0 }
  ghost function PhaseRanks(): Phase -> nat { (p: Phase) => PhaseRank(p) }
  ghost function Moving(cfg: Config): Group -> nat { (g: Group) => ToMove(cfg, g) }

  function MainRank(cfg: Config, s: System): nat {
    match s.main
    case Counting => 3 + Nat(cfg.Children() - s.counted)
    case Kicking => 2 case Reaping => 1 case Ended => 0
  }

  ghost function Rank(cfg: Config, s: System): nat {
    SumBy(Moving(cfg), s.groups) + SumBy(PhaseRanks(), s.phases) + MainRank(cfg, s)
  }

  lemma ActLowersRank(cfg: Config, s: System, a: Action)
    requires Inv(cfg, s) && Possible(cfg, s, a)
    ensures Rank(cfg, Act(cfg, s, a)) < Rank(cfg, s)
  {
    match a
    case Signal(w) => SumByUpdate(PhaseRanks(), s.phases, w, Polling);
    case Poll(w) => SumByUpdate(PhaseRanks(), s.phases, w, Going);
    case Send(g, t, ret) =>
      WriteLowersToMove(cfg, s.groups[g], t, ret);
      SumByUpdate(Moving(cfg), s.groups, g, Write(cfg, s.groups[g], t, ret));
    case Receive(g, c, ret) =>
      ReadLowersToMove(cfg, s.groups[g], c, ret);
      SumByUpdate(Moving(cfg), s.groups, g, Read(cfg, s.groups[g], c, ret));
    case _ =>
  }

  lemma RunKeepsInv(cfg: Config, run: seq<System>, k: nat)
    requires cfg.Valid() && IsRun(Rel(cfg), run) && run[0] == Init(cfg) && k < |run|
    ensures Inv(cfg, run[k]) && Rank(cfg, run[k]) + k <= Rank(cfg, Init(cfg))
  {
    InitInv(cfg);
    forall s, t | Inv(cfg, s) && Next(cfg, s, t) ensures Inv(cfg, t) && Rank(cfg, t) < Rank(cfg, s) {
      var a: Action :| Possible(cfg, s, a) && t == Act(cfg, s, a);
      ActKeepsInv(cfg, s, a);
      ActLowersRank(cfg, s, a);
    }
    RankAlong(Rel(cfg), s => Inv(cfg, s), s => Rank(cfg, s), run, k);
  }

  lemma IdsInRange(cfg: Config, g: nat, k: nat)
    requires g < cfg.groups && k < 2 * cfg.fds
    ensures g * (2 * cfg.fds) + k < cfg.Children()
  {
    MultipleMonotone(g + 1, cfg.groups, 2 * cfg.fds);
    NextMultiple(g, 2 * cfg.fds);
  }

  lemma WorkersNotStuck(cfg: Config, s: System, g: nat)
    requires Inv(cfg, s) && g < |s.groups| && !GroupDone(cfg, s.groups[g])
    requires forall w :: 0 <= w < |s.phases| ==> s.phases[w].Going?
    ensures exists a: Action :: Possible(cfg, s, a)
  {
    GroupNotStuck(cfg, s.groups[g]);
    if t :| CanWrite(cfg, s.groups[g], t, 1) {
      IdsInRange(cfg, g, cfg.fds + t);
      assert Possible(cfg, s, Send(g, t, 1));
    } else {
      var c :| CanRead(cfg, s.groups[g], c, 1);
      IdsInRange(cfg, g, c);
      assert Possible(cfg, s, Receive(g, c, 1));
    }
  }

  lemma NotStuck(cfg: Config, s: System)
    requires Inv(cfg, s) && !s.main.Ended?
    ensures exists a: Action :: Possible(cfg, s, a)
  {
    match s.main
    case Counting =>
      if s.readyBytes > 0 || s.counted == cfg.Children() {
        assert Possible(cfg, s, Count);
      } else {
        SumByAtMost(Ready(), s.phases, 1);
        var w :| 0 <= w < |s.phases| && Ready()(s.phases[w]) != 1;
        assert Possible(cfg, s, Signal(w));
      }
    case Kicking => assert Possible(cfg, s, Kick);
    case Reaping =>
      AllSignalled(cfg, s);
      if w :| 0 <= w < |s.phases| && s.phases[w].Polling? {
        assert Possible(cfg, s, Poll(w));
      } else if g :| 0 <= g < |s.groups| && !GroupDone(cfg, s.groups[g]) {
        WorkersNotStuck(cfg, s, g);
      } else {
        assert Possible(cfg, s, Reap);
      }
    case Ended =>
  }

  /** Along every run: on each channel the bytes written are those read plus those buffered, never more than fit. */
  lemma BytesConserved(cfg: Config, run: seq<System>, k: nat, g: nat, c: nat)
    requires cfg.Valid() && IsRun(Rel(cfg), run) && run[0] == Init(cfg) && k < |run|
    requires g < cfg.groups && c < cfg.fds
    ensures |run[k].groups| == cfg.groups && GroupOk(cfg, run[k].groups[g])
    ensures var h := run[k].groups[g];
      Written(cfg, h, c) == Received(cfg, h.receivers[c]) + h.buffered[c] && h.buffered[c] <= cfg.capacity
  {
    RunKeepsInv(cfg, run, k);
    assert Conserved(cfg, run[k].groups[g], c);
  }

  /** No data byte moves before every worker of every group has signalled, and one byte lets them all go. */
  lemma NobodyStartsEarly(cfg: Config, run: seq<System>, k: nat, g: nat, c: nat)
    requires cfg.Valid() && IsRun(Rel(cfg), run) && run[0] == Init(cfg) && k < |run|
    requires g < cfg.groups && c < cfg.fds && g < |run[k].groups| && Written(cfg, run[k].groups[g], c) > 0
    ensures |run[k].phases| == cfg.Children() && run[k].wakeBytes == 1
    ensures forall w :: 0 <= w < |run[k].phases| ==>
              run[k].phases[w].Going? || Possible(cfg, run[k], Poll(w))
  {
    RunKeepsInv(cfg, run, k);
    assert !Untouched(cfg, run[k].groups[g]);
    AllSignalled(cfg, run[k]);
  }

  /** Every run is finite; one that cannot go on has all workers returned and all channels empty. */
  lemma RunsEndWell(cfg: Config, run: seq<System>, k: nat)
    requires cfg.Valid() && IsRun(Rel(cfg), run) && run[0] == Init(cfg) && k < |run|
    ensures k <= Rank(cfg, Init(cfg))
    ensures (exists t :: Next(cfg, run[k], t))
         || (&& run[k].main.Ended? && AllReturned(cfg, run[k])
             && forall g, c :: 0 <= g < |run[k].groups| && 0 <= c < |run[k].groups[g].buffered|
                  ==> run[k].groups[g].buffered[c] == 0)
  {
    RunKeepsInv(cfg, run, k);
    if run[k].main.Ended? {
      forall g, c | 0 <= g < |run[k].groups| && 0 <= c < |run[k].groups[g].buffered|
        ensures run[k].groups[g].buffered[c] == 0
      {
        DoneMeansEmpty(cfg, run[k].groups[g], c);
      }
    } else {
      NotStuck(cfg, run[k]);
      var a: Action :| Possible(cfg, run[k], a);
      assert Next(cfg, run[k], Act(cfg, run[k], a));
    }
  }
}
