/** pmqtest with timeout = 0: one sender and one receiver thread exchange test and sync messages over two
    message queues that hold one message each. */
module PmqTest {
  import opened Runs

  /** What main does to the flags while the threads run: nothing (it has not looked yet); it sets both, one after
      the other, once it has seen one of them set; or it does so at any time, on a signal or for another pair. */
  datatype MainRole = Silent | Reacting | Interrupted

  /** `maxCycles` = 0 means endless, `traceLimit` = 0 means no limit. */
  datatype Config = Config(maxCycles: nat, traceLimit: nat, main: MainRole)

  datatype SenderPc =
    | STest                     // while (!par->shutdown)
    | SGet                      // gettimeofday(&par->sent)
    | SSend                     // mq_send(testmq)
    | SInc                      // par->samples++
    | SMax                      // max_cycles reached ?
    | SRecv                     // mq_receive(syncmq)
    | SExit

  datatype ReceiverPc =
    | RTest                     // while (!par->shutdown)
    | RRecv                     // mq_receive(testmq)
    | RGet                      // gettimeofday(&par->received)
    | RInc                      // par->samples++
    | RDiff                     // timersub(received, neighbor->sent), mindiff, maxdiff
    | RTrace                    // maxdiff > tracelimit ?
    | RTripOwn | RTripOther     // par->shutdown = 1; par->neighbor->shutdown = 1
    | RMax                      // max_cycles reached ?
    | RSleep                    // clock_nanosleep
    | RSync                     // mq_send(syncmq)
    | RExit

  /** Main's loop over its polls, and its two stores: receiver[i].shutdown = 1, then sender[i].shutdown = 1. */
  datatype MainPc = Polling | Between | Stored

  /** A latency sample: the time of reception and the `sent` it was computed from. */
  datatype Sample = Sample(received: nat, sent: nat)

  /** History: `sends` counts the messages, `sentTimes` and `receiveTimes` are the clock readings that the sender and
      the receiver made for them, `samples` the latency samples in order, and `tripped` says that the trace limit was
      exceeded.  A test message is represented by its number. */
  datatype System = System(
    sender: SenderPc, sent: nat, senderSamples: nat, senderShutdown: bool,
    receiver: ReceiverPc, received: nat, receiverSamples: nat, receiverShutdown: bool,
    minDiff: nat, maxDiff: nat,
    testQueue: seq<nat>, syncQueue: nat, main: MainPc,
    sends: nat, sentTimes: seq<nat>, receiveTimes: seq<nat>, samples: seq<Sample>, tripped: bool)

  const QUEUE_SIZE: nat := 1           // mqstat.mq_maxmsg
  const UINT_MAX: nat := 0xFFFF_FFFF
  const USEC_PER_SEC: nat := 1000000

  /** diff.tv_usec after timersub: the seconds are not part of it. */
  function Usec(x: Sample): nat { (x.received - x.sent) % USEC_PER_SEC }

  function Init(): System {
    System(STest, 0, 0, false, RTest, 0, 0, false, UINT_MAX, 0, [], 0, Polling, 0, [], [], [], false)
  }

  predicate AtMax(cfg: Config, samples: nat) { cfg.maxCycles > 0 && samples >= cfg.maxCycles }

  predicate OverLimit(cfg: Config, maxDiff: nat) { cfg.traceLimit > 0 && maxDiff > cfg.traceLimit }

  predicate SenderEnabled(s: System) {
    match s.sender
    case SSend => |s.testQueue| < QUEUE_SIZE
    case SRecv => s.syncQueue > 0
    case SExit => false
    case _ => true
  }

  function SenderStep(cfg: Config, s: System, time: nat): System
    requires SenderEnabled(s)
  {
    match s.sender
    case STest => s.(sender := if s.senderShutdown then SExit else SGet)
    case SGet => s.(sender := SSend, sent := time, sentTimes := s.sentTimes + [time])
    case SSend => s.(sender := SInc, testQueue := s.testQueue + [s.sends], sends := s.sends + 1)
    case SInc => s.(sender := SMax, senderSamples := s.senderSamples + 1)
    case SMax =>
      s.(sender := SRecv, senderShutdown := s.senderShutdown || AtMax(cfg, s.senderSamples))
    case SRecv => s.(sender := STest, syncQueue := s.syncQueue - 1)
  }

  predicate ReceiverEnabled(s: System) {
    match s.receiver
    case RRecv => |s.testQueue| > 0
    case RSync => s.syncQueue < QUEUE_SIZE
    case RExit => false
    case _ => true
  }

  function ReceiverStep(cfg: Config, s: System, time: nat): System
    requires ReceiverEnabled(s)
  {
    match s.receiver
    case RTest => s.(receiver := if s.receiverShutdown then RExit else RRecv)
    case RRecv => s.(receiver := RGet, testQueue := s.testQueue[1..])
    case RGet => s.(receiver := RInc, received := time, receiveTimes := s.receiveTimes + [time])
    case RInc => s.(receiver := RDiff, receiverSamples := s.receiverSamples + 1)
    case RDiff =>
      var x := Sample(s.received, s.sent);
      s.(receiver := RTrace, samples := s.samples + [x],
         minDiff := if Usec(x) < s.minDiff then Usec(x) else s.minDiff,
         maxDiff := if Usec(x) > s.maxDiff then Usec(x) else s.maxDiff)
    case RTrace =>
      if OverLimit(cfg, s.maxDiff) then s.(receiver := RTripOwn, tripped := true)
      else s.(receiver := RMax)
    case RTripOwn => s.(receiver := RTripOther, receiverShutdown := true)
    case RTripOther => s.(receiver := RMax, senderShutdown := true)
    case RMax =>
      s.(receiver := RSleep, receiverShutdown := s.receiverShutdown || AtMax(cfg, s.receiverSamples))
    case RSleep => s.(receiver := RSync)
    case RSync => s.(receiver := RTest, syncQueue := s.syncQueue + 1)
  }

  datatype Action = SenderActs(time: nat) | ReceiverActs(time: nat) | MainStores

  predicate Possible(cfg: Config, s: System, a: Action) {
    match a
    case SenderActs(_) => SenderEnabled(s)
    case ReceiverActs(_) => ReceiverEnabled(s)
    case MainStores =>
      match s.main {
        case Polling => cfg.main.Interrupted? || (cfg.main.Reacting? && (s.senderShutdown || s.receiverShutdown))
        case Between => true
        case Stored => false
      }
  }

  function Act(cfg: Config, s: System, a: Action): System
    requires Possible(cfg, s, a)
  {
    match a
    case SenderActs(time) => SenderStep(cfg, s, time)
    case ReceiverActs(time) => ReceiverStep(cfg, s, time)
    case MainStores =>
      if s.main.Polling? then s.(main := Between, receiverShutdown := true)
      else s.(main := Stored, senderShutdown := true)
  }

  ghost predicate Next(cfg: Config, s: System, t: System) {
    exists a: Action :: Possible(cfg, s, a) && t == Act(cfg, s, a)
  }

  ghost function Rel(cfg: Config): (System, System) -> bool {
    (s: System, t: System) => Next(cfg, s, t)
  }

  // ------------------------------------------------------------------ the ping-pong, whoever sets the flags

  /** The sender has sent message number sends - 1 and waits for its sync. */
  predicate AfterSend(pc: SenderPc) { pc.SInc? || pc.SMax? || pc.SRecv? }

  /** The receiver has taken a message and not yet answered it. */
  predicate Handling(pc: ReceiverPc) { !pc.RTest? && !pc.RRecv? && !pc.RExit? }

  /** It has not yet computed the sample for it. */
  predicate Unsampled(pc: ReceiverPc) { pc.RGet? || pc.RInc? || pc.RDiff? }

  /** Exactly one of: the sender is between sync and send, a message is on its way, the receiver handles it,
      a sync is on its way. */
  predicate Ball(s: System) {
    var n := s.sends;
    if !AfterSend(s.sender) then
      !Handling(s.receiver) && s.testQueue == [] && s.syncQueue == 0 && s.receiverSamples == n && |s.samples| == n
    else
      && n >= 1
      && if s.testQueue != [] then
           !Handling(s.receiver) && s.testQueue == [n - 1] && s.syncQueue == 0
           && s.receiverSamples == n - 1 && |s.samples| == n - 1
         else if Handling(s.receiver) then
           && s.syncQueue == 0
           && s.receiverSamples == (if s.receiver.RGet? || s.receiver.RInc? then n - 1 else n)
           && |s.samples| == if Unsampled(s.receiver) then n - 1 else n
         else
           s.syncQueue == 1 && s.receiverSamples == n && |s.samples| == n
  }

  /** A reading was made for which there is no sample yet. */
  predicate Read(pc: ReceiverPc) { pc.RInc? || pc.RDiff? }

  /** The program variables hold the latest readings, and sample k is made of the readings for message k. */
  ghost predicate Paired(s: System) {
    && |s.sentTimes| == s.sends + (if s.sender.SSend? then 1 else 0)
    && |s.receiveTimes| == |s.samples| + (if Read(s.receiver) then 1 else 0)
    && (s.sentTimes != [] ==> s.sent == s.sentTimes[|s.sentTimes| - 1])
    && (s.receiveTimes != [] ==> s.received == s.receiveTimes[|s.receiveTimes| - 1])
    && |s.samples| <= s.sends
    && forall k :: 0 <= k < |s.samples| ==> s.samples[k] == Sample(s.receiveTimes[k], s.sentTimes[k])
  }

  /** The largest latency so far (0 before the first), and the smallest (UINT_MAX before the first). */
  ghost predicate Extremes(lo: nat, hi: nat, xs: seq<Sample>) {
    && (forall k :: 0 <= k < |xs| ==> lo <= Usec(xs[k]) <= hi)
    && (hi == 0 || exists k :: 0 <= k < |xs| && Usec(xs[k]) == hi)
    && (if xs == [] then lo == UINT_MAX else exists k :: 0 <= k < |xs| && Usec(xs[k]) == lo)
  }

  predicate Tripping(pc: ReceiverPc) { pc.RTripOwn? || pc.RTripOther? }

  /** What the counters, the cycle limit and the trace limit say about the flags, whoever else sets them. */
  predicate Limits(cfg: Config, s: System) {
    var n := s.sends;
    && s.senderSamples == n - (if s.sender.SInc? then 1 else 0)
    && (cfg.maxCycles > 0 ==> n <= cfg.maxCycles)
    && (AtMax(cfg, n) && !s.sender.SInc? && !s.sender.SMax? ==> s.senderShutdown)
    && (s.sender.SGet? || s.sender.SSend? ==> !AtMax(cfg, n) && !s.tripped)
    && (Tripping(s.receiver) ==> s.tripped)
    && (s.tripped ==> OverLimit(cfg, s.maxDiff))
    && (OverLimit(cfg, s.maxDiff) && !s.receiver.RTrace? ==> s.tripped)
    && (s.tripped && !Tripping(s.receiver) ==> s.senderShutdown)
    && (s.sender.SExit? ==> s.senderShutdown)
    && (s.receiver.RExit? ==> s.receiverShutdown)
    && (!s.main.Polling? ==> s.receiverShutdown) && (s.main.Stored? ==> s.senderShutdown)
  }

  ghost predicate Sampled(s: System) {
    Paired(s) && Extremes(s.minDiff, s.maxDiff, s.samples)
  }

  ghost predicate Inv(cfg: Config, s: System) {
    Ball(s) && Limits(cfg, s) && Sampled(s)
  }

  lemma SenderKeepsBall(cfg: Config, s: System, time: nat)
    requires Ball(s) && SenderEnabled(s)
    ensures Ball(SenderStep(cfg, s, time))
  {}

  lemma ReceiverKeepsBall(cfg: Config, s: System, time: nat)
    requires Ball(s) && ReceiverEnabled(s)
    ensures Ball(ReceiverStep(cfg, s, time))
  {
    if s.receiver.RRecv? {
      assert |s.testQueue| == 1;
      assert s.testQueue[1..] == [];
    }
  }

  lemma SenderKeepsLimits(cfg: Config, s: System, time: nat)
    requires Ball(s) && Limits(cfg, s) && SenderEnabled(s)
    ensures Limits(cfg, SenderStep(cfg, s, time))
  {}

  lemma ReceiverKeepsLimits(cfg: Config, s: System, time: nat)
    requires Ball(s) && Limits(cfg, s) && ReceiverEnabled(s)
    ensures Limits(cfg, ReceiverStep(cfg, s, time))
  {
    if Tripping(s.receiver) { TrippingKeepsLimits(cfg, s, time); }
  }

  lemma TrippingKeepsLimits(cfg: Config, s: System, time: nat)
    requires Ball(s) && Limits(cfg, s) && Tripping(s.receiver)
    ensures Limits(cfg, ReceiverStep(cfg, s, time))
  {}

  lemma NewExtremes(lo: nat, hi: nat, xs: seq<Sample>, x: Sample)
    requires Extremes(lo, hi, xs)
    ensures Extremes(if Usec(x) < lo then Usec(x) else lo, if Usec(x) > hi then Usec(x) else hi, xs + [x])
  {
    var ys := xs + [x];
    assert ys[|xs|] == x && forall k :: 0 <= k < |xs| ==> ys[k] == xs[k];
    if hi != 0 {
      var k :| 0 <= k < |xs| && Usec(xs[k]) == hi;
      assert Usec(ys[k]) == hi;
    }
    if xs != [] {
      var k :| 0 <= k < |xs| && Usec(xs[k]) == lo;
      assert Usec(ys[k]) == lo;
    }
    assert Usec(ys[|xs|]) == Usec(x);
  }

  lemma SameReadings(s: System, t: System)
    requires Paired(s) && t.sender.SSend? == s.sender.SSend? && Read(t.receiver) == Read(s.receiver)
    requires t.sends == s.sends && t.sentTimes == s.sentTimes && t.receiveTimes == s.receiveTimes
    requires t.samples == s.samples && t.sent == s.sent && t.received == s.received
    ensures Paired(t)
  {}

  lemma SendingKeepsPaired(cfg: Config, s: System, time: nat)
    requires Paired(s) && SenderEnabled(s) && (s.sender.SGet? || s.sender.SSend?)
    ensures Paired(SenderStep(cfg, s, time))
  {}

  lemma SenderKeepsPaired(cfg: Config, s: System, time: nat)
    requires Paired(s) && SenderEnabled(s)
    ensures Paired(SenderStep(cfg, s, time))
  {
    if s.sender.SGet? || s.sender.SSend? {
      SendingKeepsPaired(cfg, s, time);
    } else {
      SameReadings(s, SenderStep(cfg, s, time));
    }
  }

  lemma SenderKeepsSampled(cfg: Config, s: System, time: nat)
    requires Sampled(s) && SenderEnabled(s)
    ensures Sampled(SenderStep(cfg, s, time))
  {
    SenderKeepsPaired(cfg, s, time);
    var t := SenderStep(cfg, s, time);
    assert t.samples == s.samples && t.minDiff == s.minDiff && t.maxDiff == s.maxDiff;
  }

  /** When the receiver computes a sample, the sender waits after the message it is for. */
  lemma DiffOfLatest(s: System)
    requires Ball(s) && s.receiver.RDiff?
    ensures !s.sender.SSend? && |s.samples| + 1 == s.sends
  {}

  lemma NewSampleIsPaired(cfg: Config, s: System, time: nat)
    requires Paired(s) && s.receiver.RDiff? && !s.sender.SSend? && |s.samples| + 1 == s.sends
    ensures Paired(ReceiverStep(cfg, s, time))
  {}

  lemma ReadingKeepsPaired(cfg: Config, s: System, time: nat)
    requires Paired(s) && ReceiverEnabled(s) && s.receiver.RGet?
    ensures Paired(ReceiverStep(cfg, s, time))
  {}

  lemma ReceiverKeepsPaired(cfg: Config, s: System, time: nat)
    requires Paired(s) && ReceiverEnabled(s) && !s.receiver.RDiff? && !s.receiver.RGet?
    ensures Paired(ReceiverStep(cfg, s, time))
  {
    SameReadings(s, ReceiverStep(cfg, s, time));
  }

  lemma ReceiverKeepsExtremes(cfg: Config, s: System, time: nat)
    requires Extremes(s.minDiff, s.maxDiff, s.samples) && ReceiverEnabled(s)
    ensures var t := ReceiverStep(cfg, s, time); Extremes(t.minDiff, t.maxDiff, t.samples)
  {
    if s.receiver.RDiff? {
      NewExtremes(s.minDiff, s.maxDiff, s.samples, Sample(s.received, s.sent));
    } else {
      var t := ReceiverStep(cfg, s, time);
      assert t.samples == s.samples && t.minDiff == s.minDiff && t.maxDiff == s.maxDiff;
    }
  }

  lemma ReceiverKeepsSampled(cfg: Config, s: System, time: nat)
    requires Ball(s) && Sampled(s) && ReceiverEnabled(s)
    ensures Sampled(ReceiverStep(cfg, s, time))
  {
    ReceiverKeepsExtremes(cfg, s, time);
    if s.receiver.RDiff? {
      DiffOfLatest(s);
      NewSampleIsPaired(cfg, s, time);
    } else if s.receiver.RGet? {
      ReadingKeepsPaired(cfg, s, time);
    } else {
      ReceiverKeepsPaired(cfg, s, time);
    }
  }

  lemma SenderKeepsInv(cfg: Config, s: System, time: nat)
    requires Inv(cfg, s) && SenderEnabled(s)
    ensures Inv(cfg, SenderStep(cfg, s, time))
  {
    SenderKeepsBall(cfg, s, time);
    SenderKeepsLimits(cfg, s, time);
    SenderKeepsSampled(cfg, s, time);
  }

  lemma ReceiverKeepsInv(cfg: Config, s: System, time: nat)
    requires Inv(cfg, s) && ReceiverEnabled(s)
    ensures Inv(cfg, ReceiverStep(cfg, s, time))
  {
    ReceiverKeepsBall(cfg, s, time);
    ReceiverKeepsLimits(cfg, s, time);
    ReceiverKeepsSampled(cfg, s, time);
  }

  lemma MainKeepsBall(cfg: Config, s: System)
    requires Ball(s) && Possible(cfg, s, MainStores)
    ensures Ball(Act(cfg, s, MainStores))
  {}

  lemma MainKeepsLimits(cfg: Config, s: System)
    requires Limits(cfg, s) && Possible(cfg, s, MainStores)
    ensures Limits(cfg, Act(cfg, s, MainStores))
  {}

  lemma MainKeepsSampled(cfg: Config, s: System)
    requires Sampled(s) && Possible(cfg, s, MainStores)
    ensures Sampled(Act(cfg, s, MainStores))
  {
    SameReadings(s, Act(cfg, s, MainStores));
  }

  lemma MainKeepsInv(cfg: Config, s: System)
    requires Inv(cfg, s) && Possible(cfg, s, MainStores)
    ensures Inv(cfg, Act(cfg, s, MainStores))
  {
    MainKeepsBall(cfg, s);
    MainKeepsLimits(cfg, s);
    MainKeepsSampled(cfg, s);
  }

  lemma StepKeepsInv(cfg: Config, s: System, a: Action)
    requires Inv(cfg, s) && Possible(cfg, s, a)
    ensures Inv(cfg, Act(cfg, s, a))
  {
    match a
    case SenderActs(time) => SenderKeepsInv(cfg, s, time);
    case ReceiverActs(time) => ReceiverKeepsInv(cfg, s, time);
    case MainStores => MainKeepsInv(cfg, s);
  }

  lemma InvIsPreserved(cfg: Config)
    ensures Preserves(Rel(cfg), (s: System) => Inv(cfg, s))
  {
    var inv := (s: System) => Inv(cfg, s);
    forall s, t | inv(s) && Rel(cfg)(s, t) ensures inv(t) {
      var a: Action :| Possible(cfg, s, a) && t == Act(cfg, s, a);
      StepKeepsInv(cfg, s, a);
    }
  }

  lemma RunKeepsInv(cfg: Config, run: seq<System>, i: nat)
    requires IsRun(Rel(cfg), run) && run[0] == Init() && i < |run|
    ensures Inv(cfg, run[i])
  {
    assert Inv(cfg, run[0]);
    InvIsPreserved(cfg);
    InvariantAlong(Rel(cfg), (s: System) => Inv(cfg, s), run, i);
  }

  /** In every reachable state, under every schedule and whoever sets the flags: sample k is the latency of
      message k, the counts differ by at most one, the queues hold at most one message in all, and neither
      thread waits for room in a queue. */
  lemma SamplesArePaired(cfg: Config, run: seq<System>, i: nat)
    requires IsRun(Rel(cfg), run) && run[0] == Init() && i < |run|
    ensures var s := run[i];
      && |s.samples| <= s.sends <= |s.samples| + 1 && s.sends <= |s.sentTimes| && |s.samples| <= |s.receiveTimes|
      && (forall k :: 0 <= k < |s.samples| ==> s.samples[k] == Sample(s.receiveTimes[k], s.sentTimes[k]))
      && Extremes(s.minDiff, s.maxDiff, s.samples)
      && s.senderSamples <= s.receiverSamples + 1 && s.receiverSamples <= s.senderSamples + 1
      && |s.testQueue| + s.syncQueue <= QUEUE_SIZE
      && (s.sender.SSend? ==> SenderEnabled(s)) && (s.receiver.RSync? ==> ReceiverEnabled(s))
  {
    RunKeepsInv(cfg, run, i);
  }

  /** The receiver declares the trace limit hit exactly if one was given and the greatest latency so far, as far as
      it has been compared, is above it. */
  lemma TripsExactlyWhen(cfg: Config, run: seq<System>, i: nat)
    requires IsRun(Rel(cfg), run) && run[0] == Init() && i < |run|
    ensures run[i].tripped ==> cfg.traceLimit > 0 && run[i].maxDiff > cfg.traceLimit
    ensures !run[i].receiver.RTrace? && cfg.traceLimit > 0 && run[i].maxDiff > cfg.traceLimit ==> run[i].tripped
  {
    RunKeepsInv(cfg, run, i);
  }

  /** The microseconds of a sample are the time between its two readings, if the later one is not earlier and less
      than a second later. */
  predicate Short(x: Sample) { x.sent <= x.received < x.sent + USEC_PER_SEC }

  lemma ShortUsec(x: Sample)
    requires Short(x)
    ensures Usec(x) == x.received - x.sent
  {
    var d := x.received - x.sent;
    assert d / USEC_PER_SEC == 0;
  }

  /** What is printed: while all latencies are below a second, minimum and maximum are the least and the greatest
      difference between the two readings made for one message. */
  lemma LatenciesAreExact(cfg: Config, run: seq<System>, i: nat)
    requires IsRun(Rel(cfg), run) && run[0] == Init() && i < |run|
    requires forall k :: 0 <= k < |run[i].samples| ==> Short(run[i].samples[k])
    ensures var s := run[i];
      && |s.samples| <= |s.sentTimes| && |s.samples| <= |s.receiveTimes|
      && (forall k :: 0 <= k < |s.samples| ==> s.minDiff <= s.receiveTimes[k] - s.sentTimes[k] <= s.maxDiff)
      && (s.samples != [] ==>
            && (exists k :: 0 <= k < |s.samples| && s.receiveTimes[k] - s.sentTimes[k] == s.minDiff)
            && (exists k :: 0 <= k < |s.samples| && s.receiveTimes[k] - s.sentTimes[k] == s.maxDiff))
  {
    SamplesArePaired(cfg, run, i);
    ExtremesExact(run[i]);
  }

  lemma ExtremesExact(s: System)
    requires |s.samples| <= |s.sentTimes| && |s.samples| <= |s.receiveTimes|
    requires Extremes(s.minDiff, s.maxDiff, s.samples)
    requires forall k :: 0 <= k < |s.samples| ==> Short(s.samples[k])
    requires forall k :: 0 <= k < |s.samples| ==> s.samples[k] == Sample(s.receiveTimes[k], s.sentTimes[k])
    ensures forall k :: 0 <= k < |s.samples| ==> s.minDiff <= s.receiveTimes[k] - s.sentTimes[k] <= s.maxDiff
    ensures s.samples != [] ==>
      && (exists k :: 0 <= k < |s.samples| && s.receiveTimes[k] - s.sentTimes[k] == s.minDiff)
      && (exists k :: 0 <= k < |s.samples| && s.receiveTimes[k] - s.sentTimes[k] == s.maxDiff)
  {
    forall k | 0 <= k < |s.samples| ensures Usec(s.samples[k]) == s.receiveTimes[k] - s.sentTimes[k] {
      ShortUsec(s.samples[k]);
    }
    if s.samples != [] {
      var lo: int :| 0 <= lo < |s.samples| && Usec(s.samples[lo]) == s.minDiff;
      assert s.receiveTimes[lo] - s.sentTimes[lo] == s.minDiff;
      if s.maxDiff == 0 {
        assert Usec(s.samples[0]) <= 0 && s.receiveTimes[0] - s.sentTimes[0] == s.maxDiff;
      } else {
        var hi: int :| 0 <= hi < |s.samples| && Usec(s.samples[hi]) == s.maxDiff;
        assert s.receiveTimes[hi] - s.sentTimes[hi] == s.maxDiff;
      }
    }
  }

  // ------------------------------------------------------------------ flags set by the two threads alone

  /** With no one else setting them, the flags are functions of the rest of the state. */
  predicate OwnFlags(cfg: Config, s: System) {
    var atMax := AtMax(cfg, s.sends);
    && s.senderShutdown ==
         ((s.tripped && !Tripping(s.receiver)) || (atMax && !s.sender.SInc? && !s.sender.SMax?))
    && s.receiverShutdown ==
         ((s.tripped && !s.receiver.RTripOwn?)
          || (atMax && s.testQueue == [] && !BeforeMaxTest(s.receiver)))
    && (s.tripped ==> s.testQueue == [] && !Unsampled(s.receiver) && !s.receiver.RTrace?)
    && (s.sender.SGet? || s.sender.SSend? ==> !s.senderShutdown)
    && (s.receiver.RRecv? ==> !s.receiverShutdown)
    && s.main.Polling?
  }

  predicate BeforeMaxTest(pc: ReceiverPc) { Unsampled(pc) || pc.RTrace? || Tripping(pc) || pc.RMax? }

  lemma SenderKeepsOwnFlags(cfg: Config, s: System, time: nat)
    requires Ball(s) && Limits(cfg, s) && OwnFlags(cfg, s) && SenderEnabled(s)
    ensures OwnFlags(cfg, SenderStep(cfg, s, time))
  {}

  lemma ReceiverKeepsOwnFlags(cfg: Config, s: System, time: nat)
    requires Ball(s) && Limits(cfg, s) && OwnFlags(cfg, s) && ReceiverEnabled(s)
    ensures OwnFlags(cfg, ReceiverStep(cfg, s, time))
  {}

  lemma OwnFlagsArePreserved(cfg: Config)
    requires cfg.main.Silent?
    ensures Preserves(Rel(cfg), (s: System) => Inv(cfg, s) && OwnFlags(cfg, s))
  {
    var inv := (s: System) => Inv(cfg, s) && OwnFlags(cfg, s);
    forall s, t | inv(s) && Rel(cfg)(s, t) ensures inv(t) {
      var a: Action :| Possible(cfg, s, a) && t == Act(cfg, s, a);
      StepKeepsInv(cfg, s, a);
      match a
      case SenderActs(time) => SenderKeepsOwnFlags(cfg, s, time);
      case ReceiverActs(time) => ReceiverKeepsOwnFlags(cfg, s, time);
      case MainStores => assert false;
    }
  }

  lemma RunKeepsOwnFlags(cfg: Config, run: seq<System>, i: nat)
    requires IsRun(Rel(cfg), run) && run[0] == Init() && i < |run| && cfg.main.Silent?
    ensures Inv(cfg, run[i]) && OwnFlags(cfg, run[i])
  {
    var inv := (s: System) => Inv(cfg, s) && OwnFlags(cfg, s);
    assert inv(run[0]);
    OwnFlagsArePreserved(cfg);
    InvariantAlong(Rel(cfg), inv, run, i);
  }

  // ------------------------------------------------------------------ how runs end

  /** Neither thread can go on. */
  predicate Quiet(s: System) { !SenderEnabled(s) && !ReceiverEnabled(s) }

  /** Both have left their loops; every message was received and answered. */
  predicate CleanEnd(s: System) {
    && s.sender.SExit? && s.receiver.RExit? && s.testQueue == [] && s.syncQueue == 0
    && s.senderSamples == s.receiverSamples == s.sends == |s.samples|
  }

  /** The receiver has left with a message unread; the sender waits for its sync for ever. */
  predicate SenderStranded(s: System) {
    && s.sender.SRecv? && s.receiver.RExit? && |s.testQueue| == 1 && s.syncQueue == 0
    && s.senderSamples == s.receiverSamples + 1
  }

  /** The sender has left; the receiver waits for a message that will not come. */
  predicate ReceiverStranded(s: System) {
    && s.sender.SExit? && s.receiver.RRecv? && s.testQueue == [] && s.syncQueue == 0
    && s.senderSamples == s.receiverSamples
  }

  lemma QuietStates(cfg: Config, s: System)
    requires Inv(cfg, s) && Quiet(s)
    ensures CleanEnd(s) || SenderStranded(s) || ReceiverStranded(s)
  {}

  lemma OwnFlagsEndCleanly(cfg: Config, s: System)
    requires Inv(cfg, s) && OwnFlags(cfg, s) && Quiet(s)
    ensures CleanEnd(s) && (s.tripped || (cfg.maxCycles > 0 && |s.samples| == cfg.maxCycles))
  {
    QuietStates(cfg, s);
  }

  /** As long as only the two threads set their flags, a run can only come to rest with both threads out of
      their loops, equal counts and empty queues, after exactly maxCycles messages or on a trace limit hit. */
  lemma BothStopTogether(cfg: Config, run: seq<System>, i: nat)
    requires IsRun(Rel(cfg), run) && run[0] == Init() && i < |run| && cfg.main.Silent?
    requires Quiet(run[i])
    ensures CleanEnd(run[i])
    ensures OverLimit(cfg, run[i].maxDiff) || (cfg.maxCycles > 0 && |run[i].samples| == cfg.maxCycles)
  {
    RunKeepsOwnFlags(cfg, run, i);
    OwnFlagsEndCleanly(cfg, run[i]);
  }

  // ------------------------------------------------------------------ a trace limit hit, whoever sets the flags

  /** After a trace limit hit no message is under way, and the receiver will find its flag set. */
  predicate AfterTrip(s: System) {
    s.tripped ==>
      && s.testQueue == [] && !Unsampled(s.receiver) && !s.receiver.RTrace? && !s.receiver.RRecv?
      && (!s.receiver.RTripOwn? ==> s.receiverShutdown)
  }

  lemma StepKeepsAfterTrip(cfg: Config, s: System, a: Action)
    requires Ball(s) && Limits(cfg, s) && AfterTrip(s) && Possible(cfg, s, a)
    ensures AfterTrip(Act(cfg, s, a))
  {
    match a case SenderActs(_) => case ReceiverActs(_) => case MainStores =>
  }

  lemma RunKeepsAfterTrip(cfg: Config, run: seq<System>, i: nat)
    requires IsRun(Rel(cfg), run) && run[0] == Init() && i < |run|
    ensures Inv(cfg, run[i]) && AfterTrip(run[i])
  {
    var inv := (s: System) => Inv(cfg, s) && AfterTrip(s);
    assert inv(run[0]);
    forall s, t | inv(s) && Rel(cfg)(s, t) ensures inv(t) {
      var a: Action :| Possible(cfg, s, a) && t == Act(cfg, s, a);
      StepKeepsInv(cfg, s, a);
      StepKeepsAfterTrip(cfg, s, a);
    }
    InvariantAlong(Rel(cfg), inv, run, i);
  }

  /** On a trace limit hit both threads stop with equal counts and empty queues, with or without a cycle limit
      and whatever main does to the flags. */
  lemma TripStopsTogether(cfg: Config, run: seq<System>, i: nat)
    requires IsRun(Rel(cfg), run) && run[0] == Init() && i < |run|
    requires Quiet(run[i]) && run[i].tripped
    ensures CleanEnd(run[i])
  {
    RunKeepsAfterTrip(cfg, run, i);
    QuietStates(cfg, run[i]);
  }

  // ------------------------------------------------------------------ main copies a flag: no cycle limit

  /** Without a cycle limit a flag is set by a trace limit hit first. */
  predicate FlagsMeanTrip(s: System) { s.senderShutdown || s.receiverShutdown ==> s.tripped }

  lemma StepKeepsFlagsMeanTrip(cfg: Config, s: System, a: Action)
    requires !cfg.main.Interrupted? && cfg.maxCycles == 0
    requires Limits(cfg, s) && FlagsMeanTrip(s) && Possible(cfg, s, a)
    ensures FlagsMeanTrip(Act(cfg, s, a))
  {
    match a case SenderActs(_) => case ReceiverActs(_) => case MainStores =>
  }

  lemma ReactingStopsTogether(cfg: Config, run: seq<System>, i: nat)
    requires IsRun(Rel(cfg), run) && run[0] == Init() && i < |run| && !cfg.main.Interrupted? && cfg.maxCycles == 0
    requires Quiet(run[i])
    ensures CleanEnd(run[i]) && run[i].tripped
  {
    var inv := (s: System) => Inv(cfg, s) && FlagsMeanTrip(s);
    assert inv(run[0]);
    forall s, t | inv(s) && Rel(cfg)(s, t) ensures inv(t) {
      var a: Action :| Possible(cfg, s, a) && t == Act(cfg, s, a);
      StepKeepsInv(cfg, s, a);
      StepKeepsFlagsMeanTrip(cfg, s, a);
    }
    InvariantAlong(Rel(cfg), inv, run, i);
    QuietStates(cfg, run[i]);
    TripStopsTogether(cfg, run, i);
  }

  // ------------------------------------------------------------------ main copies a flag: the cycle limit

  function LastOf(run: seq<System>): System
    requires run != []
  {
    run[|run| - 1]
  }

  ghost predicate From(cfg: Config, run: seq<System>, s: System) { IsRun(Rel(cfg), run) && run[0] == s }

  lemma Extend(cfg: Config, s0: System, run: seq<System>, a: Action) returns (longer: seq<System>)
    requires From(cfg, run, s0) && Possible(cfg, LastOf(run), a)
    ensures From(cfg, longer, s0) && LastOf(longer) == Act(cfg, LastOf(run), a)
  {
    longer := run + [Act(cfg, LastOf(run), a)];
    assert Rel(cfg)(LastOf(run), Act(cfg, LastOf(run), a));
    forall i | 0 <= i < |longer| - 1 ensures Rel(cfg)(longer[i], longer[i + 1]) {
      if i < |run| - 1 { assert Rel(cfg)(run[i], run[i + 1]); }
    }
  }

  /** Both threads are about to test their flags, after n quick rounds. */
  predicate Idle(s: System, n: nat) {
    && s.sender.STest? && s.receiver.RTest? && !s.senderShutdown && !s.receiverShutdown && s.main.Polling?
    && s.testQueue == [] && s.syncQueue == 0 && s.maxDiff == 0
    && s.senderSamples == s.receiverSamples == s.sends == n
  }

  /** The sender has sent message n; the receiver has not looked yet. */
  predicate Sent(s: System, n: nat) {
    && s.sender.SInc? && s.receiver.RTest? && !s.senderShutdown && !s.receiverShutdown && s.main.Polling?
    && s.testQueue == [n] && s.syncQueue == 0 && s.maxDiff == 0 && s.sent == 0
    && s.senderSamples == s.receiverSamples == n && s.sends == n + 1
  }

  /** The receiver has answered message n. */
  predicate Answered(s: System, n: nat) {
    && s.sender.SInc? && s.receiver.RTest? && !s.senderShutdown && !s.receiverShutdown && s.main.Polling?
    && s.testQueue == [] && s.syncQueue == 1 && s.maxDiff == 0
    && s.senderSamples == n && s.receiverSamples == s.sends == n + 1
  }

  lemma SendPhase(cfg: Config, s0: System, run: seq<System>, n: nat) returns (longer: seq<System>)
    requires From(cfg, run, s0) && Idle(LastOf(run), n)
    ensures From(cfg, longer, s0) && Sent(LastOf(longer), n)
  {
    longer := Extend(cfg, s0, run, SenderActs(0));
    longer := Extend(cfg, s0, longer, SenderActs(0));
    longer := Extend(cfg, s0, longer, SenderActs(0));
  }

  lemma AnswerPhase(cfg: Config, s0: System, run: seq<System>, n: nat) returns (longer: seq<System>)
    requires From(cfg, run, s0) && Sent(LastOf(run), n) && !AtMax(cfg, n + 1)
    ensures From(cfg, longer, s0) && Answered(LastOf(longer), n)
  {
    longer := Extend(cfg, s0, run, ReceiverActs(0));
    longer := Extend(cfg, s0, longer, ReceiverActs(0));
    assert LastOf(longer).receiver.RGet? && LastOf(longer).testQueue == [];
    longer := Extend(cfg, s0, longer, ReceiverActs(0));
    longer := Extend(cfg, s0, longer, ReceiverActs(0));
    longer := Extend(cfg, s0, longer, ReceiverActs(0));
    assert LastOf(longer).receiver.RTrace? && LastOf(longer).maxDiff == 0;
    longer := Extend(cfg, s0, longer, ReceiverActs(0));
    longer := Extend(cfg, s0, longer, ReceiverActs(0));
    longer := Extend(cfg, s0, longer, ReceiverActs(0));
    longer := Extend(cfg, s0, longer, ReceiverActs(0));
  }

  lemma SyncPhase(cfg: Config, s0: System, run: seq<System>, n: nat) returns (longer: seq<System>)
    requires From(cfg, run, s0) && Answered(LastOf(run), n) && !AtMax(cfg, n + 1)
    ensures From(cfg, longer, s0) && Idle(LastOf(longer), n + 1)
  {
    longer := Extend(cfg, s0, run, SenderActs(0));
    longer := Extend(cfg, s0, longer, SenderActs(0));
    longer := Extend(cfg, s0, longer, SenderActs(0));
  }

  /** As many rounds as the limit allows before the last. */
  lemma {:induction false} QuickRounds(cfg: Config, s0: System, n: nat) returns (run: seq<System>)
    requires s0 == Init() && !AtMax(cfg, n)
    ensures From(cfg, run, s0) && Idle(LastOf(run), n)
  {
    if n == 0 {
      run := [s0];
    } else {
      run := QuickRounds(cfg, s0, n - 1);
      run := SendPhase(cfg, s0, run, n - 1);
      run := AnswerPhase(cfg, s0, run, n - 1);
      run := SyncPhase(cfg, s0, run, n - 1);
    }
  }

  /** In the last round the sender reaches its limit and main copies the flag before the receiver tests its
      own: the receiver leaves without reading the last message. */
  lemma StrandedAtLimit(cfg: Config, s0: System) returns (run: seq<System>)
    requires !cfg.main.Silent? && cfg.maxCycles > 0 && s0 == Init()
    ensures From(cfg, run, s0) && Quiet(LastOf(run)) && SenderStranded(LastOf(run))
    ensures LastOf(run).senderSamples == cfg.maxCycles
  {
    var n := cfg.maxCycles - 1;
    run := QuickRounds(cfg, s0, n);
    run := SendPhase(cfg, s0, run, n);
    run := Extend(cfg, s0, run, SenderActs(0));
    run := Extend(cfg, s0, run, SenderActs(0));
    run := Extend(cfg, s0, run, MainStores);
    run := Extend(cfg, s0, run, ReceiverActs(0));
  }

  /** On a signal main may do so in any round. */
  lemma StrandedBySignal(cfg: Config, s0: System) returns (run: seq<System>)
    requires cfg.main.Interrupted? && s0 == Init()
    ensures From(cfg, run, s0) && Quiet(LastOf(run)) && SenderStranded(LastOf(run))
  {
    run := SendPhase(cfg, s0, [s0], 0);
    run := Extend(cfg, s0, run, MainStores);
    run := Extend(cfg, s0, run, ReceiverActs(0));
    run := Extend(cfg, s0, run, SenderActs(0));
    run := Extend(cfg, s0, run, SenderActs(0));
  }

  /** A run stranded between main's two stores: the receiver's flag is set while it handles message 0, it answers
      and leaves; the sender tests its own flag, still unset, and sends message 1 to nobody. */
  lemma StrandedBetweenStores(cfg: Config, s0: System) returns (run: seq<System>)
    requires cfg.main.Interrupted? && !AtMax(cfg, 1) && s0 == Init()
    ensures From(cfg, run, s0) && Quiet(LastOf(run)) && SenderStranded(LastOf(run))
    ensures LastOf(run).main.Stored? && LastOf(run).sends == 2
  {
    run := SendPhase(cfg, s0, [s0], 0);
    run := Extend(cfg, s0, run, ReceiverActs(0));
    run := Extend(cfg, s0, run, ReceiverActs(0));
    assert LastOf(run).receiver.RGet? && LastOf(run).testQueue == [];
    run := Extend(cfg, s0, run, MainStores);
    run := FinishAnswer(cfg, s0, run);
    run := SecondMessage(cfg, s0, run);
  }

  lemma FinishAnswer(cfg: Config, s0: System, run: seq<System>) returns (longer: seq<System>)
    requires From(cfg, run, s0) && !AtMax(cfg, 1)
    requires var s := LastOf(run);
      && s.sender.SInc? && s.receiver.RGet? && !s.senderShutdown && s.receiverShutdown && s.main.Between?
      && s.testQueue == [] && s.syncQueue == 0 && s.maxDiff == 0 && s.sent == 0
      && s.senderSamples == s.receiverSamples == 0 && s.sends == 1
    ensures From(cfg, longer, s0)
    ensures var s := LastOf(longer);
      && s.sender.SInc? && s.receiver.RExit? && !s.senderShutdown && s.receiverShutdown && s.main.Between?
      && s.testQueue == [] && s.syncQueue == 1 && s.senderSamples == 0 && s.receiverSamples == s.sends == 1
  {
    longer := Extend(cfg, s0, run, ReceiverActs(0));
    longer := Extend(cfg, s0, longer, ReceiverActs(0));
    longer := Extend(cfg, s0, longer, ReceiverActs(0));
    assert LastOf(longer).receiver.RTrace? && LastOf(longer).maxDiff == 0;
    longer := Extend(cfg, s0, longer, ReceiverActs(0));
    longer := Extend(cfg, s0, longer, ReceiverActs(0));
    longer := Extend(cfg, s0, longer, ReceiverActs(0));
    longer := Extend(cfg, s0, longer, ReceiverActs(0));
    longer := Extend(cfg, s0, longer, ReceiverActs(0));
  }

  lemma SecondMessage(cfg: Config, s0: System, run: seq<System>) returns (longer: seq<System>)
    requires From(cfg, run, s0) && !AtMax(cfg, 1)
    requires var s := LastOf(run);
      && s.sender.SInc? && s.receiver.RExit? && !s.senderShutdown && s.receiverShutdown && s.main.Between?
      && s.testQueue == [] && s.syncQueue == 1 && s.senderSamples == 0 && s.receiverSamples == s.sends == 1
    ensures From(cfg, longer, s0) && Quiet(LastOf(longer)) && SenderStranded(LastOf(longer))
    ensures LastOf(longer).main.Stored? && LastOf(longer).sends == 2
  {
    longer := Extend(cfg, s0, run, SenderActs(0));
    longer := Extend(cfg, s0, longer, SenderActs(0));
    longer := Extend(cfg, s0, longer, SenderActs(0));
    longer := Extend(cfg, s0, longer, SenderActs(0));
    longer := Extend(cfg, s0, longer, SenderActs(0));
    longer := Extend(cfg, s0, longer, SenderActs(0));
    longer := Extend(cfg, s0, longer, SenderActs(0));
    longer := Extend(cfg, s0, longer, SenderActs(0));
    longer := Extend(cfg, s0, longer, MainStores);
  }

  // ------------------------------------------------------------------ exactly which runs end cleanly

  predicate BoundToSend(pc: SenderPc) { pc.SGet? || pc.SSend? }

  predicate BoundToLeave(pc: ReceiverPc) { pc.RTest? || pc.RExit? }

  /** The receiver will leave, or has left, without a message that is sent or will be. */
  predicate SenderDoomed(s: System) {
    s.receiverShutdown && BoundToLeave(s.receiver) && (BoundToSend(s.sender) || s.testQueue != [])
  }

  /** The sender will leave, or has left, while the receiver waits for one more message. */
  predicate ReceiverDoomed(s: System) {
    s.senderShutdown && s.receiver.RRecv? && s.testQueue == [] && !BoundToSend(s.sender)
  }

  predicate DoomedPair(s: System) { SenderDoomed(s) || ReceiverDoomed(s) }

  /** Main sets the receiver's flag before the receiver has tested it, and a message is on its way or the sender
      has already decided to send one. */
  predicate EarlyStore(s: System, t: System) {
    && s.main.Polling? && t.main.Between?
    && s.receiver.RTest? && (BoundToSend(s.sender) || s.testQueue != [])
  }

  /** Between main's two stores the sender finds its flag unset, while the receiver, its own flag set, is about to
      leave or has left. */
  predicate TestBetween(s: System, t: System) {
    s.sender.STest? && t.sender.SGet? && s.main.Between? && BoundToLeave(s.receiver)
  }

  /** Main sets the sender's flag while the receiver waits for a message that the sender has not decided to send. */
  predicate LateStore(s: System, t: System) {
    && s.main.Between? && t.main.Stored?
    && s.receiver.RRecv? && s.testQueue == [] && !BoundToSend(s.sender)
  }

  /** The steps that separate the threads. */
  predicate Separates(s: System, t: System) { EarlyStore(s, t) || TestBetween(s, t) || LateStore(s, t) }

  /** The threads' own settings of the flags belong together, and main's wait for each other. */
  predicate Coupled(cfg: Config, s: System) {
    var atMax := AtMax(cfg, s.sends);
    && (s.receiverShutdown ==> s.senderShutdown || s.receiver.RTripOther? || atMax || s.main.Between?)
    && (s.senderShutdown ==> s.receiverShutdown || atMax)
    && (atMax && s.testQueue == [] && !BeforeMaxTest(s.receiver) ==> s.receiverShutdown)
    && (s.receiver.RRecv? && s.testQueue == [] ==> !atMax)
  }

  lemma SenderKeepsCoupled(cfg: Config, s: System, time: nat)
    requires Ball(s) && Limits(cfg, s) && AfterTrip(s) && Coupled(cfg, s) && SenderEnabled(s)
    ensures var t := SenderStep(cfg, s, time);
      Coupled(cfg, t) && (DoomedPair(t) <==> DoomedPair(s) || Separates(s, t))
  {}

  lemma ReceiverKeepsCoupled(cfg: Config, s: System, time: nat)
    requires Ball(s) && Limits(cfg, s) && AfterTrip(s) && Coupled(cfg, s) && ReceiverEnabled(s)
    ensures var t := ReceiverStep(cfg, s, time);
      Coupled(cfg, t) && (DoomedPair(t) <==> DoomedPair(s) || Separates(s, t))
  {}

  lemma MainKeepsCoupled(cfg: Config, s: System)
    requires Ball(s) && Limits(cfg, s) && Coupled(cfg, s) && Possible(cfg, s, MainStores)
    ensures var t := Act(cfg, s, MainStores);
      Coupled(cfg, t) && (DoomedPair(t) <==> DoomedPair(s) || Separates(s, t))
  {}

  lemma StepFate(cfg: Config, s: System, t: System)
    requires Inv(cfg, s) && AfterTrip(s) && Coupled(cfg, s) && Next(cfg, s, t)
    ensures Coupled(cfg, t)
    ensures DoomedPair(t) <==> DoomedPair(s) || Separates(s, t)
  {
    var a: Action :| Possible(cfg, s, a) && t == Act(cfg, s, a);
    match a
    case SenderActs(time) => SenderKeepsCoupled(cfg, s, time);
    case ReceiverActs(time) => ReceiverKeepsCoupled(cfg, s, time);
    case MainStores => MainKeepsCoupled(cfg, s);
  }

  predicate SeparatedAt(run: seq<System>, k: nat)
    requires k + 1 < |run|
  {
    Separates(run[k], run[k + 1])
  }

  lemma FateInRun(cfg: Config, run: seq<System>, i: nat)
    requires IsRun(Rel(cfg), run) && run[0] == Init() && i + 1 < |run| && Coupled(cfg, run[i])
    ensures Coupled(cfg, run[i + 1])
    ensures DoomedPair(run[i + 1]) <==> DoomedPair(run[i]) || SeparatedAt(run, i)
  {
    RunKeepsAfterTrip(cfg, run, i);
    assert Rel(cfg)(run[i], run[i + 1]);
    StepFate(cfg, run[i], run[i + 1]);
  }

  lemma StartsCoupled(cfg: Config)
    ensures Coupled(cfg, Init()) && !DoomedPair(Init())
  {}

  lemma {:induction false} DoomedExactlyWhen(cfg: Config, run: seq<System>, i: nat)
    requires IsRun(Rel(cfg), run) && run[0] == Init() && i < |run|
    ensures Coupled(cfg, run[i])
    ensures DoomedPair(run[i]) <==> exists k: nat :: k < i && SeparatedAt(run, k)
  {
    if i == 0 {
      StartsCoupled(cfg);
    } else {
      DoomedExactlyWhen(cfg, run, i - 1);
      FateInRun(cfg, run, i - 1);
    }
  }

  lemma QuietIsCleanExactlyWhen(cfg: Config, s: System)
    requires Inv(cfg, s) && Quiet(s)
    ensures CleanEnd(s) <==> !DoomedPair(s)
  {
    QuietStates(cfg, s);
  }

  /** A run that has come to rest has ended cleanly if and only if no step of it separated the threads. */
  lemma CleanEndExactlyWhen(cfg: Config, run: seq<System>, i: nat)
    requires IsRun(Rel(cfg), run) && run[0] == Init() && i < |run| && Quiet(run[i])
    ensures CleanEnd(run[i]) <==> !exists k: nat :: k < i && SeparatedAt(run, k)
  {
    RunKeepsInv(cfg, run, i);
    DoomedExactlyWhen(cfg, run, i);
    QuietIsCleanExactlyWhen(cfg, run[i]);
  }

  // ------------------------------------------------------------------ exactly when both stop together

  ghost predicate NeverStranded(cfg: Config) {
    forall run: seq<System>, i: nat ::
      IsRun(Rel(cfg), run) && run[0] == Init() && i < |run| && Quiet(run[i]) ==> CleanEnd(run[i])
  }

  lemma Stranded(cfg: Config, run: seq<System>)
    requires From(cfg, run, Init()) && Quiet(LastOf(run)) && SenderStranded(LastOf(run))
    ensures !NeverStranded(cfg)
  {
    var i: nat := |run| - 1;
    assert Quiet(run[i]) && !CleanEnd(run[i]);
  }

  /** Every run that comes to rest ends cleanly if main leaves the flags alone, or only copies them and no cycle
      limit is given; in all other cases some run does not. */
  lemma StopTogetherExactlyWhen(cfg: Config)
    ensures NeverStranded(cfg) <==> cfg.main.Silent? || (cfg.main.Reacting? && cfg.maxCycles == 0)
  {
    if cfg.main.Silent? || (cfg.main.Reacting? && cfg.maxCycles == 0) {
      forall run: seq<System>, i: nat
        | IsRun(Rel(cfg), run) && run[0] == Init() && i < |run| && Quiet(run[i])
        ensures CleanEnd(run[i])
      {
        if cfg.main.Silent? { BothStopTogether(cfg, run, i); } else { ReactingStopsTogether(cfg, run, i); }
      }
    } else if cfg.main.Reacting? {
      var run := StrandedAtLimit(cfg, Init());
      Stranded(cfg, run);
    } else {
      var run := StrandedBySignal(cfg, Init());
      Stranded(cfg, run);
    }
  }

  // ------------------------------------------------------------------ every bounded run ends

  function SenderDistance(pc: SenderPc): nat {
    match pc
    case SInc => 9 case SMax => 8 case SRecv => 7 case STest => 6 case SGet => 5 case SSend => 4 case SExit => 0
  }

  function ReceiverDistance(pc: ReceiverPc): nat {
    match pc
    case RGet => 20 case RInc => 19 case RDiff => 18 case RTrace => 17 case RTripOwn => 16 case RTripOther => 15
    case RMax => 14 case RSleep => 13 case RSync => 12 case RTest => 11 case RRecv => 10 case RExit => 0
  }

  /** How many more messages the sender can send. */
  function Budget(cfg: Config, s: System): nat {
    if s.tripped then 0
    else if s.senderShutdown then (if s.sender.SGet? || s.sender.SSend? then 1 else 0)
    else if cfg.maxCycles > s.sends then cfg.maxCycles - s.sends
    else 0
  }

  function Rank(cfg: Config, s: System): nat {
    30 * Budget(cfg, s) + 12 * |s.testQueue| + SenderDistance(s.sender) + ReceiverDistance(s.receiver)
    + (if s.senderShutdown then 0 else 1) + (if s.receiverShutdown then 0 else 1)
    + (match s.main case Polling => 2 case Between => 1 case Stored => 0)
  }

  /** An end is in sight: a number of cycles was given, or the sender was told to stop, or the limit was hit. */
  predicate Bounded(cfg: Config, s: System) { cfg.maxCycles > 0 || s.senderShutdown || s.tripped }

  lemma SenderLowersRank(cfg: Config, s: System, time: nat)
    requires Ball(s) && Limits(cfg, s) && Bounded(cfg, s) && SenderEnabled(s)
    ensures var t := SenderStep(cfg, s, time); Bounded(cfg, t) && Rank(cfg, t) < Rank(cfg, s)
  {}

  lemma ReceiverLowersRank(cfg: Config, s: System, time: nat)
    requires Ball(s) && Limits(cfg, s) && Bounded(cfg, s) && ReceiverEnabled(s)
    ensures var t := ReceiverStep(cfg, s, time); Bounded(cfg, t) && Rank(cfg, t) < Rank(cfg, s)
  {
    if s.receiver.RTest? || s.receiver.RRecv? {
      ReceiverTakesLowersRank(cfg, s, time);
    } else if Tripping(s.receiver) || s.receiver.RTrace? {
      TrippingLowersRank(cfg, s, time);
    }
  }

  lemma ReceiverTakesLowersRank(cfg: Config, s: System, time: nat)
    requires Ball(s) && Limits(cfg, s) && Bounded(cfg, s) && ReceiverEnabled(s)
    requires s.receiver.RTest? || s.receiver.RRecv?
    ensures var t := ReceiverStep(cfg, s, time); Bounded(cfg, t) && Rank(cfg, t) < Rank(cfg, s)
  {}

  lemma TrippingLowersRank(cfg: Config, s: System, time: nat)
    requires Ball(s) && Limits(cfg, s) && Bounded(cfg, s) && (Tripping(s.receiver) || s.receiver.RTrace?)
    ensures var t := ReceiverStep(cfg, s, time); Bounded(cfg, t) && Rank(cfg, t) < Rank(cfg, s)
  {}

  lemma MainLowersRank(cfg: Config, s: System)
    requires Ball(s) && Limits(cfg, s) && Bounded(cfg, s) && Possible(cfg, s, MainStores)
    ensures var t := Act(cfg, s, MainStores); Bounded(cfg, t) && Rank(cfg, t) < Rank(cfg, s)
  {}

  lemma StepLowersRank(cfg: Config, s: System, a: Action)
    requires Inv(cfg, s) && Bounded(cfg, s) && Possible(cfg, s, a)
    ensures var t := Act(cfg, s, a); Bounded(cfg, t) && Rank(cfg, t) < Rank(cfg, s)
  {
    match a
    case SenderActs(time) => SenderLowersRank(cfg, s, time);
    case ReceiverActs(time) => ReceiverLowersRank(cfg, s, time);
    case MainStores => MainLowersRank(cfg, s);
  }

  lemma StepsLowerRank(cfg: Config)
    ensures Preserves(Rel(cfg), (s: System) => Inv(cfg, s) && Bounded(cfg, s))
    ensures Lowers(Rel(cfg), (s: System) => Inv(cfg, s) && Bounded(cfg, s), (s: System) => Rank(cfg, s))
  {
    var inv := (s: System) => Inv(cfg, s) && Bounded(cfg, s);
    forall s, t | inv(s) && Rel(cfg)(s, t) ensures inv(t) && Rank(cfg, t) < Rank(cfg, s) {
      var a: Action :| Possible(cfg, s, a) && t == Act(cfg, s, a);
      StepKeepsInv(cfg, s, a);
      StepLowersRank(cfg, s, a);
    }
  }

  /** From the moment an end is in sight, at most Rank more steps are taken, whatever the schedule. */
  lemma BoundedRunsEnd(cfg: Config, run: seq<System>, i: nat, j: nat)
    requires IsRun(Rel(cfg), run) && run[0] == Init() && i <= j < |run|
    requires Bounded(cfg, run[i])
    ensures Rank(cfg, run[j]) + (j - i) <= Rank(cfg, run[i])
  {
    RunKeepsInv(cfg, run, i);
    StepsLowerRank(cfg);
    RankBetween(Rel(cfg), (s: System) => Inv(cfg, s) && Bounded(cfg, s), (s: System) => Rank(cfg, s), run, i, j);
  }
}
