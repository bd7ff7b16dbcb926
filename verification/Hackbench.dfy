/** hackbench: in each group every one of `fds` senders sends `loops` messages of `datasize` bytes to each of
    `fds` receivers, over byte channels of limited capacity and with partial reads and writes; nobody starts
    before main has heard from everybody. */
module Hackbench {
  import opened Arith
  import opened Sums

  /** `capacity` bytes fit into a channel, `readyCapacity` into the ready channel; the options insist on
      datasize > 0. */
  datatype Config = Config(groups: nat, fds: nat, loops: nat, datasize: nat, capacity: nat, readyCapacity: nat) {
    predicate Valid() { datasize > 0 && capacity > 0 && readyCapacity > 0 }
    function Packets(): nat { fds * loops }       // ctx->num_packets
    function Children(): nat { groups * (2 * fds) } // total_children
  }

  /** The loop variables of `sender`: message `i` for channel `j`, of which `done` bytes are written. */
  datatype Sender = Sender(i: nat, j: nat, done: nat)

  /** The loop variables of `receiver`: packet `i`, of which `done` bytes are read. */
  datatype Receiver = Receiver(i: nat, done: nat)

  datatype Group = Group(senders: seq<Sender>, receivers: seq<Receiver>, buffered: seq<nat>)

  // ------------------------------------------------------------------ moving bytes

  predicate SenderDone(cfg: Config, s: Sender) { s.i >= cfg.loops || cfg.fds == 0 }
  predicate ReceiverDone(cfg: Config, r: Receiver) { r.i >= cfg.Packets() }

  /** done += ret; once the message is out, the next channel, then the next round. */
  function Wrote(cfg: Config, s: Sender, ret: nat): Sender {
    if s.done + ret < cfg.datasize then s.(done := s.done + ret)
    else if s.j + 1 < cfg.fds then Sender(s.i, s.j + 1, 0)
    else Sender(s.i + 1, 0, 0)
  }

  function Got(cfg: Config, r: Receiver, ret: nat): Receiver {
    if r.done + ret < cfg.datasize then r.(done := r.done + ret) else Receiver(r.i + 1, 0)
  }

  /** write() blocks on a full channel; otherwise it takes some of what is left, as far as it fits. */
  predicate CanWrite(cfg: Config, g: Group, t: nat, ret: nat) {
    && t < |g.senders| && !SenderDone(cfg, g.senders[t]) && g.senders[t].j < |g.buffered|
    && 1 <= ret && g.senders[t].done + ret <= cfg.datasize
    && g.buffered[g.senders[t].j] + ret <= cfg.capacity
  }

  function Write(cfg: Config, g: Group, t: nat, ret: nat): Group
    requires CanWrite(cfg, g, t, ret)
  {
    var s := g.senders[t];
    g.(senders := g.senders[t := Wrote(cfg, s, ret)], buffered := g.buffered[s.j := g.buffered[s.j] + ret])
  }

  /** read() blocks on an empty channel; otherwise it yields some of what is there, as far as it is wanted. */
  predicate CanRead(cfg: Config, g: Group, c: nat, ret: nat) {
    && c < |g.receivers| && c < |g.buffered| && !ReceiverDone(cfg, g.receivers[c])
    && 1 <= ret <= g.buffered[c] && g.receivers[c].done + ret <= cfg.datasize
  }

  function Read(cfg: Config, g: Group, c: nat, ret: nat): Group
    requires CanRead(cfg, g, c, ret)
  {
    g.(receivers := g.receivers[c := Got(cfg, g.receivers[c], ret)], buffered := g.buffered[c := g.buffered[c] - ret])
  }

  function InitGroup(cfg: Config): Group {
    Group(seq(cfg.fds, _ => Sender(0, 0, 0)), seq(cfg.fds, _ => Receiver(0, 0)), seq(cfg.fds, _ => 0))
  }

  predicate GroupDone(cfg: Config, g: Group) {
    && (forall t :: 0 <= t < |g.senders| ==> SenderDone(cfg, g.senders[t]))
    && (forall c :: 0 <= c < |g.receivers| ==> ReceiverDone(cfg, g.receivers[c]))
  }

  // ------------------------------------------------------------------ conservation of bytes

  /** Bytes that sender `s` has written to channel `c`. */
  function SentTo(cfg: Config, s: Sender, c: nat): nat {
    s.i * cfg.datasize + if c < s.j then cfg.datasize else if c == s.j then s.done else 0
  }

  function Received(cfg: Config, r: Receiver): nat { r.i * cfg.datasize + r.done }

  ghost function SentBy(cfg: Config, c: nat): Sender -> nat { (s: Sender) => SentTo(cfg, s, c) }

  /** Bytes written to channel `c` by all senders of the group. */
  ghost function Written(cfg: Config, g: Group, c: nat): nat { SumBy(SentBy(cfg, c), g.senders) }

  predicate SenderOk(cfg: Config, s: Sender) {
    && s.i <= cfg.loops && s.done < cfg.datasize && s.j < cfg.fds
    && (s.i == cfg.loops ==> s.j == 0 && s.done == 0)
  }

  predicate ReceiverOk(cfg: Config, r: Receiver) {
    r.i <= cfg.Packets() && r.done < cfg.datasize && (r.i == cfg.Packets() ==> r.done == 0)
  }

  ghost predicate Conserved(cfg: Config, g: Group, c: nat)
    requires c < |g.receivers| && c < |g.buffered|
  {
    Written(cfg, g, c) == Received(cfg, g.receivers[c]) + g.buffered[c]
  }

  ghost predicate GroupOk(cfg: Config, g: Group) {
    && |g.senders| == |g.receivers| == |g.buffered| == cfg.fds
    && (forall t :: 0 <= t < cfg.fds ==> SenderOk(cfg, g.senders[t]))
    && (forall c :: 0 <= c < cfg.fds ==> ReceiverOk(cfg, g.receivers[c]))
    && (forall c :: 0 <= c < cfg.fds ==> g.buffered[c] <= cfg.capacity)
    && (forall c :: 0 <= c < cfg.fds ==> Conserved(cfg, g, c))
  }

  lemma WroteMoves(cfg: Config, s: Sender, ret: nat, c: nat)
    requires cfg.Valid() && SenderOk(cfg, s) && !SenderDone(cfg, s)
    requires 1 <= ret && s.done + ret <= cfg.datasize && c < cfg.fds
    ensures SenderOk(cfg, Wrote(cfg, s, ret))
    ensures SentTo(cfg, Wrote(cfg, s, ret), c) == SentTo(cfg, s, c) + if c == s.j then ret else 0
  {
    NextMultiple(s.i, cfg.datasize);
  }

  lemma GotMoves(cfg: Config, r: Receiver, ret: nat)
    requires cfg.Valid() && ReceiverOk(cfg, r) && !ReceiverDone(cfg, r) && 1 <= ret && r.done + ret <= cfg.datasize
    ensures ReceiverOk(cfg, Got(cfg, r, ret))
    ensures Received(cfg, Got(cfg, r, ret)) == Received(cfg, r) + ret
  {
    NextMultiple(r.i, cfg.datasize);
  }

  lemma WriteKeepsGroupOk(cfg: Config, g: Group, t: nat, ret: nat)
    requires cfg.Valid() && GroupOk(cfg, g) && CanWrite(cfg, g, t, ret)
    ensures GroupOk(cfg, Write(cfg, g, t, ret))
  {
    var s := g.senders[t];
    var h := Write(cfg, g, t, ret);
    WroteMoves(cfg, s, ret, s.j);
    forall c | 0 <= c < cfg.fds ensures Conserved(cfg, h, c) {
      WroteMoves(cfg, s, ret, c);
      SumByUpdate(SentBy(cfg, c), g.senders, t, Wrote(cfg, s, ret));
      assert Conserved(cfg, g, c);
    }
  }

  lemma ReadKeepsGroupOk(cfg: Config, g: Group, c: nat, ret: nat)
    requires cfg.Valid() && GroupOk(cfg, g) && CanRead(cfg, g, c, ret)
    ensures GroupOk(cfg, Read(cfg, g, c, ret))
  {
    GotMoves(cfg, g.receivers[c], ret);
    var h := Read(cfg, g, c, ret);
    forall k | 0 <= k < cfg.fds ensures Conserved(cfg, h, k) { assert Conserved(cfg, g, k); }
  }

  lemma InitGroupOk(cfg: Config)
    requires cfg.Valid()
    ensures GroupOk(cfg, InitGroup(cfg))
  {
    var g := InitGroup(cfg);
    forall c | 0 <= c < cfg.fds ensures Conserved(cfg, g, c) {
      SumByZero(SentBy(cfg, c), g.senders);
    }
  }

  // ------------------------------------------------------------------ a group never deadlocks

  /** Bytes each sender owes each channel. */
  function Share(cfg: Config): nat { cfg.loops * cfg.datasize }

  lemma PacketsAreShares(cfg: Config)
    ensures cfg.Packets() * cfg.datasize == Share(cfg) * cfg.fds
  {}

  lemma SentAtMostShare(cfg: Config, s: Sender, c: nat)
    requires cfg.Valid() && SenderOk(cfg, s)
    ensures SentTo(cfg, s, c) <= Share(cfg)
    ensures SenderDone(cfg, s) ==> SentTo(cfg, s, c) == Share(cfg)
  {
    if s.i < cfg.loops {
      MultipleMonotone(s.i + 1, cfg.loops, cfg.datasize);
      NextMultiple(s.i, cfg.datasize);
    }
  }

  lemma WrittenAtMost(cfg: Config, g: Group, c: nat)
    requires cfg.Valid() && GroupOk(cfg, g) && c < cfg.fds
    ensures Written(cfg, g, c) <= cfg.Packets() * cfg.datasize
    ensures (forall t :: 0 <= t < cfg.fds ==> SenderDone(cfg, g.senders[t]))
              ==> Written(cfg, g, c) == cfg.Packets() * cfg.datasize
  {
    forall t | 0 <= t < cfg.fds
      ensures SentBy(cfg, c)(g.senders[t]) <= Share(cfg)
      ensures SenderDone(cfg, g.senders[t]) ==> SentBy(cfg, c)(g.senders[t]) == Share(cfg)
    {
      SentAtMostShare(cfg, g.senders[t], c);
    }
    SumByAtMost(SentBy(cfg, c), g.senders, Share(cfg));
    PacketsAreShares(cfg);
  }

  lemma ReceivedAtMost(cfg: Config, r: Receiver)
    requires cfg.Valid() && ReceiverOk(cfg, r)
    ensures ReceiverDone(cfg, r) <==> Received(cfg, r) >= cfg.Packets() * cfg.datasize
    ensures Received(cfg, r) <= cfg.Packets() * cfg.datasize
  {
    if r.i < cfg.Packets() {
      MultipleMonotone(r.i + 1, cfg.Packets(), cfg.datasize);
      NextMultiple(r.i, cfg.datasize);
    }
  }

  /** A receiver still waiting for bytes always has a sender behind it, so it never reads an end of file. */
  lemma NoEndOfFile(cfg: Config, g: Group, c: nat)
    requires cfg.Valid() && GroupOk(cfg, g) && c < cfg.fds && !ReceiverDone(cfg, g.receivers[c]) && g.buffered[c] == 0
    ensures exists t :: 0 <= t < cfg.fds && !SenderDone(cfg, g.senders[t])
  {
    assert Conserved(cfg, g, c);
    WrittenAtMost(cfg, g, c);
    ReceivedAtMost(cfg, g.receivers[c]);
  }

  /** As long as somebody is not done, some thread is not blocked. */
  lemma GroupNotStuck(cfg: Config, g: Group)
    requires cfg.Valid() && GroupOk(cfg, g) && !GroupDone(cfg, g)
    ensures (exists t :: CanWrite(cfg, g, t, 1)) || (exists c :: CanRead(cfg, g, c, 1))
  {
    if t :| 0 <= t < cfg.fds && !SenderDone(cfg, g.senders[t]) {
      var j := g.senders[t].j;
      if g.buffered[j] < cfg.capacity {
        assert CanWrite(cfg, g, t, 1);
      } else {
        assert Conserved(cfg, g, j);
        WrittenAtMost(cfg, g, j);
        ReceivedAtMost(cfg, g.receivers[j]);
        assert CanRead(cfg, g, j, 1);
      }
    } else {
      var c :| 0 <= c < cfg.fds && !ReceiverDone(cfg, g.receivers[c]);
      if g.buffered[c] == 0 { NoEndOfFile(cfg, g, c); }
      assert CanRead(cfg, g, c, 1);
    }
  }

  /** When all senders and receivers have returned, every byte has arrived: the channels are empty. */
  lemma DoneMeansEmpty(cfg: Config, g: Group, c: nat)
    requires cfg.Valid() && GroupOk(cfg, g) && GroupDone(cfg, g) && c < cfg.fds
    ensures g.buffered[c] == 0 && Received(cfg, g.receivers[c]) == cfg.fds * (cfg.loops * cfg.datasize)
  {
    assert Conserved(cfg, g, c);
    WrittenAtMost(cfg, g, c);
    ReceivedAtMost(cfg, g.receivers[c]);
    PacketsAreShares(cfg);
  }

  // ------------------------------------------------------------------ bytes still to move

  function Nat(x: int): nat { if x < 0 then 0 else x }

  function MessagesLeft(cfg: Config, s: Sender): int { (cfg.loops - s.i) * cfg.fds - s.j }

  function ToSend(cfg: Config, s: Sender): nat { Nat(MessagesLeft(cfg, s) * cfg.datasize - s.done) }

  function ToReceive(cfg: Config, r: Receiver): nat { Nat((cfg.Packets() - r.i) * cfg.datasize - r.done) }

  ghost function Sending(cfg: Config): Sender -> nat { (s: Sender) => ToSend(cfg, s) }
  ghost function Receiving(cfg: Config): Receiver -> nat { (r: Receiver) => ToReceive(cfg, r) }

  ghost function ToMove(cfg: Config, g: Group): nat {
    SumBy(Sending(cfg), g.senders) + SumBy(Receiving(cfg), g.receivers)
  }

  lemma PositiveMultiple(m: int, d: nat)
    requires m >= 1
    ensures m * d >= d && m * d == (m - 1) * d + d
  {}

  lemma WroteLess(cfg: Config, s: Sender, ret: nat)
    requires cfg.Valid() && SenderOk(cfg, s) && !SenderDone(cfg, s) && 1 <= ret && s.done + ret <= cfg.datasize
    ensures ToSend(cfg, s) == ToSend(cfg, Wrote(cfg, s, ret)) + ret
  {
    var m := MessagesLeft(cfg, s);
    assert m >= 1 by {
      MultipleMonotone(1, cfg.loops - s.i, cfg.fds);
    }
    PositiveMultiple(m, cfg.datasize);
    var t := Wrote(cfg, s, ret);
    if s.done + ret == cfg.datasize {
      assert MessagesLeft(cfg, t) == m - 1 by {
        if s.j + 1 == cfg.fds { PositiveMultiple(cfg.loops - s.i, cfg.fds); }
      }
      MultipleMonotone(0, m - 1, cfg.datasize);
    }
  }

  lemma GotLess(cfg: Config, r: Receiver, ret: nat)
    requires cfg.Valid() && ReceiverOk(cfg, r) && !ReceiverDone(cfg, r) && 1 <= ret && r.done + ret <= cfg.datasize
    ensures ToReceive(cfg, r) == ToReceive(cfg, Got(cfg, r, ret)) + ret
  {
    var m := cfg.Packets() - r.i;
    PositiveMultiple(m, cfg.datasize);
    MultipleMonotone(0, m - 1, cfg.datasize);
  }

  lemma WriteLowersToMove(cfg: Config, g: Group, t: nat, ret: nat)
    requires cfg.Valid() && GroupOk(cfg, g) && CanWrite(cfg, g, t, ret)
    ensures ToMove(cfg, Write(cfg, g, t, ret)) + ret == ToMove(cfg, g)
  {
    WroteLess(cfg, g.senders[t], ret);
    SumByUpdate(Sending(cfg), g.senders, t, Wrote(cfg, g.senders[t], ret));
  }

  lemma ReadLowersToMove(cfg: Config, g: Group, c: nat, ret: nat)
    requires cfg.Valid() && GroupOk(cfg, g) && CanRead(cfg, g, c, ret)
    ensures ToMove(cfg, Read(cfg, g, c, ret)) + ret == ToMove(cfg, g)
  {
    GotLess(cfg, g.receivers[c], ret);
    SumByUpdate(Receiving(cfg), g.receivers, c, Got(cfg, g.receivers[c], ret));
  }
}
