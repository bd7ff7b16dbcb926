/** The value buffer of cyclictest's verbose mode: the measuring thread stores every difference in a ring,
    the main thread reads them, reduces them in groups and prints the maximum of each group. */
module Oscope {
  import opened Arith
  import opened Runs

  const VALBUF_SIZE: nat := 16384

  datatype Line = Line(cycle: nat, max: int)

  /** reduce, redmax, cycleofmax, and the lines printed so far. */
  datatype Reducer = Reducer(reduce: nat, redmax: int, cycleofmax: nat, lines: seq<Line>)

  /** The body of the reading loop for the value `diff` of one cycle. */
  function Consume(r: Reducer, cycle: nat, diff: int, reduction: nat): Reducer {
    var redmax := if diff > r.redmax then diff else r.redmax;
    var cycleofmax := if diff > r.redmax then cycle else r.cycleofmax;
    if r.reduce + 1 == reduction then Reducer(0, 0, cycleofmax, r.lines + [Line(cycleofmax, redmax)])
    else Reducer(r.reduce + 1, redmax, cycleofmax, r.lines)
  }

  function ConsumeAll(ds: seq<int>, reduction: nat): Reducer {
    if ds == [] then Reducer(0, 0, 0, [])
    else Consume(ConsumeAll(ds[..|ds| - 1], reduction), |ds| - 1, ds[|ds| - 1], reduction)
  }

  // ------------------------------------------------------------------ what the lines say

  /** `max` is the maximum of 0 and ds[from..to], and `cycle` is where it is first reached if it is positive. */
  ghost predicate IsMaximum(ds: seq<int>, from: nat, to: nat, max: int, cycle: nat) {
    && from <= to <= |ds| && max >= 0
    && (forall k :: from <= k < to ==> ds[k] <= max)
    && (max > 0 ==> from <= cycle < to && ds[cycle] == max && forall k :: from <= k < cycle ==> ds[k] < max)
  }

  /** `line` stands for group g of `reduction` differences. */
  ghost predicate LineOfGroup(ds: seq<int>, reduction: nat, g: nat, line: Line) {
    IsMaximum(ds, reduction * g, reduction * (g + 1), line.max, line.cycle)
  }

  ghost predicate LinesAreMaxima(ds: seq<int>, reduction: nat, lines: seq<Line>) {
    forall g :: 0 <= g < |lines| ==> LineOfGroup(ds, reduction, g, lines[g])
  }

  lemma MaximumStays(ds: seq<int>, more: seq<int>, from: nat, to: nat, max: int, cycle: nat)
    requires IsMaximum(ds, from, to, max, cycle) && ds <= more
    ensures IsMaximum(more, from, to, max, cycle)
  {}

  lemma LinesStay(ds: seq<int>, more: seq<int>, reduction: nat, lines: seq<Line>)
    requires LinesAreMaxima(ds, reduction, lines) && ds <= more
    ensures LinesAreMaxima(more, reduction, lines)
  {
    forall g | 0 <= g < |lines| ensures LineOfGroup(more, reduction, g, lines[g]) {
      MaximumStays(ds, more, reduction * g, reduction * (g + 1), lines[g].max, lines[g].cycle);
    }
  }

  lemma MaximumNext(ds: seq<int>, d: int, from: nat, max: int, cycle: nat)
    requires IsMaximum(ds, from, |ds|, max, cycle)
    ensures IsMaximum(ds + [d], from, |ds| + 1, if d > max then d else max, if d > max then |ds| else cycle)
  {}

  lemma LineAdded(ds: seq<int>, reduction: nat, lines: seq<Line>, line: Line)
    requires LinesAreMaxima(ds, reduction, lines) && LineOfGroup(ds, reduction, |lines|, line)
    ensures LinesAreMaxima(ds, reduction, lines + [line])
  {
    var ls := lines + [line];
    forall g | 0 <= g < |ls| ensures LineOfGroup(ds, reduction, g, ls[g]) {
      if g < |lines| {
        assert ls[g] == lines[g];
      }
    }
  }

  /** What the reducer has printed and kept of the differences ds. */
  ghost predicate Reduced(ds: seq<int>, reduction: nat, r: Reducer) {
    && r.reduce < reduction && |ds| == reduction * |r.lines| + r.reduce
    && LinesAreMaxima(ds, reduction, r.lines)
    && IsMaximum(ds, |ds| - r.reduce, |ds|, r.redmax, r.cycleofmax)
  }

  lemma ConsumeReduces(ds: seq<int>, d: int, reduction: nat, r: Reducer)
    requires Reduced(ds, reduction, r)
    ensures Reduced(ds + [d], reduction, Consume(r, |ds|, d, reduction))
  {
    var es, t := ds + [d], Consume(r, |ds|, d, reduction);
    var from := |ds| - r.reduce;
    var max, cycle := if d > r.redmax then d else r.redmax, if d > r.redmax then |ds| else r.cycleofmax;
    LinesStay(ds, es, reduction, r.lines);
    MaximumNext(ds, d, from, r.redmax, r.cycleofmax);
    if r.reduce + 1 == reduction {
      assert reduction * (|r.lines| + 1) == reduction * |r.lines| + reduction;
      LineAdded(es, reduction, r.lines, Line(cycle, max));
      assert IsMaximum(es, |es|, |es|, 0, cycle);
    }
  }

  /** There is one line for each full group of `reduction` differences, giving the group's maximum (or 0);
      the rest is kept for the next line. */
  lemma {:induction false} EachLineIsMaximum(ds: seq<int>, reduction: nat)
    requires reduction >= 1
    ensures Reduced(ds, reduction, ConsumeAll(ds, reduction))
  {
    if ds != [] {
      var f, d := ds[..|ds| - 1], ds[|ds| - 1];
      EachLineIsMaximum(f, reduction);
      ConsumeReduces(f, d, reduction, ConsumeAll(f, reduction));
      assert f + [d] == ds;
    }
  }

  // ------------------------------------------------------------------ the ring

  /** The last cycle before `n` that was stored in slot i. */
  function LatestIn(i: nat, n: nat): (c: nat)
    requires i < VALBUF_SIZE && i < n
    ensures i <= c < n <= c + VALBUF_SIZE && c % VALBUF_SIZE == i
  {
    i + VALBUF_SIZE * ((n - 1 - i) / VALBUF_SIZE)
  }

  /** Slot i holds the latest difference stored in it, or nothing yet. */
  ghost predicate Holds(values: seq<int>, ds: seq<int>) {
    && |values| == VALBUF_SIZE
    && forall i :: 0 <= i < VALBUF_SIZE && i < |ds| ==> values[i] == ds[LatestIn(i, |ds|)]
  }

  lemma StoreHolds(values: seq<int>, ds: seq<int>, d: int)
    requires Holds(values, ds)
    ensures Holds(values[|ds| % VALBUF_SIZE := d], ds + [d])
  {
    var n := |ds|;
    var t, es := values[n % VALBUF_SIZE := d], ds + [d];
    forall i | 0 <= i < VALBUF_SIZE && i < n + 1 ensures t[i] == es[LatestIn(i, n + 1)] {
      if i != n % VALBUF_SIZE {
        assert LatestIn(i, n + 1) != n;
        LatestIsUnique(i, n, LatestIn(i, n + 1));
      } else {
        LatestIsUnique(i, n + 1, n);
      }
    }
  }

  lemma LatestIsUnique(i: nat, n: nat, c: nat)
    requires i < VALBUF_SIZE && c < n <= c + VALBUF_SIZE && c % VALBUF_SIZE == i
    ensures i < n && LatestIn(i, n) == c
  {}

  /** Reading the slot of cycle k gives the difference of the latest cycle stored there, which is cycle k
      itself exactly if at most VALBUF_SIZE differences are unread or being read. */
  lemma SlotRead(values: seq<int>, ds: seq<int>, k: nat)
    requires Holds(values, ds) && k < |ds|
    ensures var c := LatestIn(k % VALBUF_SIZE, |ds|);
      && values[k % VALBUF_SIZE] == ds[c] && k <= c
      && (c == k <==> |ds| - k <= VALBUF_SIZE)
  {
    var c := LatestIn(k % VALBUF_SIZE, |ds|);
    if |ds| - k <= VALBUF_SIZE {
      LatestIsUnique(k % VALBUF_SIZE, |ds|, k);
    }
  }

  // ------------------------------------------------------------------ the two threads

  datatype WriterPc = WStore | WPublish
  datatype ReaderPc = RTest | RLoad | RRetire

  /** `written` lists the differences in the order they were stored: history.  `loaded` is the local `diff`. */
  datatype System = System(
    writer: WriterPc, reader: ReaderPc, values: seq<int>, cycles: nat, cyclesread: nat,
    loaded: int, reducer: Reducer, written: seq<int>)

  datatype Action =
    | Store(diff: int)          // stat->values[stat->cycles & par->bufmsk] = diff
    | Publish                   // stat->cycles++
    | Test                      // stat->cycles != stat->cyclesread
    | Load                      // diff = stat->values[stat->cyclesread & par->bufmsk]
    | Retire                    // the rest of the loop body, stat->cyclesread++

  /** `within`: the schedule never lets the writer store a value while VALBUF_SIZE are unread. */
  predicate Possible(within: bool, s: System, a: Action) {
    match a
    case Store(_) => s.writer.WStore? && (within ==> s.cycles - s.cyclesread < VALBUF_SIZE)
    case Publish => s.writer.WPublish?
    case Test => s.reader.RTest? && s.cycles != s.cyclesread
    case Load => s.reader.RLoad?
    case Retire => s.reader.RRetire?
  }

  function Act(s: System, a: Action, reduction: nat): System
    requires |s.values| == VALBUF_SIZE
  {
    match a
    case Store(d) =>
      s.(writer := WPublish, values := s.values[s.cycles % VALBUF_SIZE := d], written := s.written + [d])
    case Publish => s.(writer := WStore, cycles := s.cycles + 1)
    case Test => s.(reader := RLoad)
    case Load => s.(reader := RRetire, loaded := s.values[s.cyclesread % VALBUF_SIZE])
    case Retire =>
      s.(reader := RTest, cyclesread := s.cyclesread + 1,
         reducer := Consume(s.reducer, s.cyclesread, s.loaded, reduction))
  }

  ghost predicate Init(s: System) {
    && s.writer.WStore? && s.reader.RTest? && |s.values| == VALBUF_SIZE && s.cycles == s.cyclesread == 0
    && s.reducer == Reducer(0, 0, 0, []) && s.written == []
  }

  ghost predicate Next(within: bool, reduction: nat, s: System, t: System) {
    |s.values| == VALBUF_SIZE && exists a: Action :: Possible(within, s, a) && t == Act(s, a, reduction)
  }

  ghost function Rel(within: bool, reduction: nat): (System, System) -> bool {
    (s: System, t: System) => Next(within, reduction, s, t)
  }

  /** Whatever the schedule: the slots hold the latest values, and only published cycles are read. */
  ghost predicate RingInv(s: System) {
    && Holds(s.values, s.written)
    && |s.written| == s.cycles + (if s.writer.WPublish? then 1 else 0)
    && s.cyclesread <= s.cycles && (!s.reader.RTest? ==> s.cyclesread < s.cycles)
  }

  /** As long as the writer stays within the buffer, every cycle is consumed once, in order. */
  ghost predicate InOrder(reduction: nat, s: System) {
    && RingInv(s) && |s.written| - s.cyclesread <= VALBUF_SIZE
    && s.reducer == ConsumeAll(s.written[..s.cyclesread], reduction)
    && (s.reader.RRetire? ==> s.loaded == s.written[s.cyclesread])
  }

  lemma StepKeepsRing(within: bool, reduction: nat, s: System, a: Action)
    requires RingInv(s) && Possible(within, s, a)
    ensures RingInv(Act(s, a, reduction))
  {
    if a.Store? {
      StoreHolds(s.values, s.written, a.diff);
    }
  }

  lemma StepKeepsOrder(reduction: nat, s: System, a: Action)
    requires InOrder(reduction, s) && Possible(true, s, a)
    ensures InOrder(reduction, Act(s, a, reduction))
  {
    StepKeepsRing(true, reduction, s, a);
    var t := Act(s, a, reduction);
    match a
    case Store(d) => assert t.written[..s.cyclesread] == s.written[..s.cyclesread];
    case Publish =>
    case Test =>
    case Load => SlotRead(s.values, s.written, s.cyclesread);
    case Retire =>
      var consumed := s.written[..s.cyclesread + 1];
      assert consumed[..|consumed| - 1] == s.written[..s.cyclesread];
  }

  /** In every state of every run, the reader is about to load the difference of the very cycle it will print
      exactly if the writer has not stored more than VALBUF_SIZE values since. */
  lemma LoadsItsOwnCycle(reduction: nat, run: seq<System>, i: nat)
    requires IsRun(Rel(false, reduction), run) && Init(run[0]) && i < |run| && run[i].reader.RLoad?
    ensures var s := run[i];
      && s.cyclesread < |s.written| && |s.values| == VALBUF_SIZE
      && var c := LatestIn(s.cyclesread % VALBUF_SIZE, |s.written|);
         && Act(s, Load, reduction).loaded == s.written[c]
         && (c == s.cyclesread <==> |s.written| - s.cyclesread <= VALBUF_SIZE)
  {
    forall s, t | RingInv(s) && Rel(false, reduction)(s, t) ensures RingInv(t) {
      var a: Action :| Possible(false, s, a) && t == Act(s, a, reduction);
      StepKeepsRing(false, reduction, s, a);
    }
    InvariantAlong(Rel(false, reduction), (s: System) => RingInv(s), run, i);
    SlotRead(run[i].values, run[i].written, run[i].cyclesread);
  }

  /** For any interleaving that stays within the buffer: the lines printed so far are those of the differences
      read so far, each of them consumed once and in order, however the reading was split over calls. */
  lemma LinesOfAllCycles(reduction: nat, run: seq<System>, i: nat)
    requires IsRun(Rel(true, reduction), run) && Init(run[0]) && i < |run| && reduction >= 1
    ensures var s := run[i];
      && s.cyclesread <= |s.written|
      && s.reducer == ConsumeAll(s.written[..s.cyclesread], reduction)
      && |s.reducer.lines| == s.cyclesread / reduction
      && LinesAreMaxima(s.written, reduction, s.reducer.lines)
  {
    forall s, t | InOrder(reduction, s) && Rel(true, reduction)(s, t) ensures InOrder(reduction, t) {
      var a: Action :| Possible(true, s, a) && t == Act(s, a, reduction);
      StepKeepsOrder(reduction, s, a);
    }
    InvariantAlong(Rel(true, reduction), (s: System) => InOrder(reduction, s), run, i);
    LinesOfPrefix(run[i].written, run[i].cyclesread, reduction);
  }

  lemma LinesOfPrefix(ds: seq<int>, n: nat, reduction: nat)
    requires n <= |ds| && reduction >= 1
    ensures var lines := ConsumeAll(ds[..n], reduction).lines;
      |lines| == n / reduction && LinesAreMaxima(ds, reduction, lines)
  {
    EachLineIsMaximum(ds[..n], reduction);
    var r := ConsumeAll(ds[..n], reduction);
    LinesStay(ds[..n], ds, reduction, r.lines);
    QuotientIs(n, reduction, |r.lines|, r.reduce);
  }

  // ------------------------------------------------------------------ print_stat

  /** The fields of struct thread_stat used in verbose mode, with the differences stored and the lines printed. */
  class Ring {
    const reduction: nat
    const values: array<int>
    var cycles: nat
    var cyclesread: nat
    var reduce: nat
    var redmax: int
    var cycleofmax: nat
    ghost var written: seq<int>
    ghost var printed: seq<Line>

    ghost predicate Valid()
      reads this, values
    {
      && reduction >= 1 && values.Length == VALBUF_SIZE && Holds(values[..], written)
      && cycles == |written| && cyclesread <= cycles <= cyclesread + VALBUF_SIZE
      && Reducer(reduce, redmax, cycleofmax, printed) == ConsumeAll(written[..cyclesread], reduction)
    }

    constructor (oscopeReduction: nat)
      requires oscopeReduction >= 1
      ensures Valid() && reduction == oscopeReduction && written == [] && printed == [] && fresh(values)
    {
      reduction := oscopeReduction;
      values := new int[VALBUF_SIZE](_ => 0);
      cycles, cyclesread, reduce, redmax, cycleofmax := 0, 0, 0, 0, 0;
      written, printed := [], [];
    }

    /** The measuring thread's part of one cycle. */
    method StoreDiff(diff: int)
      requires Valid() && cycles - cyclesread < VALBUF_SIZE
      modifies `cycles, `written, values
      ensures Valid() && written == old(written) + [diff]
    {
      StoreHolds(values[..], written, diff);
      values[cycles % VALBUF_SIZE] := diff;
      cycles := cycles + 1;
      assert (written + [diff])[..cyclesread] == written[..cyclesread];
      written := written + [diff];
    }

    /** The verbose branch of print_stat: reads all stored values and returns the lines printed.  What has been
        printed afterwards depends on the stored differences only, not on earlier calls. */
    method PrintStat() returns (lines: seq<Line>)
      requires Valid()
      modifies `cyclesread, `reduce, `redmax, `cycleofmax, `printed
      ensures Valid() && cyclesread == cycles && printed == old(printed) + lines
      ensures printed == ConsumeAll(written, reduction).lines
    {
      lines := [];
      while cycles != cyclesread
        invariant Valid() && printed == old(printed) + lines
        decreases cycles - cyclesread
      {
        SlotRead(values[..], written, cyclesread);
        var diff := values[cyclesread % VALBUF_SIZE];
        ghost var consumed := written[..cyclesread + 1];
        assert consumed[..cyclesread] == written[..cyclesread] && consumed[cyclesread] == diff;
        if diff > redmax {
          redmax := diff;
          cycleofmax := cyclesread;
        }
        reduce := reduce + 1;
        if reduce == reduction {
          lines := lines + [Line(cycleofmax, redmax)];
          printed := printed + [Line(cycleofmax, redmax)];
          reduce := 0;
          redmax := 0;
        }
        cyclesread := cyclesread + 1;
      }
      assert written[..cyclesread] == written;
    }
  }
}
