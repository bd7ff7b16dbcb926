/** rt-migrate-test: tasks and main meet at start_barrier and end_barrier once per round; in each round every
    task records when it started and how long it ran; a last round, in which nobody records, lets the tasks see
    `done`. */
module RtMigrate {
  import opened Arith
  import opened Options
  import opened Runs
  import opened Sums

  /** Clock readings are unsigned 64-bit; so are the differences. */
  const WRAP: nat := 0x1_0000_0000_0000_0000

  function Minus(a: nat, b: nat): nat { (a - b) % WRAP }

  /** `runs` is --loops, `interval` the busy time `run_interval`. */
  datatype Config = Config(tasks: nat, runs: nat, interval: nat) {
    predicate Valid() { runs > 0 }
  }

  datatype TaskPc =
    | Test                                // while (!done)
    | Start | StartW
    | GetStart                            // start_time = get_time()
    | Busy                                // busy_loop
    | RecTest                             // record_time: loop >= nr_runs ?
    | RecTime                             // time -= now; ltime = get_time(); ltime -= now
    | RecStore
    | End | EndW
    | Exited

  /** Locals of start_task and record_time.  History: `began` is the reading of the clock at the start of this round,
      `polls` are those that busy_loop made, `stop` is the one behind `length`, and `rounds` counts the arrivals at
      end_barrier. */
  datatype Task = Task(
    pc: TaskPc, startTime: nat, loops: nat, time: nat, length: nat,
    began: nat, polls: seq<nat>, stop: nat, rounds: nat)

  datatype DriverPc =
    | Head                                // for (...; loop < nr_runs; ...)
    | GetNow
    | DStart | DStartW
    | Sleep
    | DEnd | DEndW
    | AfterRound                          // stop || (check && check_times(loop)) ?
    | XStart | XStartW
    | SetDone
    | XEnd | XEndW
    | Join | Left

  /** One cell of intervals, intervals_length and intervals_loops.  History: who wrote it, in which round, and
      the readings of the clock that the thread made at its start, in busy_loop and at its end. */
  datatype Row = Row(
    time: nat, length: nat, loops: nat, writer: nat, round: nat, start: nat, polls: seq<nat>, stop: nat)

  /** `round` counts the releases of end_barrier, `nows` are main's readings of the clock for `now`, one a round,
      `stopped` is the round after which main was told to stop early, `writes` says how often each cell was written:
      history. */
  datatype System = System(
    tasks: seq<Task>, driver: DriverPc,
    now: nat, loop: nat, runs: nat, done: bool,
    clock: nat, round: nat, nows: seq<nat>, stopped: Option<nat>,
    rows: seq<seq<Option<Row>>>, writes: seq<seq<nat>>)

  function Init(cfg: Config): System {
    System(seq(cfg.tasks, _ => Task(Test, 0, 0, 0, 0, 0, [], 0, 0)), Head, 0, 0, cfg.runs, false, 0, 0, [], None,
           seq(cfg.runs, _ => seq(cfg.tasks, _ => None)), seq(cfg.runs, _ => seq(cfg.tasks, _ => 0)))
  }

  // ------------------------------------------------------------------ the two barriers, for nr_tasks + 1 threads

  function IsAt(pc: TaskPc): Task -> nat { (t: Task) => if t.pc == pc then 1 else 0 }

  predicate DriverAtStart(s: System) { s.driver.DStartW? || s.driver.XStartW? }
  predicate DriverAtEnd(s: System) { s.driver.DEndW? || s.driver.XEndW? }

  ghost function StartArrivals(s: System): nat { SumBy(IsAt(StartW), s.tasks) + if DriverAtStart(s) then 1 else 0 }
  ghost function EndArrivals(s: System): nat { SumBy(IsAt(EndW), s.tasks) + if DriverAtEnd(s) then 1 else 0 }

  function ReleaseTasks(tasks: seq<Task>, w: TaskPc, next: TaskPc): seq<Task> {
    seq(|tasks|, i requires 0 <= i < |tasks| => if tasks[i].pc == w then tasks[i].(pc := next) else tasks[i])
  }

  /** After an arrival: does it complete the barrier? */
  ghost function SettleStart(cfg: Config, s: System): System {
    if StartArrivals(s) == cfg.tasks + 1
    then s.(tasks := ReleaseTasks(s.tasks, StartW, GetStart),
            driver := if s.driver.DStartW? then Sleep else if s.driver.XStartW? then SetDone else s.driver)
    else s
  }

  ghost function SettleEnd(cfg: Config, s: System): System {
    if EndArrivals(s) == cfg.tasks + 1
    then s.(tasks := ReleaseTasks(s.tasks, EndW, Test), round := s.round + 1,
            driver := if s.driver.DEndW? then AfterRound else if s.driver.XEndW? then Join else s.driver)
    else s
  }

  // ------------------------------------------------------------------ steps

  predicate TaskEnabled(t: Task) { !t.pc.StartW? && !t.pc.EndW? && !t.pc.Exited? }

  /** The clock never goes back, and stays within 64 bits. */
  predicate Reading(s: System, v: nat) { s.clock <= v < WRAP }

  /** Writing intervals[loop][id] and its two companions. */
  function Store(s: System, id: nat, row: Row): System
    requires s.loop < |s.rows| && id < |s.rows[s.loop]| && s.loop < |s.writes| && id < |s.writes[s.loop]|
  {
    s.(rows := s.rows[s.loop := s.rows[s.loop][id := Some(row)]],
       writes := s.writes[s.loop := s.writes[s.loop][id := s.writes[s.loop][id] + 1]])
  }

  /** The cell that record_time is about to write exists. */
  predicate InBounds(s: System, id: nat) {
    s.loop < |s.rows| && id < |s.rows[s.loop]| && s.loop < |s.writes| && id < |s.writes[s.loop]|
  }

  /** One step of task `id`; `v` is what the clock says if the step reads it. */
  ghost function TaskStep(cfg: Config, s: System, id: nat, v: nat): System
    requires id < |s.tasks| && (s.tasks[id].pc.RecStore? ==> InBounds(s, id))
  {
    var t := s.tasks[id];
    match t.pc
    case Test => s.(tasks := s.tasks[id := t.(pc := if s.done then Exited else Start)])
    case Start => SettleStart(cfg, s.(tasks := s.tasks[id := t.(pc := StartW)]))
    case GetStart =>
      s.(tasks := s.tasks[id := t.(pc := Busy, startTime := v, loops := 0, began := v, polls := [])], clock := v)
    case Busy =>
      s.(tasks := s.tasks[id := t.(loops := t.loops + 1, polls := t.polls + [v],
                                   pc := if Minus(v, t.startTime) < cfg.interval then Busy else RecTest)],
         clock := v)
    case RecTest => s.(tasks := s.tasks[id := t.(pc := if s.loop >= s.runs then End else RecTime)])
    case RecTime =>
      s.(tasks := s.tasks[id := t.(pc := RecStore, time := Minus(t.startTime, s.now),
                                   stop := v, length := Minus(v, s.now))],
         clock := v)
    case RecStore =>
      var row := Row(t.time, t.length, t.loops, id, s.round, t.began, t.polls, t.stop);
      Store(s, id, row).(tasks := s.tasks[id := t.(pc := End)])
    case End => SettleEnd(cfg, s.(tasks := s.tasks[id := t.(pc := EndW, rounds := t.rounds + 1)]))
    case _ => s
  }

  predicate DriverEnabled(s: System) {
    match s.driver
    case DStartW | XStartW | DEndW | XEndW | Left => false
    case Join => forall i :: 0 <= i < |s.tasks| ==> s.tasks[i].pc.Exited?
    case _ => true
  }

  /** One step of main; `early` is the outcome of the test for stopping before all runs are done. */
  ghost function DriverStep(cfg: Config, s: System, v: nat, early: bool): System {
    match s.driver
    case Head => s.(driver := if s.loop < s.runs then GetNow else XStart)
    case GetNow => s.(driver := DStart, now := v, clock := v, nows := s.nows + [v])
    case DStart => SettleStart(cfg, s.(driver := DStartW))
    case Sleep => s.(driver := DEnd, clock := v)
    case DEnd => SettleEnd(cfg, s.(driver := DEndW))
    case AfterRound =>
      var u := s.(loop := s.loop + 1, stopped := if early then Some(s.loop) else s.stopped);
      if early then u.(driver := XStart, runs := s.loop + 1) else u.(driver := Head)
    case XStart => SettleStart(cfg, s.(driver := XStartW))
    case SetDone => s.(driver := XEnd, done := true)
    case XEnd => SettleEnd(cfg, s.(driver := XEndW))
    case Join => s.(driver := Left)
    case _ => s
  }

  datatype Action = TaskActs(id: nat, v: nat) | DriverActs(v: nat, early: bool)

  ghost predicate Possible(s: System, a: Action) {
    match a
    case TaskActs(id, v) =>
      id < |s.tasks| && TaskEnabled(s.tasks[id]) && Reading(s, v) && (s.tasks[id].pc.RecStore? ==> InBounds(s, id))
    case DriverActs(v, early) => DriverEnabled(s) && Reading(s, v)
  }

  ghost function Act(cfg: Config, s: System, a: Action): System
    requires Possible(s, a)
  {
    match a
    case TaskActs(id, v) => TaskStep(cfg, s, id, v)
    case DriverActs(v, early) => DriverStep(cfg, s, v, early)
  }

  ghost predicate Next(cfg: Config, s: System, t: System) {
    exists a: Action :: Possible(s, a) && t == Act(cfg, s, a)
  }

  ghost function Rel(cfg: Config): (System, System) -> bool {
    (s: System, t: System) => Next(cfg, s, t)
  }

  // ------------------------------------------------------------------ the invariant

  /** Between the release of start_barrier and that of end_barrier. */
  predicate InRound(pc: TaskPc) {
    pc.GetStart? || pc.Busy? || pc.RecTest? || pc.RecTime? || pc.RecStore? || pc.End? || pc.EndW?
  }

  predicate DriverRecording(pc: DriverPc) { pc.Sleep? || pc.DEnd? || pc.DEndW? }
  predicate DriverExtra(pc: DriverPc) { pc.SetDone? || pc.XEnd? || pc.XEndW? }
  predicate DriverInRound(pc: DriverPc) { DriverRecording(pc) || DriverExtra(pc) }

  /** Main has read the clock for this round. */
  predicate HasRead(pc: DriverPc) { pc.DStart? || pc.DStartW? || pc.Sleep? || pc.DEnd? || pc.DEndW? }

  /** One reading a round, and `now` is the latest. */
  predicate NowsOk(s: System) {
    && |s.nows| == (if HasRead(s.driver) then s.round + 1
                    else if s.driver.Join? || s.driver.Left? then s.round - 1 else s.round)
    && (s.nows != [] ==> s.now == s.nows[|s.nows| - 1])
    && s.now <= s.clock
  }

  /** The rounds that record are over. */
  predicate DriverLeaves(pc: DriverPc) { pc.XStart? || pc.XStartW? || DriverExtra(pc) || pc.Join? || pc.Left? }

  predicate DriverOk(cfg: Config, s: System) {
    && s.loop <= s.runs <= cfg.runs && NowsOk(s)
    && (if s.stopped.Some? then DriverLeaves(s.driver) && s.runs == s.stopped.value + 1 else s.runs == cfg.runs)
    && (s.done <==> s.driver.XEnd? || s.driver.XEndW? || s.driver.Join? || s.driver.Left?)
    && match s.driver
       case Head => s.loop == s.round
       case GetNow | DStart | DStartW | Sleep | DEnd | DEndW => s.loop == s.round < s.runs
       case AfterRound => s.loop + 1 == s.round <= s.runs
       case XStart | XStartW | SetDone | XEnd | XEndW => s.loop == s.round == s.runs
       case Join | Left => s.loop == s.runs && s.round == s.runs + 1
  }

  predicate Stored(pc: TaskPc) { pc.End? || pc.EndW? }

  predicate TaskOk(cfg: Config, s: System, t: Task) {
    && (InRound(t.pc) <==> DriverInRound(s.driver))
    && t.rounds == s.round + (if t.pc.EndW? then 1 else 0)
    && (t.pc.Start? || t.pc.StartW? ==> !s.driver.Join? && !s.driver.Left?)
    && (t.pc.Exited? ==> s.driver.Join? || s.driver.Left?) && (s.driver.Left? ==> t.pc.Exited?)
    && (t.pc.RecTime? || t.pc.RecStore? ==> DriverRecording(s.driver))
    && (t.pc.Busy? ==> s.now <= t.startTime <= s.clock && TooEarly(cfg, t.startTime, t.polls))
    && (t.pc.RecTest? || t.pc.RecTime? || t.pc.RecStore? ==>
          s.now <= t.startTime && BusyLoop(cfg, t.startTime, t.polls))
    && (t.pc.Busy? || t.pc.RecTest? || t.pc.RecTime? || t.pc.RecStore? ==>
          t.loops == |t.polls| && t.startTime == t.began)
    && (t.pc.RecTest? || t.pc.RecTime? ==> t.polls[|t.polls| - 1] <= s.clock)
    && (t.pc.RecStore? ==>
          && t.polls[|t.polls| - 1] <= t.stop <= s.clock
          && t.time == t.startTime - s.now && t.length == t.stop - s.now)
  }

  /** All these readings came before the busy time was over. */
  predicate TooEarly(cfg: Config, start: nat, polls: seq<nat>) {
    forall k :: 0 <= k < |polls| ==> start <= polls[k] < start + cfg.interval
  }

  /** busy_loop reads the clock at least once, and stops at the first reading that is not too early. */
  predicate BusyLoop(cfg: Config, start: nat, polls: seq<nat>) {
    && polls != [] && start + cfg.interval <= polls[|polls| - 1]
    && TooEarly(cfg, start, polls[..|polls| - 1])
  }

  /** A row as it should be: written by its own task in its own round, its loops those of busy_loop, and its times
      those since main's reading `now` of the round; no difference wrapped around. */
  predicate RowOk(cfg: Config, row: Row, r: nat, id: nat, now: nat) {
    && row.writer == id && row.round == r
    && BusyLoop(cfg, row.start, row.polls) && row.loops == |row.polls|
    && now <= row.start && row.polls[|row.polls| - 1] <= row.stop
    && row.time == row.start - now && row.length == row.stop - now
  }

  /** Nothing of a row lies after the next round's reading. */
  predicate RowBefore(s: System, row: Row, r: nat) {
    row.stop <= if r + 1 < |s.nows| then s.nows[r + 1] else s.clock
  }

  /** Cell (r, id) has been written exactly if round r is over, or it is on and its thread has stored. */
  predicate Due(s: System, r: nat, id: nat)
    requires id < |s.tasks|
  {
    (r < s.round && r < s.runs) || (r == s.round && DriverRecording(s.driver) && Stored(s.tasks[id].pc))
  }

  predicate CellOk(cfg: Config, s: System, r: nat, id: nat)
    requires r < |s.rows| && id < |s.rows[r]| && r < |s.writes| && id < |s.writes[r]| && id < |s.tasks|
  {
    && s.writes[r][id] == (if Due(s, r, id) then 1 else 0)
    && (s.rows[r][id].Some? <==> Due(s, r, id))
    && (s.rows[r][id].Some? ==>
          && r < |s.nows| && RowOk(cfg, s.rows[r][id].value, r, id, s.nows[r])
          && RowBefore(s, s.rows[r][id].value, r))
  }

  predicate Sized(cfg: Config, s: System) {
    && |s.tasks| == cfg.tasks && |s.rows| == |s.writes| == cfg.runs
    && forall r :: 0 <= r < cfg.runs ==> |s.rows[r]| == |s.writes[r]| == cfg.tasks
  }

  predicate Base(cfg: Config, s: System) {
    && Sized(cfg, s) && DriverOk(cfg, s) && s.clock < WRAP
    && (forall i :: 0 <= i < cfg.tasks ==> TaskOk(cfg, s, s.tasks[i]))
    && (forall r: nat, i: nat :: r < cfg.runs && i < cfg.tasks ==> CellOk(cfg, s, r, i))
  }

  ghost predicate Inv(cfg: Config, s: System) {
    Base(cfg, s) && StartArrivals(s) < cfg.tasks + 1 && EndArrivals(s) < cfg.tasks + 1
  }

  lemma InitInv(cfg: Config)
    requires cfg.Valid()
    ensures Inv(cfg, Init(cfg))
  {
    SumByZero(IsAt(StartW), Init(cfg).tasks);
    SumByZero(IsAt(EndW), Init(cfg).tasks);
  }

  lemma AllArrived(cfg: Config, tasks: seq<Task>, w: TaskPc, driver: bool)
    requires |tasks| == cfg.tasks && SumBy(IsAt(w), tasks) + (if driver then 1 else 0) == cfg.tasks + 1
    ensures driver && forall i :: 0 <= i < cfg.tasks ==> tasks[i].pc == w
  {
    SumByAtMost(IsAt(w), tasks, 1);
    forall i | 0 <= i < cfg.tasks ensures tasks[i].pc == w { assert IsAt(w)(tasks[i]) == 1; }
  }

  lemma AtMostAll(cfg: Config, tasks: seq<Task>, w: TaskPc)
    requires |tasks| == cfg.tasks
    ensures SumBy(IsAt(w), tasks) <= cfg.tasks
  {
    SumByAtMost(IsAt(w), tasks, 1);
  }

  /** A step that stores nothing keeps the cells, provided it does not change what is due. */
  lemma CellsCarryOver(cfg: Config, s: System, t: System)
    requires Sized(cfg, s) && Sized(cfg, t) && t.rows == s.rows && t.writes == s.writes
    requires s.clock <= t.clock && (t.nows == s.nows || t.nows == s.nows + [t.clock])
    requires forall r: nat, i: nat :: r < cfg.runs && i < cfg.tasks ==> CellOk(cfg, s, r, i)
    requires forall r: nat, i: nat :: r < cfg.runs && i < cfg.tasks ==> (Due(t, r, i) <==> Due(s, r, i))
    ensures forall r: nat, i: nat :: r < cfg.runs && i < cfg.tasks ==> CellOk(cfg, t, r, i)
  {
    forall r: nat, i: nat | r < cfg.runs && i < cfg.tasks ensures CellOk(cfg, t, r, i) {
      assert CellOk(cfg, s, r, i);
    }
  }

  lemma SettleStartKeepsInv(cfg: Config, s: System)
    requires Base(cfg, s) && EndArrivals(s) < cfg.tasks + 1
    ensures Inv(cfg, SettleStart(cfg, s))
  {
    AtMostAll(cfg, s.tasks, StartW);
    if StartArrivals(s) == cfg.tasks + 1 {
      AllArrived(cfg, s.tasks, StartW, DriverAtStart(s));
      var t := SettleStart(cfg, s);
      CellsCarryOver(cfg, s, t);
      SumByZero(IsAt(StartW), t.tasks);
      SumByZero(IsAt(EndW), t.tasks);
    }
  }

  lemma SettleEndKeepsInv(cfg: Config, s: System)
    requires Base(cfg, s) && StartArrivals(s) < cfg.tasks + 1
    ensures Inv(cfg, SettleEnd(cfg, s))
  {
    AtMostAll(cfg, s.tasks, EndW);
    if EndArrivals(s) == cfg.tasks + 1 {
      AllArrived(cfg, s.tasks, EndW, DriverAtEnd(s));
      var t := SettleEnd(cfg, s);
      CellsCarryOver(cfg, s, t);
      SumByZero(IsAt(StartW), t.tasks);
      SumByZero(IsAt(EndW), t.tasks);
      assert t.driver == (if s.driver.DEndW? then AfterRound else Join);
    }
  }

  // ------------------------------------------------------------------ every step keeps it

  /** What is right about a task stays so while another one moves. */
  lemma TaskStaysOk(cfg: Config, s: System, u: System, t: Task)
    requires TaskOk(cfg, s, t)
    requires u.driver == s.driver && u.round == s.round && u.now == s.now && s.clock <= u.clock
    ensures TaskOk(cfg, u, t)
  {}

  /** One task moves within its stretch of code, without storing. */
  lemma TaskMoveKeepsInv(cfg: Config, s: System, id: nat, t: Task, clock: nat)
    requires Inv(cfg, s) && id < cfg.tasks && s.clock <= clock < WRAP
    requires TaskOk(cfg, s.(clock := clock), t)
    requires Stored(t.pc) == Stored(s.tasks[id].pc) || !DriverRecording(s.driver)
    requires !t.pc.StartW? && !t.pc.EndW? && !s.tasks[id].pc.StartW? && !s.tasks[id].pc.EndW?
    ensures Inv(cfg, s.(tasks := s.tasks[id := t], clock := clock))
  {
    var u := s.(tasks := s.tasks[id := t], clock := clock);
    SumByUpdate(IsAt(StartW), s.tasks, id, t);
    SumByUpdate(IsAt(EndW), s.tasks, id, t);
    CellsCarryOver(cfg, s, u);
    forall i | 0 <= i < cfg.tasks ensures TaskOk(cfg, u, u.tasks[i]) {
      if i != id { TaskStaysOk(cfg, s, u, s.tasks[i]); }
    }
  }

  lemma ExactDifference(a: nat, b: nat)
    requires b <= a < WRAP
    ensures Minus(a, b) == a - b
  {}

  lemma StoreKeepsInv(cfg: Config, s: System, id: nat)
    requires Inv(cfg, s) && id < cfg.tasks && s.tasks[id].pc.RecStore?
    ensures InBounds(s, id)
    ensures Inv(cfg, TaskStep(cfg, s, id, s.clock))
  {
    var t := s.tasks[id];
    assert TaskOk(cfg, s, t) && DriverRecording(s.driver);
    var u := TaskStep(cfg, s, id, s.clock);
    SumByUpdate(IsAt(StartW), s.tasks, id, t.(pc := End));
    SumByUpdate(IsAt(EndW), s.tasks, id, t.(pc := End));
    forall r: nat, i: nat | r < cfg.runs && i < cfg.tasks ensures CellOk(cfg, u, r, i) {
      assert CellOk(cfg, s, r, i);
    }
    forall i | 0 <= i < cfg.tasks ensures TaskOk(cfg, u, u.tasks[i]) {
      if i != id { TaskStaysOk(cfg, s, u, s.tasks[i]); }
    }
  }

  lemma ArriveStartKeepsBase(cfg: Config, s: System, id: nat)
    requires Inv(cfg, s) && id < cfg.tasks && s.tasks[id].pc.Start?
    ensures var u := s.(tasks := s.tasks[id := s.tasks[id].(pc := StartW)]);
      Base(cfg, u) && EndArrivals(u) < cfg.tasks + 1
  {
    var t := s.tasks[id].(pc := StartW);
    var u := s.(tasks := s.tasks[id := t]);
    SumByUpdate(IsAt(EndW), s.tasks, id, t);
    CellsCarryOver(cfg, s, u);
    forall i | 0 <= i < cfg.tasks ensures TaskOk(cfg, u, u.tasks[i]) { assert TaskOk(cfg, s, s.tasks[i]); }
  }

  lemma ArriveEndKeepsBase(cfg: Config, s: System, id: nat)
    requires Inv(cfg, s) && id < cfg.tasks && s.tasks[id].pc.End?
    ensures var u := s.(tasks := s.tasks[id := s.tasks[id].(pc := EndW, rounds := s.tasks[id].rounds + 1)]);
      Base(cfg, u) && StartArrivals(u) < cfg.tasks + 1
  {
    var t := s.tasks[id].(pc := EndW, rounds := s.tasks[id].rounds + 1);
    var u := s.(tasks := s.tasks[id := t]);
    SumByUpdate(IsAt(StartW), s.tasks, id, t);
    CellsCarryOver(cfg, s, u);
    forall i | 0 <= i < cfg.tasks ensures TaskOk(cfg, u, u.tasks[i]) { assert TaskOk(cfg, s, s.tasks[i]); }
  }

  lemma TaskArrivalKeepsInv(cfg: Config, s: System, id: nat, v: nat)
    requires Inv(cfg, s) && id < cfg.tasks && (s.tasks[id].pc.Start? || s.tasks[id].pc.End?)
    ensures Inv(cfg, TaskStep(cfg, s, id, v))
  {
    if s.tasks[id].pc.Start? { StartArrivalKeepsInv(cfg, s, id, v); } else { EndArrivalKeepsInv(cfg, s, id, v); }
  }

  lemma StartArrivalKeepsInv(cfg: Config, s: System, id: nat, v: nat)
    requires Inv(cfg, s) && id < cfg.tasks && s.tasks[id].pc.Start?
    ensures Inv(cfg, TaskStep(cfg, s, id, v))
  {
    ArriveStartKeepsBase(cfg, s, id);
    SettleStartKeepsInv(cfg, s.(tasks := s.tasks[id := s.tasks[id].(pc := StartW)]));
  }

  lemma EndArrivalKeepsInv(cfg: Config, s: System, id: nat, v: nat)
    requires Inv(cfg, s) && id < cfg.tasks && s.tasks[id].pc.End?
    ensures Inv(cfg, TaskStep(cfg, s, id, v))
  {
    ArriveEndKeepsBase(cfg, s, id);
    SettleEndKeepsInv(cfg, s.(tasks := s.tasks[id := s.tasks[id].(pc := EndW, rounds := s.tasks[id].rounds + 1)]));
  }

  lemma RecTimeKeepsInv(cfg: Config, s: System, id: nat, v: nat)
    requires Inv(cfg, s) && Possible(s, TaskActs(id, v)) && s.tasks[id].pc.RecTime?
    ensures Inv(cfg, TaskStep(cfg, s, id, v))
  {
    var t := s.tasks[id];
    assert TaskOk(cfg, s, t);
    ExactDifference(t.startTime, s.now);
    ExactDifference(v, s.now);
    TaskMoveKeepsInv(cfg, s, id,
      t.(pc := RecStore, time := Minus(t.startTime, s.now), stop := v, length := Minus(v, s.now)), v);
  }

  lemma NextPoll(cfg: Config, start: nat, polls: seq<nat>, v: nat)
    requires TooEarly(cfg, start, polls) && start <= v
    ensures if v < start + cfg.interval then TooEarly(cfg, start, polls + [v]) else BusyLoop(cfg, start, polls + [v])
  {
    assert (polls + [v])[..|polls|] == polls;
  }

  lemma BusyKeepsInv(cfg: Config, s: System, id: nat, v: nat)
    requires Inv(cfg, s) && Possible(s, TaskActs(id, v)) && s.tasks[id].pc.Busy?
    ensures Inv(cfg, TaskStep(cfg, s, id, v))
  {
    var t := s.tasks[id];
    assert TaskOk(cfg, s, t);
    ExactDifference(v, t.startTime);
    NextPoll(cfg, t.startTime, t.polls, v);
    TaskMoveKeepsInv(cfg, s, id,
      t.(loops := t.loops + 1, polls := t.polls + [v],
         pc := if Minus(v, t.startTime) < cfg.interval then Busy else RecTest), v);
  }

  lemma TaskStepKeepsInv(cfg: Config, s: System, id: nat, v: nat)
    requires Inv(cfg, s) && Possible(s, TaskActs(id, v))
    ensures Inv(cfg, TaskStep(cfg, s, id, v))
  {
    var t := s.tasks[id];
    assert TaskOk(cfg, s, t);
    match t.pc
    case Test => TaskMoveKeepsInv(cfg, s, id, t.(pc := if s.done then Exited else Start), s.clock);
    case Start => TaskArrivalKeepsInv(cfg, s, id, v);
    case GetStart =>
      TaskMoveKeepsInv(cfg, s, id, t.(pc := Busy, startTime := v, loops := 0, began := v, polls := []), v);
    case Busy => BusyKeepsInv(cfg, s, id, v);
    case RecTest =>
      // Only in the extra round is there nothing to record.
      TaskMoveKeepsInv(cfg, s, id, t.(pc := if s.loop >= s.runs then End else RecTime), s.clock);
    case RecTime => RecTimeKeepsInv(cfg, s, id, v);
    case RecStore => StoreKeepsInv(cfg, s, id);
    case End => TaskArrivalKeepsInv(cfg, s, id, v);
  }

  /** Main moves without arriving at a barrier. */
  lemma DriverMoveKeepsInv(cfg: Config, s: System, u: System)
    requires Inv(cfg, s) && Sized(cfg, u) && DriverOk(cfg, u) && s.clock <= u.clock < WRAP
    requires u.tasks == s.tasks && u.rows == s.rows && u.writes == s.writes && u.round == s.round
    requires u.nows == s.nows || u.nows == s.nows + [u.clock]
    requires DriverInRound(u.driver) == DriverInRound(s.driver)
    requires DriverRecording(u.driver) == DriverRecording(s.driver)
    requires (u.driver.Join? || u.driver.Left?) == (s.driver.Join? || s.driver.Left?)
    requires u.driver.Left? ==> forall i :: 0 <= i < |s.tasks| ==> s.tasks[i].pc.Exited?
    requires u.now == s.now || !DriverInRound(s.driver)
    requires u.runs == s.runs || (s.round <= u.runs && s.round <= s.runs)
    requires !DriverAtStart(s) && !DriverAtEnd(s) && !DriverAtStart(u) && !DriverAtEnd(u)
    ensures Inv(cfg, u)
  {
    CellsCarryOver(cfg, s, u);
    forall i | 0 <= i < cfg.tasks ensures TaskOk(cfg, u, u.tasks[i]) { assert TaskOk(cfg, s, s.tasks[i]); }
  }

  lemma DriverArrivesKeepsBase(cfg: Config, s: System, pc: DriverPc)
    requires Inv(cfg, s)
    requires (s.driver.DStart? && pc.DStartW?) || (s.driver.XStart? && pc.XStartW?)
          || (s.driver.DEnd? && pc.DEndW?) || (s.driver.XEnd? && pc.XEndW?)
    ensures var u := s.(driver := pc);
      && Base(cfg, u)
      && (pc.DStartW? || pc.XStartW? ==> EndArrivals(u) < cfg.tasks + 1)
      && (pc.DEndW? || pc.XEndW? ==> StartArrivals(u) < cfg.tasks + 1)
  {
    var u := s.(driver := pc);
    CellsCarryOver(cfg, s, u);
    forall i | 0 <= i < cfg.tasks ensures TaskOk(cfg, u, u.tasks[i]) { assert TaskOk(cfg, s, s.tasks[i]); }
  }

  predicate DriverArrives(pc: DriverPc) { pc.DStart? || pc.XStart? || pc.DEnd? || pc.XEnd? }

  lemma DriverOwnStepKeepsInv(cfg: Config, s: System, v: nat, early: bool)
    requires Inv(cfg, s) && Possible(s, DriverActs(v, early)) && !DriverArrives(s.driver)
    ensures Inv(cfg, DriverStep(cfg, s, v, early))
  {
    if s.driver.GetNow? {
      ReadingKeepsInv(cfg, s, v, early);
    } else {
      DriverMoveKeepsInv(cfg, s, DriverStep(cfg, s, v, early));
    }
  }

  lemma ReadingKeepsInv(cfg: Config, s: System, v: nat, early: bool)
    requires Inv(cfg, s) && Possible(s, DriverActs(v, early)) && s.driver.GetNow?
    ensures Inv(cfg, DriverStep(cfg, s, v, early))
  {
    DriverMoveKeepsInv(cfg, s, DriverStep(cfg, s, v, early));
  }

  lemma DriverStepKeepsInv(cfg: Config, s: System, v: nat, early: bool)
    requires Inv(cfg, s) && Possible(s, DriverActs(v, early))
    ensures Inv(cfg, DriverStep(cfg, s, v, early))
  {
    match s.driver
    case DStart => DriverArrivesKeepsBase(cfg, s, DStartW); SettleStartKeepsInv(cfg, s.(driver := DStartW));
    case XStart => DriverArrivesKeepsBase(cfg, s, XStartW); SettleStartKeepsInv(cfg, s.(driver := XStartW));
    case DEnd => DriverArrivesKeepsBase(cfg, s, DEndW); SettleEndKeepsInv(cfg, s.(driver := DEndW));
    case XEnd => DriverArrivesKeepsBase(cfg, s, XEndW); SettleEndKeepsInv(cfg, s.(driver := XEndW));
    case _ => DriverOwnStepKeepsInv(cfg, s, v, early);
  }

  lemma ActKeepsInv(cfg: Config, s: System, a: Action)
    requires Inv(cfg, s) && Possible(s, a)
    ensures Inv(cfg, Act(cfg, s, a))
  {
    match a
    case TaskActs(id, v) => TaskStepKeepsInv(cfg, s, id, v);
    case DriverActs(v, early) => DriverStepKeepsInv(cfg, s, v, early);
  }

  // ------------------------------------------------------------------ progress

  function TaskDist(pc: TaskPc): nat {
    match pc
    case Test => 12 case Start => 11 case StartW => 10 case GetStart => 9 case Busy => 8
    case RecTest => 7 case RecTime => 6 case RecStore => 5 case End => 4 case EndW => 3 case Exited => 0
  }

  function DriverDist(pc: DriverPc): nat {
    match pc
    case AfterRound => 14 case Head => 13 case GetNow => 12 case DStart => 11 case DStartW => 10
    case Sleep => 9 case DEnd => 8 case DEndW => 7
    case XStart => 6 case XStartW => 5 case SetDone => 4 case XEnd => 3 case XEndW => 2 case Join => 1 case Left => 0
  }

  ghost function TaskDists(): Task -> nat { (t: Task) => TaskDist(t.pc) }

  function RoundsLeft(s: System): nat { if s.runs + 1 >= s.round then s.runs + 1 - s.round else 0 }

  function Lap(cfg: Config): nat { 20 * (cfg.tasks + 1) }

  ghost function Rank(cfg: Config, s: System): nat {
    RoundsLeft(s) * Lap(cfg) + SumBy(TaskDists(), s.tasks) + DriverDist(s.driver)
  }

  lemma SettleStartRank(cfg: Config, s: System)
    requires Base(cfg, s)
    ensures Rank(cfg, SettleStart(cfg, s)) <= Rank(cfg, s)
  {
    if StartArrivals(s) == cfg.tasks + 1 {
      AllArrived(cfg, s.tasks, StartW, DriverAtStart(s));
      SumByPointwise(TaskDists(), SettleStart(cfg, s).tasks, s.tasks);
    }
  }

  lemma SettleEndRank(cfg: Config, s: System)
    requires Base(cfg, s)
    ensures Rank(cfg, SettleEnd(cfg, s)) <= Rank(cfg, s)
  {
    if EndArrivals(s) == cfg.tasks + 1 {
      AllArrived(cfg, s.tasks, EndW, DriverAtEnd(s));
      var t := SettleEnd(cfg, s);
      SumByAtMost(TaskDists(), t.tasks, 12);
      NextMultiple(RoundsLeft(t), Lap(cfg));
    }
  }

  /** The one step that gets nowhere: busy_loop reads the clock before its time is up. */
  ghost predicate Spins(s: System, t: System) {
    exists id: nat ::
      && id < |s.tasks| && id < |t.tasks| && s.tasks[id].pc.Busy? && t.tasks[id].pc.Busy?
      && t == s.(clock := t.clock, tasks := s.tasks[id := s.tasks[id].(loops := s.tasks[id].loops + 1,
                                                                       polls := s.tasks[id].polls + [t.clock])])
  }

  lemma StartArrivalRank(cfg: Config, s: System, id: nat, v: nat)
    requires Inv(cfg, s) && id < cfg.tasks && s.tasks[id].pc.Start?
    ensures Rank(cfg, TaskStep(cfg, s, id, v)) < Rank(cfg, s)
  {
    var t := s.tasks[id].(pc := StartW);
    SumByUpdate(TaskDists(), s.tasks, id, t);
    ArriveStartKeepsBase(cfg, s, id);
    SettleStartRank(cfg, s.(tasks := s.tasks[id := t]));
  }

  lemma EndArrivalRank(cfg: Config, s: System, id: nat, v: nat)
    requires Inv(cfg, s) && id < cfg.tasks && s.tasks[id].pc.End?
    ensures Rank(cfg, TaskStep(cfg, s, id, v)) < Rank(cfg, s)
  {
    var t := s.tasks[id].(pc := EndW, rounds := s.tasks[id].rounds + 1);
    SumByUpdate(TaskDists(), s.tasks, id, t);
    ArriveEndKeepsBase(cfg, s, id);
    SettleEndRank(cfg, s.(tasks := s.tasks[id := t]));
  }

  lemma TaskStepShape(cfg: Config, s: System, id: nat, v: nat)
    requires Possible(s, TaskActs(id, v)) && !s.tasks[id].pc.Start? && !s.tasks[id].pc.End?
    ensures var u := TaskStep(cfg, s, id, v);
      && u.driver == s.driver && u.round == s.round && u.runs == s.runs
      && |u.tasks| == |s.tasks| && u.tasks == s.tasks[id := u.tasks[id]]
      && (TaskDist(u.tasks[id].pc) < TaskDist(s.tasks[id].pc) || Spins(s, u))
      && TaskDist(u.tasks[id].pc) <= TaskDist(s.tasks[id].pc)
  {
    var t := s.tasks[id];
    var u := TaskStep(cfg, s, id, v);
    if t.pc.Busy? && u.tasks[id].pc.Busy? {
      assert u == s.(clock := v, tasks := s.tasks[id := t.(loops := t.loops + 1, polls := t.polls + [v])]);
    }
  }

  lemma TaskStepRank(cfg: Config, s: System, id: nat, v: nat)
    requires Inv(cfg, s) && Possible(s, TaskActs(id, v))
    ensures var t := TaskStep(cfg, s, id, v);
      Rank(cfg, t) <= Rank(cfg, s) && (Rank(cfg, t) < Rank(cfg, s) || Spins(s, t))
  {
    if s.tasks[id].pc.Start? {
      StartArrivalRank(cfg, s, id, v);
    } else if s.tasks[id].pc.End? {
      EndArrivalRank(cfg, s, id, v);
    } else {
      TaskStepShape(cfg, s, id, v);
      SumByUpdate(TaskDists(), s.tasks, id, TaskStep(cfg, s, id, v).tasks[id]);
    }
  }

  lemma DriverStepRank(cfg: Config, s: System, v: nat, early: bool)
    requires Inv(cfg, s) && Possible(s, DriverActs(v, early))
    ensures Rank(cfg, DriverStep(cfg, s, v, early)) < Rank(cfg, s)
  {
    match s.driver
    case DStart => DriverArrivesKeepsBase(cfg, s, DStartW); SettleStartRank(cfg, s.(driver := DStartW));
    case XStart => DriverArrivesKeepsBase(cfg, s, XStartW); SettleStartRank(cfg, s.(driver := XStartW));
    case DEnd => DriverArrivesKeepsBase(cfg, s, DEndW); SettleEndRank(cfg, s.(driver := DEndW));
    case XEnd => DriverArrivesKeepsBase(cfg, s, XEndW); SettleEndRank(cfg, s.(driver := XEndW));
    case AfterRound => AfterRoundRank(cfg, s, v, early);
    case _ =>
  }

  lemma AfterRoundRank(cfg: Config, s: System, v: nat, early: bool)
    requires Base(cfg, s) && s.driver.AfterRound?
    ensures Rank(cfg, DriverStep(cfg, s, v, early)) < Rank(cfg, s)
  {
    MultipleMonotone(RoundsLeft(DriverStep(cfg, s, v, early)), RoundsLeft(s), Lap(cfg));
  }

  /** The steps among the first `k` that are not spinning in busy_loop. */
  ghost function Advances(run: seq<System>, k: nat): nat
    requires k < |run|
  {
    if k == 0 then 0 else Advances(run, k - 1) + if Spins(run[k - 1], run[k]) then 0 else 1
  }

  ghost predicate Finished(s: System) {
    s.driver.Left? && forall i :: 0 <= i < |s.tasks| ==> s.tasks[i].pc.Exited?
  }

  lemma TaskCanAct(cfg: Config, s: System, i: nat)
    requires Inv(cfg, s) && i < cfg.tasks && TaskEnabled(s.tasks[i])
    ensures Possible(s, TaskActs(i, s.clock))
  {
    if s.tasks[i].pc.RecStore? { StoreKeepsInv(cfg, s, i); }
  }

  /** The driver waits at a barrier that is not complete, or for a task that has not exited. */
  lemma SomeTaskEnabled(cfg: Config, s: System) returns (i: nat)
    requires Inv(cfg, s) && !s.driver.Left? && !DriverEnabled(s)
    ensures i < cfg.tasks && TaskEnabled(s.tasks[i])
  {
    if s.driver.Join? {
      i :| 0 <= i < |s.tasks| && !s.tasks[i].pc.Exited?;
      assert TaskOk(cfg, s, s.tasks[i]);
    } else {
      var w := if DriverAtStart(s) then StartW else EndW;
      SumByAtMost(IsAt(w), s.tasks, 1);
      i :| 0 <= i < |s.tasks| && IsAt(w)(s.tasks[i]) != 1;
      assert TaskOk(cfg, s, s.tasks[i]);
    }
  }

  lemma NotStuck(cfg: Config, s: System)
    requires Inv(cfg, s) && !s.driver.Left?
    ensures exists a: Action :: Possible(s, a)
  {
    if DriverEnabled(s) {
      assert Possible(s, DriverActs(s.clock, false));
    } else {
      var i := SomeTaskEnabled(cfg, s);
      TaskCanAct(cfg, s, i);
    }
  }

  lemma RunKeepsInv(cfg: Config, run: seq<System>, k: nat)
    requires cfg.Valid() && IsRun(Rel(cfg), run) && run[0] == Init(cfg) && k < |run|
    ensures Inv(cfg, run[k])
  {
    InitInv(cfg);
    forall s, t | Inv(cfg, s) && Next(cfg, s, t) ensures Inv(cfg, t) {
      var a: Action :| Possible(s, a) && t == Act(cfg, s, a);
      ActKeepsInv(cfg, s, a);
    }
    InvariantAlong(Rel(cfg), s => Inv(cfg, s), run, k);
  }

  /** Along every run: each cell is written exactly once as soon as its round is over, and not at all before its
      round, by its own task; no write is out of bounds.  In a finished run this holds for every row below the
      final `runs`, and the rows from there on are untouched. */
  lemma EachCellOnce(cfg: Config, run: seq<System>, k: nat, r: nat, id: nat)
    requires cfg.Valid() && IsRun(Rel(cfg), run) && run[0] == Init(cfg) && k < |run| && r < cfg.runs && id < cfg.tasks
    ensures Sized(cfg, run[k]) && run[k].runs <= cfg.runs
    ensures var s := run[k];
      && (r < s.round && r < s.runs ==>
            && s.writes[r][id] == 1 && s.rows[r][id].Some?
            && r < |s.nows| && RowOk(cfg, s.rows[r][id].value, r, id, s.nows[r]))
      && (r > s.round || r >= s.runs ==> s.writes[r][id] == 0 && s.rows[r][id].None?)
      && (s.tasks[id].pc.RecStore? ==> InBounds(s, id))
      && (Finished(s) ==> s.writes[r][id] == if r < s.runs then 1 else 0)
  {
    RunKeepsInv(cfg, run, k);
    assert CellOk(cfg, run[k], r, id);
    if run[k].tasks[id].pc.RecStore? { StoreKeepsInv(cfg, run[k], id); }
  }

  /** What is printed: in every kept row the times are those since main's reading of its round, the loops are the
      readings that busy_loop made, and the length is at least the start offset and the busy time. */
  lemma RowsLongEnough(cfg: Config, run: seq<System>, k: nat, r: nat, id: nat)
    requires cfg.Valid() && IsRun(Rel(cfg), run) && run[0] == Init(cfg) && k < |run| && r < cfg.runs && id < cfg.tasks
    ensures Sized(cfg, run[k])
    ensures run[k].rows[r][id].Some? ==>
              var row := run[k].rows[r][id].value;
              && row.writer == id && row.round == r && r < |run[k].nows|
              && row.time == row.start - run[k].nows[r] && row.length == row.stop - run[k].nows[r]
              && row.length >= row.time + cfg.interval
              && row.loops == |row.polls| && BusyLoop(cfg, row.start, row.polls)
  {
    RunKeepsInv(cfg, run, k);
    assert CellOk(cfg, run[k], r, id);
  }

  /** Rounds do not overlap: whatever a row records lies before main's reading of the next round, and that before
      whatever a row of the next round records. */
  lemma RoundsDoNotOverlap(cfg: Config, run: seq<System>, k: nat, r: nat, i: nat, j: nat)
    requires cfg.Valid() && IsRun(Rel(cfg), run) && run[0] == Init(cfg) && k < |run|
    requires r + 1 < cfg.runs && i < cfg.tasks && j < cfg.tasks
    ensures Sized(cfg, run[k])
    ensures run[k].rows[r][i].Some? && run[k].rows[r + 1][j].Some? ==>
              && r + 1 < |run[k].nows|
              && run[k].rows[r][i].value.stop <= run[k].nows[r + 1] <= run[k].rows[r + 1][j].value.start
  {
    RunKeepsInv(cfg, run, k);
    assert CellOk(cfg, run[k], r, i) && CellOk(cfg, run[k], r + 1, j);
  }

  /** If main is told to stop early after some round, no later round records; otherwise all the given rounds do. */
  lemma StopsWhenTold(cfg: Config, run: seq<System>, k: nat)
    requires cfg.Valid() && IsRun(Rel(cfg), run) && run[0] == Init(cfg) && k < |run|
    ensures var s := run[k];
      if s.stopped.Some? then DriverLeaves(s.driver) && s.runs == s.stopped.value + 1 == |s.nows|
      else s.runs == cfg.runs && (DriverLeaves(s.driver) ==> |s.nows| == cfg.runs)
  {
    RunKeepsInv(cfg, run, k);
  }

  /** Every task that has exited made exactly one round more than there are rows to print. */
  lemma ExitAfterExtraRound(cfg: Config, run: seq<System>, k: nat, id: nat)
    requires cfg.Valid() && IsRun(Rel(cfg), run) && run[0] == Init(cfg) && k < |run| && id < cfg.tasks
    ensures |run[k].tasks| == cfg.tasks
    ensures run[k].tasks[id].pc.Exited? ==> run[k].tasks[id].rounds == run[k].runs + 1
  {
    RunKeepsInv(cfg, run, k);
    assert TaskOk(cfg, run[k], run[k].tasks[id]);
  }

  lemma StepRank(cfg: Config, s: System, t: System)
    requires Inv(cfg, s) && Next(cfg, s, t)
    ensures Rank(cfg, t) <= Rank(cfg, s) && (Rank(cfg, t) < Rank(cfg, s) || Spins(s, t))
  {
    var a: Action :| Possible(s, a) && t == Act(cfg, s, a);
    match a
    case TaskActs(id, v) => TaskStepRank(cfg, s, id, v);
    case DriverActs(v, early) => DriverStepRank(cfg, s, v, early);
  }

  lemma CanGoOnOrFinished(cfg: Config, s: System)
    requires Inv(cfg, s)
    ensures (exists t :: Next(cfg, s, t)) || Finished(s)
  {
    if s.driver.Left? {
      forall i | 0 <= i < cfg.tasks ensures s.tasks[i].pc.Exited? { assert TaskOk(cfg, s, s.tasks[i]); }
    } else {
      NotStuck(cfg, s);
      var a: Action :| Possible(s, a);
      assert Next(cfg, s, Act(cfg, s, a));
    }
  }

  /** No deadlock, and all but the readings in busy_loop that come too early are bounded in number. */
  lemma {:induction false} RunsEnd(cfg: Config, run: seq<System>, k: nat)
    requires cfg.Valid() && IsRun(Rel(cfg), run) && run[0] == Init(cfg) && k < |run|
    ensures Advances(run, k) + Rank(cfg, run[k]) <= Rank(cfg, Init(cfg))
    ensures (exists t :: Next(cfg, run[k], t)) || Finished(run[k])
  {
    RunKeepsInv(cfg, run, k);
    CanGoOnOrFinished(cfg, run[k]);
    if k > 0 {
      RunsEnd(cfg, run, k - 1);
      RunKeepsInv(cfg, run, k - 1);
      assert Rel(cfg)(run[k - 1], run[k - 1 + 1]);
      StepRank(cfg, run[k - 1], run[k]);
    }
  }
}
