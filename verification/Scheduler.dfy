// Running the payloads: one concurrent task each, bounded by a semaphore, and a collector
// that takes results in the order in which tasks end. Every interleaving is a run of the
// step relation below.
module Scheduler {
  import opened Prelude
  import opened FilePaths
  import opened Payloads

  // One collected table: its datatype and its number of rows.
  datatype Table = Table(dt: Datatype, rows: nat)

  datatype TaskResult = Done(tables: seq<Table>) | Failed(error: Error) | Panicked

  // Where a task is: before the semaphore, collecting, about to write table `next`,
  // ended, or ended and taken by the collector.
  datatype Task =
    | Waiting
    | Collecting
    | Writing(tables: seq<Table>, next: nat)
    | Ended(result: TaskResult)
    | Taken(result: TaskResult)

  // One attempt to write a file.
  datatype Write = Write(task: nat, dt: Datatype, path: Path)

  datatype Errored = Errored(task: nat, partition: Option<Partition>, error: Error)

  // `completed` lists tasks; the source lists their partitions.
  datatype Summary = Summary(completed: seq<nat>, errored: seq<Errored>, nRows: nat)

  // `permits` is absent when the number of concurrent tasks is not limited.
  datatype Config = Config(payloads: seq<Payload>, permits: Option<nat>)

  datatype State = State(tasks: seq<Task>, available: Option<nat>, writes: seq<Write>, summary: Summary)

  function Init(c: Config): State {
    State(seq(|c.payloads|, _ => Waiting), c.permits, [], NOTHING)
  }

  function SumRows(tables: seq<Table>): nat {
    if tables == [] then 0 else SumRows(tables[..|tables| - 1]) + tables[|tables| - 1].rows
  }

  lemma {:induction false} SumRowsJoin(a: seq<Table>, b: seq<Table>)
    ensures SumRows(a + b) == SumRows(a) + SumRows(b)
    ensures forall t | t in a :: t.rows <= SumRows(a)
    decreases |a| + |b|
  {
    if b != [] {
      assert (a + b)[..|a + b| - 1] == a + b[..|b| - 1];
      SumRowsJoin(a, b[..|b| - 1]);
    } else if a != [] {
      assert a + b == a && a == a[..|a| - 1] + [a[|a| - 1]];
      SumRowsJoin(a[..|a| - 1], []);
    }
  }

  // --- the collector ---

  function Tally(c: Config, s: Summary, i: nat, r: TaskResult): Summary
    requires i < |c.payloads|
  {
    match r
    case Done(tables) => s.(completed := s.completed + [i], nRows := s.nRows + SumRows(tables))
    case Failed(e) => s.(errored := s.errored + [Errored(i, Some(c.payloads[i].partition), e)])
    case Panicked => s.(errored := s.errored + [Errored(i, None, Invalid("error joining chunks"))])
  }

  function TallyAll(c: Config, s: Summary, arrivals: seq<(nat, TaskResult)>): Summary
    requires forall a | a in arrivals :: a.0 < |c.payloads|
  {
    if arrivals == [] then s
    else
      var last := arrivals[|arrivals| - 1];
      Tally(c, TallyAll(c, s, arrivals[..|arrivals| - 1]), last.0, last.1)
  }

  const NOTHING: Summary := Summary([], [], 0)

  // How many of the arrivals are completed tasks, and how many rows those have.
  function DoneCount(arrivals: seq<(nat, TaskResult)>): nat {
    if arrivals == [] then 0
    else
      var last := arrivals[|arrivals| - 1].1;
      DoneCount(arrivals[..|arrivals| - 1]) + if last.Done? then 1 else 0
  }

  function DoneRows(arrivals: seq<(nat, TaskResult)>): nat {
    if arrivals == [] then 0
    else
      var last := arrivals[|arrivals| - 1].1;
      DoneRows(arrivals[..|arrivals| - 1]) + if last.Done? then SumRows(last.tables) else 0
  }

  function ErroredBy(c: Config, i: nat, r: TaskResult): Errored
    requires i < |c.payloads| && !r.Done?
  {
    if r.Failed? then Errored(i, Some(c.payloads[i].partition), r.error)
    else Errored(i, None, Invalid("error joining chunks"))
  }

  // Each arrival is listed once, on the side of its result, behind those of its side that
  // arrived before it; nothing else is listed.
  ghost predicate Splits(c: Config, s: Summary, arrivals: seq<(nat, TaskResult)>)
    requires forall a | a in arrivals :: a.0 < |c.payloads|
  {
    && |s.completed| == DoneCount(arrivals) && |s.completed| + |s.errored| == |arrivals|
    && (forall k | 0 <= k < |arrivals| :: Lists(c, s, arrivals[k].0, arrivals[k].1, DoneCount(arrivals[..k]), k))
    && s.nRows == DoneRows(arrivals)
  }

  // The `k`-th arrival, of which `done` before it are completed.
  predicate Lists(c: Config, s: Summary, i: nat, r: TaskResult, done: nat, k: nat)
    requires i < |c.payloads|
  {
    if r.Done? then done < |s.completed| && s.completed[done] == i
    else done <= k < done + |s.errored| && s.errored[k - done] == ErroredBy(c, i, r)
  }

  lemma TallyKeeps(c: Config, s: Summary, i: nat, r: TaskResult, j: nat, q: TaskResult, done: nat, k: nat)
    requires i < |c.payloads| && j < |c.payloads| && Lists(c, s, j, q, done, k)
    ensures Lists(c, Tally(c, s, i, r), j, q, done, k)
  {
  }

  lemma TallySplits(c: Config, s: Summary, arrivals: seq<(nat, TaskResult)>, i: nat, r: TaskResult)
    requires (forall a | a in arrivals :: a.0 < |c.payloads|) && i < |c.payloads| && Splits(c, s, arrivals)
    ensures Splits(c, Tally(c, s, i, r), arrivals + [(i, r)])
  {
    var after, all := Tally(c, s, i, r), arrivals + [(i, r)];
    assert all[..|arrivals|] == arrivals;
    forall k | 0 <= k < |all|
      ensures Lists(c, after, all[k].0, all[k].1, DoneCount(all[..k]), k)
    {
      if k < |arrivals| {
        assert all[k] == arrivals[k] && all[..k] == arrivals[..k];
        TallyKeeps(c, s, i, r, arrivals[k].0, arrivals[k].1, DoneCount(arrivals[..k]), k);
      }
    }
  }

  lemma {:induction false} TallyAllSplits(c: Config, arrivals: seq<(nat, TaskResult)>)
    requires forall a | a in arrivals :: a.0 < |c.payloads|
    ensures Splits(c, TallyAll(c, NOTHING, arrivals), arrivals)
  {
    if arrivals == [] {
    } else {
      var n := |arrivals| - 1;
      TallyAllSplits(c, arrivals[..n]);
      assert arrivals[n] in arrivals && arrivals == arrivals[..n] + [arrivals[n]];
      TallySplits(c, TallyAll(c, NOTHING, arrivals[..n]), arrivals[..n], arrivals[n].0, arrivals[n].1);
    }
  }

  method AggregateResults(c: Config, arrivals: seq<(nat, TaskResult)>) returns (s: Summary)
    requires forall a | a in arrivals :: a.0 < |c.payloads|
    ensures s == TallyAll(c, NOTHING, arrivals) && Splits(c, s, arrivals)
  {
    var completed: seq<nat> := [];
    var errored: seq<Errored> := [];
    var nRows: nat := 0;
    for k := 0 to |arrivals|
      invariant Summary(completed, errored, nRows) == TallyAll(c, NOTHING, arrivals[..k])
    {
      assert arrivals[..k + 1][..k] == arrivals[..k];
      var (i, result) := arrivals[k];
      assert arrivals[k] in arrivals;
      match result
      case Done(tables) =>
        nRows := nRows + SumRows(tables);
        completed := completed + [i];
      case Failed(e) => errored := errored + [Errored(i, Some(c.payloads[i].partition), e)];
      case Panicked => errored := errored + [Errored(i, None, Invalid("error joining chunks"))];
    }
    assert arrivals[..|arrivals|] == arrivals;
    s := Summary(completed, errored, nRows);
    TallyAllSplits(c, arrivals);
  }

  // --- steps ---

  datatype Action =
    | Acquire
    | Collect(tables: seq<Table>)
    | CollectFails(error: Error)
    | WriteTable(ok: bool)
    | Finish
    | Panic
    | Take

  predicate Holds(t: Task) {
    t.Collecting? || t.Writing?
  }

  // The collected tables come as a map: one table a datatype, in some order.
  predicate DistinctTables(tables: seq<Table>) {
    forall i, j | 0 <= i < j < |tables| :: tables[i].dt != tables[j].dt
  }

  predicate Enabled(s: State, i: nat, a: Action) {
    i < |s.tasks| &&
    match a
    case Acquire => s.tasks[i].Waiting? && (s.available.Some? ==> s.available.value > 0)
    case Collect(tables) => s.tasks[i].Collecting? && DistinctTables(tables)
    case CollectFails(_) => s.tasks[i].Collecting?
    case WriteTable(_) => s.tasks[i].Writing? && s.tasks[i].next < |s.tasks[i].tables|
    case Finish => s.tasks[i].Writing? && s.tasks[i].next == |s.tasks[i].tables|
    case Panic => Holds(s.tasks[i])
    case Take => s.tasks[i].Ended?
  }

  function Release(available: Option<nat>): Option<nat> {
    if available.Some? then Some(available.value + 1) else None
  }

  // A task that ends, well or badly, gives its permit back.
  function End(s: State, i: nat, r: TaskResult): State
    requires i < |s.tasks|
  {
    s.(tasks := s.tasks[i := Ended(r)], available := Release(s.available))
  }

  function WriteNext(c: Config, s: State, i: nat, ok: bool): State
    requires i < |s.tasks| && |s.tasks| == |c.payloads|
    requires s.tasks[i].Writing? && s.tasks[i].next < |s.tasks[i].tables|
  {
    var t := s.tasks[i];
    var dt, paths := t.tables[t.next].dt, c.payloads[i].paths;
    if dt !in paths then End(s, i, Failed(Missing("path")))
    else
      var attempted := s.(writes := s.writes + [Write(i, dt, paths[dt])]);
      if ok then attempted.(tasks := s.tasks[i := Writing(t.tables, t.next + 1)])
      else End(attempted, i, Failed(Invalid("error writing file")))
  }

  function Apply(c: Config, s: State, i: nat, a: Action): State
    requires |s.tasks| == |c.payloads| && Enabled(s, i, a)
  {
    match a
    case Acquire =>
      s.(tasks := s.tasks[i := Collecting],
         available := if s.available.Some? then Some(s.available.value - 1) else None)
    case Collect(tables) => s.(tasks := s.tasks[i := Writing(tables, 0)])
    case CollectFails(e) => End(s, i, Failed(e))
    case WriteTable(ok) => WriteNext(c, s, i, ok)
    case Finish => End(s, i, Done(s.tasks[i].tables))
    case Panic => End(s, i, Panicked)
    case Take =>
      s.(tasks := s.tasks[i := Taken(s.tasks[i].result)], summary := Tally(c, s.summary, i, s.tasks[i].result))
  }

  predicate StepBy(c: Config, s: State, s': State, i: nat, a: Action) {
    |s.tasks| == |c.payloads| && Enabled(s, i, a) && s' == Apply(c, s, i, a)
  }

  ghost predicate Step(c: Config, s: State, s': State) {
    exists i: nat, a: Action :: StepBy(c, s, s', i, a)
  }

  // --- counting over tasks ---

  function Sum(tasks: seq<Task>, weight: Task -> nat): nat {
    if tasks == [] then 0 else Sum(tasks[..|tasks| - 1], weight) + weight(tasks[|tasks| - 1])
  }

  lemma {:induction false} SumUpdate(tasks: seq<Task>, weight: Task -> nat, i: nat, t: Task)
    requires i < |tasks|
    ensures Sum(tasks[i := t], weight) == Sum(tasks, weight) - weight(tasks[i]) + weight(t)
    ensures Sum(tasks, weight) >= weight(tasks[i])
  {
    var n := |tasks| - 1;
    if i == n {
      assert tasks[i := t][..n] == tasks[..n];
    } else {
      assert tasks[i := t][..n] == tasks[..n][i := t];
      SumUpdate(tasks[..n], weight, i, t);
    }
  }

  lemma {:induction false} SumZero(tasks: seq<Task>, weight: Task -> nat)
    requires forall t | t in tasks :: weight(t) == 0
    ensures Sum(tasks, weight) == 0
  {
    if tasks == [] {
    } else {
      assert tasks[|tasks| - 1] in tasks;
      SumZero(tasks[..|tasks| - 1], weight);
    }
  }

  function Holding(): Task -> nat {
    (t: Task) => if Holds(t) then 1 else 0
  }

  function TakenRows(): Task -> nat {
    (t: Task) => if t.Taken? && t.result.Done? then SumRows(t.result.tables) else 0
  }

  // --- the invariant ---

  predicate Written(s: State, c: Config, i: nat, dt: Datatype) {
    i < |c.payloads| && dt in c.payloads[i].paths && Write(i, dt, c.payloads[i].paths[dt]) in s.writes
  }

  // An attempt belongs to a task past its collection, and is for a datatype that the task is
  // done with.
  predicate AttemptOk(c: Config, s: State, w: Write) {
    && w.task < |s.tasks| && |s.tasks| == |c.payloads|
    && w.dt in c.payloads[w.task].paths && w.path == c.payloads[w.task].paths[w.dt]
    && !s.tasks[w.task].Waiting? && !s.tasks[w.task].Collecting?
    && (s.tasks[w.task].Writing? ==> w.dt in Names(s.tasks[w.task].tables[..Next(s.tasks[w.task])]))
  }

  // No task attempts a datatype twice.
  predicate WritesOk(c: Config, s: State) {
    && (forall w | w in s.writes :: AttemptOk(c, s, w))
    && (forall j, k | 0 <= j < k < |s.writes| ::
          s.writes[j].task != s.writes[k].task || s.writes[j].dt != s.writes[k].dt)
  }

  function Next(t: Task): nat
    requires t.Writing?
    ensures Next(t) <= |t.tables|
  {
    if t.next <= |t.tables| then t.next else |t.tables|
  }

  function Names(tables: seq<Table>): seq<Datatype> {
    seq(|tables|, i requires 0 <= i < |tables| => tables[i].dt)
  }

  // A task that is writing has written every table before its next one; a completed task
  // has written them all.
  predicate ProgressOk(c: Config, s: State) {
    |s.tasks| == |c.payloads| && forall i | 0 <= i < |s.tasks| :: TaskOk(c, s, i, s.tasks[i])
  }

  predicate TaskOk(c: Config, s: State, i: nat, t: Task) {
    match t
    case Writing(tables, next) =>
      next <= |tables| && DistinctTables(tables) && forall k | 0 <= k < next :: Written(s, c, i, tables[k].dt)
    case Ended(Done(tables)) => forall k | 0 <= k < |tables| :: Written(s, c, i, tables[k].dt)
    case Taken(Done(tables)) => forall k | 0 <= k < |tables| :: Written(s, c, i, tables[k].dt)
    case _ => true
  }

  predicate PermitsOk(c: Config, s: State) {
    match c.permits
    case None => s.available.None?
    case Some(n) => s.available.Some? && s.available.value + Sum(s.tasks, Holding()) == n
  }

  function ErroredTasks(errored: seq<Errored>): seq<nat> {
    seq(|errored|, i requires 0 <= i < |errored| => errored[i].task)
  }

  // The summary lists each taken task once, on the side of its result.
  predicate SummaryOk(c: Config, s: State) {
    && (forall i | 0 <= i < |s.tasks| ::
          (i in s.summary.completed <==> s.tasks[i].Taken? && s.tasks[i].result.Done?) &&
          (i in ErroredTasks(s.summary.errored) <==> s.tasks[i].Taken? && !s.tasks[i].result.Done?))
    && (forall i | i in s.summary.completed :: i < |s.tasks|)
    && (forall i | i in ErroredTasks(s.summary.errored) :: i < |s.tasks|)
    && Unique(s.summary.completed) && Unique(ErroredTasks(s.summary.errored))
    && s.summary.nRows == Sum(s.tasks, TakenRows())
  }

  predicate Inv(c: Config, s: State) {
    |s.tasks| == |c.payloads| && PermitsOk(c, s) && WritesOk(c, s) && ProgressOk(c, s) && SummaryOk(c, s)
  }

  lemma InitInv(c: Config)
    ensures Inv(c, Init(c))
  {
    SumZero(Init(c).tasks, Holding());
    SumZero(Init(c).tasks, TakenRows());
  }

  lemma StepPermits(c: Config, s: State, s': State, i: nat, a: Action)
    requires Inv(c, s) && StepBy(c, s, s', i, a)
    ensures PermitsOk(c, s')
  {
    SumUpdate(s.tasks, Holding(), i, s'.tasks[i]);
    assert s'.tasks == s.tasks[i := s'.tasks[i]];
  }

  // A writing task has not yet attempted its next table.
  lemma NotYetWritten(c: Config, s: State, i: nat)
    requires WritesOk(c, s) && i < |s.tasks| && s.tasks[i].Writing?
    requires s.tasks[i].next < |s.tasks[i].tables| && DistinctTables(s.tasks[i].tables)
    ensures forall j | 0 <= j < |s.writes| ::
              s.writes[j].task != i || s.writes[j].dt != s.tasks[i].tables[s.tasks[i].next].dt
  {
    var t := s.tasks[i];
    forall j | 0 <= j < |s.writes| && s.writes[j].task == i
      ensures s.writes[j].dt != t.tables[t.next].dt
    {
      assert s.writes[j] in s.writes;
      var k :| 0 <= k < t.next && Names(t.tables[..t.next])[k] == s.writes[j].dt;
      assert t.tables[k].dt != t.tables[t.next].dt;
    }
  }

  lemma AttemptStays(c: Config, s: State, s': State, i: nat, a: Action, w: Write)
    requires Inv(c, s) && StepBy(c, s, s', i, a) && AttemptOk(c, s, w)
    ensures AttemptOk(c, s', w)
  {
    if w.task != i {
      assert s'.tasks[w.task] == s.tasks[w.task];
    } else if a.WriteTable? && s'.tasks[i].Writing? {
      var t := s.tasks[i];
      assert Names(t.tables[..t.next + 1]) == Names(t.tables[..t.next]) + [t.tables[t.next].dt];
    }
  }

  lemma AttemptMade(c: Config, s: State, s': State, i: nat, ok: bool)
    requires Inv(c, s) && StepBy(c, s, s', i, WriteTable(ok)) && s'.writes != s.writes
    ensures var dt := s.tasks[i].tables[s.tasks[i].next].dt;
            && dt in c.payloads[i].paths
            && s'.writes == s.writes + [Write(i, dt, c.payloads[i].paths[dt])]
            && AttemptOk(c, s', Write(i, dt, c.payloads[i].paths[dt]))
  {
    var t := s.tasks[i];
    if s'.tasks[i].Writing? {
      assert Names(t.tables[..t.next + 1]) == Names(t.tables[..t.next]) + [t.tables[t.next].dt];
      assert Next(s'.tasks[i]) == t.next + 1;
    }
  }

  lemma StepWrites(c: Config, s: State, s': State, i: nat, a: Action)
    requires Inv(c, s) && StepBy(c, s, s', i, a)
    ensures WritesOk(c, s')
  {
    forall w | w in s.writes
      ensures AttemptOk(c, s', w)
    {
      AttemptStays(c, s, s', i, a, w);
    }
    if s'.writes != s.writes {
      NotYetWritten(c, s, i);
      AttemptMade(c, s, s', i, a.ok);
    }
  }

  lemma TaskStaysOk(c: Config, s: State, s': State, j: nat, t: Task)
    requires TaskOk(c, s, j, t) && forall w | w in s.writes :: w in s'.writes
    ensures TaskOk(c, s', j, t)
  {
    assert forall dt | Written(s, c, j, dt) :: Written(s', c, j, dt);
  }

  lemma StepWritesMore(c: Config, s: State, s': State, i: nat, a: Action)
    requires StepBy(c, s, s', i, a)
    ensures forall w | w in s.writes :: w in s'.writes
    ensures |s'.tasks| == |s.tasks| && forall j | 0 <= j < |s.tasks| && j != i :: s'.tasks[j] == s.tasks[j]
  {
  }

  lemma StepperOk(c: Config, s: State, s': State, i: nat, a: Action)
    requires StepBy(c, s, s', i, a) && TaskOk(c, s, i, s.tasks[i])
    ensures TaskOk(c, s', i, s'.tasks[i])
  {
    StepWritesMore(c, s, s', i, a);
    TaskStaysOk(c, s, s', i, s.tasks[i]);
  }

  lemma StepProgress(c: Config, s: State, s': State, i: nat, a: Action)
    requires Inv(c, s) && StepBy(c, s, s', i, a)
    ensures ProgressOk(c, s')
  {
    StepWritesMore(c, s, s', i, a);
    forall j | 0 <= j < |s'.tasks|
      ensures TaskOk(c, s', j, s'.tasks[j])
    {
      if j == i {
        StepperOk(c, s, s', i, a);
      } else {
        TaskStaysOk(c, s, s', j, s.tasks[j]);
      }
    }
  }

  lemma StepSummary(c: Config, s: State, s': State, i: nat, a: Action)
    requires Inv(c, s) && StepBy(c, s, s', i, a)
    ensures SummaryOk(c, s')
  {
    SumUpdate(s.tasks, TakenRows(), i, s'.tasks[i]);
    assert s'.tasks == s.tasks[i := s'.tasks[i]];
    if a.Take? {
      TakeLists(c, s, s', i);
    } else {
      assert s'.summary == s.summary && !s.tasks[i].Taken? && !s'.tasks[i].Taken?;
    }
  }

  lemma TakeLists(c: Config, s: State, s': State, i: nat)
    requires Inv(c, s) && StepBy(c, s, s', i, Take)
    ensures SummaryOk(c, s'.(summary := s'.summary.(nRows := Sum(s'.tasks, TakenRows()))))
  {
    assert s'.tasks == s.tasks[i := s'.tasks[i]];
    var before, after := s.summary, s'.summary;
    if s.tasks[i].result.Done? {
      assert after.completed == before.completed + [i] && after.errored == before.errored;
    } else {
      assert ErroredTasks(after.errored) == ErroredTasks(before.errored) + [i] && after.completed == before.completed;
    }
  }

  lemma StepInv(c: Config, s: State, s': State)
    requires Inv(c, s) && Step(c, s, s')
    ensures Inv(c, s')
  {
    var i: nat, a: Action :| StepBy(c, s, s', i, a);
    StepPermits(c, s, s', i, a);
    StepWrites(c, s, s', i, a);
    StepProgress(c, s, s', i, a);
    StepSummary(c, s, s', i, a);
  }

  // --- runs ---

  ghost predicate IsRun(c: Config, run: seq<State>) {
    run != [] && run[0] == Init(c) && forall k | 0 <= k < |run| - 1 :: Step(c, run[k], run[k + 1])
  }

  ghost predicate Reachable(c: Config, s: State) {
    exists run :: IsRun(c, run) && run[|run| - 1] == s
  }

  lemma {:induction false} RunInv(c: Config, run: seq<State>)
    requires IsRun(c, run)
    ensures Inv(c, run[|run| - 1])
    decreases |run|
  {
    if |run| == 1 {
      InitInv(c);
    } else {
      RunInv(c, run[..|run| - 1]);
      assert Step(c, run[|run| - 2], run[|run| - 2 + 1]);
      StepInv(c, run[|run| - 2], run[|run| - 1]);
    }
  }

  lemma ReachableInv(c: Config, s: State)
    requires Reachable(c, s)
    ensures Inv(c, s)
  {
    var run :| IsRun(c, run) && run[|run| - 1] == s;
    RunInv(c, run);
  }

  // --- the collector in a run ---

  ghost predicate TakenIn(s: State, s': State, i: nat) {
    i < |s.tasks| && i < |s'.tasks| && s.tasks[i].Ended? && s'.tasks[i].Taken?
  }

  // What one step hands to the collector.
  ghost function Handed(s: State, s': State): seq<(nat, TaskResult)> {
    if i: nat :| TakenIn(s, s', i) then [(i, s.tasks[i].result)] else []
  }

  // The results in the order in which a run hands them to the collector.
  ghost function Arrivals(run: seq<State>): seq<(nat, TaskResult)> {
    if |run| <= 1 then []
    else Arrivals(run[..|run| - 1]) + Handed(run[|run| - 2], run[|run| - 1])
  }

  // The collector has met exactly the taken tasks, each once and with its result, and the
  // summary is what its loop makes of them.
  ghost predicate Collected(c: Config, s: State, arrivals: seq<(nat, TaskResult)>) {
    && (forall a | a in arrivals :: a.0 < |c.payloads| && a.0 < |s.tasks| && s.tasks[a.0] == Taken(a.1))
    && (forall i | 0 <= i < |s.tasks| && s.tasks[i].Taken? :: (i, s.tasks[i].result) in arrivals)
    && (forall j, k | 0 <= j < k < |arrivals| :: arrivals[j].0 != arrivals[k].0)
    && s.summary == TallyAll(c, NOTHING, arrivals)
  }

  lemma HandedByTake(c: Config, s: State, s': State, i: nat, a: Action)
    requires StepBy(c, s, s', i, a)
    ensures Handed(s, s') == if a.Take? then [(i, s.tasks[i].result)] else []
  {
    if a.Take? {
      assert TakenIn(s, s', i);
    }
  }

  lemma TakeSteps(c: Config, s: State, s': State, i: nat)
    requires StepBy(c, s, s', i, Take)
    ensures |s'.tasks| == |s.tasks| && s'.tasks[i] == Taken(s.tasks[i].result) && s.tasks[i].Ended?
    ensures forall j | 0 <= j < |s.tasks| && j != i :: s'.tasks[j] == s.tasks[j]
    ensures s'.summary == Tally(c, s.summary, i, s.tasks[i].result)
  {
  }

  lemma OneMoreTallied(c: Config, arrivals: seq<(nat, TaskResult)>, i: nat, r: TaskResult)
    requires (forall a | a in arrivals :: a.0 < |c.payloads|) && i < |c.payloads|
    ensures TallyAll(c, NOTHING, arrivals + [(i, r)]) == Tally(c, TallyAll(c, NOTHING, arrivals), i, r)
  {
    var all := arrivals + [(i, r)];
    assert all[..|all| - 1] == arrivals && all[|all| - 1] == (i, r);
  }

  lemma TakeCollected(c: Config, s: State, s': State, i: nat, arrivals: seq<(nat, TaskResult)>)
    requires StepBy(c, s, s', i, Take) && Collected(c, s, arrivals)
    ensures Collected(c, s', arrivals + [(i, s.tasks[i].result)])
  {
    var r := s.tasks[i].result;
    var all := arrivals + [(i, r)];
    TakeSteps(c, s, s', i);
    forall a | a in arrivals
      ensures a.0 != i && s'.tasks[a.0] == Taken(a.1)
    {
    }
    forall j | 0 <= j < |s'.tasks| && s'.tasks[j].Taken?
      ensures (j, s'.tasks[j].result) in all
    {
      assert j == i ==> all[|arrivals|] == (j, s'.tasks[j].result);
    }
    forall k | 0 <= k < |arrivals|
      ensures arrivals[k].0 != i
    {
      assert arrivals[k] in arrivals;
    }
    OneMoreTallied(c, arrivals, i, r);
  }

  lemma {:induction false} RunCollects(c: Config, run: seq<State>)
    requires IsRun(c, run)
    ensures Collected(c, run[|run| - 1], Arrivals(run))
    decreases |run|
  {
    if |run| == 1 {
    } else {
      var n := |run| - 2;
      var first := run[..n + 1];
      RunCollects(c, first);
      assert Step(c, run[n], run[n + 1]);
      var i: nat, a: Action :| StepBy(c, run[n], run[n + 1], i, a);
      HandedByTake(c, run[n], run[n + 1], i, a);
      if a.Take? {
        TakeCollected(c, run[n], run[n + 1], i, Arrivals(first));
      } else {
        assert Arrivals(run) == Arrivals(first);
        OtherCollected(c, run[n], run[n + 1], i, a, Arrivals(first));
      }
    }
  }

  lemma OtherCollected(c: Config, s: State, s': State, i: nat, a: Action, arrivals: seq<(nat, TaskResult)>)
    requires StepBy(c, s, s', i, a) && !a.Take? && Collected(c, s, arrivals)
    ensures Collected(c, s', arrivals)
  {
    assert !s.tasks[i].Taken? && !s'.tasks[i].Taken? && s'.summary == s.summary;
    assert forall j | 0 <= j < |s.tasks| && j != i :: s'.tasks[j] == s.tasks[j];
  }

  // In every run the summary is what the collector's loop makes of the results, in the order
  // in which the run hands them over: each of them is listed once, behind the earlier ones.
  lemma RunSummary(c: Config, run: seq<State>)
    requires IsRun(c, run)
    ensures Collected(c, run[|run| - 1], Arrivals(run)) && Splits(c, run[|run| - 1].summary, Arrivals(run))
  {
    RunCollects(c, run);
    TallyAllSplits(c, Arrivals(run));
  }

  // In every interleaving, no more tasks are past the semaphore than it has permits.
  lemma PermitsBound(c: Config, s: State)
    requires Reachable(c, s)
    ensures c.permits.Some? ==> Sum(s.tasks, Holding()) <= c.permits.value
  {
    ReachableInv(c, s);
  }

  // In every interleaving of a planned run, no file is written more than once.
  lemma OneWriter(sink: FileOutput, q: Query, disk: Disk, permits: Option<nat>, s: State)
    requires NamesOk(q) && PlanOf(sink, q, disk).Ok?
    requires Reachable(Config(PlanOf(sink, q, disk).value.payloads, permits), s)
    ensures forall j, k | 0 <= j < k < |s.writes| :: s.writes[j].path != s.writes[k].path
  {
    var c := Config(PlanOf(sink, q, disk).value.payloads, permits);
    ReachableInv(c, s);
    OneOwner(sink, q, disk);
    forall j, k | 0 <= j < k < |s.writes|
      ensures s.writes[j].path != s.writes[k].path
    {
      var a, b := s.writes[j], s.writes[k];
      assert a in s.writes && b in s.writes;
      var pa, pb := c.payloads[a.task].paths, c.payloads[b.task].paths;
      assert pa[a.dt] in pa.Values && pb[b.dt] in pb.Values;
      if a.task == b.task {
        assert c.payloads[a.task] in c.payloads && Injective(pa);
      } else if a.task < b.task {
        assert c.payloads[a.task].paths.Values !! c.payloads[b.task].paths.Values;
      } else {
        assert c.payloads[b.task].paths.Values !! c.payloads[a.task].paths.Values;
      }
    }
  }

  // --- the end of a run ---

  predicate AllTaken(s: State) {
    forall t | t in s.tasks :: t.Taken?
  }

  // When the collector has taken every task, each payload is in exactly one of the two
  // lists, once; every completed payload has written all it collected; and the row count
  // is the sum over the completed payloads.
  lemma FinalSummary(c: Config, s: State)
    requires Reachable(c, s) && AllTaken(s)
    ensures forall i | 0 <= i < |c.payloads| ::
              (i in s.summary.completed) != (i in ErroredTasks(s.summary.errored))
    ensures |s.summary.completed| + |s.summary.errored| == |c.payloads|
    ensures |s.tasks| == |c.payloads|
    ensures forall i | 0 <= i < |c.payloads| && i in s.summary.completed ::
              s.tasks[i].Taken? && s.tasks[i].result.Done? &&
              forall t | t in s.tasks[i].result.tables :: Written(s, c, i, t.dt)
    ensures s.summary.nRows == Sum(s.tasks, TakenRows())
  {
    ReachableInv(c, s);
    forall i | 0 <= i < |c.payloads|
      ensures (i in s.summary.completed) != (i in ErroredTasks(s.summary.errored))
    {
      assert s.tasks[i] in s.tasks;
    }
    CountBoth(s.summary.completed, ErroredTasks(s.summary.errored), |c.payloads|);
  }

  // Two lists without repetition that split the numbers below `n`.
  lemma CountBoth(a: seq<nat>, b: seq<nat>, n: nat)
    requires Unique(a) && Unique(b)
    requires forall i | i in a :: i < n
    requires forall i | i in b :: i < n
    requires forall i: nat | i < n :: (i in a) != (i in b)
    ensures |a| + |b| == n
  {
    DistinctCard(a);
    DistinctCard(b);
    BelowCard(n);
    assert Elements(a) + Elements(b) == Below(n) && Elements(a) !! Elements(b);
  }

  function Elements(a: seq<nat>): set<nat> {
    set i | i in a
  }

  function Below(n: nat): (s: set<nat>)
    ensures forall i: nat :: i in s <==> i < n
  {
    if n == 0 then {} else Below(n - 1) + {n - 1}
  }

  lemma {:induction false} DistinctCard(a: seq<nat>)
    requires Unique(a)
    ensures |Elements(a)| == |a|
  {
    if a == [] {
    } else {
      var n := |a| - 1;
      DistinctCard(a[..n]);
      assert a == a[..n] + [a[n]];
      assert Elements(a) == Elements(a[..n]) + {a[n]};
      assert a[n] !in a[..n];
    }
  }

  lemma {:induction false} BelowCard(n: nat)
    ensures |Below(n)| == n
  {
    if n > 0 {
      BelowCard(n - 1);
    }
  }

  // --- every run ends ---

  function Rank(): Task -> nat {
    (t: Task) =>
      match t
      case Waiting => 4
      case Collecting => 3
      case Writing(_, _) => 2
      case Ended(_) => 1
      case Taken(_) => 0
  }

  function Left(): Task -> nat {
    (t: Task) => if t.Writing? && t.next <= |t.tables| then |t.tables| - t.next else 0
  }

  // Every step lowers the pair: how far the tasks are, then how many tables are left.
  lemma StepDecreases(c: Config, s: State, s': State)
    requires Inv(c, s) && Step(c, s, s')
    ensures Sum(s'.tasks, Rank()) < Sum(s.tasks, Rank()) ||
            (Sum(s'.tasks, Rank()) == Sum(s.tasks, Rank()) && Sum(s'.tasks, Left()) < Sum(s.tasks, Left()))
  {
    var i: nat, a: Action :| StepBy(c, s, s', i, a);
    TaskAdvances(c, s, s', i, a);
    assert s'.tasks == s.tasks[i := s'.tasks[i]];
    SumUpdate(s.tasks, Rank(), i, s'.tasks[i]);
    SumUpdate(s.tasks, Left(), i, s'.tasks[i]);
  }

  lemma TaskAdvances(c: Config, s: State, s': State, i: nat, a: Action)
    requires Inv(c, s) && StepBy(c, s, s', i, a)
    ensures |s'.tasks| == |s.tasks| && s'.tasks == s.tasks[i := s'.tasks[i]]
    ensures var t, t' := s.tasks[i], s'.tasks[i];
            Rank()(t') < Rank()(t) || (Rank()(t') == Rank()(t) && Left()(t') < Left()(t))
  {
  }

  lemma {:induction false} RunStops(c: Config, run: nat -> State, k: nat)
    requires Inv(c, run(k))
    ensures exists n: nat :: n >= k && !Step(c, run(n), run(n + 1))
    decreases Sum(run(k).tasks, Rank()), Sum(run(k).tasks, Left())
  {
    if Step(c, run(k), run(k + 1)) {
      StepInv(c, run(k), run(k + 1));
      StepDecreases(c, run(k), run(k + 1));
      RunStops(c, run, k + 1);
    }
  }

  // No interleaving goes on for ever.
  lemma EveryRunEnds(c: Config, run: nat -> State)
    requires run(0) == Init(c)
    ensures exists n: nat :: !Step(c, run(n), run(n + 1))
  {
    InitInv(c);
    RunStops(c, run, 0);
  }

  // A reachable state in which nothing can happen although some task is not taken.
  ghost predicate Stuck(c: Config, s: State) {
    Reachable(c, s) && !AllTaken(s) && forall s' :: !Step(c, s, s')
  }

  // A run can only get stuck when there is something to run and not a single permit.
  lemma StuckIff(c: Config)
    ensures (exists s :: Stuck(c, s)) <==> c.permits == Some(0) && c.payloads != []
  {
    if c.permits == Some(0) && c.payloads != [] {
      var s := Init(c);
      assert IsRun(c, [s]) && [s][|[s]| - 1] == s;
      assert s.tasks[0] in s.tasks;
      assert Stuck(c, s);
    }
    forall s | Stuck(c, s)
      ensures c.permits == Some(0) && c.payloads != []
    {
      ReachableInv(c, s);
      StuckMeansNoPermit(c, s);
    }
  }

  lemma CanStep(c: Config, s: State, i: nat, a: Action)
    requires |s.tasks| == |c.payloads| && Enabled(s, i, a)
    ensures exists s' :: Step(c, s, s')
  {
    assert StepBy(c, s, Apply(c, s, i, a), i, a);
    assert Step(c, s, Apply(c, s, i, a));
  }

  // A task past the semaphore, and one that has ended, can always go on.
  lemma TaskGoesOn(c: Config, s: State, i: nat)
    requires Inv(c, s) && i < |s.tasks| && !s.tasks[i].Waiting? && !s.tasks[i].Taken?
    ensures exists s' :: Step(c, s, s')
  {
    match s.tasks[i]
    case Collecting => CanStep(c, s, i, CollectFails(Missing("rows")));
    case Writing(tables, next) =>
      assert TaskOk(c, s, i, s.tasks[i]);
      CanStep(c, s, i, if next == |tables| then Finish else WriteTable(true));
    case Ended(_) => CanStep(c, s, i, Take);
  }

  // With a permit to hand out and nobody holding one, a waiting task can go on.
  lemma WaiterGoesOn(c: Config, s: State)
    requires Inv(c, s) && c.permits != Some(0) && !AllTaken(s)
    requires forall i | 0 <= i < |s.tasks| :: s.tasks[i].Waiting? || s.tasks[i].Taken?
    ensures exists s' :: Step(c, s, s')
  {
    var i :| 0 <= i < |s.tasks| && !s.tasks[i].Taken?;
    SumZero(s.tasks, Holding());
    CanStep(c, s, i, Acquire);
  }

  lemma StuckMeansNoPermit(c: Config, s: State)
    requires Stuck(c, s) && Inv(c, s)
    ensures c.permits == Some(0) && c.payloads != []
  {
    forall i | 0 <= i < |s.tasks|
      ensures s.tasks[i].Waiting? || s.tasks[i].Taken?
    {
      if !s.tasks[i].Waiting? && !s.tasks[i].Taken? {
        TaskGoesOn(c, s, i);
        assert false;
      }
    }
    if c.permits != Some(0) {
      WaiterGoesOn(c, s);
      assert false;
    }
  }

  // `Semaphore::MAX_PERMITS` on a 64-bit target.
  const MAX_PERMITS: nat := 0x1fff_ffff_ffff_ffff

  // The permits for a configured limit: zero means no limit, and a limit beyond what the
  // semaphore can express is the largest that it can.
  function PermitsFor(limit: nat): Option<nat> {
    if limit == 0 then None else Some(if limit <= MAX_PERMITS then limit else MAX_PERMITS)
  }

  // In every run under a configured limit, no more tasks than the limit are past the semaphore at a
  // time, and one that waits may pass exactly when fewer are, or there is no limit.
  lemma ConfiguredLimit(payloads: seq<Payload>, limit: nat, s: State)
    requires Reachable(Config(payloads, PermitsFor(limit)), s)
    ensures limit > 0 ==> Sum(s.tasks, Holding()) <= limit
    ensures forall i | 0 <= i < |s.tasks| && s.tasks[i].Waiting? ::
              Enabled(s, i, Acquire) <==>
              limit == 0 || (Sum(s.tasks, Holding()) < limit && Sum(s.tasks, Holding()) < MAX_PERMITS)
  {
    ReachableInv(Config(payloads, PermitsFor(limit)), s);
  }

  // As configured by the program, no run gets stuck, whatever the limit.
  lemma ConfiguredNeverStuck(payloads: seq<Payload>, limit: nat, s: State)
    requires Reachable(Config(payloads, PermitsFor(limit)), s) && !AllTaken(s)
    ensures exists s' :: Step(Config(payloads, PermitsFor(limit)), s, s')
  {
    var c := Config(payloads, PermitsFor(limit));
    StuckIff(c);
    assert !Stuck(c, s);
  }
}
