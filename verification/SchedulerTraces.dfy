// Runs with their moves written down: what becomes of a task whose collection or write fails, and
// what a completed task has done.
module SchedulerTraces {
  import opened Prelude
  import opened FilePaths
  import opened Payloads
  import opened Scheduler

  datatype Move = Move(task: nat, action: Action)

  // The states of a run, and the moves between them.
  predicate IsTrace(c: Config, run: seq<State>, moves: seq<Move>) {
    && |run| == |moves| + 1 && run[0] == Init(c)
    && forall k | 0 <= k < |moves| :: StepBy(c, run[k], run[k + 1], moves[k].task, moves[k].action)
  }

  // Every run is one of these.
  lemma {:induction false} RunHasMoves(c: Config, run: seq<State>) returns (moves: seq<Move>)
    requires IsRun(c, run)
    ensures IsTrace(c, run, moves)
    decreases |run|
  {
    if |run| == 1 {
      moves := [];
    } else {
      var n := |run| - 2;
      moves := RunHasMoves(c, run[..n + 1]);
      assert Step(c, run[n], run[n + 1]);
      var i: nat, a: Action :| StepBy(c, run[n], run[n + 1], i, a);
      moves := moves + [Move(i, a)];
    }
  }

  lemma TraceIsRun(c: Config, run: seq<State>, moves: seq<Move>)
    requires IsTrace(c, run, moves)
    ensures IsRun(c, run) && forall k | 0 <= k < |run| :: Inv(c, run[k])
  {
    forall k | 0 <= k < |run| - 1
      ensures Step(c, run[k], run[k + 1])
    {
      assert StepBy(c, run[k], run[k + 1], moves[k].task, moves[k].action);
    }
    forall k | 0 <= k < |run|
      ensures Inv(c, run[k])
    {
      assert IsRun(c, run[..k + 1]);
      RunInv(c, run[..k + 1]);
    }
  }

  // --- a result is for good ---

  predicate HasResult(t: Task, r: TaskResult) {
    t == Ended(r) || t == Taken(r)
  }

  lemma ResultStays(c: Config, s: State, s': State, j: nat, a: Action, i: nat, r: TaskResult)
    requires StepBy(c, s, s', j, a) && i < |s.tasks| && HasResult(s.tasks[i], r)
    ensures i < |s'.tasks| && HasResult(s'.tasks[i], r)
  {
  }

  lemma {:induction false} ResultIsKept(c: Config, run: seq<State>, moves: seq<Move>, k: nat, n: nat, i: nat,
                                      r: TaskResult)
    requires IsTrace(c, run, moves) && k <= n < |run| && i < |run[k].tasks| && HasResult(run[k].tasks[i], r)
    ensures i < |run[n].tasks| && HasResult(run[n].tasks[i], r)
    decreases n
  {
    if k < n {
      ResultIsKept(c, run, moves, k, n - 1, i, r);
      ResultStays(c, run[n - 1], run[n], moves[n - 1].task, moves[n - 1].action, i, r);
    }
  }

  lemma ErroredIsListed(c: Config, run: seq<State>, i: nat, r: TaskResult)
    requires IsRun(c, run) && Inv(c, run[|run| - 1]) && i < |c.payloads| && !r.Done?
    requires run[|run| - 1].tasks[i] == Taken(r)
    ensures ErroredBy(c, i, r) in run[|run| - 1].summary.errored
  {
    var s, arrivals := run[|run| - 1], Arrivals(run);
    RunSummary(c, run);
    assert (i, r) in arrivals;
    var k :| 0 <= k < |arrivals| && arrivals[k] == (i, r);
    assert Lists(c, s.summary, arrivals[k].0, arrivals[k].1, DoneCount(arrivals[..k]), k);
  }

  // --- failures ---

  // From some state on, the task is not completed, and when it is taken it is listed with this
  // result.
  ghost predicate FailsFrom(c: Config, run: seq<State>, from: nat, i: nat, r: TaskResult) {
    i < |c.payloads| && !r.Done? &&
    forall n | from <= n < |run| ::
      && i !in run[n].summary.completed
      && i < |run[n].tasks|
      && (run[n].tasks[i].Taken? || AllTaken(run[n]) ==> ErroredBy(c, i, r) in run[n].summary.errored)
  }

  lemma FailureIsFinal(c: Config, run: seq<State>, moves: seq<Move>, k: nat, i: nat, r: TaskResult)
    requires IsTrace(c, run, moves) && k < |run| && i < |run[k].tasks| && HasResult(run[k].tasks[i], r) && !r.Done?
    ensures FailsFrom(c, run, k, i, r)
  {
    TraceIsRun(c, run, moves);
    forall n | k <= n < |run|
      ensures i !in run[n].summary.completed && i < |run[n].tasks|
      ensures run[n].tasks[i].Taken? || AllTaken(run[n]) ==> ErroredBy(c, i, r) in run[n].summary.errored
    {
      ResultIsKept(c, run, moves, k, n, i, r);
      assert Inv(c, run[n]) && run[n].tasks[i] in run[n].tasks;
      if run[n].tasks[i].Taken? {
        assert IsRun(c, run[..n + 1]);
        ErroredIsListed(c, run[..n + 1], i, r);
      }
    }
  }

  // The next table of the task is of this datatype.
  predicate IsTurnOf(s: State, i: nat, dt: Datatype) {
    i < |s.tasks| && s.tasks[i].Writing? && s.tasks[i].next < |s.tasks[i].tables| &&
    s.tasks[i].tables[s.tasks[i].next].dt == dt
  }

  // A write that fails ends its task for good: it is never completed, and when it is taken it is
  // listed with its partition and the error, whatever else it has written.
  lemma FailedWriteIsError(c: Config, run: seq<State>, moves: seq<Move>, k: nat, i: nat, dt: Datatype)
    requires IsTrace(c, run, moves) && k < |moves| && moves[k] == Move(i, WriteTable(false))
    requires i < |c.payloads| && IsTurnOf(run[k], i, dt) && dt in c.payloads[i].paths
    ensures FailsFrom(c, run, k + 1, i, Failed(Invalid("error writing file")))
  {
    FailureIsFinal(c, run, moves, k + 1, i, Failed(Invalid("error writing file")));
  }

  // So does a table for which the payload has no path, ...
  lemma MissingPathIsError(c: Config, run: seq<State>, moves: seq<Move>, k: nat, i: nat, dt: Datatype, ok: bool)
    requires IsTrace(c, run, moves) && k < |moves| && moves[k] == Move(i, WriteTable(ok))
    requires i < |c.payloads| && IsTurnOf(run[k], i, dt) && dt !in c.payloads[i].paths
    ensures FailsFrom(c, run, k + 1, i, Failed(Missing("path"))) && run[k + 1].writes == run[k].writes
  {
    FailureIsFinal(c, run, moves, k + 1, i, Failed(Missing("path")));
  }

  // ... a collection that fails, ...
  lemma FailedCollectionIsError(c: Config, run: seq<State>, moves: seq<Move>, k: nat, i: nat, e: Error)
    requires IsTrace(c, run, moves) && k < |moves| && moves[k] == Move(i, CollectFails(e))
    ensures FailsFrom(c, run, k + 1, i, Failed(e)) && run[k + 1].writes == run[k].writes
  {
    FailureIsFinal(c, run, moves, k + 1, i, Failed(e));
  }

  // ... and a panic, which is listed without a partition.
  lemma PanicIsError(c: Config, run: seq<State>, moves: seq<Move>, k: nat, i: nat)
    requires IsTrace(c, run, moves) && k < |moves| && moves[k] == Move(i, Action.Panic)
    ensures FailsFrom(c, run, k + 1, i, Panicked) && run[k + 1].writes == run[k].writes
  {
    FailureIsFinal(c, run, moves, k + 1, i, Panicked);
  }

  // --- completions ---

  // Some move has collected these tables for the task.
  ghost predicate CollectedBy(moves: seq<Move>, i: nat, tables: seq<Table>) {
    Move(i, Collect(tables)) in moves
  }

  // Some move has written this table to its own path, successfully.
  ghost predicate WrittenBy(c: Config, run: seq<State>, moves: seq<Move>, i: nat, dt: Datatype)
    requires |run| == |moves| + 1
  {
    exists k :: 0 <= k < |moves| && WritesAt(c, run, moves, k, i, dt)
  }

  predicate WritesAt(c: Config, run: seq<State>, moves: seq<Move>, k: nat, i: nat, dt: Datatype)
    requires |run| == |moves| + 1 && k < |moves|
  {
    && moves[k] == Move(i, WriteTable(true)) && i < |c.payloads| && dt in c.payloads[i].paths
    && run[k + 1].writes == run[k].writes + [Write(i, dt, c.payloads[i].paths[dt])]
  }

  // What the moves so far have done for a task.
  ghost predicate Accounted(c: Config, run: seq<State>, moves: seq<Move>, i: nat, t: Task)
    requires |run| == |moves| + 1
  {
    match t
    case Writing(tables, next) =>
      CollectedBy(moves, i, tables) &&
      forall j | 0 <= j < next && j < |tables| :: WrittenBy(c, run, moves, i, tables[j].dt)
    case Ended(Done(tables)) => AllWritten(c, run, moves, i, tables)
    case Taken(Done(tables)) => AllWritten(c, run, moves, i, tables)
    case _ => true
  }

  ghost predicate AllWritten(c: Config, run: seq<State>, moves: seq<Move>, i: nat, tables: seq<Table>)
    requires |run| == |moves| + 1
  {
    CollectedBy(moves, i, tables) && forall t | t in tables :: WrittenBy(c, run, moves, i, t.dt)
  }

  lemma Longer(c: Config, run: seq<State>, moves: seq<Move>, n: nat, i: nat, t: Task)
    requires |run| == |moves| + 1 && n <= |moves| && Accounted(c, run[..n + 1], moves[..n], i, t)
    ensures Accounted(c, run, moves, i, t)
  {
    forall dt | WrittenBy(c, run[..n + 1], moves[..n], i, dt)
      ensures WrittenBy(c, run, moves, i, dt)
    {
      var k :| 0 <= k < n && WritesAt(c, run[..n + 1], moves[..n], k, i, dt);
      assert WritesAt(c, run, moves, k, i, dt);
    }
    assert forall m | m in moves[..n] :: m in moves;
  }

  lemma StepAccounted(c: Config, run: seq<State>, moves: seq<Move>, s: State, s': State, i: nat, a: Action)
    requires |run| == |moves| + 1 && moves != [] && run[|run| - 2] == s && run[|run| - 1] == s'
    requires moves[|moves| - 1] == Move(i, a) && StepBy(c, s, s', i, a)
    requires Accounted(c, run, moves, i, s.tasks[i]) && TaskOk(c, s, i, s.tasks[i])
    ensures Accounted(c, run, moves, i, s'.tasks[i])
  {
    match a
    case Collect(tables) => assert moves[|moves| - 1] in moves;
    case WriteTable(ok) =>
      if s'.tasks[i].Writing? {
        WriteAccounted(c, run, moves, s, s', i, ok);
      }
    case _ =>
  }

  // A task that goes on writing has written its table, and successfully.
  lemma WriteAccounted(c: Config, run: seq<State>, moves: seq<Move>, s: State, s': State, i: nat, ok: bool)
    requires |run| == |moves| + 1 && moves != [] && run[|run| - 2] == s && run[|run| - 1] == s'
    requires moves[|moves| - 1] == Move(i, WriteTable(ok)) && StepBy(c, s, s', i, WriteTable(ok))
    requires s'.tasks[i].Writing?
    ensures var dt := s.tasks[i].tables[s.tasks[i].next].dt; WrittenBy(c, run, moves, i, dt)
  {
    var dt := s.tasks[i].tables[s.tasks[i].next].dt;
    assert WritesAt(c, run, moves, |moves| - 1, i, dt);
  }

  lemma OneMoreAccounted(c: Config, run: seq<State>, moves: seq<Move>, n: nat, i: nat)
    requires |run| == |moves| + 1 && |moves| == n + 1 && Inv(c, run[n])
    requires StepBy(c, run[n], run[n + 1], moves[n].task, moves[n].action)
    requires i < |run[n].tasks| && Accounted(c, run[..n + 1], moves[..n], i, run[n].tasks[i])
    ensures i < |run[n + 1].tasks| && Accounted(c, run, moves, i, run[n + 1].tasks[i])
  {
    Longer(c, run, moves, n, i, run[n].tasks[i]);
    StepWritesMore(c, run[n], run[n + 1], moves[n].task, moves[n].action);
    if i == moves[n].task {
      assert TaskOk(c, run[n], i, run[n].tasks[i]);
      StepAccounted(c, run, moves, run[n], run[n + 1], i, moves[n].action);
    }
  }

  lemma {:induction false} TaskAccounted(c: Config, run: seq<State>, moves: seq<Move>, i: nat)
    requires IsTrace(c, run, moves) && forall k | 0 <= k < |run| :: Inv(c, run[k])
    requires i < |c.payloads|
    ensures i < |run[|run| - 1].tasks| && Accounted(c, run, moves, i, run[|run| - 1].tasks[i])
    decreases |moves|
  {
    var n := |moves| - 1;
    if moves != [] {
      TaskAccounted(c, run[..n + 1], moves[..n], i);
      OneMoreAccounted(c, run, moves, n, i);
    }
  }

  // A task that is listed as completed has collected its tables, and has written each of them to
  // the payload's path for it by a move that did not fail.
  lemma CompletedHasWritten(c: Config, run: seq<State>, moves: seq<Move>, i: nat)
    requires IsTrace(c, run, moves) && i in run[|run| - 1].summary.completed
    ensures i < |run[|run| - 1].tasks| && i < |c.payloads|
    ensures var t := run[|run| - 1].tasks[i];
            t.Taken? && t.result.Done? && AllWritten(c, run, moves, i, t.result.tables)
  {
    TraceIsRun(c, run, moves);
    assert Inv(c, run[|run| - 1]);
    TaskAccounted(c, run, moves, i);
  }
}
