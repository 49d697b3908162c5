// Planning a run: one payload for every datatype and partition, unless its files exist
// already; a path that two payloads would write is refused.
module Payloads {
  import opened Prelude
  import opened FilePaths

  datatype MetaDatatype = Scalar(dt: Datatype) | Multi(dts: seq<Datatype>)

  function Members(m: MetaDatatype): seq<Datatype> {
    match m
    case Scalar(dt) => [dt]
    case Multi(dts) => dts
  }

  // A partition, with its label or the reason why it has none.
  datatype Partition = Partition(id: nat, stub: Result<string>)

  datatype Query = Query(datatypes: seq<MetaDatatype>, partitions: seq<Partition>, schemas: set<Datatype>)

  // Paths are kept as they are compared.
  type Paths = map<Datatype, Path>

  datatype Payload = Payload(partition: Partition, meta: MetaDatatype, paths: Paths)

  datatype Plan = Plan(payloads: seq<Payload>, skipped: seq<Partition>)

  // --- the paths of one payload ---

  function PathsFor(disk: Disk, sink: FileOutput, schemas: set<Datatype>, partition: Partition,
                    dts: seq<Datatype>): Result<Paths> {
    if dts == [] then Ok(map[])
    else
      var last := dts[|dts| - 1];
      var before :- PathsFor(disk, sink, schemas, partition, dts[..|dts| - 1]);
      if last !in schemas then Ok(before)
      else
        var stub :- partition.stub;
        var path :- PathOn(disk, sink, last, stub);
        Ok(before[last := Components(path)])
  }

  method GetPaths(disk: Disk, sink: FileOutput, schemas: set<Datatype>, partition: Partition, dts: seq<Datatype>)
    returns (r: Result<Paths>)
    ensures r == PathsFor(disk, sink, schemas, partition, dts)
  {
    var paths: Paths := map[];
    for i := 0 to |dts|
      invariant PathsFor(disk, sink, schemas, partition, dts[..i]) == Ok(paths)
    {
      assert dts[..i + 1][..i] == dts[..i];
      if dts[i] in schemas {
        if partition.stub.Err? {
          PathsFail(disk, sink, schemas, partition, dts, i + 1);
          return Err(partition.stub.error);
        }
        var path := GetPath(disk, sink, dts[i], partition.stub.value);
        if path.Err? {
          PathsFail(disk, sink, schemas, partition, dts, i + 1);
          return Err(path.error);
        }
        paths := paths[dts[i] := Components(path.value)];
      }
    }
    assert dts[..|dts|] == dts;
    r := Ok(paths);
  }

  lemma {:induction false} PathsFail(disk: Disk, sink: FileOutput, schemas: set<Datatype>, partition: Partition,
                                     dts: seq<Datatype>, n: nat)
    requires n <= |dts| && PathsFor(disk, sink, schemas, partition, dts[..n]).Err?
    ensures PathsFor(disk, sink, schemas, partition, dts) == PathsFor(disk, sink, schemas, partition, dts[..n])
    decreases |dts| - n
  {
    if n == |dts| {
      assert dts[..n] == dts;
    } else {
      assert dts[..n + 1][..n] == dts[..n];
      PathsFail(disk, sink, schemas, partition, dts, n + 1);
    }
  }

  // Exactly the requested datatypes get a path, each its own.
  lemma {:induction false} PathsMeaning(disk: Disk, sink: FileOutput, schemas: set<Datatype>, partition: Partition,
                                        dts: seq<Datatype>)
    requires PathsFor(disk, sink, schemas, partition, dts).Ok?
    ensures var paths := PathsFor(disk, sink, schemas, partition, dts).value;
            && (forall dt :: dt in paths <==> dt in dts && dt in schemas)
            && (paths != map[] ==> partition.stub.Ok?)
            && (forall dt | dt in paths ::
                  partition.stub.Ok? && paths[dt] == Components(PathFor(sink, dt, partition.stub.value)))
  {
    if dts == [] {
    } else {
      var init, last := dts[..|dts| - 1], dts[|dts| - 1];
      PathsMeaning(disk, sink, schemas, partition, init);
      assert forall dt :: dt in dts <==> dt in init || dt == last by {
        assert dts == init + [last];
      }
    }
  }

  ghost predicate Injective(paths: Paths) {
    forall a, b | a in paths && b in paths && paths[a] == paths[b] :: a == b
  }

  lemma PathsInjective(disk: Disk, sink: FileOutput, schemas: set<Datatype>, partition: Partition, dts: seq<Datatype>)
    requires PathsFor(disk, sink, schemas, partition, dts).Ok? && forall dt | dt in dts :: IsName(dt)
    ensures Injective(PathsFor(disk, sink, schemas, partition, dts).value)
  {
    PathsMeaning(disk, sink, schemas, partition, dts);
    var paths := PathsFor(disk, sink, schemas, partition, dts).value;
    forall a, b | a in paths && b in paths && paths[a] == paths[b]
      ensures a == b
    {
      PathInjective(sink, a, b, partition.stub.value);
    }
  }

  // --- the plan ---

  datatype Job = Job(meta: MetaDatatype, partition: Partition)

  // Datatype by datatype, and for each of them partition by partition.
  function JobsFrom(q: Query, i: nat, j: nat): seq<Job>
    decreases |q.datatypes| - i, |q.partitions| - j
  {
    if i >= |q.datatypes| then []
    else if j >= |q.partitions| then JobsFrom(q, i + 1, 0)
    else [Job(q.datatypes[i], q.partitions[j])] + JobsFrom(q, i, j + 1)
  }

  function JobPaths(disk: Disk, sink: FileOutput, q: Query, job: Job): Result<Paths> {
    PathsFor(disk, sink, q.schemas, job.partition, Members(job.meta))
  }

  predicate Skips(sink: FileOutput, disk: Disk, paths: Paths) {
    !sink.overwrite && paths.Values <= disk.existing
  }

  function PlanJobs(sink: FileOutput, q: Query, disk: Disk, jobs: seq<Job>, used: set<Path>): Result<Plan>
    decreases |jobs|
  {
    if jobs == [] then Ok(Plan([], []))
    else
      var paths :- JobPaths(disk, sink, q, jobs[0]);
      if Skips(sink, disk, paths) then
        var rest :- PlanJobs(sink, q, disk, jobs[1..], used);
        Ok(rest.(skipped := [jobs[0].partition] + rest.skipped))
      else if paths.Values !! used then
        var rest :- PlanJobs(sink, q, disk, jobs[1..], used + paths.Values);
        Ok(rest.(payloads := [Payload(jobs[0].partition, jobs[0].meta, paths)] + rest.payloads))
      else Err(Invalid("output path collision"))
  }

  function PlanOf(sink: FileOutput, q: Query, disk: Disk): Result<Plan> {
    PlanJobs(sink, q, disk, JobsFrom(q, 0, 0), {})
  }

  // A plan made so far, and the plan of the rest.
  function Extended(payloads: seq<Payload>, skipped: seq<Partition>, rest: Result<Plan>): Result<Plan> {
    match rest
    case Err(e) => Err(e)
    case Ok(p) => Ok(Plan(payloads + p.payloads, skipped + p.skipped))
  }

  // A job without any paths left to write is skipped; the others must not collide.
  datatype Verdict = Skipped | Kept(paths: Paths)

  function Judge(sink: FileOutput, q: Query, disk: Disk, job: Job, used: set<Path>): Result<Verdict> {
    var paths :- JobPaths(disk, sink, q, job);
    if Skips(sink, disk, paths) then Ok(Skipped)
    else if paths.Values !! used then Ok(Kept(paths))
    else Err(Invalid("output path collision"))
  }

  method JudgeJob(sink: FileOutput, q: Query, disk: Disk, job: Job, allPaths: set<Path>)
    returns (r: Result<Verdict>)
    ensures r == Judge(sink, q, disk, job, allPaths)
  {
    var paths :- GetPaths(disk, sink, q.schemas, job.partition, Members(job.meta));
    if !sink.overwrite && paths.Values <= disk.existing {
      return Ok(Skipped);
    }
    if !(paths.Values !! allPaths) {
      return Err(Invalid("output path collision"));
    }
    return Ok(Kept(paths));
  }

  // What the plan so far becomes by the job at the head.
  lemma JudgeExtends(sink: FileOutput, q: Query, disk: Disk, payloads: seq<Payload>, skipped: seq<Partition>,
                     jobs: seq<Job>, used: set<Path>)
    requires jobs != []
    ensures var whole := Extended(payloads, skipped, PlanJobs(sink, q, disk, jobs, used));
            var verdict := Judge(sink, q, disk, jobs[0], used);
            if verdict.Err? then whole == Err(verdict.error)
            else if verdict.value.Skipped? then
              whole == Extended(payloads, skipped + [jobs[0].partition], PlanJobs(sink, q, disk, jobs[1..], used))
            else
              var payload := Payload(jobs[0].partition, jobs[0].meta, verdict.value.paths);
              whole == Extended(payloads + [payload], skipped,
                                PlanJobs(sink, q, disk, jobs[1..], used + payload.paths.Values))
  {
    var verdict := Judge(sink, q, disk, jobs[0], used);
    if verdict == Ok(Skipped) {
      OneMoreSkipped(payloads, skipped, jobs[0].partition, PlanJobs(sink, q, disk, jobs[1..], used));
    } else if verdict.Ok? {
      var payload := Payload(jobs[0].partition, jobs[0].meta, verdict.value.paths);
      OneMorePayload(payloads, skipped, payload, PlanJobs(sink, q, disk, jobs[1..], used + payload.paths.Values));
    }
  }

  lemma OneMoreSkipped(payloads: seq<Payload>, skipped: seq<Partition>, p: Partition, rest: Result<Plan>)
    ensures rest.Err? ==> Extended(payloads, skipped + [p], rest) == Err(rest.error)
    ensures rest.Ok? ==> Extended(payloads, skipped + [p], rest) ==
                         Extended(payloads, skipped, Ok(rest.value.(skipped := [p] + rest.value.skipped)))
  {
    if rest.Ok? {
      assert skipped + [p] + rest.value.skipped == skipped + ([p] + rest.value.skipped);
    }
  }

  lemma OneMorePayload(payloads: seq<Payload>, skipped: seq<Partition>, p: Payload, rest: Result<Plan>)
    ensures rest.Err? ==> Extended(payloads + [p], skipped, rest) == Err(rest.error)
    ensures rest.Ok? ==> Extended(payloads + [p], skipped, rest) ==
                         Extended(payloads, skipped, Ok(rest.value.(payloads := [p] + rest.value.payloads)))
  {
    if rest.Ok? {
      assert payloads + [p] + rest.value.payloads == payloads + ([p] + rest.value.payloads);
    }
  }

  // The plan as a whole, when `payloads` and `skipped` are made and the jobs from `(i, j)` on left.
  ghost function Whole(sink: FileOutput, q: Query, disk: Disk, payloads: seq<Payload>,
                       skipped: seq<Partition>, used: set<Path>, i: nat, j: nat): Result<Plan>
  {
    Extended(payloads, skipped, PlanJobs(sink, q, disk, JobsFrom(q, i, j), used))
  }

  lemma TurnExtends(sink: FileOutput, q: Query, disk: Disk, payloads: seq<Payload>, skipped: seq<Partition>,
                    used: set<Path>, i: nat, j: nat)
    requires i < |q.datatypes| && j < |q.partitions|
    ensures var whole := Whole(sink, q, disk, payloads, skipped, used, i, j);
            var job := Job(q.datatypes[i], q.partitions[j]);
            var verdict := Judge(sink, q, disk, job, used);
            if verdict.Err? then whole == Err(verdict.error)
            else if verdict.value.Skipped? then
              whole == Whole(sink, q, disk, payloads, skipped + [job.partition], used, i, j + 1)
            else
              var payload := Payload(job.partition, job.meta, verdict.value.paths);
              whole == Whole(sink, q, disk, payloads + [payload], skipped, used + payload.paths.Values, i, j + 1)
  {
    var jobs := JobsFrom(q, i, j);
    assert jobs[0] == Job(q.datatypes[i], q.partitions[j]) && jobs[1..] == JobsFrom(q, i, j + 1);
    JudgeExtends(sink, q, disk, payloads, skipped, jobs, used);
  }

  lemma NextDatatype(sink: FileOutput, q: Query, disk: Disk, payloads: seq<Payload>, skipped: seq<Partition>,
                     used: set<Path>, i: nat)
    requires i < |q.datatypes|
    ensures Whole(sink, q, disk, payloads, skipped, used, i, |q.partitions|) ==
            Whole(sink, q, disk, payloads, skipped, used, i + 1, 0)
  {
  }

  lemma ExtendsNothing(payloads: seq<Payload>, skipped: seq<Partition>, rest: Result<Plan>)
    ensures Extended([], [], rest) == rest
    ensures Extended(payloads, skipped, Ok(Plan([], []))) == Ok(Plan(payloads, skipped))
  {
    assert payloads + [] == payloads && skipped + [] == skipped;
    if rest.Ok? {
      assert [] + rest.value.payloads == rest.value.payloads && [] + rest.value.skipped == rest.value.skipped;
    }
  }

  method GetPayloads(sink: FileOutput, q: Query, disk: Disk) returns (r: Result<Plan>)
    ensures r == PlanOf(sink, q, disk)
  {
    var payloads: seq<Payload> := [];
    var skipping: seq<Partition> := [];
    var allPaths: set<Path> := {};
    ghost var plan := PlanOf(sink, q, disk);
    ExtendsNothing(payloads, skipping, plan);
    for i := 0 to |q.datatypes|
      invariant Whole(sink, q, disk, payloads, skipping, allPaths, i, 0) == plan
    {
      for j := 0 to |q.partitions|
        invariant Whole(sink, q, disk, payloads, skipping, allPaths, i, j) == plan
      {
        var job := Job(q.datatypes[i], q.partitions[j]);
        TurnExtends(sink, q, disk, payloads, skipping, allPaths, i, j);
        var verdict := JudgeJob(sink, q, disk, job, allPaths);
        if verdict.Err? {
          return Err(verdict.error);
        }
        if verdict.value.Skipped? {
          skipping := skipping + [job.partition];
          continue;
        }
        var paths := verdict.value.paths;
        allPaths := allPaths + paths.Values;
        payloads := payloads + [Payload(job.partition, job.meta, paths)];
      }
      NextDatatype(sink, q, disk, payloads, skipping, allPaths, i);
    }
    ExtendsNothing(payloads, skipping, Ok(Plan([], [])));
    r := Ok(Plan(payloads, skipping));
  }

  // --- what a plan guarantees ---

  predicate Disjoint(payloads: seq<Payload>) {
    forall i, j | 0 <= i < j < |payloads| :: payloads[i].paths.Values !! payloads[j].paths.Values
  }

  // The jobs that are not skipped, with their paths.
  function Candidates(sink: FileOutput, q: Query, disk: Disk, jobs: seq<Job>): seq<Payload>
    requires forall j | j in jobs :: JobPaths(disk, sink, q, j).Ok?
  {
    if jobs == [] then []
    else
      assert jobs[0] in jobs;
      var paths := JobPaths(disk, sink, q, jobs[0]).value;
      if Skips(sink, disk, paths) then Candidates(sink, q, disk, jobs[1..])
      else [Payload(jobs[0].partition, jobs[0].meta, paths)] + Candidates(sink, q, disk, jobs[1..])
  }

  function SkippedOf(sink: FileOutput, q: Query, disk: Disk, jobs: seq<Job>): seq<Partition>
    requires forall j | j in jobs :: JobPaths(disk, sink, q, j).Ok?
  {
    if jobs == [] then []
    else
      assert jobs[0] in jobs;
      if Skips(sink, disk, JobPaths(disk, sink, q, jobs[0]).value)
      then [jobs[0].partition] + SkippedOf(sink, q, disk, jobs[1..])
      else SkippedOf(sink, q, disk, jobs[1..])
  }

  predicate Avoids(payloads: seq<Payload>, used: set<Path>) {
    forall p | p in payloads :: p.paths.Values !! used
  }

  function Accept(candidates: seq<Payload>, skipped: seq<Partition>, used: set<Path>): Result<Plan> {
    if Disjoint(candidates) && Avoids(candidates, used) then Ok(Plan(candidates, skipped))
    else Err(Invalid("output path collision"))
  }

  lemma {:induction false} PlanJobsMeaning(sink: FileOutput, q: Query, disk: Disk, jobs: seq<Job>, used: set<Path>)
    requires forall j | j in jobs :: JobPaths(disk, sink, q, j).Ok?
    ensures var candidates := Candidates(sink, q, disk, jobs);
            PlanJobs(sink, q, disk, jobs, used) == Accept(candidates, SkippedOf(sink, q, disk, jobs), used)
    decreases |jobs|
  {
    if jobs == [] {
    } else {
      assert jobs[0] in jobs;
      var paths := JobPaths(disk, sink, q, jobs[0]).value;
      var rest := Candidates(sink, q, disk, jobs[1..]);
      if Skips(sink, disk, paths) {
        PlanJobsMeaning(sink, q, disk, jobs[1..], used);
      } else {
        PlanJobsMeaning(sink, q, disk, jobs[1..], used + paths.Values);
        ConsDisjoint(Payload(jobs[0].partition, jobs[0].meta, paths), rest, used);
      }
    }
  }

  lemma ConsDisjoint(p: Payload, rest: seq<Payload>, used: set<Path>)
    ensures Disjoint([p] + rest) && Avoids([p] + rest, used) <==>
            p.paths.Values !! used && Disjoint(rest) && Avoids(rest, used + p.paths.Values)
  {
    var all := [p] + rest;
    assert all[1..] == rest;
    if Disjoint(all) && Avoids(all, used) {
      assert all[0] in all;
      forall i, j | 0 <= i < j < |rest| ensures rest[i].paths.Values !! rest[j].paths.Values {
        assert all[i + 1] == rest[i] && all[j + 1] == rest[j];
      }
      forall x | x in rest ensures x.paths.Values !! used + p.paths.Values {
        var i :| 0 <= i < |rest| && rest[i] == x;
        assert all[i + 1] == x && x in all && all[0].paths.Values !! all[i + 1].paths.Values;
      }
    }
    if p.paths.Values !! used && Disjoint(rest) && Avoids(rest, used + p.paths.Values) {
      forall i, j | 0 <= i < j < |all| ensures all[i].paths.Values !! all[j].paths.Values {
        assert all[j] == rest[j - 1] && rest[j - 1] in rest;
      }
      forall x | x in all ensures x.paths.Values !! used {
        if x != p {
          assert x in rest;
        }
      }
    }
  }

  // A job without a label or a directory that it needs is an error, whatever the other jobs do.
  lemma {:induction false} UnlabelledFails(sink: FileOutput, q: Query, disk: Disk, jobs: seq<Job>, used: set<Path>)
    requires exists j :: j in jobs && JobPaths(disk, sink, q, j).Err?
    ensures PlanJobs(sink, q, disk, jobs, used).Err?
    decreases |jobs|
  {
    if JobPaths(disk, sink, q, jobs[0]).Ok? {
      var j :| j in jobs && JobPaths(disk, sink, q, j).Err?;
      assert j in jobs[1..];
      UnlabelledFails(sink, q, disk, jobs[1..], used);
      UnlabelledFails(sink, q, disk, jobs[1..], used + JobPaths(disk, sink, q, jobs[0]).value.Values);
    }
  }

  // Planning succeeds exactly when every job finds its paths and no two of the jobs it
  // keeps would write the same path. The plan is then those jobs, in order, and the
  // partitions of the rest.
  lemma PlanSucceedsIff(sink: FileOutput, q: Query, disk: Disk)
    ensures var jobs := JobsFrom(q, 0, 0);
            PlanOf(sink, q, disk).Ok? <==>
            (forall j | j in jobs :: JobPaths(disk, sink, q, j).Ok?) && Disjoint(Candidates(sink, q, disk, jobs))
    ensures var jobs := JobsFrom(q, 0, 0);
            PlanOf(sink, q, disk).Ok? ==>
              (forall j | j in jobs :: JobPaths(disk, sink, q, j).Ok?) &&
              PlanOf(sink, q, disk).value ==
              Plan(Candidates(sink, q, disk, jobs), SkippedOf(sink, q, disk, jobs))
  {
    var jobs := JobsFrom(q, 0, 0);
    if j :| j in jobs && JobPaths(disk, sink, q, j).Err? {
      UnlabelledFails(sink, q, disk, jobs, {});
    } else {
      PlanJobsMeaning(sink, q, disk, jobs, {});
      assert Avoids(Candidates(sink, q, disk, jobs), {});
    }
  }

  // Datatype names as they are in the program: snake case.
  predicate NamesOk(q: Query) {
    forall m, dt | m in q.datatypes && dt in Members(m) :: IsName(dt)
  }

  // In a successful plan every path belongs to one datatype of one payload.
  lemma OneOwner(sink: FileOutput, q: Query, disk: Disk)
    requires NamesOk(q) && PlanOf(sink, q, disk).Ok?
    ensures var payloads := PlanOf(sink, q, disk).value.payloads;
            Disjoint(payloads) && forall p | p in payloads :: Injective(p.paths)
  {
    var jobs := JobsFrom(q, 0, 0);
    PlanSucceedsIff(sink, q, disk);
    JobsNamed(q, 0, 0);
    CandidatesInjective(sink, q, disk, jobs);
  }

  lemma {:induction false} JobsNamed(q: Query, i: nat, j: nat)
    ensures forall job | job in JobsFrom(q, i, j) :: job.meta in q.datatypes
    decreases |q.datatypes| - i, |q.partitions| - j
  {
    if i >= |q.datatypes| {
    } else if j >= |q.partitions| {
      JobsNamed(q, i + 1, 0);
    } else {
      JobsNamed(q, i, j + 1);
    }
  }

  lemma {:induction false} CandidatesInjective(sink: FileOutput, q: Query, disk: Disk, jobs: seq<Job>)
    requires NamesOk(q) && forall j | j in jobs :: JobPaths(disk, sink, q, j).Ok? && j.meta in q.datatypes
    ensures forall p | p in Candidates(sink, q, disk, jobs) :: Injective(p.paths)
  {
    if jobs == [] {
    } else {
      assert jobs[0] in jobs;
      PathsInjective(disk, sink, q.schemas, jobs[0].partition, Members(jobs[0].meta));
      CandidatesInjective(sink, q, disk, jobs[1..]);
    }
  }
}
