// What a plan says of the jobs of a query and of the files that exist: which jobs are planned, which
// are skipped, and when planning is possible at all.
module PlanMeaning {
  import opened Prelude
  import opened FilePaths
  import opened Payloads

  function JobsOf(meta: MetaDatatype, partitions: seq<Partition>): (jobs: seq<Job>)
    ensures |jobs| == |partitions| && forall k | 0 <= k < |jobs| :: jobs[k] == Job(meta, partitions[k])
  {
    seq(|partitions|, k requires 0 <= k < |partitions| => Job(meta, partitions[k]))
  }

  // Every datatype with every partition.
  function AllJobs(metas: seq<MetaDatatype>, partitions: seq<Partition>): seq<Job> {
    if metas == [] then [] else JobsOf(metas[0], partitions) + AllJobs(metas[1..], partitions)
  }

  predicate Writes(q: Query, job: Job, dt: Datatype) {
    dt in Members(job.meta) && dt in q.schemas
  }

  predicate HasDirectory(sink: FileOutput, disk: Disk, dt: Datatype) {
    disk.creatable(Dir(sink, sink.subdirs, dt))
  }

  // The job has a file to write that does not exist.
  ghost predicate LacksFile(sink: FileOutput, q: Query, disk: Disk, job: Job) {
    job.partition.stub.Ok? &&
    exists dt :: Writes(q, job, dt) && Components(PathFor(sink, dt, job.partition.stub.value)) !in disk.existing
  }

  ghost function ToDo(sink: FileOutput, q: Query, disk: Disk): Job -> bool {
    job => sink.overwrite || LacksFile(sink, q, disk, job)
  }

  ghost function NotToDo(sink: FileOutput, q: Query, disk: Disk): Job -> bool {
    job => !sink.overwrite && !LacksFile(sink, q, disk, job)
  }

  // --- the jobs ---

  lemma JobsOfNext(meta: MetaDatatype, partitions: seq<Partition>, j: nat)
    requires j < |partitions|
    ensures JobsOf(meta, partitions[j..]) == [Job(meta, partitions[j])] + JobsOf(meta, partitions[j + 1..])
  {
  }

  lemma AllJobsNext(metas: seq<MetaDatatype>, partitions: seq<Partition>, i: nat)
    requires i < |metas|
    ensures AllJobs(metas[i..], partitions) == JobsOf(metas[i], partitions[0..]) + AllJobs(metas[i + 1..], partitions)
  {
    assert metas[i..][1..] == metas[i + 1..] && partitions[0..] == partitions;
  }

  lemma {:induction false} JobsFromRest(q: Query, i: nat, j: nat)
    requires i < |q.datatypes| && j <= |q.partitions|
    ensures JobsFrom(q, i, j) ==
            JobsOf(q.datatypes[i], q.partitions[j..]) + AllJobs(q.datatypes[i + 1..], q.partitions)
    decreases |q.datatypes| - i, |q.partitions| - j
  {
    if j == |q.partitions| {
      if i + 1 < |q.datatypes| {
        JobsFromRest(q, i + 1, 0);
        AllJobsNext(q.datatypes, q.partitions, i + 1);
      }
    } else {
      JobsFromRest(q, i, j + 1);
      JobsOfNext(q.datatypes[i], q.partitions, j);
    }
  }

  lemma JobsAreAll(q: Query)
    ensures JobsFrom(q, 0, 0) == AllJobs(q.datatypes, q.partitions)
  {
    if q.datatypes != [] {
      JobsFromRest(q, 0, 0);
      assert q.partitions[0..] == q.partitions;
    }
  }

  // --- one job ---

  // A job finds its paths exactly when its partition has a label and every directory can be made,
  // as far as it has anything to write.
  lemma {:induction false} PathsFoundIff(disk: Disk, sink: FileOutput, schemas: set<Datatype>, partition: Partition,
                                         dts: seq<Datatype>)
    ensures PathsFor(disk, sink, schemas, partition, dts).Ok? <==>
            forall dt | dt in dts && dt in schemas :: partition.stub.Ok? && HasDirectory(sink, disk, dt)
  {
    if dts == [] {
    } else {
      var init, last := dts[..|dts| - 1], dts[|dts| - 1];
      PathsFoundIff(disk, sink, schemas, partition, init);
      assert forall dt :: dt in dts <==> dt in init || dt == last by {
        assert dts == init + [last];
      }
    }
  }

  // It is skipped exactly when all the files that it would write exist, and none may be overwritten.
  lemma SkippedIff(sink: FileOutput, q: Query, disk: Disk, job: Job)
    requires JobPaths(disk, sink, q, job).Ok?
    ensures Skips(sink, disk, JobPaths(disk, sink, q, job).value) <==> !ToDo(sink, q, disk)(job)
  {
    PathsMeaning(disk, sink, q.schemas, job.partition, Members(job.meta));
    var paths := JobPaths(disk, sink, q, job).value;
    forall dt | dt in paths
      ensures paths[dt] in paths.Values
    {
    }
    if LacksFile(sink, q, disk, job) {
      var dt :| Writes(q, job, dt) && Components(PathFor(sink, dt, job.partition.stub.value)) !in disk.existing;
      assert paths[dt] in paths.Values;
    } else {
      forall path | path in paths.Values
        ensures path in disk.existing
      {
        var dt :| dt in paths && paths[dt] == path;
        assert Writes(q, job, dt);
      }
    }
  }

  // --- the plan ---

  function Planned(payloads: seq<Payload>): (jobs: seq<Job>)
    ensures |jobs| == |payloads|
    ensures forall k | 0 <= k < |jobs| :: jobs[k] == Job(payloads[k].meta, payloads[k].partition)
  {
    seq(|payloads|, k requires 0 <= k < |payloads| => Job(payloads[k].meta, payloads[k].partition))
  }

  function PartitionsOf(jobs: seq<Job>): (partitions: seq<Partition>)
    ensures |partitions| == |jobs| && forall k | 0 <= k < |jobs| :: partitions[k] == jobs[k].partition
  {
    seq(|jobs|, k requires 0 <= k < |jobs| => jobs[k].partition)
  }

  // The paths of a payload are those of the files that its job writes.
  ghost predicate HasOwnPaths(sink: FileOutput, q: Query, p: Payload) {
    && (forall dt :: dt in p.paths <==> Writes(q, Job(p.meta, p.partition), dt))
    && forall dt | dt in p.paths ::
         p.partition.stub.Ok? && p.paths[dt] == Components(PathFor(sink, dt, p.partition.stub.value))
  }

  lemma JobHasOwnPaths(sink: FileOutput, q: Query, disk: Disk, job: Job)
    requires JobPaths(disk, sink, q, job).Ok?
    ensures HasOwnPaths(sink, q, Payload(job.partition, job.meta, JobPaths(disk, sink, q, job).value))
  {
    PathsMeaning(disk, sink, q.schemas, job.partition, Members(job.meta));
  }

  lemma PlannedCons(p: Payload, rest: seq<Payload>)
    ensures Planned([p] + rest) == [Job(p.meta, p.partition)] + Planned(rest)
  {
  }

  lemma {:induction false} CandidatesToDo(sink: FileOutput, q: Query, disk: Disk, jobs: seq<Job>)
    requires forall j | j in jobs :: JobPaths(disk, sink, q, j).Ok?
    ensures Planned(Candidates(sink, q, disk, jobs)) == Filter(ToDo(sink, q, disk), jobs)
    ensures forall p | p in Candidates(sink, q, disk, jobs) :: HasOwnPaths(sink, q, p)
  {
    if jobs == [] {
    } else {
      assert jobs[0] in jobs;
      CandidatesToDo(sink, q, disk, jobs[1..]);
      SkippedIff(sink, q, disk, jobs[0]);
      JobHasOwnPaths(sink, q, disk, jobs[0]);
      var paths := JobPaths(disk, sink, q, jobs[0]).value;
      PlannedCons(Payload(jobs[0].partition, jobs[0].meta, paths), Candidates(sink, q, disk, jobs[1..]));
    }
  }

  lemma {:induction false} SkippedNotToDo(sink: FileOutput, q: Query, disk: Disk, jobs: seq<Job>)
    requires forall j | j in jobs :: JobPaths(disk, sink, q, j).Ok?
    ensures SkippedOf(sink, q, disk, jobs) == PartitionsOf(Filter(NotToDo(sink, q, disk), jobs))
  {
    if jobs == [] {
    } else {
      assert jobs[0] in jobs;
      SkippedNotToDo(sink, q, disk, jobs[1..]);
      SkippedIff(sink, q, disk, jobs[0]);
    }
  }

  // A successful plan has a payload for every job of the query that has a file to write, in order,
  // with the paths of its files, and skips the partitions of the others; a job whose files all exist
  // has none to write unless files may be overwritten.
  lemma PlanIsToDo(sink: FileOutput, q: Query, disk: Disk)
    requires PlanOf(sink, q, disk).Ok?
    ensures var plan, jobs := PlanOf(sink, q, disk).value, AllJobs(q.datatypes, q.partitions);
            && Planned(plan.payloads) == Filter(ToDo(sink, q, disk), jobs)
            && plan.skipped == PartitionsOf(Filter(NotToDo(sink, q, disk), jobs))
            && forall p | p in plan.payloads :: HasOwnPaths(sink, q, p)
  {
    var jobs := JobsFrom(q, 0, 0);
    PlanSucceedsIff(sink, q, disk);
    JobsAreAll(q);
    CandidatesToDo(sink, q, disk, jobs);
    SkippedNotToDo(sink, q, disk, jobs);
  }
}
