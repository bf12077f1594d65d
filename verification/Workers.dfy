/**
 The worker threads: any number of testing processors, each with its own numbered local directory,
 working on one shared file system. The file steps of all workers interleave in any order.
 */
module Workers {
  import opened Naming
  import opened Storage
  import opened Judge
  import opened TestingProcessor

  /** The directories given to the worker threads. */
  method StartWorkers(instanceCount: nat) returns (directories: seq<string>)
    ensures |directories| == instanceCount
    ensures forall i :: 0 <= i < instanceCount ==> directories[i] == "localStorage" + ToString(i) == LocalStorage(i)
    ensures forall i, j, f, g :: 0 <= i < instanceCount && 0 <= j < instanceCount && i != j ==>
              FilePath(directories[i], f) != FilePath(directories[j], g)
  {
    directories := [];
    for i := 0 to instanceCount
      invariant |directories| == i
      invariant forall j :: 0 <= j < i ==> directories[j] == LocalStorage(j)
    {
      directories := directories + ["localStorage" + ToString(i)];
    }
    forall i, j, f, g | 0 <= i < instanceCount && 0 <= j < instanceCount && i != j
      ensures FilePath(directories[i], f) != FilePath(directories[j], g)
    {
      if FilePath(directories[i], f) == FilePath(directories[j], g) {
        PathsDisjoint(i, f, j, g);
      }
    }
  }

  /** A submission in its container, and the tests to judge it on. */
  datatype Job = Job(submission: Submission, container: Container, tests: TaskTests)

  /** Where a worker is in the file steps of one test. */
  datatype Pc =
    | DumpInput
    | DumpOutput
    | RunProgram
    | CopyReport(execution: Execution)  // the executor's report, still inside the worker's container
    | ReadReport
    | Compare(report: Report)

  datatype Worker = Worker(jobs: seq<Job>, next: nat, pc: Pc, report: seq<Report>, finished: seq<seq<Report>>)

  type Files = map<string, Content>

  datatype World = World(files: Files, workers: seq<Worker>)

  function PathOf(i: nat, file: string): string {
    FilePath(LocalStorage(i), file)
  }

  function TextAt(files: Files, path: string): string {
    if path in files && files[path].Text? then files[path].text else ""
  }

  function ExecutionAt(files: Files, path: string): Execution {
    if path in files && files[path].ExecutorReport? then files[path].execution else Execution(0, 0, 0, "")
  }

  // ----- Steps

  /** The current job's report is complete. */
  function Close(w: Worker, report: seq<Report>): Worker
    requires w.jobs != []
  {
    Worker(w.jobs[1..], 0, DumpInput, [], w.finished + [report])
  }

  /** One test's report is in: stop at the first that is not OK, else go on with the next test. */
  function Record(w: Worker, one: Report): Worker
    requires w.jobs != []
  {
    if one.verdict != OK then Close(w, w.report + [one])
    else Worker(w.jobs, w.next + 1, DumpInput, w.report + [one], w.finished)
  }

  /** One step of worker `i`: its new state, and the files after it. */
  function StepOf(m: Machine, i: nat, w: Worker, files: Files): (Worker, Files) {
    if w.jobs == [] then (w, files)
    else
      var s, tests := w.jobs[0].submission, w.jobs[0].tests;
      if w.next >= |tests.inputTests| || w.next >= |tests.outputTests| then (Close(w, w.report), files)
      else
        match w.pc
        case DumpInput =>
          (w.(pc := DumpOutput), files[PathOf(i, INPUT_FILE) := Text(tests.inputTests[w.next])])
        case DumpOutput =>
          (w.(pc := RunProgram), files[PathOf(i, OUTPUT_FILE) := Text(tests.outputTests[w.next])])
        case RunProgram =>
          var e := m.run(w.jobs[0].container, TextAt(files, PathOf(i, INPUT_FILE)));
          (w.(pc := CopyReport(e)), files[PathOf(i, USER_OUTPUT_FILE) := Text(e.output)])
        case CopyReport(e) =>
          (w.(pc := ReadReport), files[PathOf(i, REPORT_FILE) := ExecutorReport(e)])
        case ReadReport =>
          var e := ExecutionAt(files, PathOf(i, REPORT_FILE));
          var report := Report(e.cpuTimeElapsedMicroSeconds / 1000, e.memorySpent, OK);
          (match LimitVerdict(s, e)
           case Some(verdict) => Record(w, report.(verdict := verdict))
           case None => w.(pc := Compare(report)),
           files)
        case Compare(report) =>
          var exitCode := m.diff(TextAt(files, PathOf(i, USER_OUTPUT_FILE)), TextAt(files, PathOf(i, OUTPUT_FILE)));
          (Record(w, report.(verdict := CheckVerdict(exitCode))), files)
  }

  function Step(m: Machine, world: World, i: nat): (world': World)
    ensures |world'.workers| == |world.workers|
  {
    if i >= |world.workers| then world
    else
      var (w, files) := StepOf(m, i, world.workers[i], world.files);
      World(files, world.workers[i := w])
  }

  /** A schedule names the worker that takes each step. */
  function Run(m: Machine, world: World, schedule: seq<nat>): (world': World)
    ensures |world'.workers| == |world.workers|
  {
    if schedule == [] then world
    else Step(m, Run(m, world, schedule[..|schedule| - 1]), schedule[|schedule| - 1])
  }

  // ----- Isolation

  /** The two file systems agree on everything under worker `i`'s directory. */
  ghost predicate SameFor(i: nat, a: Files, b: Files) {
    forall file :: SameAt(PathOf(i, file), a, b)
  }

  ghost predicate SameAt(path: string, a: Files, b: Files) {
    (path in a <==> path in b) && (path in a ==> a[path] == b[path])
  }

  /** A worker's step depends on, and changes, only its own state and its own directory. */
  lemma StepIsLocal(m: Machine, i: nat, w: Worker, a: Files, b: Files)
    requires SameFor(i, a, b)
    ensures StepOf(m, i, w, a).0 == StepOf(m, i, w, b).0
    ensures SameFor(i, StepOf(m, i, w, a).1, StepOf(m, i, w, b).1)
  {
    hide PathOf, LimitVerdict, CheckVerdict;
    assert SameAt(PathOf(i, INPUT_FILE), a, b) && SameAt(PathOf(i, OUTPUT_FILE), a, b);
    assert SameAt(PathOf(i, USER_OUTPUT_FILE), a, b) && SameAt(PathOf(i, REPORT_FILE), a, b);
    var a', b' := StepOf(m, i, w, a).1, StepOf(m, i, w, b).1;
    forall file ensures SameAt(PathOf(i, file), a', b') {
      assert SameAt(PathOf(i, file), a, b);
    }
  }

  lemma StepKeepsOthers(m: Machine, j: nat, w: Worker, files: Files, i: nat)
    requires i != j
    ensures SameFor(i, StepOf(m, j, w, files).1, files)
  {
    hide PathOf, LimitVerdict, CheckVerdict, Record;
    forall file ensures SameAt(PathOf(i, file), StepOf(m, j, w, files).1, files) {
      OtherPath(i, file, j, INPUT_FILE);
      OtherPath(i, file, j, OUTPUT_FILE);
      OtherPath(i, file, j, USER_OUTPUT_FILE);
      OtherPath(i, file, j, REPORT_FILE);
    }
  }

  lemma OtherPath(i: nat, file: string, j: nat, other: string)
    requires i != j
    ensures PathOf(i, file) != PathOf(j, other)
  {
    if PathOf(i, file) == PathOf(j, other) {
      PathsDisjoint(i, file, j, other);
    }
  }

  /** The steps of worker `i` alone. */
  function Only(schedule: seq<nat>, i: nat): seq<nat> {
    if schedule == [] then []
    else
      var before, last := Only(schedule[..|schedule| - 1], i), schedule[|schedule| - 1];
      if last == i then before + [i] else before
  }

  /**
   Worker isolation: under every interleaving, each worker is at the end exactly where it would be had
   it taken its own steps alone, and so are the files of its directory.
   */
  lemma {:induction false} EachAsIfAlone(m: Machine, world: World, schedule: seq<nat>, i: nat)
    requires i < |world.workers|
    ensures var together, alone := Run(m, world, schedule), Run(m, world, Only(schedule, i));
            && together.workers[i] == alone.workers[i]
            && SameFor(i, together.files, alone.files)
  {
    hide StepOf, SameFor, Step;
    if schedule != [] {
      var before, last := schedule[..|schedule| - 1], schedule[|schedule| - 1];
      EachAsIfAlone(m, world, before, i);
      var together, alone := Run(m, world, before), Run(m, world, Only(before, i));
      AloneStep(m, together, alone, last, i);
      if last == i {
        assert (Only(before, i) + [i])[..|Only(before, i)|] == Only(before, i);
      }
    } else {
      SameReflexive(i, world.files);
    }
  }

  lemma AloneStep(m: Machine, together: World, alone: World, last: nat, i: nat)
    requires i < |together.workers| == |alone.workers|
    requires together.workers[i] == alone.workers[i] && SameFor(i, together.files, alone.files)
    ensures var together', alone' := Step(m, together, last), if last == i then Step(m, alone, i) else alone;
            together'.workers[i] == alone'.workers[i] && SameFor(i, together'.files, alone'.files)
  {
    hide StepOf, SameFor;
    if last == i {
      StepIsLocal(m, i, together.workers[i], together.files, alone.files);
    } else if last < |together.workers| {
      StepKeepsOthers(m, last, together.workers[last], together.files, i);
      SameTransitive(i, Step(m, together, last).files, together.files, alone.files);
    }
  }

  lemma SameReflexive(i: nat, a: Files)
    ensures SameFor(i, a, a)
  {
  }

  lemma SameTransitive(i: nat, a: Files, b: Files, c: Files)
    requires SameFor(i, a, b) && SameFor(i, b, c)
    ensures SameFor(i, a, c)
  {
    forall file ensures SameAt(PathOf(i, file), a, c) {
      assert SameAt(PathOf(i, file), a, b) && SameAt(PathOf(i, file), b, c);
    }
  }

  // ----- Correctness

  ghost predicate PairedJob(job: Job) {
    Paired(job.tests)
  }

  /** What the simple judge reports for a job. */
  function JobReport(m: Machine, job: Job): seq<Report>
    requires PairedJob(job)
  {
    JudgeFlat(JudgeFor(m, job.container, job.submission), job.tests)
  }

  /** The files a worker has already written for the test at hand hold what that test needs. */
  ghost predicate FilesOk(m: Machine, i: nat, w: Worker, files: Files)
    requires w.jobs != [] && PairedJob(w.jobs[0]) && w.next < |w.jobs[0].tests.inputTests|
  {
    var s := w.jobs[0].submission;
    var input, expected := w.jobs[0].tests.inputTests[w.next], w.jobs[0].tests.outputTests[w.next];
    var e := m.run(w.jobs[0].container, input);
    && (!w.pc.DumpInput? ==> TextAt(files, PathOf(i, INPUT_FILE)) == input)
    && (!w.pc.DumpInput? && !w.pc.DumpOutput? ==> TextAt(files, PathOf(i, OUTPUT_FILE)) == expected)
    && (w.pc.CopyReport? || w.pc.ReadReport? || w.pc.Compare? ==>
          TextAt(files, PathOf(i, USER_OUTPUT_FILE)) == e.output)
    && (w.pc.CopyReport? ==> w.pc.execution == e)
    && (w.pc.ReadReport? ==> ExecutionAt(files, PathOf(i, REPORT_FILE)) == e)
    && (w.pc.Compare? ==>
          && LimitVerdict(s, e).None?
          && w.pc.report == Report(e.cpuTimeElapsedMicroSeconds / 1000, e.memorySpent, OK))
  }

  /** A worker's progress through its jobs: finished reports are right, and so is the one in progress. */
  ghost predicate WorkerOk(m: Machine, i: nat, w: Worker, files: Files, jobs: seq<Job>) {
    && |w.finished| <= |jobs|
    && w.jobs == jobs[|w.finished|..]
    && (forall j :: 0 <= j < |jobs| ==> PairedJob(jobs[j]))
    && (forall j :: 0 <= j < |w.finished| ==> w.finished[j] == JobReport(m, jobs[j]))
    && (w.jobs != [] ==> ProgressOk(m, i, w, files))
  }

  ghost predicate ProgressOk(m: Machine, i: nat, w: Worker, files: Files)
    requires w.jobs != []
  {
    && PairedJob(w.jobs[0])
    && AllOk(w.report)
    && w.next <= |w.jobs[0].tests.inputTests|
    && (w.next < |w.jobs[0].tests.inputTests| ==> FilesOk(m, i, w, files))
    && var judge := JudgeFor(m, w.jobs[0].container, w.jobs[0].submission);
       JobReport(m, w.jobs[0]) == w.report + JudgeFrom(judge, w.jobs[0].tests, w.next)
  }

  /** A worker about to start. */
  function Fresh(jobs: seq<Job>): Worker {
    Worker(jobs, 0, DumpInput, [], [])
  }

  lemma FreshOk(m: Machine, i: nat, files: Files, jobs: seq<Job>)
    requires forall j :: 0 <= j < |jobs| ==> PairedJob(jobs[j])
    ensures WorkerOk(m, i, Fresh(jobs), files, jobs)
  {
    if jobs != [] {
      assert PairedJob(jobs[0]);
    }
  }

  lemma CloseOk(m: Machine, i: nat, w: Worker, files: Files, jobs: seq<Job>, report: seq<Report>)
    requires WorkerOk(m, i, w, files, jobs) && w.jobs != [] && report == JobReport(m, w.jobs[0])
    ensures WorkerOk(m, i, Close(w, report), files, jobs)
  {
    hide JudgeFrom, AllOk, FilesOk;
    var n := |w.finished|;
    assert w.jobs[0] == jobs[n];
    assert w.jobs[1..] == jobs[n + 1..];
    CloseProgress(m, i, Close(w, report), files, jobs);
  }

  lemma CloseProgress(m: Machine, i: nat, w: Worker, files: Files, jobs: seq<Job>)
    requires w.next == 0 && w.pc == DumpInput && w.report == []
    requires forall j :: 0 <= j < |jobs| ==> PairedJob(jobs[j])
    requires |w.finished| <= |jobs| && w.jobs == jobs[|w.finished|..]
    ensures w.jobs != [] ==> ProgressOk(m, i, w, files)
  {
    if w.jobs != [] {
      assert PairedJob(jobs[|w.finished|]);
      assert [] + JobReport(m, w.jobs[0]) == JobReport(m, w.jobs[0]);
    }
  }

  lemma RecordOk(m: Machine, i: nat, w: Worker, files: Files, jobs: seq<Job>)
    requires WorkerOk(m, i, w, files, jobs) && w.jobs != [] && w.next < |w.jobs[0].tests.inputTests|
    ensures var job := w.jobs[0];
            var input, expected := job.tests.inputTests[w.next], job.tests.outputTests[w.next];
            var one := JudgeOne(m, job.container, job.submission, input, expected);
            WorkerOk(m, i, Record(w, one), files, jobs)
  {
    hide FilesOk, JudgeOne;
    var job := w.jobs[0];
    var judge := JudgeFor(m, job.container, job.submission);
    var one := JudgeOne(m, job.container, job.submission, job.tests.inputTests[w.next], job.tests.outputTests[w.next]);
    assert judge(job.tests.inputTests[w.next], job.tests.outputTests[w.next]) == one;
    if one.verdict != OK {
      CloseOk(m, i, w, files, jobs, w.report + [one]);
    } else {
      OkAppend(w.report, one);
      assert (w.report + [one]) + JudgeFrom(judge, job.tests, w.next + 1)
          == w.report + JudgeFrom(judge, job.tests, w.next);
      DumpInputFiles(m, i, Record(w, one), files);
    }
  }

  lemma DumpInputFiles(m: Machine, i: nat, w: Worker, files: Files)
    requires w.jobs != [] && PairedJob(w.jobs[0]) && w.pc == DumpInput
    ensures w.next < |w.jobs[0].tests.inputTests| ==> FilesOk(m, i, w, files)
  {
  }

  lemma StepOk(m: Machine, i: nat, w: Worker, files: Files, jobs: seq<Job>)
    requires WorkerOk(m, i, w, files, jobs)
    ensures var (w', files') := StepOf(m, i, w, files);
            WorkerOk(m, i, w', files', jobs)
  {
    hide JudgeFrom, AllOk, FilesOk, Record, JudgeOne, Close;
    if w.jobs != [] {
      var job := w.jobs[0];
      if w.next >= |job.tests.inputTests| {
        JudgeFromEnd(JudgeFor(m, job.container, job.submission), job.tests, w.next);
        CloseOk(m, i, w, files, jobs, w.report);
      } else {
        TestStep(m, i, w, files);
        RecordOk(m, i, w, files, jobs);
      }
    }
  }

  lemma JudgeFromEnd(judge: Judging, tests: TaskTests, i: nat)
    requires Paired(tests) && i >= |tests.inputTests|
    ensures JudgeFrom(judge, tests, i) == []
  {
  }

  /** A step within a test either keeps the files right, or records exactly the test's own report. */
  lemma TestStep(m: Machine, i: nat, w: Worker, files: Files)
    requires w.jobs != [] && PairedJob(w.jobs[0]) && w.next < |w.jobs[0].tests.inputTests|
    requires FilesOk(m, i, w, files)
    ensures var (w', files') := StepOf(m, i, w, files);
            var job := w.jobs[0];
            var input, expected := job.tests.inputTests[w.next], job.tests.outputTests[w.next];
            var one := JudgeOne(m, job.container, job.submission, input, expected);
            || (files' == files && w' == Record(w, one))
            || (w' == w.(pc := w'.pc) && FilesOk(m, i, w', files'))
  {
    OwnFilesDiffer(LocalStorage(i));
    hide FilePath, Record;
  }

  lemma WorkerOkElsewhere(m: Machine, i: nat, w: Worker, a: Files, b: Files, jobs: seq<Job>)
    requires WorkerOk(m, i, w, a, jobs) && SameFor(i, a, b)
    ensures WorkerOk(m, i, w, b, jobs)
  {
    hide PathOf, JudgeFrom, AllOk;
    assert SameAt(PathOf(i, INPUT_FILE), a, b) && SameAt(PathOf(i, OUTPUT_FILE), a, b);
    assert SameAt(PathOf(i, USER_OUTPUT_FILE), a, b) && SameAt(PathOf(i, REPORT_FILE), a, b);
  }

  lemma {:induction false} RunOk(m: Machine, world: World, schedule: seq<nat>, i: nat, jobs: seq<Job>)
    requires i < |world.workers| && WorkerOk(m, i, world.workers[i], world.files, jobs)
    ensures WorkerOk(m, i, Run(m, world, schedule).workers[i], Run(m, world, schedule).files, jobs)
  {
    hide WorkerOk, StepOf, SameFor;
    if schedule != [] {
      var before, last := schedule[..|schedule| - 1], schedule[|schedule| - 1];
      RunOk(m, world, before, i, jobs);
      var now := Run(m, world, before);
      if last == i {
        StepOk(m, i, now.workers[i], now.files, jobs);
      } else if last < |world.workers| {
        StepKeepsOthers(m, last, now.workers[last], now.files, i);
        SameSymmetric(i, Run(m, world, schedule).files, now.files);
        WorkerOkElsewhere(m, i, now.workers[i], now.files, Run(m, world, schedule).files, jobs);
      }
    }
  }

  lemma SameSymmetric(i: nat, a: Files, b: Files)
    requires SameFor(i, a, b)
    ensures SameFor(i, b, a)
  {
    forall file ensures SameAt(PathOf(i, file), b, a) {
      assert SameAt(PathOf(i, file), a, b);
    }
  }

  /**
   Concurrency does not change what a report says: whatever the files held before and however the
   workers' steps interleave, every report a worker finishes is the simple judge's report of that job.
   */
  lemma ReportsAreFlat(m: Machine, world: World, schedule: seq<nat>, i: nat, jobs: seq<Job>)
    requires i < |world.workers| && world.workers[i] == Fresh(jobs)
    requires forall j :: 0 <= j < |jobs| ==> PairedJob(jobs[j])
    ensures var finished := Run(m, world, schedule).workers[i].finished;
            && |finished| <= |jobs|
            && (forall j :: 0 <= j < |finished| ==> finished[j] == JobReport(m, jobs[j]))
  {
    FreshOk(m, i, world.files, jobs);
    RunOk(m, world, schedule, i, jobs);
  }

  // ----- The steps are those of the sequential method

  /** `k` steps of worker `i` with nobody else running. */
  function Undisturbed(m: Machine, i: nat, w: Worker, files: Files, k: nat): (Worker, Files) {
    if k == 0 then (w, files)
    else
      var (v, now) := Undisturbed(m, i, w, files, k - 1);
      StepOf(m, i, v, now)
  }

  lemma UndisturbedNext(m: Machine, i: nat, w: Worker, files: Files, k: nat)
    ensures Undisturbed(m, i, w, files, 0) == (w, files)
    ensures var (v, now) := Undisturbed(m, i, w, files, k);
            Undisturbed(m, i, w, files, k + 1) == StepOf(m, i, v, now)
  {
  }

  /** The first four steps of a test write its four files. */
  lemma FourSteps(m: Machine, i: nat, w: Worker, files: Files)
    requires w.jobs != [] && PairedJob(w.jobs[0]) && w.next < |w.jobs[0].tests.inputTests| && w.pc == DumpInput
    ensures var c, s, tests := w.jobs[0].container, w.jobs[0].submission, w.jobs[0].tests;
            Undisturbed(m, i, w, files, 4) ==
            (w.(pc := ReadReport),
             TestFiles(files, LocalStorage(i), m, c, tests.inputTests[w.next], tests.outputTests[w.next]))
  {
    OwnFilesDiffer(LocalStorage(i));
    hide FilePath, Record, LimitVerdict, Undisturbed;
    var s, tests := w.jobs[0].submission, w.jobs[0].tests;
    UndisturbedNext(m, i, w, files, 0);
    UndisturbedNext(m, i, w, files, 1);
    UndisturbedNext(m, i, w, files, 2);
    UndisturbedNext(m, i, w, files, 3);
    assert TextAt(Undisturbed(m, i, w, files, 2).1, PathOf(i, INPUT_FILE)) == tests.inputTests[w.next];
  }

  /**
   Undisturbed, a worker's five or six steps on a test leave the files and give the report of
   `ExecuteAndTest`.
   */
  lemma StepsAreExecuteAndTest(m: Machine, i: nat, w: Worker, files: Files)
    requires w.jobs != [] && PairedJob(w.jobs[0]) && w.next < |w.jobs[0].tests.inputTests| && w.pc == DumpInput
    ensures var c, s, tests := w.jobs[0].container, w.jobs[0].submission, w.jobs[0].tests;
            var input, expected := tests.inputTests[w.next], tests.outputTests[w.next];
            var k := if LimitVerdict(s, m.run(c, input)).Some? then 5 else 6;
            Undisturbed(m, i, w, files, k) ==
            (Record(w, JudgeOne(m, c, s, input, expected)), TestFiles(files, LocalStorage(i), m, c, input, expected))
  {
    FourSteps(m, i, w, files);
    OwnFilesDiffer(LocalStorage(i));
    hide FilePath, LimitVerdict, CheckVerdict, Undisturbed;
    UndisturbedNext(m, i, w, files, 4);
    UndisturbedNext(m, i, w, files, 5);
  }

  // ----- Progress

  /** How many steps of its own a worker needs at most for these jobs. */
  function Budget(jobs: seq<Job>): nat {
    if jobs == [] then 0 else 6 * |jobs[0].tests.inputTests| + 1 + Budget(jobs[1..])
  }

  function StepsDone(pc: Pc): nat {
    match pc
    case DumpInput => 0
    case DumpOutput => 1
    case RunProgram => 2
    case CopyReport(_) => 3
    case ReadReport => 4
    case Compare(_) => 5
  }

  /** How many steps of its own a worker still needs at most. */
  function StepsLeft(w: Worker): nat {
    if w.jobs == [] then 0
    else
      var n := |w.jobs[0].tests.inputTests|;
      Budget(w.jobs[1..]) + 1 + if w.next < n then 6 * (n - w.next) - StepsDone(w.pc) else 0
  }

  lemma StepProgress(m: Machine, i: nat, w: Worker, files: Files)
    requires w.jobs != []
    ensures StepsLeft(StepOf(m, i, w, files).0) < StepsLeft(w)
  {
    hide PathOf, TextAt, ExecutionAt;
    CloseLeft(w, w.report);
  }

  lemma CloseLeft(w: Worker, report: seq<Report>)
    requires w.jobs != []
    ensures forall r :: StepsLeft(Close(w, r)) == Budget(w.jobs[1..])
  {
  }

  lemma {:induction false} RunProgress(m: Machine, world: World, schedule: seq<nat>, i: nat)
    requires i < |world.workers|
    ensures var w := Run(m, world, schedule).workers[i];
            w.jobs == [] || StepsLeft(w) + |Only(schedule, i)| <= StepsLeft(world.workers[i])
  {
    hide StepOf, StepsLeft;
    if schedule != [] {
      var before, last := schedule[..|schedule| - 1], schedule[|schedule| - 1];
      RunProgress(m, world, before, i);
      var now := Run(m, world, before);
      if last == i {
        if now.workers[i].jobs != [] {
          StepProgress(m, i, now.workers[i], now.files);
        } else {
          Idles(m, i, now.workers[i], now.files);
        }
      }
    }
  }

  lemma Idles(m: Machine, i: nat, w: Worker, files: Files)
    requires w.jobs == []
    ensures StepOf(m, i, w, files) == (w, files)
  {
  }

  /**
   Every schedule that gives worker `i` enough steps, however late and however the others interleave,
   makes it finish all its jobs, each with the simple judge's report.
   */
  lemma EnoughStepsFinish(m: Machine, world: World, schedule: seq<nat>, i: nat, jobs: seq<Job>)
    requires i < |world.workers| && world.workers[i] == Fresh(jobs)
    requires forall j :: 0 <= j < |jobs| ==> PairedJob(jobs[j])
    requires |Only(schedule, i)| >= Budget(jobs)
    ensures var finished := Run(m, world, schedule).workers[i].finished;
            && |finished| == |jobs|
            && (forall j :: 0 <= j < |jobs| ==> finished[j] == JobReport(m, jobs[j]))
  {
    RunProgress(m, world, schedule, i);
    FreshOk(m, i, world.files, jobs);
    RunOk(m, world, schedule, i, jobs);
  }
}
