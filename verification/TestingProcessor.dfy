/** The testing processor: prepare a submission, run its batches test by test, commit the report. */
module TestingProcessor {
  import opened Wrappers
  import opened Naming
  import opened Storage
  import opened Judge
  import opened TabascoService
  import opened Solutions

  /** What a local file holds. */
  datatype Content = Text(text: string) | ExecutorReport(execution: Execution)

  const INPUT_FILE := "input.txt"
  const OUTPUT_FILE := "output.txt"
  const USER_OUTPUT_FILE := "userOutput.txt"
  const REPORT_FILE := "report.json"

  predicate IsOwnFile(directory: string, path: string) {
    || path == FilePath(directory, INPUT_FILE)
    || path == FilePath(directory, OUTPUT_FILE)
    || path == FilePath(directory, USER_OUTPUT_FILE)
    || path == FilePath(directory, REPORT_FILE)
  }

  lemma OwnFilesDiffer(directory: string)
    ensures FilePath(directory, INPUT_FILE) != FilePath(directory, OUTPUT_FILE)
    ensures FilePath(directory, INPUT_FILE) != FilePath(directory, USER_OUTPUT_FILE)
    ensures FilePath(directory, INPUT_FILE) != FilePath(directory, REPORT_FILE)
    ensures FilePath(directory, OUTPUT_FILE) != FilePath(directory, USER_OUTPUT_FILE)
    ensures FilePath(directory, OUTPUT_FILE) != FilePath(directory, REPORT_FILE)
    ensures FilePath(directory, USER_OUTPUT_FILE) != FilePath(directory, REPORT_FILE)
  {
    assert |INPUT_FILE| == 9 && |OUTPUT_FILE| == 10 && |USER_OUTPUT_FILE| == 14 && |REPORT_FILE| == 11;
  }

  lemma OwnFileNames(directory: string)
    ensures FilePath(directory, INPUT_FILE) == directory + "/input.txt"
    ensures FilePath(directory, OUTPUT_FILE) == directory + "/output.txt"
    ensures FilePath(directory, USER_OUTPUT_FILE) == directory + "/userOutput.txt"
    ensures FilePath(directory, REPORT_FILE) == directory + "/report.json"
  {
    assert "/" + INPUT_FILE == "/input.txt" && "/" + OUTPUT_FILE == "/output.txt";
    assert "/" + USER_OUTPUT_FILE == "/userOutput.txt" && "/" + REPORT_FILE == "/report.json";
  }

  ghost predicate HoldsFile(files: map<string, Content>, path: string, content: Content) {
    path in files && files[path] == content
  }

  /** The files after one test in a directory, whatever they were before. */
  function TestFiles(files: map<string, Content>, directory: string, m: Machine, c: Container,
                     input: string, expected: string): map<string, Content>
  {
    var e := m.run(c, input);
    files[FilePath(directory, INPUT_FILE) := Text(input)]
         [FilePath(directory, OUTPUT_FILE) := Text(expected)]
         [FilePath(directory, USER_OUTPUT_FILE) := Text(e.output)]
         [FilePath(directory, REPORT_FILE) := ExecutorReport(e)]
  }

  class FileSystem {
    var files: map<string, Content>

    constructor ()
      ensures files == map[]
    {
      files := map[];
    }

    method Dump(path: string, content: Content)
      modifies this
      ensures files == old(files)[path := content]
    {
      files := files[path := content];
    }
  }

  /** A submission being processed; the batch count is filled in by `Prepare`. */
  class TestingRequest {
    const submission: Submission
    var batchCount: nat

    constructor (submission: Submission)
      ensures this.submission == submission && batchCount == 0
    {
      this.submission, batchCount := submission, 0;
    }
  }

  /** The batches as the loop gets them: None where the call, or the fetch behind it, fails. */
  function FetchedBatches(store: Store, taskId: nat, count: nat, link: nat -> bool): (fetched: seq<Option<TaskTests>>)
    requires forall b :: 0 <= b < count ==> Fetchable(store.meta, taskId, b)
    ensures |fetched| == count && AllPairedBatches(fetched)
    ensures forall b :: 0 <= b < count ==> fetched[b] == FetchedBatch(store, taskId, b, link)
  {
    seq(count, b requires 0 <= b < count => FetchedBatch(store, taskId, b, link))
  }

  function FetchedBatch(store: Store, taskId: nat, b: nat, link: nat -> bool): (batch: Option<TaskTests>)
    requires Fetchable(store.meta, taskId, b)
    ensures PairedBatch(batch)
  {
    if !link(b) then None
    else
      match Fetch(store, taskId, b)
      case Success(tests) => Some(tests)
      case Failure(_) => None
  }

  function JudgeFor(m: Machine, c: Container, s: Submission): Judging {
    (input, expected) => JudgeOne(m, c, s, input, expected)
  }

  /** The container after its init script ran. */
  function Prepared(m: Machine, build: Build, s: Submission): Container {
    if m.init(build.initScript, s.userData) == 0 then Ready(build.initScript, build.executeScript, s.userData)
    else InitFailed(build.initScript, s.userData)
  }

  /** The scripts call succeeds: it got through, and both documents are there. */
  predicate Served(builds: map<nat, Build>, meta: map<nat, MetaData>, s: Submission, reached: bool) {
    reached && s.buildId in builds && s.taskId in meta
  }

  /** The container a submission is judged in. */
  function ContainerFor(m: Machine, builds: map<nat, Build>, meta: map<nat, MetaData>, s: Submission, reached: bool)
    : Container
  {
    if Served(builds, meta, s, reached) then Prepared(m, builds[s.buildId], s) else Bare
  }

  /** The batch count the loop works with. */
  function BatchCount(builds: map<nat, Build>, meta: map<nat, MetaData>, s: Submission, reached: bool): nat {
    if Served(builds, meta, s, reached) then |meta[s.taskId].batches| else 0
  }

  /** The report of a submission whose preparation left this batch count. */
  function SubmissionReport(judge: Judging, fetched: seq<Option<TaskTests>>): seq<Report>
    requires AllPairedBatches(fetched)
  {
    if fetched == [] then [judge("", "")] else JudgeBatches(judge, fetched)
  }

  /** Every batch of the task's metadata, if there is metadata, can be fetched. */
  ghost predicate Servable(store: Store, taskId: nat) {
    taskId in store.meta ==>
      forall b :: 0 <= b < |store.meta[taskId].batches| ==> Fetchable(store.meta, taskId, b)
  }

  class TestingProcessor {
    const localStoragePath: string
    const fileSystem: FileSystem
    const machine: Machine
    const tabasco: TabascoGrpcService
    const commitService: SolutionsDatabase
    var container: Container
    var containerReport: Execution

    constructor (localStoragePath: string, fileSystem: FileSystem, machine: Machine, tabasco: TabascoGrpcService,
                 commitService: SolutionsDatabase)
      ensures this.localStoragePath == localStoragePath && this.fileSystem == fileSystem
      ensures this.machine == machine && this.tabasco == tabasco && this.commitService == commitService
    {
      this.localStoragePath, this.fileSystem, this.machine := localStoragePath, fileSystem, machine;
      this.tabasco, this.commitService := tabasco, commitService;
      container, containerReport := Bare, Execution(0, 0, 0, "");
    }

    /**
     One test through the local files: dump input and expected output, run, copy the executor's report
     out, read it, compare. The outcome does not depend on what the files held before, and no file of
     another directory changes.
     */
    method ExecuteAndTest(submission: Submission, inputTest: string, outputTest: string) returns (report: Report)
      modifies fileSystem, this`containerReport
      ensures report == JudgeOne(machine, container, submission, inputTest, outputTest)
      ensures fileSystem.files ==
              TestFiles(old(fileSystem.files), localStoragePath, machine, container, inputTest, outputTest)
      ensures HoldsFile(fileSystem.files, localStoragePath + "/input.txt", Text(inputTest))
      ensures HoldsFile(fileSystem.files, localStoragePath + "/output.txt", Text(outputTest))
      ensures HoldsFile(fileSystem.files, localStoragePath + "/userOutput.txt", Text(containerReport.output))
      ensures HoldsFile(fileSystem.files, localStoragePath + "/report.json", ExecutorReport(containerReport))
      ensures containerReport == machine.run(container, inputTest)
      ensures forall path :: !IsOwnFile(localStoragePath, path) ==>
                (path in fileSystem.files <==> path in old(fileSystem.files))
      ensures forall path :: !IsOwnFile(localStoragePath, path) && path in fileSystem.files ==>
                fileSystem.files[path] == old(fileSystem.files)[path]
    {
      OwnFilesDiffer(localStoragePath);
      OwnFileNames(localStoragePath);
      var inputTestPath := FilePath(localStoragePath, INPUT_FILE);
      var outputTestPath := FilePath(localStoragePath, OUTPUT_FILE);
      var userOutputPath := FilePath(localStoragePath, USER_OUTPUT_FILE);
      var reportPath := FilePath(localStoragePath, REPORT_FILE);

      fileSystem.Dump(inputTestPath, Text(inputTest));
      fileSystem.Dump(outputTestPath, Text(outputTest));

      containerReport := machine.run(container, fileSystem.files[inputTestPath].text);
      fileSystem.Dump(userOutputPath, Text(containerReport.output));

      fileSystem.Dump(reportPath, ExecutorReport(containerReport));
      var executeReport := fileSystem.files[reportPath].execution;

      report := Report(executeReport.cpuTimeElapsedMicroSeconds / 1000, executeReport.memorySpent, OK);
      if executeReport.exitCode != 0 {
        return report.(verdict := RE);
      }
      if executeReport.cpuTimeElapsedMicroSeconds > LimitMicroSeconds(submission.cpuTimeLimitMilliSeconds) {
        return report.(verdict := TL);
      }
      if executeReport.memorySpent > submission.memoryLimit {
        return report.(verdict := ML);
      }
      var exitCode := machine.diff(fileSystem.files[userOutputPath].text, fileSystem.files[outputTestPath].text);
      var checkerVerdict := CheckVerdict(exitCode);
      if checkerVerdict != OK {
        return report.(verdict := checkerVerdict);
      }
    }

    /**
     Fetches scripts and metadata, runs the init script and, if that returned 0, puts the execute script
     in place; `reached` says whether the call got through. Fetched metadata sets the batch count even if
     the init script then fails.
     */
    method Prepare(request: TestingRequest, reached: bool) returns (ok: bool)
      modifies request, this`container
      ensures var storage, s := tabasco.storageClient, request.submission;
              var served := reached && s.buildId in storage.builds && s.taskId in storage.taskMeta;
              && ok == (served && container.Ready?)
              && request.batchCount ==
                 (if served then |storage.taskMeta[s.taskId].batches| else old(request.batchCount))
              && container == if served then Prepared(machine, storage.builds[s.buildId], s) else old(container)
      ensures var storage, s := tabasco.storageClient, request.submission;
              reached && s.buildId in storage.builds && s.taskId in storage.taskMeta ==>
                var build := storage.builds[s.buildId];
                container == if machine.init(build.initScript, s.userData) == 0
                             then Ready(build.initScript, build.executeScript, s.userData)
                             else InitFailed(build.initScript, s.userData)
    {
      if !reached {
        return false;
      }
      var response := tabasco.GetScripts(request.submission.taskId, request.submission.buildId);
      if response.Failure? {
        return false;
      }
      request.batchCount := response.value.batchCount;
      container := InitFailed(response.value.initScript, request.submission.userData);
      var exitCode := machine.init(response.value.initScript, request.submission.userData);
      if exitCode != 0 {
        return false;
      }
      container := Ready(response.value.initScript, response.value.executeScript, request.submission.userData);
      return true;
    }

    /** The nested loop over batches and tests; `link` says which batch calls get through. */
    method Test(request: TestingRequest, link: nat -> bool) returns (report: seq<Report>)
      requires forall b :: 0 <= b < request.batchCount ==>
                 Fetchable(tabasco.storageClient.taskMeta, request.submission.taskId, b)
      modifies fileSystem, this`containerReport
      ensures var store, s := tabasco.storageClient.State(), request.submission;
              report == SubmissionReport(JudgeFor(machine, container, s),
                                         FetchedBatches(store, s.taskId, request.batchCount, link))
      ensures var s := request.submission;
              && (request.batchCount == 0 ==> report == [JudgeOne(machine, container, s, "", "")])
              && (request.batchCount > 0 && (!link(0) || s.taskId !in tabasco.storageClient.taskMeta) ==>
                    report == [Report(0, 0, CRASH)])
    {
      hide JudgeBatches, JudgeFrom, Then, AllOk, JudgeOne, Fetch, AllPairedBatches, FetchedBatches, TestFiles,
           HoldsFile, IsOwnFile, LimitVerdict;
      ghost var judge := JudgeFor(machine, container, request.submission);
      ghost var store, taskId := tabasco.storageClient.State(), request.submission.taskId;
      ghost var fetched := FetchedBatches(store, taskId, request.batchCount, link);
      if request.batchCount == 0 {
        var only := ExecuteAndTest(request.submission, "", "");
        return [only];
      }
      report := [];
      if !link(0) || request.submission.taskId !in tabasco.storageClient.taskMeta {
        FirstLost(judge, store, taskId, request.batchCount, link);
      }
      NoBatches(judge, fetched);
      for batchIndex := 0 to request.batchCount
        invariant AllOk(report) && AllPairedBatches(fetched[batchIndex..])
        invariant JudgeBatches(judge, fetched) == report + JudgeBatches(judge, fetched[batchIndex..])
      {
        NextBatch(judge, fetched, batchIndex);
        var getBatchResponse := Failure("");
        if link(batchIndex) {
          getBatchResponse := tabasco.GetBatch(request.submission.taskId, batchIndex);
        }
        if getBatchResponse.Failure? {
          report := report + [LOST];
          return report;
        }
        var tests := getBatchResponse.value;
        var testsSize := |tests.inputTests|;
        ghost var rest := JudgeBatches(judge, fetched[batchIndex + 1..]);
        for i := 0 to testsSize
          invariant AllOk(report)
          invariant JudgeBatches(judge, fetched) == report + Then(JudgeFrom(judge, tests, i), rest)
        {
          NextTest(judge, tests, i, report, rest);
          var one := ExecuteAndTest(request.submission, tests.inputTests[i], tests.outputTests[i]);
          report := report + [one];
          if report[|report| - 1].verdict != OK {
            return report;
          }
        }
        BatchDone(judge, tests, rest);
      }
    }

    /**
     `Process`: a fresh container, and the batch loop whatever `Prepare` answered; the report is sent to
     be saved.
     */
    method Process(request: TestingRequest, reached: bool, link: nat -> bool, delivered: bool)
      returns (ghost report: seq<Report>)
      requires request.batchCount == 0
      requires Servable(tabasco.storageClient.State(), request.submission.taskId)
      modifies request, fileSystem, commitService, this`container, this`containerReport
      ensures var storage, s := tabasco.storageClient, request.submission;
              && container == ContainerFor(machine, storage.builds, storage.taskMeta, s, reached)
              && request.batchCount == BatchCount(storage.builds, storage.taskMeta, s, reached)
              && (forall b :: 0 <= b < request.batchCount ==> Fetchable(storage.taskMeta, s.taskId, b))
              && report == SubmissionReport(JudgeFor(machine, container, s),
                             FetchedBatches(storage.State(), s.taskId, request.batchCount, link))
      ensures var id := request.submission.submissionId;
              if delivered && report != [] && id in old(commitService.solutions) then
                && commitService.solutions ==
                   old(commitService.solutions)[id := old(commitService.solutions)[id]
                     .(result := Some(VerdictName(report[|report| - 1].verdict)))]
                && commitService.testResults == old(commitService.testResults) + Rows(ToResults(report, id))
              else commitService.State() == old(commitService.State())
    {
      hide SubmissionReport, Fetch, Fetchable, JudgeBatches, JudgeOne, AllPairedBatches, VerdictName;
      container := Bare;
      var prepared := Prepare(request, reached);
      var tested := Test(request, link);
      report := tested;
      if delivered {
        var saved := commitService.SaveResolution(ToResults(tested, request.submission.submissionId));
      }
    }
  }

  lemma FirstLost(judge: Judging, store: Store, taskId: nat, count: nat, link: nat -> bool)
    requires forall b :: 0 <= b < count ==> Fetchable(store.meta, taskId, b)
    requires count > 0 && (!link(0) || taskId !in store.meta)
    ensures SubmissionReport(judge, FetchedBatches(store, taskId, count, link)) == [Report(0, 0, CRASH)]
  {
  }

  lemma NoBatches(judge: Judging, fetched: seq<Option<TaskTests>>)
    requires AllPairedBatches(fetched)
    ensures fetched[0..] == fetched && fetched[|fetched|..] == []
    ensures AllPairedBatches([]) && JudgeBatches(judge, []) == [] && AllOk([])
    ensures JudgeBatches(judge, fetched) == [] + JudgeBatches(judge, fetched)
  {
  }

  lemma PairedDrop(fetched: seq<Option<TaskTests>>, b: nat)
    requires AllPairedBatches(fetched) && b <= |fetched|
    ensures AllPairedBatches(fetched[b..])
  {
    var rest := fetched[b..];
    forall i | 0 <= i < |rest| ensures PairedBatch(rest[i]) {
      assert PairedBatch(fetched[b + i]);
    }
  }

  lemma NextBatch(judge: Judging, fetched: seq<Option<TaskTests>>, b: nat)
    requires AllPairedBatches(fetched) && b < |fetched|
    ensures AllPairedBatches(fetched[b..]) && AllPairedBatches(fetched[b + 1..])
    ensures PairedBatch(fetched[b])
    ensures JudgeBatches(judge, fetched[b..]) ==
            match fetched[b]
            case None => [LOST]
            case Some(tests) => Then(JudgeFrom(judge, tests, 0), JudgeBatches(judge, fetched[b + 1..]))
  {
    assert fetched[b..][1..] == fetched[b + 1..];
    assert PairedBatch(fetched[b]);
    PairedDrop(fetched, b);
    PairedDrop(fetched, b + 1);
  }

  lemma BatchDone(judge: Judging, tests: TaskTests, rest: seq<Report>)
    requires Paired(tests)
    ensures Then(JudgeFrom(judge, tests, |tests.inputTests|), rest) == rest
  {
    assert [] + rest == rest;
  }

  /** Appending one test's report: either the loop goes on from the next test, or the report is complete. */
  lemma NextTest(judge: Judging, tests: TaskTests, i: nat, before: seq<Report>, rest: seq<Report>)
    requires Paired(tests) && i < |tests.inputTests| && AllOk(before)
    ensures var one := judge(tests.inputTests[i], tests.outputTests[i]);
            && before + Then(JudgeFrom(judge, tests, i), rest) ==
               (if one.verdict == OK then (before + [one]) + Then(JudgeFrom(judge, tests, i + 1), rest)
                else before + [one])
            && (one.verdict == OK ==> AllOk(before + [one]))
  {
    hide AllOk;
    var one := judge(tests.inputTests[i], tests.outputTests[i]);
    OkAppend(before, one);
    if one.verdict == OK {
      ThenCons(one, JudgeFrom(judge, tests, i + 1), rest);
    }
  }

  lemma OkAppend(before: seq<Report>, one: Report)
    requires AllOk(before)
    ensures AllOk(before + [one]) <==> one.verdict == OK
    ensures AllOk([one]) <==> one.verdict == OK
  {
    assert (before + [one])[|before|] == one;
    assert [one][0] == one;
  }
}
