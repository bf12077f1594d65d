/** From the tests a client uploads to the verdict that is saved for a submission. */
module Pipeline {
  import opened Wrappers
  import opened Sequences
  import opened Batching
  import opened Storage
  import opened Uploads
  import opened UploadHandler
  import opened Judge
  import opened Solutions
  import opened TestingProcessor

  lemma PublishedServable(store: Store, task: Task)
    requires Paired(task.tests) && TestCount(task) >= 1 && Published(store, task)
    ensures Servable(store, task.id)
  {
    FetchAll(store, task);
  }

  /** Batch calls get through up to the first failing one, which is `k`; none fails if `k` is the count. */
  ghost predicate FailsFirstAt(link: nat -> bool, k: nat, count: nat) {
    k <= count && (forall b :: 0 <= b < k ==> link(b)) && (k < count ==> !link(k))
  }

  lemma {:induction false} JoinedFrom(store: Store, task: Task, link: nat -> bool, count: nat, k: nat, b: nat)
    requires Paired(task.tests) && TestCount(task) >= 1 && Published(store, task) && Servable(store, task.id)
    requires count <= |store.meta[task.id].batches| && FailsFirstAt(link, k, count) && b <= k
    ensures var batches := store.meta[task.id].batches;
            var fetched := FetchedBatches(store, task.id, count, link);
            && Cut(batches, b) <= Cut(batches, k) <= TestCount(task)
            && AllPairedBatches(fetched[b..])
            && Joined(fetched[b..]) == Slice(task.tests, Cut(batches, b), Cut(batches, k))
    decreases k - b
  {
    hide Published, Servable, Cut, Fetch, Fetchable;
    ServableBatches(store, task);
    var batches := store.meta[task.id].batches;
    var fetched := FetchedBatches(store, task.id, count, link);
    PairedDrop(fetched, b);
    CutWithin(store, task, k);
    if b < k {
      JoinedFrom(store, task, link, count, k, b + 1);
      FetchBatch(store, task, b);
      assert fetched[b..][1..] == fetched[b + 1..];
      assert fetched[b..][0] == fetched[b];
      JoinParts(task.tests, Cut(batches, b), Cut(batches, b + 1), Cut(batches, k));
    }
  }

  lemma ServableBatches(store: Store, task: Task)
    requires Paired(task.tests) && Published(store, task) && Servable(store, task.id)
    ensures task.id in store.meta
    ensures forall b :: 0 <= b < |store.meta[task.id].batches| ==> Fetchable(store.meta, task.id, b)
  {
  }

  lemma CutWithin(store: Store, task: Task, k: nat)
    requires Paired(task.tests) && TestCount(task) >= 1 && Published(store, task)
    requires k <= |store.meta[task.id].batches|
    ensures Cut(store.meta[task.id].batches, k) <= TestCount(task)
  {
    FetchedPrefix(store, task, k);
  }

  lemma JoinParts(tests: TaskTests, lo: nat, mid: nat, hi: nat)
    requires Paired(tests) && lo <= mid <= hi <= |tests.inputTests|
    ensures Slice(tests, lo, hi) == TaskTests(Slice(tests, lo, mid).inputTests + Slice(tests, mid, hi).inputTests,
                                             Slice(tests, lo, mid).outputTests + Slice(tests, mid, hi).outputTests)
  {
    assert tests.inputTests[lo..hi] == tests.inputTests[lo..mid] + tests.inputTests[mid..hi];
    assert tests.outputTests[lo..hi] == tests.outputTests[lo..mid] + tests.outputTests[mid..hi];
  }

  /**
   End-to-end refinement: for a published task the batch loop reports what the simple judge reports on
   the uploaded flat list; if batch call `k` is the first to fail, what it reports on the tests before
   that batch, followed by one CRASH entry if those all passed.
   */
  lemma ReportIsFlat(store: Store, task: Task, judge: Judging, link: nat -> bool, k: nat)
    requires Paired(task.tests) && TestCount(task) >= 1 && Published(store, task) && Servable(store, task.id)
    requires FailsFirstAt(link, k, |store.meta[task.id].batches|)
    ensures var batches := store.meta[task.id].batches;
            var report := SubmissionReport(judge, FetchedBatches(store, task.id, |batches|, link));
            && Cut(batches, k) <= TestCount(task)
            && report == Then(JudgeFlat(judge, Slice(task.tests, 0, Cut(batches, k))),
                              if k == |batches| then [] else [Report(0, 0, CRASH)])
            && (k == |batches| ==> report == JudgeFlat(judge, task.tests))
  {
    hide Published, Servable, JudgeBatches, JudgeFrom, Fetch, Fetchable, Joined, Cut, SubmissionReport;
    ServableBatches(store, task);
    CutStart(store, task);
    FirstBatchesAreFlat(store, task, judge, link, |store.meta[task.id].batches|, k);
    CutEnds(store.meta[task.id].batches, TestCount(task));
    assert Slice(task.tests, 0, TestCount(task)) == task.tests;
    if k == |store.meta[task.id].batches| {
      ThenNothing(JudgeFlat(judge, task.tests));
    }
  }

  lemma ThenNothing(report: seq<Report>)
    ensures Then(report, []) == report
  {
    assert report + [] == report;
  }

  /** The same for a batch count that is smaller than the stored metadata's. */
  lemma FirstBatchesAreFlat(store: Store, task: Task, judge: Judging, link: nat -> bool, count: nat, k: nat)
    requires Paired(task.tests) && TestCount(task) >= 1 && Published(store, task) && Servable(store, task.id)
    requires 1 <= count <= |store.meta[task.id].batches| && FailsFirstAt(link, k, count)
    ensures var batches := store.meta[task.id].batches;
            && Cut(batches, k) <= TestCount(task)
            && SubmissionReport(judge, FetchedBatches(store, task.id, count, link)) ==
               Then(JudgeFlat(judge, Slice(task.tests, 0, Cut(batches, k))), if k == count then [] else [LOST])
  {
    hide Published, Servable, JudgeBatches, JudgeFrom, Fetch, Fetchable, Joined, Cut;
    ServableBatches(store, task);
    CutStart(store, task);
    var fetched := FetchedBatches(store, task.id, count, link);
    JoinedFrom(store, task, link, count, k, 0);
    assert fetched[0..] == fetched;
    BatchesAreFlat(judge, fetched);
    FetchedUntil(store, task, link, count, k);
  }

  lemma CutStart(store: Store, task: Task)
    requires Paired(task.tests) && TestCount(task) >= 1 && Published(store, task)
    ensures var batches := store.meta[task.id].batches;
            batches != [] && Cut(batches, 0) == 0 && Concat(batches) == Range(0, TestCount(task))
  {
  }

  lemma FetchedUntil(store: Store, task: Task, link: nat -> bool, count: nat, k: nat)
    requires Paired(task.tests) && TestCount(task) >= 1 && Published(store, task) && Servable(store, task.id)
    requires count <= |store.meta[task.id].batches| && FailsFirstAt(link, k, count)
    ensures AllFetched(FetchedBatches(store, task.id, count, link)) <==> k == count
  {
    hide Published, Servable, Cut, Fetch, Fetchable;
    ServableBatches(store, task);
    var fetched := FetchedBatches(store, task.id, count, link);
    if k == count {
      forall b | 0 <= b < count ensures fetched[b].Some? {
        FetchBatch(store, task, b);
      }
    } else {
      assert fetched[k].None?;
    }
  }

  /**
   A batch count read before the task was uploaded again: when every batch is fetched after that, only the
   first `count` batches of the new upload are judged. That is the new upload's own report, whatever the
   submission does, if and only if the two uploads have equally many batches.
   */
  lemma StaleCountIff(store: Store, task: Task, count: nat)
    requires Paired(task.tests) && TestCount(task) >= 1 && Published(store, task) && Servable(store, task.id)
    requires 1 <= count <= |store.meta[task.id].batches|
    ensures var batches := store.meta[task.id].batches;
            && Cut(batches, count) <= TestCount(task)
            && (forall judge :: SubmissionReport(judge, FetchedBatches(store, task.id, count, b => true)) ==
                                JudgeFlat(judge, Slice(task.tests, 0, Cut(batches, count))))
            && ((forall judge :: SubmissionReport(judge, FetchedBatches(store, task.id, count, b => true)) ==
                                 JudgeFlat(judge, task.tests))
                <==> count == |batches|)
  {
    hide Published, Servable, JudgeBatches, JudgeFrom, Fetch, Fetchable, Joined, Cut, SubmissionReport;
    ServableBatches(store, task);
    var batches := store.meta[task.id].batches;
    CutStart(store, task);
    CutWithin(store, task, count);
    var first := Slice(task.tests, 0, Cut(batches, count));
    forall judge
      ensures SubmissionReport(judge, FetchedBatches(store, task.id, count, b => true)) == JudgeFlat(judge, first)
    {
      FirstBatchesAreFlat(store, task, judge, b => true, count, count);
      ThenNothing(JudgeFlat(judge, first));
    }
    if count == |batches| {
      CutEnds(batches, TestCount(task));
      assert first == task.tests;
    } else {
      var easy: Judging := (input, expected) => Report(0, 0, OK);
      MoreBatchesMoreTests(store, task, count);
      EasyReport(easy, first);
      EasyReport(easy, task.tests);
    }
  }

  /** A program that passes every test gets one entry for each. */
  lemma EasyReport(easy: Judging, tests: TaskTests)
    requires Paired(tests) && forall input, expected :: easy(input, expected).verdict == OK
    ensures |JudgeFlat(easy, tests)| == |tests.inputTests|
  {
    FlatMeaning(easy, tests, 0);
  }

  lemma MoreBatchesMoreTests(store: Store, task: Task, count: nat)
    requires Paired(task.tests) && TestCount(task) >= 1 && Published(store, task)
    requires count < |store.meta[task.id].batches|
    ensures Cut(store.meta[task.id].batches, count) < TestCount(task)
  {
    hide Cut;
    FetchBatch(store, task, count);
  }

  /** So the configured batch size, and what else is stored, make no difference to the report. */
  lemma BatchSizeDoesNotMatter(before: Store, configured: nat, after: Store,
                               before': Store, configured': nat, after': Store,
                               task: Task, judge: Judging)
    requires Paired(task.tests) && TestCount(task) >= 1
    requires Uploaded(before, task, configured, after) && Uploaded(before', task, configured', after')
    ensures Servable(after, task.id) && Servable(after', task.id)
    ensures SubmissionReport(judge, FetchedBatches(after, task.id, |after.meta[task.id].batches|, b => true)) ==
            SubmissionReport(judge, FetchedBatches(after', task.id, |after'.meta[task.id].batches|, b => true)) ==
            JudgeFlat(judge, task.tests)
  {
    hide IsGreedySplit, Fetch, Fetchable, JudgeBatches, JudgeFrom, Cut;
    UploadPublishes(before, task, configured, after);
    UploadPublishes(before', task, configured', after');
    PublishedServable(after, task);
    PublishedServable(after', task);
    ReportIsFlat(after, task, judge, b => true, |after.meta[task.id].batches|);
    ReportIsFlat(after', task, judge, b => true, |after'.meta[task.id].batches|);
  }

  /**
   The whole way: a client's tests, named and sent in any order, uploaded and perhaps followed by any
   uploads of other tasks, are judged as the simple judge judges the client's own list.
   */
  lemma ClientToReport(parts: seq<Part>, files: map<string, string>, partMap: map<string, string>,
                       tests: seq<Test>, taskId: nat, dumps: nat -> string, decode: string -> Result<nat, string>,
                       states: seq<Store>, uploads: seq<Upload>, i: nat, judge: Judging)
    requires tests != []
    requires IsForm(files, tests, dumps(taskId)) && decode(dumps(taskId)) == Success(taskId)
    requires Carries(parts, files) && IsPartMap(partMap, parts)
    requires UploadRun(states, uploads) && i < |uploads|
    requires Success(uploads[i].task) == Parsed(partMap, |parts| / 2, decode)
    requires forall j :: i < j < |uploads| ==> uploads[j].task.id != uploads[i].task.id
    ensures var store := states[|uploads|];
            && taskId in store.meta && Servable(store, taskId)
            && SubmissionReport(judge, FetchedBatches(store, taskId, |store.meta[taskId].batches|, b => true)) ==
               JudgeFlat(judge, TaskOf(taskId, tests).tests)
  {
    hide IsForm, Carries, IsPartMap, Uploaded, Parsed, IsGreedySplit, Fetch, Fetchable, JudgeBatches, JudgeFrom, Cut;
    NameRoundTrip(parts, files, partMap, tests, taskId, dumps, decode);
    StaysPublished(states, uploads, i, |uploads|);
    var store, task := states[|uploads|], uploads[i].task;
    PublishedServable(store, task);
    ReportIsFlat(store, task, judge, b => true, |store.meta[taskId].batches|);
  }

  /** The report a submission gets from what is stored, given which calls get through. */
  function ReportOf(m: Machine, builds: map<nat, Build>, store: Store, s: Submission, reached: bool, link: nat -> bool)
    : seq<Report>
    requires Servable(store, s.taskId)
  {
    var judge := JudgeFor(m, ContainerFor(m, builds, store.meta, s, reached), s);
    SubmissionReport(judge, FetchedBatches(store, s.taskId, BatchCount(builds, store.meta, s, reached), link))
  }

  /** The task a submission is for: not stored yet, or stored completely. */
  ghost predicate Concerns(s: Submission, store: Store, task: Task)
    ensures Concerns(s, store, task) ==> Servable(store, s.taskId)
  {
    && Paired(task.tests) && TestCount(task) >= 1 && s.taskId == task.id
    && (task.id in store.meta ==> Published(store, task) && (PublishedServable(store, task); true))
  }

  /**
   Verdict soundness: the report of a submission is never empty and only its last entry can be other
   than OK; and the verdict saved from the last entry is "OK" exactly when the call for the scripts got
   through, build and task are stored, the init script returned 0, every batch was fetched, and all n
   tests were run and passed.
   */
  lemma SavedOkIff(m: Machine, builds: map<nat, Build>, store: Store, s: Submission, task: Task,
                   reached: bool, link: nat -> bool)
    requires NeedsExecuteScript(m) && Concerns(s, store, task)
    ensures var report := ReportOf(m, builds, store, s, reached, link);
            var saved := ToResults(report, s.submissionId).report;
            && report != [] && |saved| == |report|
            && (forall j :: 0 <= j < |report| - 1 ==> report[j].verdict == OK)
            && (saved[|saved| - 1].verdict == "OK" <==>
                  && reached && s.buildId in builds && task.id in store.meta
                  && m.init(builds[s.buildId].initScript, s.userData) == 0
                  && (forall b :: 0 <= b < |store.meta[task.id].batches| ==> link(b))
                  && var build := builds[s.buildId];
                     AllPass(JudgeFor(m, Ready(build.initScript, build.executeScript, s.userData), s), task.tests))
            && (saved[|saved| - 1].verdict == "OK" ==> |report| == TestCount(task))
  {
    hide Servable, Published, JudgeBatches, JudgeFrom, Fetch, Fetchable, AllPass, VerdictName, AllOk, JudgeOne;
    var c := ContainerFor(m, builds, store.meta, s, reached);
    var judge := JudgeFor(m, c, s);
    if c.Ready? {
      ServableBatches(store, task);
      ServedOkIff(store, task, judge, link);
      LastDecides(ReportOf(m, builds, store, s, reached, link));
    } else {
      ReportWithoutScript(m, builds, store, s, task, reached, link);
      LastDecides(ReportOf(m, builds, store, s, reached, link));
      NotOk(ReportOf(m, builds, store, s, reached, link)[0]);
    }
  }

  lemma NotOk(one: Report)
    requires one.verdict != OK
    ensures !AllOk([one])
  {
    assert [one][0] == one;
  }

  /**
   The report when there is no execute script. If scripts and metadata were not fetched, one RE entry,
   for a run on empty texts; if the init script failed, one CRASH entry when the first batch cannot be
   fetched, else one RE entry for the first test.
   */
  lemma ReportWithoutScript(m: Machine, builds: map<nat, Build>, store: Store, s: Submission, task: Task,
                            reached: bool, link: nat -> bool)
    requires NeedsExecuteScript(m) && Concerns(s, store, task)
    requires !ContainerFor(m, builds, store.meta, s, reached).Ready?
    ensures var c := ContainerFor(m, builds, store.meta, s, reached);
            var report := ReportOf(m, builds, store, s, reached, link);
            var input := if c.Bare? then "" else task.tests.inputTests[0];
            var e := m.run(c, input);
            && c == (if reached && s.buildId in builds && task.id in store.meta
                     then InitFailed(builds[s.buildId].initScript, s.userData) else Bare)
            && report == if c.InitFailed? && !link(0) then [Report(0, 0, CRASH)]
                      else [Report(e.cpuTimeElapsedMicroSeconds / 1000, e.memorySpent, RE)]
  {
    var c := ContainerFor(m, builds, store.meta, s, reached);
    var judge := JudgeFor(m, c, s);
    if c.InitFailed? {
      FirstBatch(store, task, judge, link);
    }
  }

  /** A report that ends at the first batch: it could not be fetched, or its first test is not OK. */
  lemma FirstBatch(store: Store, task: Task, judge: Judging, link: nat -> bool)
    requires Paired(task.tests) && TestCount(task) >= 1 && Published(store, task) && Servable(store, task.id)
    requires judge(task.tests.inputTests[0], task.tests.outputTests[0]).verdict != OK
    ensures SubmissionReport(judge, FetchedBatches(store, task.id, |store.meta[task.id].batches|, link)) ==
            if !link(0) then [LOST] else [judge(task.tests.inputTests[0], task.tests.outputTests[0])]
  {
    hide Servable, Fetch, Fetchable, Cut, IsGreedySplit;
    ServableBatches(store, task);
    CutStart(store, task);
    FetchBatch(store, task, 0);
    NotOk(judge(task.tests.inputTests[0], task.tests.outputTests[0]));
  }

  predicate AllPass(judge: Judging, tests: TaskTests)
    requires Paired(tests)
  {
    forall i :: 0 <= i < |tests.inputTests| ==> judge(tests.inputTests[i], tests.outputTests[i]).verdict == OK
  }

  lemma LastDecides(report: seq<Report>)
    requires report != [] && forall j :: 0 <= j < |report| - 1 ==> report[j].verdict == OK
    ensures AllOk(report) <==> VerdictName(report[|report| - 1].verdict) == "OK"
  {
    if VerdictName(report[|report| - 1].verdict) == VerdictName(OK) {
      VerdictNameInjective(report[|report| - 1].verdict, OK);
    }
  }

  /** Either no batch call fails, or there is a first one that does. */
  lemma {:induction false} FirstFailure(link: nat -> bool, count: nat) returns (k: nat)
    ensures FailsFirstAt(link, k, count)
  {
    k := 0;
    while k < count && link(k)
      invariant k <= count && forall b :: 0 <= b < k ==> link(b)
    {
      k := k + 1;
    }
  }

  lemma ServedOkIff(store: Store, task: Task, judge: Judging, link: nat -> bool)
    requires Paired(task.tests) && TestCount(task) >= 1 && Published(store, task) && Servable(store, task.id)
    ensures var count := |store.meta[task.id].batches|;
            var report := SubmissionReport(judge, FetchedBatches(store, task.id, count, link));
            && report != []
            && (forall j :: 0 <= j < |report| - 1 ==> report[j].verdict == OK)
            && (AllOk(report) <==> (forall b :: 0 <= b < count ==> link(b)) && AllPass(judge, task.tests))
            && (AllOk(report) ==> |report| == TestCount(task))
  {
    hide Servable, JudgeBatches, JudgeFrom, Fetch, Fetchable, Joined, IsGreedySplit;
    ServableBatches(store, task);
    var count := |store.meta[task.id].batches|;
    var fetched := FetchedBatches(store, task.id, count, link);
    var k := FirstFailure(link, count);
    ReportIsFlat(store, task, judge, link, k);
    FetchedUntil(store, task, link, count, k);
    CutStart(store, task);
    BatchReportMeaning(judge, fetched);
    FlatMeaning(judge, task.tests, 0);
    assert (forall b :: 0 <= b < count ==> link(b)) <==> k == count;
    if k < count {
      assert !AllFetched(fetched);
    }
  }

  // ----- Which verdict is saved

  /** Batch call `k` is the first to fail, and all tests of the batches before it pass. */
  ghost predicate Loses(store: Store, task: Task, judge: Judging, link: nat -> bool, k: nat)
    requires Paired(task.tests) && task.id in store.meta
  {
    var batches := store.meta[task.id].batches;
    && k < |batches| && FailsFirstAt(link, k, |batches|) && Cut(batches, k) <= TestCount(task)
    && AllPass(judge, Slice(task.tests, 0, Cut(batches, k)))
  }

  ghost predicate LosesSome(store: Store, task: Task, judge: Judging, link: nat -> bool)
    requires Paired(task.tests) && task.id in store.meta
  {
    exists k :: Loses(store, task, judge, link, k)
  }

  /**
   The last entry of a served submission: CRASH with no time and no memory, after one entry for each test
   fetched, exactly when a batch call failed after only OK; otherwise the last test's own report, entry
   by entry after those of the tests before it.
   */
  lemma LastEntry(store: Store, task: Task, judge: Judging, link: nat -> bool)
    requires Paired(task.tests) && TestCount(task) >= 1 && Published(store, task) && Servable(store, task.id)
    ensures var batches := store.meta[task.id].batches;
            var report := SubmissionReport(judge, FetchedBatches(store, task.id, |batches|, link));
            && report != []
            && (forall k :: Loses(store, task, judge, link, k) ==> |report| == Cut(batches, k) + 1)
            && if LosesSome(store, task, judge, link) then report[|report| - 1] == Report(0, 0, CRASH)
               else
                 && |report| <= TestCount(task)
                 && var i := |report| - 1;
                    report[i] == judge(task.tests.inputTests[i], task.tests.outputTests[i])
  {
    hide Published, Servable, JudgeBatches, JudgeFrom, Fetch, Fetchable, Joined, Cut, SubmissionReport, AllOk;
    ServableBatches(store, task);
    CutStart(store, task);
    var batches := store.meta[task.id].batches;
    var n := FirstFailure(link, |batches|);
    forall k | Loses(store, task, judge, link, k) ensures k == n {
    }
    ReportIsFlat(store, task, judge, link, n);
    CutEnds(batches, TestCount(task));
    var fetched := Slice(task.tests, 0, Cut(batches, n));
    FlatMeaning(judge, fetched, 0);
    assert Loses(store, task, judge, link, n) <==> n < |batches| && AllPass(judge, fetched);
    if !AllOk(JudgeFlat(judge, fetched)) {
      EmptyIsOk();
    }
  }

  lemma EmptyIsOk()
    ensures AllOk([])
  {
  }

  /** What is saved for a run is what its limits and its output call for. */
  ghost predicate SavedFor(last: TestResult, s: Submission, e: Execution, diff: int) {
    var late := e.cpuTimeElapsedMicroSeconds > (s.cpuTimeLimitMilliSeconds * 1000) % 0x1_0000_0000_0000_0000;
    var within := e.exitCode == 0 && !late && e.memorySpent <= s.memoryLimit;
    && last.cpuTimeElapsedMilliSeconds == e.cpuTimeElapsedMicroSeconds / 1000 && last.memorySpent == e.memorySpent
    && (last.verdict == "RE" <==> e.exitCode != 0)
    && (last.verdict == "TL" <==> e.exitCode == 0 && late)
    && (last.verdict == "ML" <==> e.exitCode == 0 && !late && e.memorySpent > s.memoryLimit)
    && (last.verdict == "OK" <==> within && diff == 0)
    && (last.verdict == "WA" <==> within && diff == 1)
    && (last.verdict == "CRASH" <==> within && diff != 0 && diff != 1)
  }

  lemma OneSaved(m: Machine, c: Container, s: Submission, input: string, expected: string)
    ensures var e, one := m.run(c, input), JudgeOne(m, c, s, input, expected);
            SavedFor(TestResult(one.cpuTimeElapsedMilliSeconds, one.memorySpent, VerdictName(one.verdict)), s, e,
                     m.diff(e.output, expected))
  {
    hide VerdictName, JudgeOne;
    VerdictIff(m, c, s, input, expected);
    VerdictNameIff(JudgeOne(m, c, s, input, expected).verdict);
  }

  /**
   Which verdict is saved, for every submission: "CRASH" with zeros exactly when a batch call failed after
   only OK, else the verdict, time and memory of the last run in the submission's own container, on empty
   texts without scripts and metadata and on the last test judged with them.
   */
  lemma SavedVerdictIff(m: Machine, builds: map<nat, Build>, store: Store, s: Submission, task: Task,
                        reached: bool, link: nat -> bool)
    requires Concerns(s, store, task)
    ensures var saved := ToResults(ReportOf(m, builds, store, s, reached, link), s.submissionId).report;
            var n := |saved|;
            n >= 1
            && if !(reached && s.buildId in builds && task.id in store.meta) then
                 var e := m.run(Bare, "");
                 n == 1 && SavedFor(saved[0], s, e, m.diff(e.output, ""))
               else
                 var build := builds[s.buildId];
                 var c := if m.init(build.initScript, s.userData) == 0
                          then Ready(build.initScript, build.executeScript, s.userData)
                          else InitFailed(build.initScript, s.userData);
                 if LosesSome(store, task, JudgeFor(m, c, s), link) then saved[n - 1] == TestResult(0, 0, "CRASH")
                 else
                   && n <= TestCount(task)
                   && var e := m.run(c, task.tests.inputTests[n - 1]);
                      SavedFor(saved[n - 1], s, e, m.diff(e.output, task.tests.outputTests[n - 1]))
  {
    hide Servable, Published, JudgeBatches, Fetch, Fetchable, AllPass, VerdictName, JudgeOne, SavedFor, LosesSome;
    var c := ContainerFor(m, builds, store.meta, s, reached);
    var judge := JudgeFor(m, c, s);
    VerdictNameIff(CRASH);
    if c.Bare? {
      OneSaved(m, c, s, "", "");
    } else {
      ServableBatches(store, task);
      CutStart(store, task);
      LastEntry(store, task, judge, link);
      var n := |ReportOf(m, builds, store, s, reached, link)|;
      if n <= TestCount(task) {
        OneSaved(m, c, s, task.tests.inputTests[n - 1], task.tests.outputTests[n - 1]);
      }
    }
  }
}
