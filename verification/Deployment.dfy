/**
 Uploads, batch fetches and file steps of all testing processors at once. Every document access, call
 and file access is one atomic step, and all steps interleave in any order. The stored builds stay the
 same throughout.
 */
module Deployment {
  import opened Wrappers
  import opened Batching
  import opened Storage
  import opened Uploads
  import opened Judge
  import opened TestingProcessor
  import Publication
  import Workers
  import Pipeline

  /** What a submission's processing knows: whether the scripts call got through, and how far it is. */
  datatype Progress = Progress(reached: bool, container: Container, count: nat, batch: nat, report: seq<Report>)

  datatype Phase =
    | Preparing
    | Asking(progress: Progress)
    | Fetching(progress: Progress, fetcher: Publication.Fetcher)
    | Judging(progress: Progress, worker: Workers.Worker)  // a worker with the batch as its one job

  /** A finished submission; `lost` is the batch whose call failed, if one did. */
  datatype Outcome = Outcome(submission: Submission, reached: bool, container: Container, report: seq<Report>,
                             lost: Option<nat>)

  datatype Runner = Runner(queue: seq<Submission>, phase: Phase, finished: seq<Outcome>)

  datatype System = System(store: Store, files: Workers.Files, uploaders: seq<Publication.Uploader>,
                           runners: seq<Runner>)

  /** `through` says whether a call made in this step gets through, `key` which document a read is of. */
  datatype Event = Upload(uploader: nat) | Act(runner: nat, through: bool, key: DocKey)

  // ----- Steps

  function Close(r: Runner, report: seq<Report>, lost: Option<nat>): Runner
    requires r.queue != [] && !r.phase.Preparing?
  {
    var p := r.phase.progress;
    Runner(r.queue[1..], Preparing, r.finished + [Outcome(r.queue[0], p.reached, p.container, report, lost)])
  }

  /** Scripts and metadata are read; without metadata one run on empty texts follows. */
  function Prepare(m: Machine, builds: map<nat, Build>, store: Store, r: Runner, through: bool): Runner
    requires r.queue != []
  {
    var s := r.queue[0];
    var c, count := ContainerFor(m, builds, store.meta, s, through), BatchCount(builds, store.meta, s, through);
    var progress := Progress(through, c, count, 0, []);
    if count == 0 then r.(phase := Judging(progress, Workers.Fresh([EmptyRun(s, c)])))
    else r.(phase := Asking(progress))
  }

  function EmptyRun(s: Submission, c: Container): Workers.Job {
    Workers.Job(s, c, TaskTests([""], [""]))
  }

  /** The next batch is asked for, unless there is none left or the call fails. */
  function AskNext(store: Store, r: Runner, through: bool): Runner
    requires r.queue != [] && r.phase.Asking?
  {
    var p := r.phase.progress;
    if p.batch >= p.count then Close(r, p.report, None)
    else if !through then Close(r, p.report + [LOST], Some(p.batch))
    else
      var asked := Publication.Asked(store, Publication.Idle, r.queue[0].taskId, p.batch);
      if asked.Idle? then r else r.(phase := Fetching(p, asked))
  }

  function FetchNext(store: Store, r: Runner, key: DocKey): Runner
    requires r.queue != [] && r.phase.Fetching?
  {
    var p, f := r.phase.progress, r.phase.fetcher;
    match f
    case Idle => r
    case Reading(_, _, _, left, _, _) =>
      r.(phase := Fetching(p, if left == {} then Publication.Finished(f) else Publication.Received(store, f, key)))
    case Done(_, _, Failure(_)) => Close(r, p.report + [LOST], Some(p.batch))
    case Done(_, _, Success(tests)) =>
      r.(phase := Judging(p, Workers.Fresh([Workers.Job(r.queue[0], p.container, tests)])))
  }

  /** After the last file step of a batch the report grows by the batch's; the first not OK ends it. */
  function Judged(r: Runner, w: Workers.Worker): Runner
    requires r.queue != [] && r.phase.Judging?
  {
    var p := r.phase.progress;
    if w.finished == [] then r.(phase := Judging(p, w))
    else
      var report := p.report + w.finished[0];
      if p.count > 0 && AllOk(w.finished[0]) then r.(phase := Asking(p.(batch := p.batch + 1, report := report)))
      else Close(r, report, None)
  }

  function Acted(m: Machine, builds: map<nat, Build>, store: Store, i: nat, r: Runner, files: Workers.Files,
                 through: bool, key: DocKey): (Runner, Workers.Files)
  {
    if r.queue == [] then (r, files)
    else
      match r.phase
      case Preparing => (Prepare(m, builds, store, r, through), files)
      case Asking(_) => (AskNext(store, r, through), files)
      case Fetching(_, _) => (FetchNext(store, r, key), files)
      case Judging(_, worker) =>
        var (w, files') := Workers.StepOf(m, i, worker, files);
        (Judged(r, w), files')
  }

  function Step(m: Machine, builds: map<nat, Build>, s: System, e: Event): (s': System)
    requires Publication.AllPaired(s.uploaders)
    ensures Publication.AllPaired(s'.uploaders)
  {
    match e
    case Upload(u) =>
      if u >= |s.uploaders| then s
      else s.(store := Publication.Wrote(s.store, s.uploaders[u]),
              uploaders := s.uploaders[u := Publication.Advanced(s.uploaders[u])])
    case Act(i, through, key) =>
      if i >= |s.runners| then s
      else
        var (r, files) := Acted(m, builds, s.store, i, s.runners[i], s.files, through, key);
        s.(files := files, runners := s.runners[i := r])
  }

  function Run(m: Machine, builds: map<nat, Build>, s: System, events: seq<Event>): (s': System)
    requires Publication.AllPaired(s.uploaders)
    ensures Publication.AllPaired(s'.uploaders)
  {
    if events == [] then s
    else Step(m, builds, Run(m, builds, s, events[..|events| - 1]), events[|events| - 1])
  }

  // ----- What a report has to be

  /** Uploads not begun, under way or complete, and for no two of them the same task. */
  ghost predicate Starting(s: System) {
    && Publication.OneUploadEach(s.uploaders)
    && (forall u :: 0 <= u < |s.uploaders| ==> Publication.UploaderOk(s.store, s.uploaders[u]))
    && (forall i :: 0 <= i < |s.runners| ==> s.runners[i].phase == Preparing && s.runners[i].finished == [])
  }

  ghost predicate IsPublished(u: Publication.Uploader) {
    u.written > 2 * TestCount(u.task)
  }

  /**
   The outcome of a submission for this upload. `early` says that the upload was complete before the
   submission started.
   */
  ghost predicate OutcomeOk(m: Machine, builds: map<nat, Build>, o: Outcome, u: Publication.Uploader, early: bool)
    requires Paired(u.task.tests)
  {
    var s, batches, judge := o.submission, u.metaData.batches, JudgeFor(m, o.container, o.submission);
    if o.container.Bare? then
      o.report == [judge("", "")] && o.lost.None? && !(early && o.reached && s.buildId in builds)
    else
      && o.reached && s.buildId in builds && o.container == Prepared(m, builds[s.buildId], s)
      && match o.lost
         case None => o.report == JudgeFlat(judge, u.task.tests)
         case Some(k) => LostAt(judge, o.report, u, k)
  }

  /** Everything before batch `k` is OK, and then one CRASH entry. */
  ghost predicate LostAt(judge: Judging, report: seq<Report>, u: Publication.Uploader, k: nat)
    requires Paired(u.task.tests)
  {
    && Publication.Names(u, k)
    && var before := JudgeFlat(judge, Slice(u.task.tests, 0, Cut(u.metaData.batches, k)));
       AllOk(before) && report == before + [Report(0, 0, CRASH)]
  }

  // ----- What every step keeps

  ghost predicate UploadSound(u: Publication.Uploader) {
    Paired(u.task.tests) && TestCount(u.task) >= 1 && Describes(u.metaData, u.task)
  }

  /** A submission under way whose scripts and metadata were found. */
  ghost predicate Serving(m: Machine, builds: map<nat, Build>, s: Submission, p: Progress, u: Publication.Uploader)
    requires Paired(u.task.tests)
  {
    && p.reached && s.buildId in builds && p.container == Prepared(m, builds[s.buildId], s)
    && IsPublished(u) && p.count == |u.metaData.batches| && p.batch <= p.count
    && Cut(u.metaData.batches, p.batch) <= TestCount(u.task)
    && AllOk(p.report)
    && p.report == JudgeFlat(JudgeFor(m, p.container, s), Slice(u.task.tests, 0, Cut(u.metaData.batches, p.batch)))
  }

  ghost predicate FetchOk(f: Publication.Fetcher, u: Publication.Uploader, batch: nat)
    requires Paired(u.task.tests)
  {
    && Publication.FetcherOk(f, u) && Publication.Names(u, batch)
    && !f.Idle? && f.taskId == u.task.id && f.batchId == batch
    && (f.Done? ==> f.result.Success?)
  }

  /** The one job of a runner's worker is not finished. */
  ghost predicate JobOk(m: Machine, i: nat, w: Workers.Worker, files: Workers.Files, job: Workers.Job) {
    Workers.WorkerOk(m, i, w, files, [job]) && w.finished == []
  }

  ghost predicate PhaseOk(m: Machine, builds: map<nat, Build>, i: nat, s: Submission, phase: Phase,
                          files: Workers.Files, u: Publication.Uploader, early: bool)
    requires Paired(u.task.tests)
  {
    match phase
    case Preparing => true
    case Asking(p) => Serving(m, builds, s, p, u)
    case Fetching(p, f) => Serving(m, builds, s, p, u) && FetchOk(f, u, p.batch)
    case Judging(p, w) =>
      if p.count == 0 then
        && p.container.Bare? && p.report == [] && !(early && p.reached && s.buildId in builds)
        && JobOk(m, i, w, files, EmptyRun(s, Bare))
      else
        && Serving(m, builds, s, p, u) && Publication.Names(u, p.batch)
        && JobOk(m, i, w, files, Workers.Job(s, p.container, Publication.BatchOf(u, p.batch)))
  }

  /** A runner, against the upload of one task; submissions for other tasks are not constrained. */
  ghost predicate RunnerOk(m: Machine, builds: map<nat, Build>, i: nat, r: Runner, files: Workers.Files,
                           u: Publication.Uploader, early: bool)
    requires Paired(u.task.tests)
  {
    && (r.queue != [] && r.queue[0].taskId == u.task.id ==>
          PhaseOk(m, builds, i, r.queue[0], r.phase, files, u, early))
    && (forall j :: 0 <= j < |r.finished| && r.finished[j].submission.taskId == u.task.id ==>
          OutcomeOk(m, builds, r.finished[j], u, early))
  }

  lemma CloseOk(m: Machine, builds: map<nat, Build>, i: nat, r: Runner, files: Workers.Files, u: Publication.Uploader,
                early: bool, report: seq<Report>, lost: Option<nat>)
    requires UploadSound(u) && RunnerOk(m, builds, i, r, files, u, early)
    requires r.queue != [] && !r.phase.Preparing?
    requires var p := r.phase.progress;
             r.queue[0].taskId == u.task.id ==>
               OutcomeOk(m, builds, Outcome(r.queue[0], p.reached, p.container, report, lost), u, early)
    ensures forall files' :: RunnerOk(m, builds, i, Close(r, report, lost), files', u, early)
  {
    hide OutcomeOk, UploadSound;
  }

  lemma PrepareOk(m: Machine, builds: map<nat, Build>, store: Store, i: nat, s: Submission, files: Workers.Files,
                  u: Publication.Uploader, early: bool, r: Runner, through: bool)
    requires UploadSound(u) && Publication.UploaderOk(store, u) && (early ==> IsPublished(u))
    requires r.queue != [] && r.queue[0] == s && s.taskId == u.task.id
    ensures PhaseOk(m, builds, i, s, Prepare(m, builds, store, r, through).phase, files, u, early)
  {
    hide Workers.WorkerOk, Cut, JudgeFrom;
    Workers.FreshOk(m, i, files, [EmptyRun(s, Bare)]);
    if Served(builds, store.meta, s, through) {
      NothingJudged(u, JudgeFor(m, Prepared(m, builds[s.buildId], s), s));
    }
  }

  lemma NothingJudged(u: Publication.Uploader, judge: Judging)
    requires UploadSound(u)
    ensures |u.metaData.batches| >= 1 && Cut(u.metaData.batches, 0) == 0
    ensures JudgeFlat(judge, Slice(u.task.tests, 0, 0)) == [] && AllOk([])
  {
  }

  lemma CutOk(u: Publication.Uploader, batch: nat)
    requires UploadSound(u)
    ensures batch < |u.metaData.batches| ==> Publication.Names(u, batch)
    ensures Cut(u.metaData.batches, |u.metaData.batches|) == TestCount(u.task)
  {
    hide Cut;
    CutEnds(u.metaData.batches, TestCount(u.task));
    if batch < |u.metaData.batches| {
      BatchIsRange(u.metaData.batches, TestCount(u.task), batch);
    }
  }

  lemma AskNextOk(m: Machine, builds: map<nat, Build>, store: Store, i: nat, r: Runner, files: Workers.Files,
                  u: Publication.Uploader, early: bool, through: bool)
    requires UploadSound(u) && Publication.UploaderOk(store, u)
    requires RunnerOk(m, builds, i, r, files, u, early) && r.queue != [] && r.phase.Asking?
    ensures RunnerOk(m, builds, i, AskNext(store, r, through), files, u, early)
  {
    hide JudgeFrom, Cut, Describes, AllOk, Publication.FetcherOk, JudgeFor, Publication.Asked;
    var p := r.phase.progress;
    if p.batch >= p.count {
      if r.queue[0].taskId == u.task.id {
        CutOk(u, p.batch);
        assert Slice(u.task.tests, 0, TestCount(u.task)) == u.task.tests;
      }
      CloseOk(m, builds, i, r, files, u, early, p.report, None);
    } else if !through {
      if r.queue[0].taskId == u.task.id {
        CutOk(u, p.batch);
      }
      CloseOk(m, builds, i, r, files, u, early, p.report + [LOST], Some(p.batch));
    } else if r.queue[0].taskId == u.task.id {
      CutOk(u, p.batch);
      AskFinds(store, u, p.batch);
      Publication.AskOk(store, Publication.Idle, u, u.task.id, p.batch);
    }
  }

  lemma AskFinds(store: Store, u: Publication.Uploader, batch: nat)
    requires UploadSound(u) && Publication.UploaderOk(store, u) && IsPublished(u) && batch < |u.metaData.batches|
    ensures var asked := Publication.Asked(store, Publication.Idle, u.task.id, batch);
            asked.Reading? && asked.taskId == u.task.id && asked.batchId == batch
    ensures Publication.FetcherOk(Publication.Idle, u)
  {
    hide IsGreedySplit, Cut, Publication.BatchKeys;
    BatchFromEnds(u.metaData.batches, TaskSizes(u.task), Limit(TaskSizes(u.task), u.metaData.batchSize), batch);
  }

  lemma FetchNextOk(m: Machine, builds: map<nat, Build>, store: Store, i: nat, r: Runner, files: Workers.Files,
                    u: Publication.Uploader, early: bool, key: DocKey)
    requires UploadSound(u) && Publication.UploaderOk(store, u)
    requires RunnerOk(m, builds, i, r, files, u, early) && r.queue != [] && r.phase.Fetching?
    ensures RunnerOk(m, builds, i, FetchNext(store, r, key), files, u, early)
  {
    hide Serving, Cut, Describes, AllOk, OutcomeOk, Publication.FetcherOk, JudgeFor, Prepared, Workers.WorkerOk;
    var p, f := r.phase.progress, r.phase.fetcher;
    if f.Done? && f.result.Failure? {
      CloseOk(m, builds, i, r, files, u, early, p.report + [LOST], Some(p.batch));
    } else if r.queue[0].taskId == u.task.id {
      match f
      case Reading(_, _, _, left, _, _) =>
        if left == {} {
          Publication.FinishOk(f, u);
        } else {
          Publication.CopyOk(store, f, u, key);
        }
      case Done(_, _, Success(tests)) =>
        DoneIsBatch(f, u, p.batch);
        ServingCounts(m, builds, r.queue[0], p, u);
        Workers.FreshOk(m, i, files, [Workers.Job(r.queue[0], p.container, tests)]);
    }
  }

  lemma DoneIsBatch(f: Publication.Fetcher, u: Publication.Uploader, batch: nat)
    requires UploadSound(u) && FetchOk(f, u, batch) && f.Done?
    ensures Publication.Names(u, batch) && f.result == Success(Publication.BatchOf(u, batch))
  {
  }

  lemma ServingCounts(m: Machine, builds: map<nat, Build>, s: Submission, p: Progress, u: Publication.Uploader)
    requires UploadSound(u) && Serving(m, builds, s, p, u)
    ensures p.count > 0
  {
  }

  /** One more batch, or its first tests up to one that is not OK, on top of what was all OK. */
  lemma BatchJudged(judge: Judging, u: Publication.Uploader, batch: nat)
    requires UploadSound(u) && Publication.Names(u, batch)
    ensures var before := JudgeFlat(judge, Slice(u.task.tests, 0, Cut(u.metaData.batches, batch)));
            var one := JudgeFlat(judge, Publication.BatchOf(u, batch));
            var after := JudgeFlat(judge, Slice(u.task.tests, 0, Cut(u.metaData.batches, batch + 1)));
            AllOk(before) ==>
              && before + one == after && (AllOk(one) <==> AllOk(after))
              && (!AllOk(one) ==> after == JudgeFlat(judge, u.task.tests))
  {
    hide JudgeFrom, Cut, Describes, AllOk;
    var tests, lo, hi := u.task.tests, Cut(u.metaData.batches, batch), Cut(u.metaData.batches, batch + 1);
    Pipeline.JoinParts(tests, 0, lo, hi);
    JudgeAppend(judge, Slice(tests, 0, lo), Slice(tests, lo, hi), 0);
    Pipeline.JoinParts(tests, 0, hi, TestCount(u.task));
    JudgeAppend(judge, Slice(tests, 0, hi), Slice(tests, hi, TestCount(u.task)), 0);
    assert Slice(tests, 0, TestCount(u.task)) == tests;
    if AllOk(JudgeFlat(judge, Slice(tests, 0, lo))) {
      BothOk(JudgeFlat(judge, Slice(tests, 0, lo)), JudgeFlat(judge, Slice(tests, lo, hi)));
    }
  }

  lemma BothOk(a: seq<Report>, b: seq<Report>)
    requires AllOk(a)
    ensures AllOk(a + b) <==> AllOk(b)
  {
    assert forall j :: 0 <= j < |b| ==> b[j] == (a + b)[|a| + j];
  }

  lemma OneEmptyRun(m: Machine, s: Submission)
    ensures Workers.PairedJob(EmptyRun(s, Bare))
    ensures Workers.JobReport(m, EmptyRun(s, Bare)) == [JudgeFor(m, Bare, s)("", "")]
  {
    var judge, tests := JudgeFor(m, Bare, s), TaskTests([""], [""]);
    assert JudgeFrom(judge, tests, 1) == [];
  }

  /** A worker's step on its one job: not finished yet, or finished with the simple judge's report. */
  lemma JobStep(m: Machine, i: nat, w: Workers.Worker, files: Workers.Files, job: Workers.Job)
    requires JobOk(m, i, w, files, job)
    ensures var (w', files') := Workers.StepOf(m, i, w, files);
            if w'.finished == [] then JobOk(m, i, w', files', job)
            else Workers.PairedJob(job) && w'.finished[0] == Workers.JobReport(m, job)
  {
    hide Workers.StepOf, Workers.ProgressOk, Workers.JobReport;
    assert [job][0] == job;
    Workers.StepOk(m, i, w, files, [job]);
  }

  lemma JudgedOk(m: Machine, builds: map<nat, Build>, i: nat, r: Runner, files: Workers.Files, u: Publication.Uploader,
                 early: bool)
    requires UploadSound(u) && RunnerOk(m, builds, i, r, files, u, early) && r.queue != [] && r.phase.Judging?
    ensures var (w, files') := Workers.StepOf(m, i, r.phase.worker, files);
            RunnerOk(m, builds, i, Judged(r, w), files', u, early)
  {
    hide JudgeFrom, Cut, Describes, AllOk, JobOk, JudgeFor, Workers.StepOf;
    var p, s := r.phase.progress, r.queue[0];
    var (w, files') := Workers.StepOf(m, i, r.phase.worker, files);
    if s.taskId == u.task.id {
      if p.count == 0 {
        JobStep(m, i, r.phase.worker, files, EmptyRun(s, Bare));
        OneEmptyRun(m, s);
      } else {
        JobStep(m, i, r.phase.worker, files, Workers.Job(s, p.container, Publication.BatchOf(u, p.batch)));
        BatchJudged(JudgeFor(m, p.container, s), u, p.batch);
      }
    }
    if w.finished != [] && !(p.count > 0 && AllOk(w.finished[0])) {
      CloseOk(m, builds, i, r, files, u, early, p.report + w.finished[0], None);
    }
  }

  lemma ActOk(m: Machine, builds: map<nat, Build>, store: Store, i: nat, r: Runner, files: Workers.Files,
              u: Publication.Uploader, early: bool, through: bool, key: DocKey)
    requires UploadSound(u) && Publication.UploaderOk(store, u) && (early ==> IsPublished(u))
    requires RunnerOk(m, builds, i, r, files, u, early)
    ensures var (r', files') := Acted(m, builds, store, i, r, files, through, key);
            RunnerOk(m, builds, i, r', files', u, early)
  {
    hide UploadSound, Publication.UploaderOk, PhaseOk, OutcomeOk, AskNext, FetchNext, Judged, Workers.StepOf;
    if r.queue != [] {
      match r.phase
      case Preparing =>
        if r.queue[0].taskId == u.task.id {
          PrepareOk(m, builds, store, i, r.queue[0], files, u, early, r, through);
        }
      case Asking(_) => AskNextOk(m, builds, store, i, r, files, u, early, through);
      case Fetching(_, _) => FetchNextOk(m, builds, store, i, r, files, u, early, key);
      case Judging(_, _) => JudgedOk(m, builds, i, r, files, u, early);
    }
  }

  /** Another runner's step changes no file of runner `i`. */
  lemma ActElsewhere(m: Machine, builds: map<nat, Build>, store: Store, i: nat, r: Runner, files: Workers.Files,
                     u: Publication.Uploader, early: bool, j: nat, other: Runner, through: bool, key: DocKey)
    requires UploadSound(u) && RunnerOk(m, builds, i, r, files, u, early) && i != j
    ensures RunnerOk(m, builds, i, r, Acted(m, builds, store, j, other, files, through, key).1, u, early)
  {
    hide Describes, Serving, OutcomeOk, Workers.WorkerOk, Workers.StepOf, Workers.SameFor, Prepare, AskNext, FetchNext,
         Judged;
    if && other.queue != [] && other.phase.Judging?
       && r.queue != [] && r.phase.Judging? && r.queue[0].taskId == u.task.id
    {
      var s, p, w := r.queue[0], r.phase.progress, r.phase.worker;
      var files' := Workers.StepOf(m, j, other.phase.worker, files).1;
      Workers.StepKeepsOthers(m, j, other.phase.worker, files, i);
      Workers.SameSymmetric(i, files', files);
      if p.count == 0 {
        Workers.WorkerOkElsewhere(m, i, w, files, files', [EmptyRun(s, Bare)]);
      } else {
        var job := Workers.Job(s, p.container, Publication.BatchOf(u, p.batch));
        Workers.WorkerOkElsewhere(m, i, w, files, files', [job]);
      }
    }
  }

  lemma AdvanceKeepsRunner(m: Machine, builds: map<nat, Build>, i: nat, r: Runner, files: Workers.Files,
                           u: Publication.Uploader, early: bool)
    requires UploadSound(u) && RunnerOk(m, builds, i, r, files, u, early)
    ensures UploadSound(Publication.Advanced(u))
    ensures RunnerOk(m, builds, i, r, files, Publication.Advanced(u), early)
  {
    hide Describes, JudgeFrom, Cut, AllOk, JobOk, Publication.FetcherOk;
    if r.queue != [] && r.queue[0].taskId == u.task.id && r.phase.Fetching? {
      Publication.AdvanceKeepsFetcher(r.phase.fetcher, u);
    }
  }

  /** Everything about one upload `u` and one runner `i`, and the queue the runner started with. */
  ghost predicate Invariant(m: Machine, builds: map<nat, Build>, s: System, i: nat, u: nat, early: bool,
                            queue: seq<Submission>)
  {
    && SystemOk(s) && i < |s.runners| && u < |s.uploaders|
    && UploadSound(s.uploaders[u]) && (early ==> IsPublished(s.uploaders[u]))
    && RunnerOk(m, builds, i, s.runners[i], s.files, s.uploaders[u], early)
    && InOrder(s.runners[i], queue)
  }

  ghost predicate SystemOk(s: System) {
    && Publication.OneUploadEach(s.uploaders)
    && forall u :: 0 <= u < |s.uploaders| ==> Publication.UploaderOk(s.store, s.uploaders[u])
  }

  /** Submissions are taken from the queue in order. */
  ghost predicate InOrder(r: Runner, queue: seq<Submission>) {
    && |r.finished| <= |queue| && r.queue == queue[|r.finished|..]
    && forall j :: 0 <= j < |r.finished| ==> r.finished[j].submission == queue[j]
  }

  lemma ActInOrder(m: Machine, builds: map<nat, Build>, store: Store, i: nat, r: Runner, files: Workers.Files,
                   through: bool, key: DocKey, queue: seq<Submission>)
    requires InOrder(r, queue)
    ensures InOrder(Acted(m, builds, store, i, r, files, through, key).0, queue)
  {
    hide Workers.StepOf, Publication.Asked, Publication.Received, Publication.Finished, Workers.Fresh, ContainerFor,
         BatchCount;
  }

  lemma UploadKeepsSystem(s: System, w: nat)
    requires SystemOk(s) && w < |s.uploaders|
    ensures var store, up := Publication.Wrote(s.store, s.uploaders[w]), Publication.Advanced(s.uploaders[w]);
            SystemOk(s.(store := store, uploaders := s.uploaders[w := up]))
  {
    hide Publication.UploaderOk, IsGreedySplit, Publication.Wrote;
    var store, up := Publication.Wrote(s.store, s.uploaders[w]), Publication.Advanced(s.uploaders[w]);
    var uploaders := s.uploaders[w := up];
    forall u | 0 <= u < |uploaders| ensures Publication.UploaderOk(store, uploaders[u]) {
      if u == w {
        Publication.WriteOwn(s.store, s.uploaders[w]);
      } else {
        Publication.WriteOther(s.store, s.uploaders[w], s.uploaders[u]);
      }
    }
  }

  lemma StepKeeps(m: Machine, builds: map<nat, Build>, s: System, e: Event, i: nat, u: nat, early: bool,
                  queue: seq<Submission>)
    requires Invariant(m, builds, s, i, u, early, queue) && Publication.AllPaired(s.uploaders)
    ensures Invariant(m, builds, Step(m, builds, s, e), i, u, early, queue)
  {
    hide UploadSound, RunnerOk, InOrder, Acted, SystemOk, Publication.Wrote;
    match e
    case Upload(w) =>
      if w < |s.uploaders| {
        UploadKeepsSystem(s, w);
        AdvanceKeepsRunner(m, builds, i, s.runners[i], s.files, s.uploaders[u], early);
      }
    case Act(j, through, key) =>
      if j < |s.runners| {
        UploaderIsOk(s, u);
        if i == j {
          ActOk(m, builds, s.store, i, s.runners[i], s.files, s.uploaders[u], early, through, key);
          ActInOrder(m, builds, s.store, i, s.runners[i], s.files, through, key, queue);
        } else {
          ActElsewhere(m, builds, s.store, i, s.runners[i], s.files, s.uploaders[u], early,
                       j, s.runners[j], through, key);
        }
        SameUploads(s, Step(m, builds, s, e));
      }
  }

  lemma UploaderIsOk(s: System, u: nat)
    requires SystemOk(s) && u < |s.uploaders|
    ensures Paired(s.uploaders[u].task.tests) && Publication.UploaderOk(s.store, s.uploaders[u])
  {
  }

  lemma SameUploads(s: System, s': System)
    requires SystemOk(s) && s'.store == s.store && s'.uploaders == s.uploaders
    ensures SystemOk(s')
  {
  }

  lemma {:induction false} RunKeeps(m: Machine, builds: map<nat, Build>, s: System, events: seq<Event>, i: nat, u: nat,
                                    early: bool, queue: seq<Submission>)
    requires Invariant(m, builds, s, i, u, early, queue) && Publication.AllPaired(s.uploaders)
    ensures Invariant(m, builds, Run(m, builds, s, events), i, u, early, queue)
  {
    hide Invariant, Step;
    if events != [] {
      RunKeeps(m, builds, s, events[..|events| - 1], i, u, early, queue);
      StepKeeps(m, builds, Run(m, builds, s, events[..|events| - 1]), events[|events| - 1], i, u, early, queue);
    }
  }

  lemma {:induction false} RunKeepsUploads(m: Machine, builds: map<nat, Build>, s: System, events: seq<Event>, u: nat)
    requires Publication.AllPaired(s.uploaders) && u < |s.uploaders|
    ensures var end := Run(m, builds, s, events);
            && u < |end.uploaders| && end.uploaders[u].task == s.uploaders[u].task
            && end.uploaders[u].metaData == s.uploaders[u].metaData
  {
    hide Acted, Publication.Wrote;
    if events != [] {
      RunKeepsUploads(m, builds, s, events[..|events| - 1], u);
    }
  }

  /**
   Every report is right, whatever uploads, fetches and file steps of other tasks and runners come in
   between: a submission for an uploaded task either found nothing and was run once on empty texts
   without an execute script, or was judged in its own prepared container as the simple judge does, on
   the whole uploaded list or on the batches before a call that failed. If the upload was complete
   before the run, a submission whose call got through and whose build is stored found it.
   */
  lemma EveryReportIsFlat(m: Machine, builds: map<nat, Build>, s: System, events: seq<Event>, i: nat, u: nat, j: nat)
    requires Starting(s) && i < |s.runners| && u < |s.uploaders|
    ensures var finished, up := Run(m, builds, s, events).runners, s.uploaders[u];
            && i < |finished| && |finished[i].finished| <= |s.runners[i].queue|
            && (j < |finished[i].finished| ==>
                  && finished[i].finished[j].submission == s.runners[i].queue[j]
                  && (s.runners[i].queue[j].taskId == up.task.id ==>
                        OutcomeOk(m, builds, finished[i].finished[j], up, IsPublished(up))))
  {
    hide JudgeFrom, AllOk, Describes, Cut, Publication.UploaderOk, JudgeFor, Prepared;
    var early := IsPublished(s.uploaders[u]);
    RunKeeps(m, builds, s, events, i, u, early, s.runners[i].queue);
    RunKeepsUploads(m, builds, s, events, u);
  }

  /**
   An OK is earned: under every interleaving, if the last entry of a finished report is OK then the init
   script of the submission's build returned 0 and every test of the upload passes in the container it
   prepared, each with its own entry.
   */
  lemma OkIsEarned(m: Machine, builds: map<nat, Build>, s: System, events: seq<Event>, i: nat, u: nat, j: nat)
    requires NeedsExecuteScript(m) && Starting(s) && i < |s.runners| && u < |s.uploaders|
    requires i < |Run(m, builds, s, events).runners| && j < |Run(m, builds, s, events).runners[i].finished|
    requires Run(m, builds, s, events).runners[i].finished[j].submission.taskId == s.uploaders[u].task.id
    ensures var o, up := Run(m, builds, s, events).runners[i].finished[j], s.uploaders[u];
            && o.report != []
            && (o.report[|o.report| - 1].verdict == OK ==>
                  && o.submission.buildId in builds
                  && m.init(builds[o.submission.buildId].initScript, o.submission.userData) == 0
                  && o.container == Ready(builds[o.submission.buildId].initScript,
                                          builds[o.submission.buildId].executeScript, o.submission.userData)
                  && |o.report| == TestCount(up.task)
                  && Pipeline.AllPass(JudgeFor(m, o.container, o.submission), up.task.tests))
  {
    hide Run, Describes, Cut, Publication.UploaderOk, JudgeFrom;
    EveryReportIsFlat(m, builds, s, events, i, u, j);
    var o, up := Run(m, builds, s, events).runners[i].finished[j], s.uploaders[u];
    FlatMeaning(JudgeFor(m, o.container, o.submission), up.task.tests, 0);
  }

  /** Which batch calls got through: all but the one that ended the report, if one did. */
  function LinkOf(o: Outcome): nat -> bool {
    b => o.lost != Some(b)
  }

  /**
   Concurrency changes no report: for a task published before the run, every finished submission has the
   container and the report that processing it alone gives on the store the run started from, with the
   same calls getting through.
   */
  lemma ReportsAsIfAlone(m: Machine, builds: map<nat, Build>, s: System, events: seq<Event>, i: nat, u: nat, j: nat)
    requires Starting(s) && i < |s.runners| && u < |s.uploaders| && IsPublished(s.uploaders[u])
    requires i < |Run(m, builds, s, events).runners| && j < |Run(m, builds, s, events).runners[i].finished|
    requires Run(m, builds, s, events).runners[i].finished[j].submission.taskId == s.uploaders[u].task.id
    ensures var o := Run(m, builds, s, events).runners[i].finished[j];
            && Servable(s.store, o.submission.taskId)
            && o.container == ContainerFor(m, builds, s.store.meta, o.submission, o.reached)
            && o.report == Pipeline.ReportOf(m, builds, s.store, o.submission, o.reached, LinkOf(o))
  {
    hide Run, Describes, JudgeFrom, Cut, JudgeFor, Prepared;
    EveryReportIsFlat(m, builds, s, events, i, u, j);
    OutcomeAsIfAlone(m, builds, s.store, Run(m, builds, s, events).runners[i].finished[j], s.uploaders[u]);
  }

  lemma OutcomeAsIfAlone(m: Machine, builds: map<nat, Build>, store: Store, o: Outcome, u: Publication.Uploader)
    requires UploadSound(u) && Publication.UploaderOk(store, u) && IsPublished(u)
    requires o.submission.taskId == u.task.id && OutcomeOk(m, builds, o, u, true)
    ensures Servable(store, o.submission.taskId)
    ensures o.container == ContainerFor(m, builds, store.meta, o.submission, o.reached)
    ensures o.report == Pipeline.ReportOf(m, builds, store, o.submission, o.reached, LinkOf(o))
  {
    hide JudgeFrom, Cut, JudgeFor, Servable, Fetch, Fetchable, JudgeBatches, IsGreedySplit;
    PublishedStore(store, u);
    Pipeline.PublishedServable(store, u.task);
    if !o.container.Bare? {
      var judge, count := JudgeFor(m, o.container, o.submission), |u.metaData.batches|;
      var k := if o.lost.Some? then o.lost.value else count;
      NothingJudged(u, judge);
      Pipeline.ReportIsFlat(store, u.task, judge, LinkOf(o), k);
    }
  }

  lemma PublishedStore(store: Store, u: Publication.Uploader)
    requires UploadSound(u) && Publication.UploaderOk(store, u) && IsPublished(u)
    ensures u.task.id in store.meta && store.meta[u.task.id] == u.metaData && Published(store, u.task)
  {
    hide IsGreedySplit;
    forall key: DocKey | IsDocOf(key, u.task) ensures Turn(key, u.task) < u.written {
      Publication.TurnBound(key, u.task);
    }
  }

  // ----- Fetches do not fail

  /** A batch count above 0 was read from metadata, which stays; so no fetch finds it missing. */
  ghost predicate Knows(r: Runner, meta: map<nat, MetaData>) {
    r.queue != [] && !r.phase.Preparing? && (r.phase.Judging? ==> r.phase.progress.count > 0) ==>
      && r.queue[0].taskId in meta
      && (r.phase.Fetching? && r.phase.fetcher.Done? ==> r.phase.fetcher.result.Success?)
  }

  lemma ActKnows(m: Machine, builds: map<nat, Build>, store: Store, i: nat, r: Runner, files: Workers.Files,
                 through: bool, key: DocKey)
    requires Knows(r, store.meta)
    ensures Knows(Acted(m, builds, store, i, r, files, through, key).0, store.meta)
  {
    hide Workers.StepOf, Prepared, Publication.BatchKeys, AllOk;
  }

  /**
   Once a submission's metadata was found, no batch fetch of it is answered not-found, for any task and
   whatever happens in between: the only lost batches are those whose call failed.
   */
  lemma {:induction false} NoFetchFails(m: Machine, builds: map<nat, Build>, s: System, events: seq<Event>, i: nat)
    requires Publication.AllPaired(s.uploaders) && i < |s.runners| && s.runners[i].phase.Preparing?
    ensures var end := Run(m, builds, s, events);
            |end.runners| == |s.runners| && Knows(end.runners[i], end.store.meta)
  {
    hide Acted, Knows;
    if events != [] {
      var now, e := Run(m, builds, s, events[..|events| - 1]), events[|events| - 1];
      NoFetchFails(m, builds, s, events[..|events| - 1], i);
      match e
      case Upload(u) =>
        MetaStays(now.runners[i], now.store.meta, Step(m, builds, now, e).store.meta);
      case Act(j, through, key) =>
        if j == i {
          ActKnows(m, builds, now.store, i, now.runners[i], now.files, through, key);
        }
    } else {
      PreparingKnows(s.runners[i], s.store.meta);
    }
  }

  lemma PreparingKnows(r: Runner, meta: map<nat, MetaData>)
    requires r.phase.Preparing?
    ensures Knows(r, meta)
  {
  }

  lemma MetaStays(r: Runner, before: map<nat, MetaData>, after: map<nat, MetaData>)
    requires Knows(r, before) && forall id :: id in before ==> id in after
    ensures Knows(r, after)
  {
  }
}
