/** The solutions database and the saving of a submission's report into it. */
module Solutions {
  import opened Wrappers
  import opened Judge

  function VerdictName(verdict: Verdict): string {
    match verdict
    case OK => "OK"
    case WA => "WA"
    case TL => "TL"
    case ML => "ML"
    case RE => "RE"
    case CE => "CE"
    case CRASH => "CRASH"
  }

  /** Which names are saved, and that the verdict can be read back from its name. */
  lemma VerdictNameIff(v: Verdict)
    ensures VerdictName(v) == "OK" <==> v == OK
    ensures VerdictName(v) == "WA" <==> v == WA
    ensures VerdictName(v) == "TL" <==> v == TL
    ensures VerdictName(v) == "ML" <==> v == ML
    ensures VerdictName(v) == "RE" <==> v == RE
    ensures VerdictName(v) == "CE" <==> v == CE
    ensures VerdictName(v) == "CRASH" <==> v == CRASH
  {
  }

  lemma VerdictNameInjective(v: Verdict, w: Verdict)
    requires VerdictName(v) == VerdictName(w)
    ensures v == w
  {
    assert |VerdictName(v)| == |VerdictName(w)|;
    assert VerdictName(v)[0] == VerdictName(w)[0];
  }

  datatype TestResult = TestResult(cpuTimeElapsedMilliSeconds: nat, memorySpent: nat, verdict: string)

  datatype TestsResults = TestsResults(report: seq<TestResult>, submissionId: nat)

  datatype Solution = Solution(userId: nat, taskId: nat, text: string, result: Option<string>)

  datatype TestResultRow = TestResultRow(solutionId: nat, cpuTime: nat, memoryUsed: nat, verdict: string)

  datatype Database = Database(solutions: map<nat, Solution>, testResults: seq<TestResultRow>)

  /** A report as it is sent to be saved. */
  function ToResults(report: seq<Report>, submissionId: nat): (results: TestsResults)
    ensures results.submissionId == submissionId && |results.report| == |report|
    ensures forall i :: 0 <= i < |report| ==>
              results.report[i] ==
              TestResult(report[i].cpuTimeElapsedMilliSeconds, report[i].memorySpent, VerdictName(report[i].verdict))
  {
    TestsResults(seq(|report|, i requires 0 <= i < |report| =>
                   TestResult(report[i].cpuTimeElapsedMilliSeconds, report[i].memorySpent,
                              VerdictName(report[i].verdict))),
                 submissionId)
  }

  function Rows(results: TestsResults): (rows: seq<TestResultRow>)
    ensures |rows| == |results.report|
    ensures forall i :: 0 <= i < |rows| ==>
              rows[i] == TestResultRow(results.submissionId, results.report[i].cpuTimeElapsedMilliSeconds,
                                       results.report[i].memorySpent, results.report[i].verdict)
  {
    seq(|results.report|, i requires 0 <= i < |results.report| =>
      TestResultRow(results.submissionId, results.report[i].cpuTimeElapsedMilliSeconds,
                    results.report[i].memorySpent, results.report[i].verdict))
  }

  datatype SaveError = IndexError | NotValidSolution(id: nat)

  class SolutionsDatabase {
    var solutions: map<nat, Solution>
    var testResults: seq<TestResultRow>

    ghost function State(): Database
      reads this
    {
      Database(solutions, testResults)
    }

    constructor (solutions: map<nat, Solution>)
      ensures State() == Database(solutions, [])
    {
      this.solutions, testResults := solutions, [];
    }

    /** The last entry's verdict becomes the result of the whole submission; every entry becomes a row. */
    method SaveResolution(results: TestsResults) returns (r: Result<(), SaveError>)
      modifies this
      ensures r.Success? <==> results.report != [] && results.submissionId in old(solutions)
      ensures results.report == [] ==> r == Failure(IndexError)
      ensures results.report != [] && r.Failure? ==> r == Failure(NotValidSolution(results.submissionId))
      ensures r.Failure? ==> State() == old(State())
      ensures r.Success? ==>
                var id, last := results.submissionId, results.report[|results.report| - 1];
                && solutions == old(solutions)[id := old(solutions)[id].(result := Some(last.verdict))]
                && testResults == old(testResults) + Rows(results)
    {
      if results.report == [] {
        return Failure(IndexError);
      }
      var verdict := results.report[|results.report| - 1].verdict;
      if results.submissionId !in solutions {
        return Failure(NotValidSolution(results.submissionId));
      }
      var solution := solutions[results.submissionId];
      solutions := solutions[results.submissionId := solution.(result := Some(verdict))];
      testResults := testResults + Rows(results);
      return Success(());
    }
  }
}
