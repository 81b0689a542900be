/** The parts of Jest's per-file result that the reporter reads. */
module JestResults {
  import opened Wrappers

  /** One test case (Jest's `AssertionResult`). `status` is kept as the raw
      string, since `mapStatus` has a default arm for any value.
      `hasFailureDetails` says whether `failureDetails` is defined; its
      contents are never read. */
  datatype TestCase = TestCase(
    fullName: string,
    status: string,
    duration: Option<int>,
    invocations: Option<int>,
    ancestorTitles: seq<string>,
    failureMessages: Option<seq<string>>,
    hasFailureDetails: bool)

  /** One test file's batch (Jest's `TestResult`): its path and its cases in run order. */
  datatype TestResult = TestResult(testFilePath: string, testResults: seq<TestCase>)
}
