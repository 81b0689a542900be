/** `GenerateCtrfReport`: the reporter object that owns the CTRF report and
    updates it as Jest delivers the run's events. */
module Reporter {
  import opened Wrappers
  import opened Strings
  import opened Statuses
  import opened Options
  import opened Environments
  import opened JestResults
  import opened TestRecords
  import opened Summaries

  const ToolName: string := "jest"

  /** `ctrfReport.results`: the tool, the summary, the ordered records, and the environment when attached. */
  datatype CtrfReport = CtrfReport(
    toolName: string,
    summary: Summary,
    tests: seq<CtrfTest>,
    environment: Option<CtrfEnvironment>)

  /** What `onRunComplete` hands to `writeReportToFile`: the directory, the file name and the document. */
  datatype ReportFile = ReportFile(outputDir: string, filename: string, report: CtrfReport)

  /** The invariant of the reporter's state, stated on its values. */
  ghost predicate ReportInvariant(filename: string, summary: Summary, tests: seq<CtrfTest>,
                                  environment: CtrfEnvironment, attached: bool)
  {
    && EndsWith(filename, JsonExtension)
    && summary.tests == |tests|
    && (forall st :: Counter(summary, st) == RecordCount(tests, st))
    && Consistent(summary)
    && (attached ==> exists f :: Get(environment, f).Some?)
  }

  /** A freshly constructed reporter meets the invariant whatever its filename,
      as long as that ends in `.json`. */
  lemma InitialInvariant(filename: string)
    requires EndsWith(filename, JsonExtension)
    ensures ReportInvariant(filename, ZeroSummary, [], EmptyEnvironment, false)
  {
  }

  class GenerateCtrfReport {
    const reporterConfigOptions: ReporterConfigOptions
    var filename: string
    var summary: Summary
    var tests: seq<CtrfTest>
    var ctrfEnvironment: CtrfEnvironment
    /** `ctrfReport.results.environment` is the `ctrfEnvironment` object itself
        once attached, so the report sees every later change to it. */
    var environmentAttached: bool

    /** The filename ends in `.json`, the summary's counters agree with
        the records (one per record, by status), and an attached environment
        is never empty. */
    ghost predicate Valid()
      reads this
    {
      ReportInvariant(filename, summary, tests, ctrfEnvironment, environmentAttached)
    }

    /** The report document as it stands. */
    function Report(): (r: CtrfReport)
      reads this
      ensures r.environment.Some? <==> environmentAttached
      ensures Valid() ==> (r.environment.Some? ==> HasEnvironmentDetails(r.environment.value))
    {
      CtrfReport(ToolName, summary, tests, if environmentAttached then Some(ctrfEnvironment) else None)
    }

    constructor (reporterOptions: ReporterConfigOptions)
      ensures Valid()
      ensures reporterConfigOptions == ResolveOptions(reporterOptions)
      ensures filename == NormalizeFilename(reporterOptions.outputFile.GetOr(DefaultOutputFile))
      ensures summary == ZeroSummary && tests == []
      ensures ctrfEnvironment == EmptyEnvironment && !environmentAttached
    {
      reporterConfigOptions := ResolveOptions(reporterOptions);
      filename := DefaultOutputFile;
      summary := ZeroSummary;
      tests := [];
      ctrfEnvironment := EmptyEnvironment;
      environmentAttached := false;
      new;
      if reporterConfigOptions.outputFile.Some? {
        SetFilename(reporterConfigOptions.outputFile.value);
      }
      InitialInvariant(filename);
    }

    /** `onRunStart`, with `Date.now()` passed in as `now`. */
    method OnRunStart(now: int)
      requires Valid()
      modifies this
      ensures Valid()
      ensures summary == old(summary).(start := now)
      ensures ctrfEnvironment == MergeEnvironment(old(ctrfEnvironment), reporterConfigOptions)
      ensures environmentAttached == (old(environmentAttached) || HasEnvironmentDetails(ctrfEnvironment))
      ensures tests == old(tests) && filename == old(filename)
    {
      summary := summary.(start := now);
      ghost var e0 := ctrfEnvironment;
      SetEnvironmentDetails(reporterConfigOptions);
      if environmentAttached {
        MergeKeepsDetails(e0, reporterConfigOptions);
      }
      if HasEnvironmentDetails(ctrfEnvironment) {
        environmentAttached := true;
      }
    }

    /** `onTestResult`: the batch's records, then its counts. */
    method OnTestResult(testResult: TestResult)
      requires Valid()
      modifies this
      ensures Valid()
      ensures tests == old(tests) + BuildRecords(reporterConfigOptions, testResult.testFilePath, testResult.testResults)
      ensures summary == Tally(old(summary), testResult.testResults)
      ensures ctrfEnvironment == old(ctrfEnvironment) && environmentAttached == old(environmentAttached)
      ensures filename == old(filename)
    {
      UpdateCtrfTestResultsFromTestResult(testResult);
      UpdateTotalsFromTestResult(testResult);
      TallyAgreesWithRecords(old(summary), old(tests), reporterConfigOptions,
                             testResult.testFilePath, testResult.testResults);
    }

    /** `onRunComplete`, with `Date.now()` passed in as `now`; the result is
        what is handed to the file writer. */
    method OnRunComplete(now: int) returns (output: ReportFile)
      requires Valid()
      modifies this
      ensures Valid()
      ensures summary == old(summary).(stop := now)
      ensures tests == old(tests) && filename == old(filename)
      ensures ctrfEnvironment == old(ctrfEnvironment) && environmentAttached == old(environmentAttached)
      ensures output == ReportFile(reporterConfigOptions.outputDir.GetOr(DefaultOutputDir), filename, Report())
    {
      summary := summary.(stop := now);
      output := ReportFile(reporterConfigOptions.outputDir.GetOr(DefaultOutputDir), filename, Report());
    }

    /** `setFilename` (private in the reporter). */
    method SetFilename(name: string)
      modifies this`filename
      ensures filename == NormalizeFilename(name)
    {
      if EndsWith(name, JsonExtension) {
        filename := name;
      } else {
        filename := name + JsonExtension;
      }
    }

    /** `updateCtrfTestResultsFromTestResult` (private): one record pushed per
        case, in order, earlier records untouched. */
    method UpdateCtrfTestResultsFromTestResult(testResult: TestResult)
      modifies this`tests
      ensures tests == old(tests) + BuildRecords(reporterConfigOptions, testResult.testFilePath, testResult.testResults)
    {
      var cases := testResult.testResults;
      var i := 0;
      while i < |cases|
        invariant 0 <= i <= |cases|
        invariant tests == old(tests) + BuildRecords(reporterConfigOptions, testResult.testFilePath, cases[..i])
      {
        var test := BuildTest(reporterConfigOptions, testResult.testFilePath, cases[i]);
        tests := tests + [test];
        assert cases[..i + 1][..i] == cases[..i];
        i := i + 1;
      }
      assert cases[..i] == cases;
    }

    /** `updateTotalsFromTestResult` (private): for each case, its state's
        counter and the total go up by one. */
    method UpdateTotalsFromTestResult(testResult: TestResult)
      modifies this`summary
      ensures summary == Tally(old(summary), testResult.testResults)
    {
      var cases := testResult.testResults;
      var i := 0;
      while i < |cases|
        invariant 0 <= i <= |cases|
        invariant summary == Tally(old(summary), cases[..i])
      {
        var ctrfStatus := MapStatus(cases[i].status);
        summary := WithCounter(summary, ctrfStatus, Counter(summary, ctrfStatus) + 1);
        summary := summary.(tests := summary.tests + 1);
        assert cases[..i + 1][..i] == cases[..i];
        i := i + 1;
      }
      assert cases[..i] == cases;
    }

    /** `setEnvironmentDetails`: each defined option is copied into `ctrfEnvironment`, one property at a time. */
    method SetEnvironmentDetails(options: ReporterConfigOptions)
      modifies this`ctrfEnvironment
      ensures ctrfEnvironment == MergeEnvironment(old(ctrfEnvironment), options)
    {
      if options.appName.Some? {
        ctrfEnvironment := ctrfEnvironment.(appName := options.appName);
      }
      if options.appVersion.Some? {
        ctrfEnvironment := ctrfEnvironment.(appVersion := options.appVersion);
      }
      if options.osPlatform.Some? {
        ctrfEnvironment := ctrfEnvironment.(osPlatform := options.osPlatform);
      }
      if options.osRelease.Some? {
        ctrfEnvironment := ctrfEnvironment.(osRelease := options.osRelease);
      }
      if options.osVersion.Some? {
        ctrfEnvironment := ctrfEnvironment.(osVersion := options.osVersion);
      }
      if options.buildName.Some? {
        ctrfEnvironment := ctrfEnvironment.(buildName := options.buildName);
      }
      if options.buildNumber.Some? {
        ctrfEnvironment := ctrfEnvironment.(buildNumber := options.buildNumber);
      }
    }
  }

  /** A whole run with the default configuration: one file at `testFilePath`
      with one passing test named `adds numbers` taking 42 ms. */
  method DefaultRunWithOnePassingTest(testFilePath: string, t0: int, t1: int) returns (output: ReportFile)
    ensures output.outputDir == DefaultOutputDir && output.filename == DefaultOutputFile
    ensures output.report.summary == ZeroSummary.(tests := 1, passed := 1, start := t0, stop := t1)
    ensures |output.report.tests| == 1
    ensures output.report.tests[0].name == "adds numbers"
    ensures output.report.tests[0].duration == 42
    ensures output.report.tests[0].status == Passed
    ensures output.report.tests[0].retries == Some(0) && output.report.tests[0].flaky == Some(false)
    ensures output.report.environment.None?
  {
    var reporter := new GenerateCtrfReport(NoOptions);
    assert reporter.filename == DefaultOutputFile by {
      assert EndsWith(DefaultOutputFile, JsonExtension);
    }
    reporter.OnRunStart(t0);
    assert !reporter.environmentAttached by {
      assert reporter.ctrfEnvironment == EmptyEnvironment;
      EmptyHasNoDetails();
    }
    FeedOnePassingTest(reporter, testFilePath, t0);
    output := reporter.OnRunComplete(t1);
  }

  /** The middle of that run: a started reporter with no records receives one
      file holding one passing test. */
  method FeedOnePassingTest(reporter: GenerateCtrfReport, testFilePath: string, t0: int)
    requires reporter.Valid() && reporter.reporterConfigOptions == ResolveOptions(NoOptions)
    requires reporter.summary == ZeroSummary.(start := t0) && reporter.tests == []
    modifies reporter
    ensures reporter.Valid()
    ensures unchanged(reporter`filename, reporter`ctrfEnvironment, reporter`environmentAttached)
    ensures reporter.summary == ZeroSummary.(tests := 1, passed := 1, start := t0)
    ensures |reporter.tests| == 1
    ensures reporter.tests[0].name == "adds numbers" && reporter.tests[0].duration == 42
    ensures reporter.tests[0].status == Passed
    ensures reporter.tests[0].retries == Some(0) && reporter.tests[0].flaky == Some(false)
  {
    var c := TestCase("adds numbers", "passed", Some(42), Some(1), [], Some([]), false);
    var batch := TestResult(testFilePath, [c]);
    reporter.OnTestResult(batch);
    assert reporter.tests == [BuildTest(reporter.reporterConfigOptions, batch.testFilePath, c)] by {
      assert [c][..0] == [];
    }
    assert reporter.summary == ZeroSummary.(tests := 1, passed := 1, start := t0) by {
      assert [c][..0] == [];
    }
  }
}
