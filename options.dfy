/** The reporter's configuration options, the defaults the constructor fills
    in, and the output filename normalisation of `setFilename`. */
module Options {
  import opened Wrappers
  import opened Strings

  const DefaultOutputFile: string := "ctrf-report.json"
  const DefaultOutputDir: string := "ctrf"
  const DefaultTestType: string := "unit"
  const JsonExtension: string := ".json"

  /** `ReporterConfigOptions`: every property may be absent. The same shape
      holds both what the user wrote and the resolved configuration. */
  datatype ReporterConfigOptions = ReporterConfigOptions(
    outputFile: Option<string>,
    outputDir: Option<string>,
    minimal: Option<bool>,
    testType: Option<string>,
    appName: Option<string>,
    appVersion: Option<string>,
    osPlatform: Option<string>,
    osRelease: Option<string>,
    osVersion: Option<string>,
    buildName: Option<string>,
    buildNumber: Option<string>)

  /** No option given at all (`{}`). */
  const NoOptions := ReporterConfigOptions(None, None, None, None, None, None, None, None, None, None, None)

  /** The first four options are filled in when absent; the environment
      options are copied as they are (`x ?? undefined` is `x`). */
  ghost predicate IsResolved(o: ReporterConfigOptions) {
    o.outputFile.Some? && o.outputDir.Some? && o.minimal.Some? && o.testType.Some?
  }

  /** The constructor's `reporterConfigOptions`: user values win, gaps get the defaults. */
  function ResolveOptions(o: ReporterConfigOptions): (r: ReporterConfigOptions)
    ensures IsResolved(r)
    ensures o.outputFile.Some? ==> r.outputFile == o.outputFile
    ensures o.outputDir.Some? ==> r.outputDir == o.outputDir
    ensures o.minimal.Some? ==> r.minimal == o.minimal
    ensures o.testType.Some? ==> r.testType == o.testType
    ensures o.outputFile.None? ==> r.outputFile == Some(DefaultOutputFile)
    ensures o.outputDir.None? ==> r.outputDir == Some(DefaultOutputDir)
    ensures o.minimal.None? ==> r.minimal == Some(false)
    ensures o.testType.None? ==> r.testType == Some(DefaultTestType)
    ensures r.(outputFile := o.outputFile, outputDir := o.outputDir, minimal := o.minimal, testType := o.testType) == o
  {
    o.(outputFile := Some(o.outputFile.GetOr(DefaultOutputFile)),
       outputDir := Some(o.outputDir.GetOr(DefaultOutputDir)),
       minimal := Some(o.minimal.GetOr(false)),
       testType := Some(o.testType.GetOr(DefaultTestType)))
  }

  /** Resolving a resolved configuration changes nothing. */
  lemma ResolveIdempotent(o: ReporterConfigOptions)
    ensures ResolveOptions(ResolveOptions(o)) == ResolveOptions(o)
  {
  }

  /** `setFilename`: keeps a name already ending in `.json`, and otherwise
      appends the extension (it never replaces another extension). */
  function NormalizeFilename(name: string): (r: string)
    ensures EndsWith(r, JsonExtension)
    ensures |name| <= |r| && r[..|name|] == name
    ensures r == name || r == name + JsonExtension
    ensures r == name <==> EndsWith(name, JsonExtension)
  {
    if EndsWith(name, JsonExtension) then name else name + JsonExtension
  }

  /** Normalising twice is normalising once. */
  lemma NormalizeFilenameIdempotent(name: string)
    ensures NormalizeFilename(NormalizeFilename(name)) == NormalizeFilename(name)
  {
  }

  /** The three cases the reporter's own tests exercise. */
  lemma NormalizeFilenameExamples()
    ensures NormalizeFilename("myReport") == "myReport.json"
    ensures NormalizeFilename("myReport.json") == "myReport.json"
    ensures NormalizeFilename("myReport.txt") == "myReport.txt.json"
  {
    assert !EndsWith("myReport", JsonExtension);
    assert EndsWith("myReport.json", JsonExtension);
    assert !EndsWith("myReport.txt", JsonExtension);
  }
}
