/** `buildSuitePath`: the test file's name followed by the test's ancestor titles. */
module SuitePaths {
  import opened Strings

  const SuiteSeparator: string := " > "

  /** `testFilePath.split('/').pop() ?? ''`: the text after the last `/`
      (split never yields an empty array, so the fallback is never taken). */
  function FileName(path: string): (name: string)
    ensures '/' !in name
    ensures |name| <= |path| && path[|path| - |name|..] == name
    ensures |name| < |path| ==> path[|path| - |name| - 1] == '/'
  {
    var pieces := Split(path, '/');
    var name := pieces[|pieces| - 1];
    JoinSplit(path, '/');
    if |pieces| >= 2 then
      JoinLast(pieces, "/");
      name
    else
      name
  }

  /** `[fileName, ...ancestorTitles].join(' > ')` */
  function BuildSuitePath(testFilePath: string, ancestorTitles: seq<string>): (suite: string)
    ensures |FileName(testFilePath)| <= |suite|
    ensures suite[..|FileName(testFilePath)|] == FileName(testFilePath)
  {
    var parts := [FileName(testFilePath)] + ancestorTitles;
    JoinStartsWithFirst(parts, SuiteSeparator);
    Join(parts, SuiteSeparator)
  }

  /** With no `>` in the file name or the titles, the suite holds exactly one
      `>` (one separator) per ancestor title. */
  lemma SuiteSeparatorCount(testFilePath: string, ancestorTitles: seq<string>)
    requires '>' !in FileName(testFilePath)
    requires forall k :: 0 <= k < |ancestorTitles| ==> '>' !in ancestorTitles[k]
    ensures CountChar(BuildSuitePath(testFilePath, ancestorTitles), '>') == |ancestorTitles|
  {
    var parts := [FileName(testFilePath)] + ancestorTitles;
    assert forall k :: 0 <= k < |parts| ==> '>' !in parts[k] by {
      forall k | 0 <= k < |parts| ensures '>' !in parts[k] {
        if k > 0 { assert parts[k] == ancestorTitles[k - 1]; }
      }
    }
    assert CountChar(SuiteSeparator, '>') == 1;
    JoinCountChar(parts, SuiteSeparator, '>');
  }

  /** A test at the top level of its file has the file name as its suite. */
  lemma SuiteWithoutAncestors(testFilePath: string)
    ensures BuildSuitePath(testFilePath, []) == FileName(testFilePath)
  {
    assert [FileName(testFilePath)] + [] == [FileName(testFilePath)];
  }

  /** The ancestor titles in order, each written after a separator. */
  function Ancestry(ancestorTitles: seq<string>): string
  {
    if |ancestorTitles| == 0 then ""
    else Ancestry(ancestorTitles[..|ancestorTitles| - 1]) + SuiteSeparator + ancestorTitles[|ancestorTitles| - 1]
  }

  /** The suite is the file name followed by each ancestor title, in order,
      after its own separator. */
  lemma {:induction false} SuiteIsFileNameThenAncestry(testFilePath: string, ancestorTitles: seq<string>)
    ensures BuildSuitePath(testFilePath, ancestorTitles) == FileName(testFilePath) + Ancestry(ancestorTitles)
  {
    var name := FileName(testFilePath);
    if |ancestorTitles| == 0 {
      SuiteWithoutAncestors(testFilePath);
      assert name + "" == name;
    } else {
      var n := |ancestorTitles|;
      var init := ancestorTitles[..n - 1];
      var last := ancestorTitles[n - 1];
      var parts := [name] + ancestorTitles;
      SuiteIsFileNameThenAncestry(testFilePath, init);
      JoinLast(parts, SuiteSeparator);
      assert parts[..|parts| - 1] == [name] + init;
      assert parts[|parts| - 1] == last;
      calc {
        BuildSuitePath(testFilePath, ancestorTitles);
        Join(parts, SuiteSeparator);
        Join([name] + init, SuiteSeparator) + SuiteSeparator + last;
        BuildSuitePath(testFilePath, init) + SuiteSeparator + last;
        name + Ancestry(init) + SuiteSeparator + last;
        name + (Ancestry(init) + SuiteSeparator + last);
        name + Ancestry(ancestorTitles);
      }
    }
  }

  /** One more ancestor title adds a separator and that title at the end. */
  lemma SuiteAppendTitle(testFilePath: string, ancestorTitles: seq<string>, title: string)
    ensures BuildSuitePath(testFilePath, ancestorTitles + [title])
         == BuildSuitePath(testFilePath, ancestorTitles) + SuiteSeparator + title
  {
    var ts := ancestorTitles + [title];
    SuiteIsFileNameThenAncestry(testFilePath, ts);
    SuiteIsFileNameThenAncestry(testFilePath, ancestorTitles);
    assert ts[..|ts| - 1] == ancestorTitles;
  }
}
