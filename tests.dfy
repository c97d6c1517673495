/**
 * The tests analyzer: whether the diff touches test files and how many added
 * lines look like test code decide a coverage flag, a severity, an estimated
 * coverage figure and a message.
 *
 * The regular-expression results (`hasTestFiles` and the two line counts)
 * are inputs.
 */
module Tests {
  import opened Text
  import opened Severity

  /** What the analyzer's regular expressions find in the diff. */
  datatype Signals = Signals(
    hasTestFiles: bool,          // test, spec, __tests__, .test., .spec. anywhere in the diff
    testLinesAdded: nat,         // added lines mentioning test, expect, assert or should
    productionLinesAdded: nat)   // added lines not mentioning test or spec

  /** The result of the tests analyzer; `coverage` is always present. */
  datatype TestsReview = TestsReview(
    hasTestCoverage: bool,
    severity: Level,
    coverage: nat,
    message: string)

  const TestsAddedMessage: string := "✅ Tests added for code changes"
  const NoTestFilesMessage: string := "ℹ️ No test files modified in this PR"

  function MissingTestsMessage(coverage: nat): string
  {
    "⚠️ Production code changed " + "without visible test updates (" + NatToString(coverage) + "% estimated coverage)"
  }

  /** `runTestsReview`. The coverage flag holds when test lines were added or
      when no test file is touched at all: a diff without test files counts as
      covered, and only a diff that touches test files without adding test
      lines is flagged, always with the 70% estimate. */
  function RunTestsReview(s: Signals): (r: TestsReview)
    ensures r.hasTestCoverage <==> s.testLinesAdded > 0 || !s.hasTestFiles
    ensures r.severity == (if r.hasTestCoverage then Low else Medium)
    ensures r.coverage == (if s.hasTestFiles then 70 else 40)
    ensures r.message == if s.testLinesAdded > 0 then TestsAddedMessage
                         else if !s.hasTestFiles then NoTestFilesMessage
                         else MissingTestsMessage(70)
  {
    var hasTestCoverage := s.testLinesAdded > 0 || !s.hasTestFiles;
    var coverage := if s.hasTestFiles then 70 else 40;
    TestsReview(
      hasTestCoverage,
      if hasTestCoverage then Low else Medium,
      coverage,
      if hasTestCoverage then
        if s.testLinesAdded > 0 then TestsAddedMessage else NoTestFilesMessage
      else MissingTestsMessage(coverage))
  }

  /** The severity is medium exactly for test files touched without test lines,
      low otherwise, and never high. */
  lemma FlaggedExactly(s: Signals)
    ensures RunTestsReview(s).severity == Medium <==> s.hasTestFiles && s.testLinesAdded == 0
    ensures RunTestsReview(s).severity in {Low, Medium}
  {
  }

  /** The count of production lines computed by the analyzer has no effect on
      anything it reports. */
  lemma ProductionLinesIgnored(s: Signals, n: nat)
    ensures RunTestsReview(s) == RunTestsReview(s.(productionLinesAdded := n))
  {
  }
}
