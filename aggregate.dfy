/**
 * The aggregator: runs the four analyzers on one diff, decides the verdict by
 * fixed precedence (only security can block; tests never count), and joins
 * the messages of the analyzers that have something to say into a summary.
 */
module Aggregate {
  import opened Text
  import opened Selection
  import opened Severity
  import Scope
  import Security
  import Behaviour
  import Tests

  datatype ReviewVerdict = Approve | Warn | Block

  /** The sole output of a review cycle: verdict, summary and the four results. */
  datatype ReviewResult = ReviewResult(
    verdict: ReviewVerdict,
    summary: string,
    scope: Scope.ScopeReview,
    security: Security.SecurityReview,
    behavior: Behaviour.BehaviorReview,
    tests: Tests.TestsReview)

  /** The verdict rules read first-match-wins: block on a critical or high
      security severity; otherwise warn on a medium security severity, a medium
      or high behaviour severity or an unfocused scope; otherwise approve. */
  function Precedence(scope: Scope.ScopeReview, security: Security.SecurityReview,
                      behavior: Behaviour.BehaviorReview): (v: ReviewVerdict)
    ensures v == Block <==> security.severity in {Critical, High}
    ensures v == Warn <==> security.severity !in {Critical, High} &&
                           (security.severity == Medium || behavior.severity in {Medium, High} || !scope.isFocused)
    ensures v == Approve <==> security.severity == Low && behavior.severity != Medium && behavior.severity != High &&
                              scope.isFocused
  {
    if security.severity == Critical || security.severity == High then Block
    else if security.severity == Medium || behavior.severity == Medium || behavior.severity == High || !scope.isFocused then Warn
    else assert security.severity.Low?; Approve
  }

  const AllChecksPassed: string := "All checks passed"
  const Separator: string := " | "

  /** The messages that go into the summary: scope, security and behaviour when
      their severity is not low, tests when coverage is missing, in that order. */
  function SummaryParts(scope: Scope.ScopeReview, security: Security.SecurityReview,
                        behavior: Behaviour.BehaviorReview, tests: Tests.TestsReview): seq<string>
  {
    Select([scope.message, security.message, behavior.message, tests.message],
           [scope.severity != Low, security.severity != Low, behavior.severity != Low, !tests.hasTestCoverage])
  }

  /** The parts joined by " | ", or the all-clear sentence when there are none. */
  function Summary(parts: seq<string>): string
  {
    if |parts| > 0 then JoinWith(parts, Separator) else AllChecksPassed
  }

  /** `runReviewAgents`: the four analyzers run on the same diff, independently
      of each other; the verdict starts as APPROVE, is overwritten by BLOCK, then
      by WARN unless it is BLOCK; the summary parts are pushed one by one and
      joined. The four results are returned unchanged. */
  method RunReviewAgents(diff: string, securityMatches: Security.Matches,
                         behaviorMatches: Behaviour.Matches, testsSignals: Tests.Signals)
    returns (r: ReviewResult)
    ensures r.scope == Scope.RunScopeReview(diff)
    ensures r.security == Security.ReviewOf(securityMatches)
    ensures r.behavior == Behaviour.ReviewOf(diff, behaviorMatches)
    ensures r.tests == Tests.RunTestsReview(testsSignals)
    ensures r.verdict == Precedence(r.scope, r.security, r.behavior)
    ensures r.summary == Summary(SummaryParts(r.scope, r.security, r.behavior, r.tests))
  {
    var scope := Scope.RunScopeReview(diff);
    var security := Security.RunSecurityReview(securityMatches);
    var behavior := Behaviour.RunBehaviorReview(diff, behaviorMatches);
    var tests := Tests.RunTestsReview(testsSignals);

    var verdict := DecideVerdict(scope, security, behavior);
    var summary := BuildSummary(scope, security, behavior, tests);
    r := ReviewResult(verdict, summary, scope, security, behavior, tests);
  }

  /** The verdict starts as APPROVE, is overwritten by BLOCK, then by WARN
      unless it is BLOCK. */
  method DecideVerdict(scope: Scope.ScopeReview, security: Security.SecurityReview,
                       behavior: Behaviour.BehaviorReview) returns (verdict: ReviewVerdict)
    ensures verdict == Precedence(scope, security, behavior)
  {
    verdict := Approve;
    if security.severity == Critical || security.severity == High {
      verdict := Block;
    }
    if verdict != Block &&
       (security.severity == Medium || behavior.severity == Medium || behavior.severity == High || !scope.isFocused) {
      verdict := Warn;
    }
  }

  /** The summary parts are pushed one by one and joined, or replaced by the
      all-clear sentence when there are none. */
  method BuildSummary(scope: Scope.ScopeReview, security: Security.SecurityReview,
                      behavior: Behaviour.BehaviorReview, tests: Tests.TestsReview) returns (summary: string)
    ensures summary == Summary(SummaryParts(scope, security, behavior, tests))
  {
    var summaryParts: seq<string> := [];
    if scope.severity != Low {
      summaryParts := summaryParts + [scope.message];
    }
    if security.severity != Low {
      summaryParts := summaryParts + [security.message];
    }
    if behavior.severity != Low {
      summaryParts := summaryParts + [behavior.message];
    }
    if !tests.hasTestCoverage {
      summaryParts := summaryParts + [tests.message];
    }
    SummaryPartsInOrder(scope, security, behavior, tests);
    assert summaryParts == SummaryParts(scope, security, behavior, tests);
    summary := if |summaryParts| > 0 then JoinWith(summaryParts, " | ") else "All checks passed";
  }

  /** Scope and behaviour can only raise the verdict to WARN: whatever they
      are, the verdict is BLOCK exactly when it is BLOCK for any other scope
      and behaviour results with the same security result. */
  lemma OnlySecurityBlocks(scope: Scope.ScopeReview, security: Security.SecurityReview,
                           behavior: Behaviour.BehaviorReview,
                           scope': Scope.ScopeReview, behavior': Behaviour.BehaviorReview)
    ensures Precedence(scope, security, behavior) == Block <==> Precedence(scope', security, behavior') == Block
  {
  }

  /** With nothing that qualifies, the summary is exactly the all-clear sentence;
      and parts are missing only when nothing qualifies. */
  lemma {:induction false} SummaryAllClear(scope: Scope.ScopeReview, security: Security.SecurityReview,
                                           behavior: Behaviour.BehaviorReview, tests: Tests.TestsReview)
    ensures SummaryParts(scope, security, behavior, tests) == [] <==>
            scope.severity == Low && security.severity == Low && behavior.severity == Low && tests.hasTestCoverage
    ensures scope.severity == Low && security.severity == Low && behavior.severity == Low && tests.hasTestCoverage ==>
            Summary(SummaryParts(scope, security, behavior, tests)) == AllChecksPassed
  {
    var keep := [scope.severity != Low, security.severity != Low, behavior.severity != Low, !tests.hasTestCoverage];
    SelectEmpty([scope.message, security.message, behavior.message, tests.message], keep);
    assert keep[0] == (scope.severity != Low) && keep[1] == (security.severity != Low);
    assert keep[2] == (behavior.severity != Low) && keep[3] == !tests.hasTestCoverage;
  }

  /** The parts are, in this order, the scope, security and behaviour messages
      each when its severity is not low, then the tests message exactly when
      coverage is missing. */
  lemma SummaryPartsInOrder(scope: Scope.ScopeReview, security: Security.SecurityReview,
                            behavior: Behaviour.BehaviorReview, tests: Tests.TestsReview)
    ensures SummaryParts(scope, security, behavior, tests) ==
            (if scope.severity != Low then [scope.message] else []) +
            (if security.severity != Low then [security.message] else []) +
            (if behavior.severity != Low then [behavior.message] else []) +
            (if tests.hasTestCoverage then [] else [tests.message])
  {
    SelectFour(scope.message, security.message, behavior.message, tests.message,
               scope.severity != Low, security.severity != Low, behavior.severity != Low, !tests.hasTestCoverage);
  }

  /** For the results of the analyzers, the verdict is BLOCK exactly when a
      secret, an injection or a deserialization pattern is present, whatever
      the scope, behaviour and tests findings. */
  lemma PipelineBlocks(diff: string, sm: Security.Matches, bm: Behaviour.Matches)
    ensures Precedence(Scope.RunScopeReview(diff), Security.ReviewOf(sm), Behaviour.ReviewOf(diff, bm)) == Block
            <==> sm.passwordLiteral || sm.queryConcatenation || sm.unsafeDeserializer
  {
    Security.SeverityByCategory(sm);
  }

  /** For the results of the analyzers, the verdict is WARN exactly when it is
      not BLOCK and request data goes unvalidated, async code lacks error
      handling, or the change is unfocused; the other behaviour findings never
      change the verdict. */
  lemma PipelineWarns(diff: string, sm: Security.Matches, bm: Behaviour.Matches)
    ensures var scope := Scope.RunScopeReview(diff);
            Precedence(scope, Security.ReviewOf(sm), Behaviour.ReviewOf(diff, bm)) == Warn
            <==> !(sm.passwordLiteral || sm.queryConcatenation || sm.unsafeDeserializer) &&
                 ((sm.requestDataAccess && !sm.validationMarker) ||
                  (bm.asyncPattern && !bm.errorHandlingMarker) ||
                  !scope.isFocused)
  {
    WarnRule(Scope.RunScopeReview(diff), diff, sm, bm);
  }

  /** The WARN rule for the security and behaviour results of the analyzers
      and any scope result. */
  lemma WarnRule(scope: Scope.ScopeReview, diff: string, sm: Security.Matches, bm: Behaviour.Matches)
    ensures Precedence(scope, Security.ReviewOf(sm), Behaviour.ReviewOf(diff, bm)) == Warn
            <==> !(sm.passwordLiteral || sm.queryConcatenation || sm.unsafeDeserializer) &&
                 ((sm.requestDataAccess && !sm.validationMarker) ||
                  (bm.asyncPattern && !bm.errorHandlingMarker) ||
                  !scope.isFocused)
  {
    Security.SeverityByCategory(sm);
    Behaviour.SeverityByCategory(diff, bm);
  }

  /** Every message that can enter the summary starts with a symbol, never
      with the first letter of the all-clear sentence. */
  lemma QualifyingMessagesStartWithSymbol(diff: string, sm: Security.Matches, bm: Behaviour.Matches,
                                          ts: Tests.Signals)
    ensures var parts := SummaryParts(Scope.RunScopeReview(diff), Security.ReviewOf(sm),
                                      Behaviour.ReviewOf(diff, bm), Tests.RunTestsReview(ts));
            forall p :: p in parts ==> |p| > 0 && p[0] != 'A'
  {
    var scope, security := Scope.RunScopeReview(diff), Security.ReviewOf(sm);
    var behavior, tests := Behaviour.ReviewOf(diff, bm), Tests.RunTestsReview(ts);
    ScopeMessageHead(scope);
    SecurityMessageHead(security.issues);
    BehaviorMessageHead(behavior.issues);
    TestsMessageHead(tests);
    PartsStartWithSymbol(scope, security, behavior, tests);
  }

  lemma PartsStartWithSymbol(scope: Scope.ScopeReview, security: Security.SecurityReview,
                             behavior: Behaviour.BehaviorReview, tests: Tests.TestsReview)
    requires |scope.message| > 0 && scope.message[0] != 'A'
    requires |security.message| > 0 && security.message[0] != 'A'
    requires |behavior.message| > 0 && behavior.message[0] != 'A'
    requires |tests.message| > 0 && tests.message[0] != 'A'
    ensures forall p :: p in SummaryParts(scope, security, behavior, tests) ==> |p| > 0 && p[0] != 'A'
  {
    SummaryPartsInOrder(scope, security, behavior, tests);
  }

  lemma ScopeMessageHead(scope: Scope.ScopeReview)
    requires scope.message == if scope.isFocused then Scope.FocusedMessage
                              else Scope.UnfocusedMessage(scope.linesAdded + scope.linesRemoved, scope.filesCount)
    ensures |scope.message| > 0 && scope.message[0] != 'A'
  {
    if !scope.isFocused {
      var m := Scope.UnfocusedMessage(scope.linesAdded + scope.linesRemoved, scope.filesCount);
      assert m[0] == "⚠️ PR changes "[0];
    }
  }

  lemma SecurityMessageHead(issues: seq<Security.SecurityIssue>)
    ensures |Security.Message(issues)| > 0 && Security.Message(issues)[0] != 'A'
  {
    if |issues| > 0 {
      assert Security.Message(issues)[0] == "🔒 Found "[0];
    }
  }

  lemma BehaviorMessageHead(issues: seq<Behaviour.BehaviorIssue>)
    ensures |Behaviour.Message(issues)| > 0 && Behaviour.Message(issues)[0] != 'A'
  {
    if |issues| > 0 {
      assert Behaviour.Message(issues)[0] == "🔍 Found "[0];
    }
  }

  lemma TestsMessageHead(tests: Tests.TestsReview)
    requires tests.message in {Tests.TestsAddedMessage, Tests.NoTestFilesMessage, Tests.MissingTestsMessage(70)}
    ensures |tests.message| > 0 && tests.message[0] != 'A'
  {
    if tests.message == Tests.MissingTestsMessage(70) {
      var tail := "without visible test updates (" + NatToString(70) + "% estimated coverage)";
      assert tests.message == "⚠️ Production code changed " + tail;
    }
  }

  /** For the results of the analyzers the summary is the all-clear sentence
      exactly when no part qualifies: a joined summary never reads like it. */
  lemma {:induction false} PipelineAllClearExactly(diff: string, sm: Security.Matches, bm: Behaviour.Matches,
                                                   ts: Tests.Signals)
    ensures var scope, security := Scope.RunScopeReview(diff), Security.ReviewOf(sm);
            var behavior, tests := Behaviour.ReviewOf(diff, bm), Tests.RunTestsReview(ts);
            Summary(SummaryParts(scope, security, behavior, tests)) == AllChecksPassed <==>
            scope.severity == Low && security.severity == Low && behavior.severity == Low && tests.hasTestCoverage
  {
    var scope, security := Scope.RunScopeReview(diff), Security.ReviewOf(sm);
    var behavior, tests := Behaviour.ReviewOf(diff, bm), Tests.RunTestsReview(ts);
    var parts := SummaryParts(scope, security, behavior, tests);
    SummaryAllClear(scope, security, behavior, tests);
    if parts != [] {
      QualifyingMessagesStartWithSymbol(diff, sm, bm, ts);
      assert parts[0] in parts;
      JoinStartsWithFirstPart(parts, Separator);
      assert JoinWith(parts, Separator)[0] == parts[0][0];
      assert AllChecksPassed[0] == 'A';
    }
  }

  /** A diff that no analyzer objects to is approved with the all-clear summary. */
  lemma CleanDiffApproved(diff: string, sm: Security.Matches, bm: Behaviour.Matches, ts: Tests.Signals)
    requires forall k :: !Security.Fires(sm, k)
    requires forall k :: !Behaviour.Fires(diff, bm, k)
    requires Scope.RunScopeReview(diff).isFocused
    requires Tests.RunTestsReview(ts).hasTestCoverage
    ensures var scope, security := Scope.RunScopeReview(diff), Security.ReviewOf(sm);
            var behavior, tests := Behaviour.ReviewOf(diff, bm), Tests.RunTestsReview(ts);
            Precedence(scope, security, behavior) == Approve &&
            Summary(SummaryParts(scope, security, behavior, tests)) == AllChecksPassed
  {
    Security.SeverityByCategory(sm);
    Behaviour.SeverityByCategory(diff, bm);
    SummaryAllClear(Scope.RunScopeReview(diff), Security.ReviewOf(sm), Behaviour.ReviewOf(diff, bm),
                    Tests.RunTestsReview(ts));
  }
}
