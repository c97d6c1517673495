/**
 * The behaviour analyzer: four code-quality tests, each adding one issue of a
 * fixed category and severity, in a fixed order; three of them are pattern
 * tests and one counts the pieces of the diff split on newlines.
 *
 * The outcome of each regular-expression test is an input (`Matches`); the
 * line-count test is computed from the diff text itself.
 */
module Behaviour {
  import opened Text
  import opened Selection
  import opened Severity

  /** The four issue categories, in the order the analyzer tests them. */
  datatype Kind = MissingErrorHandling | DebugLogging | LargeChangeSet | MissingDocumentation

  /** The outcome of each regular expression the analyzer tests against the diff. */
  datatype Matches = Matches(
    asyncPattern: bool,          // ". then(", async ... =>, ". catch("
    errorHandlingMarker: bool,   // try, catch or Error
    consoleLogging: bool,        // console.log, console.debug, console.error
    exportDeclaration: bool,     // export class / function / const
    commentMarker: bool)         // /** or //

  type BehaviorIssue = Finding<Kind>

  /** The category's `type` string. */
  function Name(k: Kind): string
  {
    match k
    case MissingErrorHandling => "Missing Error Handling"
    case DebugLogging => "Debug Logging"
    case LargeChangeSet => "Large Change Set"
    case MissingDocumentation => "Missing Documentation"
  }

  /** The `type` string tells the category: no two categories share one. */
  lemma NameIdentifiesKind(k: Kind, k': Kind)
    ensures Name(k) == Name(k') <==> k == k'
  {
    if k != k' {
      assert Name(k)[0] != Name(k')[0] || Name(k)[8] != Name(k')[8];
    }
  }

  /** The severity each category is reported with. */
  function CategorySeverity(k: Kind): Level
  {
    match k
    case MissingErrorHandling => Medium
    case DebugLogging => Low
    case LargeChangeSet => Low
    case MissingDocumentation => Low
  }

  /** The `description` of an issue of the category. */
  function Description(k: Kind): string
  {
    match k
    case MissingErrorHandling => "Async operations without visible error handling"
    case DebugLogging => "Found console logging statements that should use proper logging"
    case LargeChangeSet => "This diff is quite large and may be harder to review"
    case MissingDocumentation => "Public exports without documentation comments"
  }

  /** The position of a category in the testing order. */
  function Order(k: Kind): int
  {
    match k
    case MissingErrorHandling => 0
    case DebugLogging => 1
    case LargeChangeSet => 2
    case MissingDocumentation => 3
  }

  /** The number of pieces `diff.split("\n")` yields. */
  function PieceCount(diff: string): nat
  {
    |Split(diff, {'\n'})|
  }

  /** Whether the analyzer reports the category. */
  predicate Fires(diff: string, m: Matches, k: Kind)
  {
    match k
    case MissingErrorHandling => m.asyncPattern && !m.errorHandlingMarker
    case DebugLogging => m.consoleLogging
    case LargeChangeSet => PieceCount(diff) > 300
    case MissingDocumentation => m.exportDeclaration && !m.commentMarker
  }

  const Categories: seq<Kind> := [MissingErrorHandling, DebugLogging, LargeChangeSet, MissingDocumentation]

  /** The issue table, one record per category in testing order. */
  function Table(): (t: seq<BehaviorIssue>)
    ensures |t| == 4
    ensures forall i :: 0 <= i < 4 ==> t[i] == Finding(Categories[i], CategorySeverity(Categories[i]))
  {
    [Finding(MissingErrorHandling, Medium), Finding(DebugLogging, Low),
     Finding(LargeChangeSet, Low), Finding(MissingDocumentation, Low)]
  }

  /** The issues the analyzer reports: the table entries whose test fires. */
  function Detected(diff: string, m: Matches): seq<BehaviorIssue>
  {
    Select(Table(), [Fires(diff, m, MissingErrorHandling), Fires(diff, m, DebugLogging),
                     Fires(diff, m, LargeChangeSet), Fires(diff, m, MissingDocumentation)])
  }

  /** The selection written out as four optional entries in table order. */
  lemma DetectedAsPushes(diff: string, m: Matches)
    ensures Detected(diff, m) ==
            (if m.asyncPattern && !m.errorHandlingMarker then [Finding(MissingErrorHandling, Medium)] else []) +
            (if m.consoleLogging then [Finding(DebugLogging, Low)] else []) +
            (if |Split(diff, {'\n'})| > 300 then [Finding(LargeChangeSet, Low)] else []) +
            (if m.exportDeclaration && !m.commentMarker then [Finding(MissingDocumentation, Low)] else [])
  {
    SelectFour(Finding(MissingErrorHandling, Medium), Finding(DebugLogging, Low),
               Finding(LargeChangeSet, Low), Finding(MissingDocumentation, Low),
               m.asyncPattern && !m.errorHandlingMarker, m.consoleLogging,
               |Split(diff, {'\n'})| > 300, m.exportDeclaration && !m.commentMarker);
  }

  /** The four conditional pushes that fill the `issues` array. */
  method CollectIssues(diff: string, m: Matches) returns (issues: seq<BehaviorIssue>)
    ensures issues == Detected(diff, m)
  {
    issues := [];
    if m.asyncPattern && !m.errorHandlingMarker {
      issues := issues + [Finding(MissingErrorHandling, Medium)];
    }
    if m.consoleLogging {
      issues := issues + [Finding(DebugLogging, Low)];
    }
    if |Split(diff, {'\n'})| > 300 {
      issues := issues + [Finding(LargeChangeSet, Low)];
    }
    if m.exportDeclaration && !m.commentMarker {
      issues := issues + [Finding(MissingDocumentation, Low)];
    }
    DetectedAsPushes(diff, m);
  }

  /** The analyzer's own number-to-label table `{ 3: "high", 2: "medium", 1: "low" }`
      read through `|| "low"`. */
  function BehaviorLabel(n: int): (l: Level)
    ensures n <= 3 ==> l == Label(n)
  {
    if n == 3 then High else if n == 2 then Medium else Low
  }

  /** The result of the behaviour analyzer. */
  datatype BehaviorReview = BehaviorReview(
    hasIssues: bool,
    severity: Level,
    issues: seq<BehaviorIssue>,
    message: string)

  const NoIssuesMessage: string := "✅ Code quality looks good"

  function Message(issues: seq<BehaviorIssue>): string
  {
    if |issues| > 0 then "🔍 Found " + NatToString(|issues|) + " code quality suggestion(s)"
    else NoIssuesMessage
  }

  /** What `runBehaviorReview` returns. */
  function ReviewOf(diff: string, m: Matches): BehaviorReview
  {
    var issues := Detected(diff, m);
    BehaviorReview(|issues| > 0, OverallSeverity(issues), issues, Message(issues))
  }

  /** `runBehaviorReview`: collects the issues, then derives the flag, the
      severity through the analyzer's three-level tables and the message. */
  method RunBehaviorReview(diff: string, m: Matches) returns (r: BehaviorReview)
    ensures r == ReviewOf(diff, m)
    ensures r.hasIssues <==> r.issues != []
  {
    var issues := CollectIssues(diff, m);
    var hasIssues := |issues| > 0;
    var maxSeverity := if hasIssues then MaxRank(0, issues) else 1;
    assert maxSeverity <= 3 by {
      RanksAtMostMedium(diff, m);
      if hasIssues {
        var i :| 0 <= i < |issues| && (maxSeverity == 0 || maxSeverity == Rank(issues[i].severity));
      }
    }
    var message := if hasIssues
      then "🔍 Found " + NatToString(|issues|) + " code quality suggestion(s)"
      else "✅ Code quality looks good";
    r := BehaviorReview(hasIssues, BehaviorLabel(maxSeverity), issues, message);
  }

  /** No issue ranks above medium. */
  lemma RanksAtMostMedium(diff: string, m: Matches)
    ensures forall i :: 0 <= i < |Detected(diff, m)| ==> Rank(Detected(diff, m)[i].severity) <= 2
  {
    DetectedInOrder(diff, m);
  }

  /** Issues come in the fixed category order, each category at most once, so
      there are at most four; each carries its category's severity. */
  lemma DetectedInOrder(diff: string, m: Matches)
    ensures var issues := Detected(diff, m);
            |issues| <= 4 &&
            (forall i, j :: 0 <= i < j < |issues| ==> Order(issues[i].kind) < Order(issues[j].kind)) &&
            (forall i :: 0 <= i < |issues| ==> issues[i].severity == CategorySeverity(issues[i].kind))
  {
    var t := Table();
    var keep := [Fires(diff, m, MissingErrorHandling), Fires(diff, m, DebugLogging),
                 Fires(diff, m, LargeChangeSet), Fires(diff, m, MissingDocumentation)];
    var rank := (f: BehaviorIssue) => Order(f.kind);
    SelectKeepsOrder(t, keep, rank);
    var issues := Detected(diff, m);
    assert issues == Select(t, keep);
    forall i | 0 <= i < |issues| ensures issues[i].severity == CategorySeverity(issues[i].kind) {
      SelectMember(t, keep, issues[i]);
      var j :| 0 <= j < |t| && keep[j] && t[j] == issues[i];
      assert t[j] == Finding(Categories[j], CategorySeverity(Categories[j]));
    }
  }

  /** A category is reported exactly when its test fires. */
  lemma DetectedExactly(diff: string, m: Matches, k: Kind)
    ensures (exists i :: 0 <= i < |Detected(diff, m)| && Detected(diff, m)[i].kind == k) <==> Fires(diff, m, k)
  {
    var t := Table();
    var keep := [Fires(diff, m, MissingErrorHandling), Fires(diff, m, DebugLogging),
                 Fires(diff, m, LargeChangeSet), Fires(diff, m, MissingDocumentation)];
    forall i | 0 <= i < |t| && t[i].kind == k ensures i == Order(k) {
      assert t[i].kind == Categories[i];
    }
    SelectByCategory(t, keep, k, Order(k));
    assert keep[Order(k)] == Fires(diff, m, k);
    assert Detected(diff, m) == Select(t, keep);
  }

  /** Large Change Set is reported exactly when the diff holds at least 300
      newline characters, that is when splitting it yields more than 300 pieces. */
  lemma LargeChangeSetRule(diff: string, m: Matches)
    ensures (exists i :: 0 <= i < |Detected(diff, m)| && Detected(diff, m)[i].kind == LargeChangeSet)
            <==> CountIn(diff, {'\n'}) >= 300
  {
    DetectedExactly(diff, m, LargeChangeSet);
    SplitLength(diff, {'\n'});
  }

  /** Missing Documentation is reported only for an export with no comment marker. */
  lemma MissingDocumentationRule(diff: string, m: Matches)
    ensures (exists i :: 0 <= i < |Detected(diff, m)| && Detected(diff, m)[i].kind == MissingDocumentation)
            <==> m.exportDeclaration && !m.commentMarker
  {
    DetectedExactly(diff, m, MissingDocumentation);
  }

  /** The reported severity is medium exactly when error handling is missing
      and low otherwise; it is never high. */
  lemma SeverityByCategory(diff: string, m: Matches)
    ensures var s := ReviewOf(diff, m).severity;
            (s == Medium <==> Fires(diff, m, MissingErrorHandling)) &&
            (s == Low <==> !Fires(diff, m, MissingErrorHandling)) &&
            s != High && s != Critical
  {
    var issues := Detected(diff, m);
    var s := OverallSeverity(issues);
    DetectedInOrder(diff, m);
    DetectedExactly(diff, m, MissingErrorHandling);
    if issues != [] {
      var i :| 0 <= i < |issues| && issues[i].severity == s;
      if Fires(diff, m, MissingErrorHandling) {
        var j :| 0 <= j < |issues| && issues[j].kind == MissingErrorHandling;
        assert AtMost(issues[j].severity, s);
      }
    }
  }
}
