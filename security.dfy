/**
 * The security analyzer: four pattern tests on the diff, each adding one
 * issue of a fixed category and severity, in a fixed order; the overall
 * severity is the largest issue severity, "low" when there is none.
 *
 * The outcome of each regular-expression test is an input (`Matches`); the
 * model is about which issues those outcomes produce and what is reported.
 */
module Security {
  import opened Text
  import opened Selection
  import opened Severity

  /** The four issue categories, in the order the analyzer tests them. */
  datatype Kind = HardcodedSecret | SqlInjectionRisk | UnsafeDeserialization | MissingInputValidation

  /** The outcome of each regular expression the analyzer tests against the diff. */
  datatype Matches = Matches(
    passwordLiteral: bool,      // password = "..." or '...'
    queryConcatenation: bool,   // query = "... + ..."
    unsafeDeserializer: bool,   // eval(, pickle. loads, JSON.parse ... untrusted
    requestDataAccess: bool,    // req.body., req.query., req.params.
    validationMarker: bool)     // validate or sanitize

  type SecurityIssue = Finding<Kind>

  /** The category's `type` string. */
  function Name(k: Kind): string
  {
    match k
    case HardcodedSecret => "Hardcoded Secret"
    case SqlInjectionRisk => "SQL Injection Risk"
    case UnsafeDeserialization => "Unsafe Deserialization"
    case MissingInputValidation => "Missing Input Validation"
  }

  /** The `type` string tells the category: no two categories share one, so
      the names in the message identify the issues. */
  lemma NameIdentifiesKind(k: Kind, k': Kind)
    ensures Name(k) == Name(k') <==> k == k'
  {
    if k != k' {
      assert Name(k)[0] != Name(k')[0];
    }
  }

  /** The severity each category is reported with. */
  function CategorySeverity(k: Kind): Level
  {
    match k
    case HardcodedSecret => Critical
    case SqlInjectionRisk => High
    case UnsafeDeserialization => High
    case MissingInputValidation => Medium
  }

  /** The `description` of an issue of the category. */
  function Description(k: Kind): string
  {
    match k
    case HardcodedSecret => "Found potential hardcoded password or API key"
    case SqlInjectionRisk => "String concatenation in SQL query detected"
    case UnsafeDeserialization => "Potentially unsafe deserialization of untrusted data"
    case MissingInputValidation => "Direct use of request data without validation"
  }

  /** The position of a category in the testing order. */
  function Order(k: Kind): int
  {
    match k
    case HardcodedSecret => 0
    case SqlInjectionRisk => 1
    case UnsafeDeserialization => 2
    case MissingInputValidation => 3
  }

  /** Whether the analyzer reports the category for these pattern outcomes. */
  predicate Fires(m: Matches, k: Kind)
  {
    match k
    case HardcodedSecret => m.passwordLiteral
    case SqlInjectionRisk => m.queryConcatenation
    case UnsafeDeserialization => m.unsafeDeserializer
    case MissingInputValidation => m.requestDataAccess && !m.validationMarker
  }

  const Categories: seq<Kind> := [HardcodedSecret, SqlInjectionRisk, UnsafeDeserialization, MissingInputValidation]

  /** The issue table, one record per category in testing order. */
  function Table(): (t: seq<SecurityIssue>)
    ensures |t| == 4
    ensures forall i :: 0 <= i < 4 ==> t[i] == Finding(Categories[i], CategorySeverity(Categories[i]))
  {
    [Finding(HardcodedSecret, Critical), Finding(SqlInjectionRisk, High),
     Finding(UnsafeDeserialization, High), Finding(MissingInputValidation, Medium)]
  }

  /** The issues the analyzer reports: the table entries whose test fires. */
  function Detected(m: Matches): seq<SecurityIssue>
  {
    Select(Table(), [Fires(m, HardcodedSecret), Fires(m, SqlInjectionRisk),
                     Fires(m, UnsafeDeserialization), Fires(m, MissingInputValidation)])
  }

  /** The selection written out as four optional entries in table order. */
  lemma DetectedAsPushes(m: Matches)
    ensures Detected(m) ==
            (if m.passwordLiteral then [Finding(HardcodedSecret, Critical)] else []) +
            (if m.queryConcatenation then [Finding(SqlInjectionRisk, High)] else []) +
            (if m.unsafeDeserializer then [Finding(UnsafeDeserialization, High)] else []) +
            (if m.requestDataAccess && !m.validationMarker then [Finding(MissingInputValidation, Medium)] else [])
  {
    SelectFour(Finding(HardcodedSecret, Critical), Finding(SqlInjectionRisk, High),
               Finding(UnsafeDeserialization, High), Finding(MissingInputValidation, Medium),
               m.passwordLiteral, m.queryConcatenation, m.unsafeDeserializer,
               m.requestDataAccess && !m.validationMarker);
  }

  /** The four conditional pushes that fill the `issues` array. */
  method CollectIssues(m: Matches) returns (issues: seq<SecurityIssue>)
    ensures issues == Detected(m)
  {
    issues := [];
    if m.passwordLiteral {
      issues := issues + [Finding(HardcodedSecret, Critical)];
    }
    if m.queryConcatenation {
      issues := issues + [Finding(SqlInjectionRisk, High)];
    }
    if m.unsafeDeserializer {
      issues := issues + [Finding(UnsafeDeserialization, High)];
    }
    if m.requestDataAccess && !m.validationMarker {
      issues := issues + [Finding(MissingInputValidation, Medium)];
    }
    DetectedAsPushes(m);
  }

  /** The result of the security analyzer. */
  datatype SecurityReview = SecurityReview(
    hasSecurityIssues: bool,
    severity: Level,
    issues: seq<SecurityIssue>,
    message: string)

  function KindNames(issues: seq<SecurityIssue>): (names: seq<string>)
    ensures |names| == |issues|
    ensures forall i :: 0 <= i < |issues| ==> names[i] == Name(issues[i].kind)
    decreases |issues|
  {
    if issues == [] then [] else [Name(issues[0].kind)] + KindNames(issues[1..])
  }

  const NoIssuesMessage: string := "✅ No obvious security issues detected"

  /** The message: the count and the category names, or the all-clear. */
  function Message(issues: seq<SecurityIssue>): string
  {
    if |issues| > 0 then
      "🔒 Found " + NatToString(|issues|) + " security concern(s): " + JoinWith(KindNames(issues), ", ")
    else NoIssuesMessage
  }

  /** What `runSecurityReview` returns for these pattern outcomes. */
  function ReviewOf(m: Matches): SecurityReview
  {
    var issues := Detected(m);
    SecurityReview(|issues| > 0, OverallSeverity(issues), issues, Message(issues))
  }

  /** `runSecurityReview`: collects the issues, then derives the flag, the
      severity through the label/number tables and the message. */
  method RunSecurityReview(m: Matches) returns (r: SecurityReview)
    ensures r == ReviewOf(m)
    ensures r.hasSecurityIssues <==> r.issues != []
    ensures r.severity == OverallSeverity(r.issues)
  {
    var issues := CollectIssues(m);
    var hasSecurityIssues := |issues| > 0;
    var maxSeverity := if hasSecurityIssues then MaxRank(0, issues) else 1;
    var message := if hasSecurityIssues
      then "🔒 Found " + NatToString(|issues|) + " security concern(s): " + JoinWith(KindNames(issues), ", ")
      else "✅ No obvious security issues detected";
    r := SecurityReview(hasSecurityIssues, Label(maxSeverity), issues, message);
  }

  /** Issues come in the fixed category order, each category at most once, so
      there are at most four; each carries its category's severity. */
  lemma DetectedInOrder(m: Matches)
    ensures var issues := Detected(m);
            |issues| <= 4 &&
            (forall i, j :: 0 <= i < j < |issues| ==> Order(issues[i].kind) < Order(issues[j].kind)) &&
            (forall i :: 0 <= i < |issues| ==> issues[i].severity == CategorySeverity(issues[i].kind))
  {
    var t := Table();
    var keep := [Fires(m, HardcodedSecret), Fires(m, SqlInjectionRisk),
                 Fires(m, UnsafeDeserialization), Fires(m, MissingInputValidation)];
    var rank := (f: SecurityIssue) => Order(f.kind);
    SelectKeepsOrder(t, keep, rank);
    var issues := Detected(m);
    assert issues == Select(t, keep);
    forall i | 0 <= i < |issues| ensures issues[i].severity == CategorySeverity(issues[i].kind) {
      SelectMember(t, keep, issues[i]);
      var j :| 0 <= j < |t| && keep[j] && t[j] == issues[i];
      assert t[j] == Finding(Categories[j], CategorySeverity(Categories[j]));
    }
  }

  /** A category is reported exactly when its test fires. */
  lemma DetectedExactly(m: Matches, k: Kind)
    ensures (exists i :: 0 <= i < |Detected(m)| && Detected(m)[i].kind == k) <==> Fires(m, k)
  {
    var t := Table();
    var keep := [Fires(m, HardcodedSecret), Fires(m, SqlInjectionRisk),
                 Fires(m, UnsafeDeserialization), Fires(m, MissingInputValidation)];
    forall i | 0 <= i < |t| && t[i].kind == k ensures i == Order(k) {
      assert t[i].kind == Categories[i];
    }
    SelectByCategory(t, keep, k, Order(k));
    assert keep[Order(k)] == Fires(m, k);
    assert Detected(m) == Select(t, keep);
  }

  /** Missing Input Validation is reported only when request data is read and
      no validation marker is present. */
  lemma MissingValidationRule(m: Matches)
    ensures (exists i :: 0 <= i < |Detected(m)| && Detected(m)[i].kind == MissingInputValidation)
            <==> m.requestDataAccess && !m.validationMarker
  {
    DetectedExactly(m, MissingInputValidation);
  }

  /** The reported severity, category by category: critical for a secret, high
      for injection or deserialization, medium for validation alone, otherwise low. */
  lemma SeverityByCategory(m: Matches)
    ensures var s := ReviewOf(m).severity;
            (s == Critical <==> Fires(m, HardcodedSecret)) &&
            (s == High <==> !Fires(m, HardcodedSecret) && (Fires(m, SqlInjectionRisk) || Fires(m, UnsafeDeserialization))) &&
            (s == Medium <==> !Fires(m, HardcodedSecret) && !Fires(m, SqlInjectionRisk) &&
                              !Fires(m, UnsafeDeserialization) && Fires(m, MissingInputValidation)) &&
            (s == Low <==> forall k :: !Fires(m, k))
  {
    var issues := Detected(m);
    var s := OverallSeverity(issues);
    DetectedInOrder(m);
    forall k ensures Fires(m, k) ==> AtMost(CategorySeverity(k), s) {
      DetectedExactly(m, k);
    }
    if issues != [] {
      var i :| 0 <= i < |issues| && issues[i].severity == s;
      DetectedExactly(m, issues[i].kind);
    } else {
      forall k ensures !Fires(m, k) {
        DetectedExactly(m, k);
      }
    }
  }
}
