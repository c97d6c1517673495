# secure-pr-reviewer: the review pipeline, modelled and proved

secure-pr-reviewer is a GitHub app. It reviews the unified diff of a pull
request with four analyzers and folds their results into a verdict: APPROVE,
WARN or BLOCK. It also builds a one-line summary.

- The **scope** analyzer counts added lines, removed lines and `diff --git`
  file headers. It calls the change focused when it is small.
- The **security** analyzer runs four pattern tests. Each fires at most one
  issue with a fixed severity and category.
- The **behaviour** analyzer does the same with four code-quality tests. One of
  them counts the pieces of the diff split on newlines.
- The **tests** analyzer decides a coverage flag, a severity, a coverage
  estimate and a message.
- The **aggregator** runs the four analyzers. It decides the verdict by fixed
  precedence: only security can block, and the tests result never counts. It
  joins the messages of the analyzers that have something to say.

The project has one Dafny module per source file, plus three shared modules:

| module | holds |
|---|---|
| `Scope` (`scope.dfy`) | the scope analyzer |
| `Security` (`security.dfy`) | the security analyzer |
| `Behaviour` (`behaviour.dfy`) | the behaviour analyzer |
| `Tests` (`tests.dfy`) | the tests analyzer |
| `Aggregate` (`aggregate.dfy`) | the aggregator |
| `Text` (`text.dfy`) | JavaScript's `split` and `join`, the lines a multi-line `^` sees, and the decimal rendering of counts in template literals |
| `Selection` (`selection.dfy`) | `Select`, the reference meaning of a list built by conditional pushes: the entries of a fixed table whose condition holds, in table order |
| `Severity` (`severity.dfy`) | the four levels, the label/number tables, findings, and the `reduce`/`Math.max` fold |

The issue lists are built by pushes, and so is the summary. These are methods
(`CollectIssues`, `BuildSummary`), as is the overwritten verdict
(`DecideVerdict`). Each is proved equal to a specification function
(`Detected`, `Summary(SummaryParts(..))`, `Precedence`), and the lemmas are
about those functions.

Scope's counts are modelled on the diff text itself, in two ways:

- `MatchCount` tests every position at which `^` holds: the start, and after
  `\n`, `\r`, U+2028 and U+2029. The engine's global search instead resumes
  where the previous match ended. The two give the same count here because
  the matches of these patterns cannot overlap: a match starts at a line
  start and its text stays within that line (`Scope.PatternsWithinLine`), so
  the next line start lies beyond its end.
- `CountLines` counts whole lines.

`MatchCountByLines` proves the two agree. Behaviour's large-diff test is
computed from the text too.

Every other regular-expression test is an input, because the model does not
include a regex engine:

- `Security.Matches` and `Behaviour.Matches` are records of booleans, one per
  `.test(diff)`.
- `Tests.Signals` holds the tests analyzer's flag and two match counts.

## Model

| member | source | states |
|---|---|---|
| Text.SplitLength | src/reviewers/behaviour.ts:54 | `split` on a separator set yields exactly one piece more than there are separator characters |
| Text.Split | src/reviewers/behaviour.ts:54 | the definition of `split`: the pieces between separator characters, never an empty list |
| Text.Lines | src/reviewers/scope.ts:23-25 | the definition of the lines a multi-line `^` delimits: the text split at `\n`, `\r`, U+2028 and U+2029 |
| Text.SplitPiecesAreFree | src/reviewers/scope.ts:23-25 | no line produced by the split contains a line terminator |
| Text.SplitFirstPiece | src/reviewers/scope.ts:23-25 | the first line is a prefix of the text, followed by a terminator or the end |
| Text.SplitAppend | src/reviewers/scope.ts:23-25 | splitting `a + [c] + b` at a separator `c` gives the pieces of `a` followed by the pieces of `b` |
| Text.JoinStartsWithFirstPart | src/reviewers/aggregate.ts:68 | a `join` of a non-empty list starts with its first part |
| Text.JoinWith | src/reviewers/aggregate.ts:68 | the definition of `join`: the parts with the separator between neighbours, empty for no parts (also `join(", ")` at security.ts:94) |
| Text.JoinInvertsSplit | src/reviewers/aggregate.ts:68 | joining the pieces of a text split at `c` with `c` gives the text back |
| Text.NatToString | src/reviewers/scope.ts:36 | a count renders as a non-empty string of decimal digits that starts with '0' only for zero, so there are no leading zeros |
| Text.ParseRendering | src/reviewers/scope.ts:36 | reading the rendered decimal back gives the count |
| Text.DigitsThenRest | src/reviewers/scope.ts:36 | a run of digits followed by a non-digit is split one way only |
| Text.TwoCountTemplateDistinct | src/reviewers/scope.ts:36 | a template with two interpolated counts, each followed by a non-digit, determines both counts |
| Scope.MatchCountByLines | src/reviewers/scope.ts:23-25 | the global multi-line match count of `^prefix(?!rest)` equals the number of lines it matches; without `^` at the start, the first partial line does not count |
| Scope.MatchCount | src/reviewers/scope.ts:23-25 | `(diff.match(/^X(?!Y)/gm) \|\| []).length`: the number of positions where `^` holds and the pattern matches, at most one per line start |
| Scope.MatchesAt | src/reviewers/scope.ts:23-25 | the definition of a match at one position: the text starts with the prefix and not with prefix followed by the excluded continuation |
| Scope.MatchesFirstLine | src/reviewers/scope.ts:23-25 | at a line start, a pattern that stays within a line matches the text exactly when it matches that line, the lookahead included |
| Scope.PatternsWithinLine | src/reviewers/scope.ts:23-25 | the `+`/`+++`, `-`/`---` and `diff --git` patterns contain no line terminator |
| Scope.RunScopeReview | src/reviewers/scope.ts:18-41 | `linesAdded` counts lines starting with `+` but not `+++`; `linesRemoved` counts lines starting with `-` but not `---`; `filesCount` counts lines starting with `diff --git`; focused iff added + removed < 500 and files < 10; severity low iff focused, else high; the message is chosen by focus alone and carries the two totals |
| Scope.UnfocusedMessage | src/reviewers/scope.ts:36 | the definition of the unfocused warning, with the total and the file count rendered in decimal |
| Scope.UnfocusedMessageDistinct | src/reviewers/scope.ts:36 | equal unfocused warnings have equal totals and equal file counts, so distinct counts give distinct messages |
| Scope.ScopeSeverityIsBinary | src/reviewers/scope.ts:33 | the scope severity is low or high, never medium |
| Scope.ScopeCountsAdd | src/reviewers/scope.ts:23-25 | for two diffs joined by a newline, each count is the sum of the two diffs' counts |
| Severity.Rank | src/reviewers/security.ts:77 | the label-to-number table maps every level into 1..4 |
| Severity.Label | src/reviewers/security.ts:82-91 | the number-to-label table read through `\|\| "low"` inverts `Rank` on 1..4 and gives low outside it |
| Severity.LabelInvertsRank | src/reviewers/security.ts:77-87 | the two tables are inverse to each other on all four levels |
| Severity.Join | src/reviewers/security.ts:78 | `Math.max` on ranks is an upper bound of both levels and one of them |
| Severity.JoinIsSemilattice | src/reviewers/security.ts:76-79 | the join is commutative, associative and idempotent, with low as its unit |
| Severity.MaxRank | src/reviewers/security.ts:76-79 | the `reduce` from `acc` is at least `acc`, at least every finding's rank, and equal to `acc` or to the rank of some finding |
| Severity.OverallSeverity | src/reviewers/security.ts:75-91 | low for no findings; otherwise at least every finding's severity and equal to one of them |
| Severity.OverallSeverityIsJoin | src/reviewers/security.ts:74-91 | the table-and-fold computation is the lattice join of the severities |
| Severity.SelectByCategory | src/reviewers/security.ts:36-72 | when one table row has category `k`, a finding of category `k` is kept iff that row's flag is set |
| Selection.SelectEmpty | src/reviewers/aggregate.ts:61-68 | nothing is pushed exactly when no condition holds |
| Selection.SelectMember | src/reviewers/security.ts:36-72 | an entry is in the pushed list iff it is a table row whose condition holds |
| Selection.SelectKeepsOrder | src/reviewers/security.ts:36-72 | pushing from a table that is strictly ordered by a rank keeps that order |
| Selection.SelectFour | src/reviewers/aggregate.ts:61-65 | four conditional pushes give the four optional entries in order |
| Security.NameIdentifiesKind | src/reviewers/security.ts:41-68 | the four `type` strings are distinct, so the names in the message identify the categories |
| Security.Name | src/reviewers/security.ts:41-68 | the definition of each category's `type` string |
| Security.CategorySeverity | src/reviewers/security.ts:43-70 | the definition of each category's severity: critical, high, high, medium |
| Security.Fires | src/reviewers/security.ts:39-66 | the definition of the four push guards; the fourth needs request data and no validate/sanitize marker |
| Security.Table | src/reviewers/security.ts:38-72 | one issue per category, in testing order, with the category's severity |
| Security.DetectedAsPushes | src/reviewers/security.ts:36-72 | the reported issues are the four optional pushes: secret (critical), injection (high), deserialization (high), validation (medium) |
| Security.Detected | src/reviewers/security.ts:36-72 | the definition of the issue list: the table rows whose guard fires, in table order (`Select`) |
| Security.CollectIssues | src/reviewers/security.ts:36-72 | the conditional pushes build exactly `Detected(m)` |
| Security.KindNames | src/reviewers/security.ts:94 | `issues.map(i => i.type)` has one name per issue, in order |
| Security.Message | src/reviewers/security.ts:93-95 | the definition of the message: the count and the `, `-joined `type` names when there are issues, else the no-issues text |
| Security.ReviewOf | src/reviewers/security.ts:74-96 | the definition of the returned record: flag, folded severity, issues and message |
| Security.RunSecurityReview | src/reviewers/security.ts:26-97 | the result is `ReviewOf(m)`; `hasSecurityIssues` iff the issue list is non-empty; the severity is the overall severity of the issues |
| Security.DetectedInOrder | src/reviewers/security.ts:38-72 | at most four issues, in strictly increasing category order (each category at most once), each with its category's severity |
| Security.DetectedExactly | src/reviewers/security.ts:38-72 | a category is reported iff its test fires |
| Security.MissingValidationRule | src/reviewers/security.ts:66-72 | Missing Input Validation is reported iff request data is read and no validate/sanitize marker is present |
| Security.SeverityByCategory | src/reviewers/security.ts:74-91 | the severity is critical iff a secret is found; high iff not critical and injection or deserialization is found; medium iff only validation fires; low iff nothing fires |
| Behaviour.NameIdentifiesKind | src/reviewers/behaviour.ts:38-65 | the four `type` strings are distinct |
| Behaviour.Name | src/reviewers/behaviour.ts:38-65 | the definition of each category's `type` string |
| Behaviour.CategorySeverity | src/reviewers/behaviour.ts:40-67 | the definition of each category's severity: medium, low, low, low |
| Behaviour.PieceCount | src/reviewers/behaviour.ts:54 | the definition of `diff.split("\n").length` |
| Behaviour.Fires | src/reviewers/behaviour.ts:36-63 | the definition of the four push guards; the third is more than 300 split pieces |
| Behaviour.Table | src/reviewers/behaviour.ts:35-69 | one issue per category, in testing order, with the category's severity |
| Behaviour.DetectedAsPushes | src/reviewers/behaviour.ts:33-69 | the reported issues are the four optional pushes: error handling (medium), logging, large diff and documentation (low) |
| Behaviour.Detected | src/reviewers/behaviour.ts:33-69 | the definition of the issue list: the table rows whose guard fires, in table order (`Select`) |
| Behaviour.CollectIssues | src/reviewers/behaviour.ts:33-69 | the conditional pushes build exactly `Detected(diff, m)` |
| Behaviour.BehaviorLabel | src/reviewers/behaviour.ts:79-87 | the analyzer's own three-entry table agrees with `Label` on every number up to 3 |
| Behaviour.RunBehaviorReview | src/reviewers/behaviour.ts:22-93 | the result is `ReviewOf(diff, m)`; `hasIssues` iff the issue list is non-empty |
| Behaviour.Message | src/reviewers/behaviour.ts:89-91 | the definition of the message: the count when there are issues, else the no-issues text |
| Behaviour.ReviewOf | src/reviewers/behaviour.ts:71-92 | the definition of the returned record: flag, folded severity, issues and message |
| Behaviour.RanksAtMostMedium | src/reviewers/behaviour.ts:36-69 | no behaviour issue ranks above medium, so the fold stays within the analyzer's three-entry table |
| Behaviour.DetectedInOrder | src/reviewers/behaviour.ts:35-69 | at most four issues, in strictly increasing category order, each with its category's severity |
| Behaviour.DetectedExactly | src/reviewers/behaviour.ts:35-69 | a category is reported iff its test fires |
| Behaviour.LargeChangeSetRule | src/reviewers/behaviour.ts:54 | Large Change Set is reported iff the diff holds at least 300 newlines, i.e. splitting on `"\n"` gives more than 300 pieces |
| Behaviour.MissingDocumentationRule | src/reviewers/behaviour.ts:63 | Missing Documentation is reported iff an export is present and no comment marker is |
| Behaviour.SeverityByCategory | src/reviewers/behaviour.ts:71-87 | the severity is medium iff Missing Error Handling fires, low otherwise, never high or critical |
| Tests.RunTestsReview | src/reviewers/tests.ts:19-45 | covered iff test lines were added or no test file is touched; severity low iff covered, else medium; coverage 70 with test files, else 40; message "Tests added" when test lines exist, "No test files" when covered without them, otherwise the warning with 70% |
| Tests.MissingTestsMessage | src/reviewers/tests.ts:43 | the definition of the missing-tests warning, with the coverage estimate rendered in decimal |
| Tests.FlaggedExactly | src/reviewers/tests.ts:37 | the severity is medium exactly for test files touched without test lines, and never high |
| Tests.ProductionLinesIgnored | src/reviewers/tests.ts:29-44 | the production-line count has no effect on any output |
| Aggregate.Precedence | src/reviewers/aggregate.ts:42-58 | BLOCK iff security is critical or high; WARN iff not BLOCK and security is medium, behaviour is medium or high, or scope is unfocused; APPROVE iff security is low, behaviour is neither medium nor high, and scope is focused; the tests result is not an argument |
| Aggregate.DecideVerdict | src/reviewers/aggregate.ts:42-58 | the overwritten `verdict` variable ends as `Precedence` |
| Aggregate.BuildSummary | src/reviewers/aggregate.ts:61-68 | the pushes and the join give `Summary(SummaryParts(..))` |
| Aggregate.SummaryParts | src/reviewers/aggregate.ts:61-65 | the definition of the summary parts: the four messages whose condition holds, in order (`Select`) |
| Aggregate.Summary | src/reviewers/aggregate.ts:67-68 | the definition of the summary: the parts joined by `" \| "`, or "All checks passed" when there are none |
| Aggregate.RunReviewAgents | src/reviewers/aggregate.ts:26-78 | the four results are those of the analyzers, unchanged; the verdict is `Precedence` of them; the summary is the join of the qualifying parts |
| Aggregate.OnlySecurityBlocks | src/reviewers/aggregate.ts:42-58 | whether the verdict is BLOCK does not depend on the scope or behaviour result, so an unfocused scope alone never blocks |
| Aggregate.SummaryAllClear | src/reviewers/aggregate.ts:61-68 | no part qualifies iff scope, security and behaviour are low and tests are covered; the summary is then exactly "All checks passed" |
| Aggregate.SummaryPartsInOrder | src/reviewers/aggregate.ts:61-65 | the parts are scope, security and behaviour, each when its severity is not low, then tests exactly when coverage is missing, in that order |
| Aggregate.PipelineBlocks | src/reviewers/aggregate.ts:45-47 | for the analyzers' results, BLOCK iff a secret, an injection or a deserialization pattern is present |
| Aggregate.WarnRule | src/reviewers/aggregate.ts:50-58 | for the security and behaviour analyzers' results and any scope result: WARN iff not BLOCK and unvalidated request data, async code without error handling, or an unfocused scope |
| Aggregate.PipelineWarns | src/reviewers/aggregate.ts:50-58 | the same WARN rule for the scope analyzer's own result |
| Aggregate.PartsStartWithSymbol | src/reviewers/aggregate.ts:61-65 | when every message starts with a character other than 'A', so does every summary part |
| Aggregate.QualifyingMessagesStartWithSymbol | src/reviewers/aggregate.ts:61-65 | every message the analyzers put in the summary is non-empty and does not start like "All checks passed" |
| Aggregate.PipelineAllClearExactly | src/reviewers/aggregate.ts:67-68 | for the analyzers' results, the summary is "All checks passed" iff nothing qualifies: a joined summary can never read like the all-clear |
| Aggregate.CleanDiffApproved | src/reviewers/aggregate.ts:42-68 | a diff on which no test fires, with a focused scope and tests covered, is approved with the all-clear summary |

## Left out

- I/O and orchestration are not modelled: fetching the diff, the webhook
  handler, Markdown comments, the GitHub API, the LLM stubs and app bootstrap
  (`src/webhook.ts`, `src/github/`, `src/utils/llm.ts`, `src/index.ts`). Nor
  are the `context` and `pr` parameters of `runReviewAgents`, which are used
  only for a debug log line.
- `Promise.all` is modelled as four sequential calls. The analyzers share no
  state and never throw, so the order does not matter.
- The regular expressions of the security, behaviour and tests analyzers are
  inputs (`Security.Matches`, `Behaviour.Matches`, `Tests.Signals`), because
  the model has no regex engine. Only scope's line-prefix counts and
  behaviour's split count are computed from the text. Some of those
  expressions contain stray spaces (`pickle\. loads` at security.ts:57,
  `\. then\(` at behaviour.ts:36, `\. test\.` at tests.ts:25), so they match
  other text than intended. The model does not capture this.
- `linesAdded` at scope.ts:23 is written `(? !\+\+)`, which is not valid
  regular-expression syntax. The model reads it as the lookahead `(?!\+\+)`,
  like its neighbour at scope.ts:24. The same holds for the tests analyzer's
  `(? :` and `(? !` groups at tests.ts:26 and tests.ts:29, whose counts are
  inputs.
- Security.Table, Behaviour.Table: an issue record holds its category and
  severity. The source's `type` and `description` strings are fixed per
  category. They are not record fields here. Instead they are per-category
  tables: `Security.Name` and `Behaviour.Name` for `type`, and
  `Security.Description` and `Behaviour.Description` for `description`. An
  issue's strings are these tables applied to its `kind`. Only the security
  names enter a message. The description tables are not used elsewhere in the
  model.
- The optional `location` field of a security issue is never set by the
  analyzer and is left out.
- Behaviour's tables have no "critical" entry, whereas the shared `Rank` has
  one. No behaviour issue is critical (`Behaviour.RanksAtMostMedium`), and the
  two tables agree on every rank the analyzer can produce
  (`Behaviour.BehaviorLabel`).
- The TypeScript severity unions of scope, behaviour and tests exclude
  "critical". The model uses the shared four-level type and proves which
  levels each analyzer reaches.
- `coverage` is optional in the TypeScript type but always set, so it is a
  plain field.
- `Tests.RunTestsReview` follows tests.ts:30-37. A diff that touches test
  files but adds no line matching the test-line pattern gets medium severity.
  This holds even when the diff touches only a test file.
- The doc-comment at aggregate.ts:21-24 says an unfocused scope with security
  concerns blocks. The code at aggregate.ts:45-58 blocks only on critical or
  high security severity. The model follows the code
  (`Aggregate.OnlySecurityBlocks`).
- Strings are sequences of Unicode code points here. JavaScript strings are
  UTF-16 code units, so `message[0]` of "🔒 Found …" is the emoji here and a
  surrogate in JavaScript. The only first-character claim, that a summary part
  does not start with 'A', holds either way.
- Counts are unbounded naturals where JavaScript has doubles. The two agree
  for every string length JavaScript allows.
- The import of `./behavior` at aggregate.ts:4 does not match the file name
  `behaviour.ts`. This is module resolution, not logic.
