/**
 * The scope analyzer: counts added lines, removed lines and file headers in
 * the diff text and calls the change focused when it is small enough.
 *
 * Each count is `(diff.match(/^X(?!Y)/gm) || []).length`. `MatchCount` reads
 * such a regex the way the engine does, position by position; `CountLines`
 * counts the lines that start with the prefix; `MatchCountByLines` proves the
 * two agree.
 */
module Scope {
  import opened Text
  import opened Severity

  /** The regex `^prefix(?!notFollowedBy)` in multi-line mode; an empty
      `notFollowedBy` stands for a regex without lookahead. */
  datatype LinePattern = LinePattern(prefix: string, notFollowedBy: string)

  /** `/^\+(?!\+\+)/gm`: a line starting with "+" but not with "+++". */
  const AddedLine := LinePattern("+", "++")
  /** `/^\-(?!\-\-)/gm`: a line starting with "-" but not with "---". */
  const RemovedLine := LinePattern("-", "--")
  /** `/^diff --git/gm`: a file header. */
  const FileHeader := LinePattern("diff --git", "")

  /** Whether the pattern, anchored at the start of `t`, matches there; the
      lookahead inspects `t` itself, not only the current line. */
  predicate MatchesAt(p: LinePattern, t: string)
  {
    p.prefix <= t && (p.notFollowedBy == [] || !(p.prefix + p.notFollowedBy <= t))
  }

  /** A pattern whose text is non-empty and stays within one line. */
  predicate WithinLine(p: LinePattern)
  {
    |p.prefix| > 0 &&
    forall i :: 0 <= i < |p.prefix + p.notFollowedBy| ==> (p.prefix + p.notFollowedBy)[i] !in LineTerminators
  }

  /** The number of positions of `s` where `^` holds and the pattern matches;
      `atLineStart` says whether `^` holds at the first position. A global
      search resumes where the previous match ended, not at the next position;
      the two agree here because a match starts at a line start and its text
      stays within that line, so the next line start lies beyond its end. At
      most one match per line start. */
  function MatchCount(p: LinePattern, s: string, atLineStart: bool): (r: nat)
    ensures r <= (if atLineStart then 1 else 0) + CountIn(s, LineTerminators)
    decreases |s|
  {
    if s == [] then 0
    else (if atLineStart && MatchesAt(p, s) then 1 else 0) + MatchCount(p, s[1..], s[0] in LineTerminators)
  }

  /** The number of lines the pattern matches. */
  function CountLines(p: LinePattern, lines: seq<string>): nat
    decreases |lines|
  {
    if lines == [] then 0
    else (if MatchesAt(p, lines[0]) then 1 else 0) + CountLines(p, lines[1..])
  }

  lemma {:induction false} CountLinesAppend(p: LinePattern, a: seq<string>, b: seq<string>)
    ensures CountLines(p, a + b) == CountLines(p, a) + CountLines(p, b)
    decreases |a|
  {
    if a == [] {
      assert a + b == b;
    } else {
      assert (a + b)[1..] == a[1..] + b;
      CountLinesAppend(p, a[1..], b);
    }
  }

  /** A line-free word is a prefix of the text exactly when it is a prefix
      of the text's first line. */
  lemma PrefixWithinLine(w: string, line: string, s: string)
    requires line <= s
    requires |line| == |s| || s[|line|] in LineTerminators
    requires forall i :: 0 <= i < |w| ==> w[i] !in LineTerminators
    ensures w <= s <==> w <= line
  {
  }

  /** Anchored at a line start, the pattern matches the rest of the text
      exactly when it matches that line. */
  lemma MatchesFirstLine(p: LinePattern, s: string)
    requires WithinLine(p)
    ensures MatchesAt(p, s) == MatchesAt(p, Lines(s)[0])
  {
    var line := Lines(s)[0];
    SplitFirstPiece(s, LineTerminators);
    var whole := p.prefix + p.notFollowedBy;
    forall i | 0 <= i < |p.prefix| ensures p.prefix[i] !in LineTerminators {
      assert p.prefix[i] == whole[i];
    }
    PrefixWithinLine(p.prefix, line, s);
    PrefixWithinLine(whole, line, s);
  }

  /** The regex count equals the number of matching lines. When `^` does not
      hold at the start, the first (partial) line does not count. */
  lemma {:induction false} MatchCountByLines(p: LinePattern, s: string, atLineStart: bool)
    requires WithinLine(p)
    ensures MatchCount(p, s, atLineStart) == CountLines(p, if atLineStart then Lines(s) else Lines(s)[1..])
    decreases |s|
  {
    if s == [] {
      assert Lines(s) == [[]];
    } else {
      var rest := Lines(s[1..]);
      MatchCountByLines(p, s[1..], s[0] in LineTerminators);
      if s[0] in LineTerminators {
        assert Lines(s) == [[]] + rest;
        assert Lines(s)[1..] == rest;
      } else {
        assert Lines(s) == [[s[0]] + rest[0]] + rest[1..];
        assert Lines(s)[1..] == rest[1..];
      }
      if atLineStart {
        MatchesFirstLine(p, s);
      }
    }
  }

  /** The three patterns of the analyzer stay within a line. */
  lemma PatternsWithinLine()
    ensures WithinLine(AddedLine) && WithinLine(RemovedLine) && WithinLine(FileHeader)
  {
    assert AddedLine.prefix + AddedLine.notFollowedBy == "+++";
    assert RemovedLine.prefix + RemovedLine.notFollowedBy == "---";
    assert FileHeader.prefix + FileHeader.notFollowedBy == "diff --git";
  }

  /** The result of the scope analyzer. */
  datatype ScopeReview = ScopeReview(
    isFocused: bool,
    severity: Level,
    message: string,
    filesCount: nat,
    linesAdded: nat,
    linesRemoved: nat)

  const FocusedMessage: string := "✅ PR scope is focused and well-defined"

  function UnfocusedMessage(totalChanges: nat, filesCount: nat): string
  {
    "⚠️ PR changes " + NatToString(totalChanges) + " lines across " + NatToString(filesCount) +
    " files." + " Consider breaking into smaller PRs."
  }

  /** Different totals or file counts give different warnings: the message
      determines both numbers. */
  lemma UnfocusedMessageDistinct(t: nat, f: nat, t': nat, f': nat)
    requires UnfocusedMessage(t, f) == UnfocusedMessage(t', f')
    ensures t == t' && f == f'
  {
    var tail := " files." + " Consider breaking into smaller PRs.";
    assert UnfocusedMessage(t, f) == "⚠️ PR changes " + NatToString(t) + " lines across " + NatToString(f) + tail;
    assert UnfocusedMessage(t', f') == "⚠️ PR changes " + NatToString(t') + " lines across " + NatToString(f') + tail;
    TwoCountTemplateDistinct("⚠️ PR changes ", " lines across ", tail, t, f, t', f');
  }

  /** `runScopeReview`: the counts are the numbers of added lines (starting
      with "+" but not "+++"), removed lines (starting with "-" but not "---")
      and file headers; the change is focused iff fewer than 500 lines changed
      across fewer than 10 files (499 lines is focused, 500 is not); severity
      and message follow from that alone. */
  function RunScopeReview(diff: string): (r: ScopeReview)
    ensures r.linesAdded == CountLines(AddedLine, Lines(diff))
    ensures r.linesRemoved == CountLines(RemovedLine, Lines(diff))
    ensures r.filesCount == CountLines(FileHeader, Lines(diff))
    ensures r.isFocused <==> r.linesAdded + r.linesRemoved < 500 && r.filesCount < 10
    ensures r.severity == (if r.isFocused then Low else High)
    ensures r.message == if r.isFocused then FocusedMessage
                         else UnfocusedMessage(r.linesAdded + r.linesRemoved, r.filesCount)
  {
    PatternsWithinLine();
    MatchCountByLines(AddedLine, diff, true);
    MatchCountByLines(RemovedLine, diff, true);
    MatchCountByLines(FileHeader, diff, true);
    var linesAdded := MatchCount(AddedLine, diff, true);
    var linesRemoved := MatchCount(RemovedLine, diff, true);
    var filesCount := MatchCount(FileHeader, diff, true);
    var totalChanges := linesAdded + linesRemoved;
    var isFocused := totalChanges < 500 && filesCount < 10;
    ScopeReview(
      isFocused,
      if isFocused then Low else High,
      if isFocused then FocusedMessage else UnfocusedMessage(totalChanges, filesCount),
      filesCount,
      linesAdded,
      linesRemoved)
  }

  /** Scope is binary: its severity is never medium (nor critical). */
  lemma ScopeSeverityIsBinary(diff: string)
    ensures RunScopeReview(diff).severity in {Low, High}
  {
  }

  /** The counts of two diffs glued by a newline are the sums of their counts:
      the totals of a diff are the sums over its parts. */
  lemma ScopeCountsAdd(a: string, b: string)
    ensures var whole, left, right := RunScopeReview(a + "\n" + b), RunScopeReview(a), RunScopeReview(b);
            whole.linesAdded == left.linesAdded + right.linesAdded &&
            whole.linesRemoved == left.linesRemoved + right.linesRemoved &&
            whole.filesCount == left.filesCount + right.filesCount
  {
    assert a + "\n" + b == a + ['\n'] + b;
    SplitAppend(a, '\n', b, LineTerminators);
    CountLinesAppend(AddedLine, Lines(a), Lines(b));
    CountLinesAppend(RemovedLine, Lines(a), Lines(b));
    CountLinesAppend(FileHeader, Lines(a), Lines(b));
  }
}
