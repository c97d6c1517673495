/**
 * String helpers shared by the analyzers: splitting text into pieces at
 * separator characters (JavaScript's `split` and the line structure that a
 * multi-line `^` anchor sees), joining pieces with a separator (`join`), and
 * the decimal rendering of a count inside a template literal.
 */
module Text {

  /** The characters after which a JavaScript `^` anchor in multi-line mode matches. */
  const LineTerminators: set<char> := {'\n', '\r', '\U{2028}', '\U{2029}'}

  /** `s` split at every character of `seps`; like JavaScript's `split`, an
      empty text gives one empty piece and a trailing separator gives a last
      empty piece. */
  function Split(s: string, seps: set<char>): (pieces: seq<string>)
    ensures |pieces| >= 1
    decreases |s|
  {
    if s == [] then [[]]
    else
      var rest := Split(s[1..], seps);
      if s[0] in seps then [[]] + rest
      else [[s[0]] + rest[0]] + rest[1..]
  }

  /** The lines of `s` as the multi-line `^` anchor delimits them. */
  function Lines(s: string): seq<string>
  {
    Split(s, LineTerminators)
  }

  /** The number of characters of `s` that belong to `seps`. */
  function CountIn(s: string, seps: set<char>): nat
    decreases |s|
  {
    if s == [] then 0 else (if s[0] in seps then 1 else 0) + CountIn(s[1..], seps)
  }

  /** Splitting yields one piece more than there are separators. */
  lemma {:induction false} SplitLength(s: string, seps: set<char>)
    ensures |Split(s, seps)| == CountIn(s, seps) + 1
    decreases |s|
  {
    if s != [] {
      SplitLength(s[1..], seps);
    }
  }

  /** No piece contains a separator. */
  lemma {:induction false} SplitPiecesAreFree(s: string, seps: set<char>)
    ensures forall i, j :: 0 <= i < |Split(s, seps)| && 0 <= j < |Split(s, seps)[i]| ==> Split(s, seps)[i][j] !in seps
    decreases |s|
  {
    if s != [] {
      SplitPiecesAreFree(s[1..], seps);
    }
  }

  /** The first piece is the longest separator-free prefix of `s`. */
  lemma {:induction false} SplitFirstPiece(s: string, seps: set<char>)
    ensures Split(s, seps)[0] <= s
    ensures |Split(s, seps)[0]| == |s| || s[|Split(s, seps)[0]|] in seps
    decreases |s|
  {
    if s != [] {
      SplitFirstPiece(s[1..], seps);
    }
  }

  /** Splitting two texts glued by a separator splits each of them. */
  lemma {:induction false} SplitAppend(a: string, c: char, b: string, seps: set<char>)
    requires c in seps
    ensures Split(a + [c] + b, seps) == Split(a, seps) + Split(b, seps)
    decreases |a|
  {
    if a == [] {
      assert a + [c] + b == [c] + b;
      assert ([c] + b)[1..] == b;
    } else {
      assert (a + [c] + b)[1..] == a[1..] + [c] + b;
      SplitAppend(a[1..], c, b, seps);
    }
  }

  /** JavaScript's `parts.join(sep)`. */
  function JoinWith(parts: seq<string>, sep: string): string
    decreases |parts|
  {
    if parts == [] then []
    else if |parts| == 1 then parts[0]
    else parts[0] + sep + JoinWith(parts[1..], sep)
  }

  /** A joined text starts with its first part. */
  lemma JoinStartsWithFirstPart(parts: seq<string>, sep: string)
    requires parts != []
    ensures parts[0] <= JoinWith(parts, sep)
  {
  }

  /** Joining the pieces of a split on one character gives the text back. */
  lemma {:induction false} JoinInvertsSplit(s: string, c: char)
    ensures JoinWith(Split(s, {c}), [c]) == s
    decreases |s|
  {
    if s != [] {
      var rest := Split(s[1..], {c});
      JoinInvertsSplit(s[1..], c);
      if s[0] == c {
        assert Split(s, {c}) == [[]] + rest;
        assert JoinWith([[]] + rest, [c]) == [] + [c] + JoinWith(rest, [c]);
      } else {
        var pieces := Split(s, {c});
        assert pieces == [[s[0]] + rest[0]] + rest[1..];
        if |rest| == 1 {
          assert JoinWith(pieces, [c]) == [s[0]] + rest[0];
        } else {
          assert JoinWith(rest, [c]) == rest[0] + [c] + JoinWith(rest[1..], [c]);
          assert pieces[1..] == rest[1..];
          assert JoinWith(pieces, [c]) == ([s[0]] + rest[0]) + [c] + JoinWith(rest[1..], [c]);
        }
        assert s == [s[0]] + s[1..];
      }
    }
  }

  function Digit(d: nat): (c: char)
    requires d < 10
    ensures '0' <= c <= '9' && (c as int) - ('0' as int) == d
  {
    ('0' as int + d) as char
  }

  /** The decimal rendering of `n` that a template literal interpolates. */
  function NatToString(n: nat): (s: string)
    ensures |s| >= 1
    ensures forall i :: 0 <= i < |s| ==> '0' <= s[i] <= '9'
    ensures s[0] == '0' <==> n == 0
    decreases n
  {
    if n < 10 then [Digit(n)] else NatToString(n / 10) + [Digit(n % 10)]
  }

  /** Reads a string of decimal digits back as a number. */
  function ParseDecimal(s: string): nat
    requires forall i :: 0 <= i < |s| ==> '0' <= s[i] <= '9'
    decreases |s|
  {
    if s == [] then 0
    else ParseDecimal(s[..|s| - 1]) * 10 + ((s[|s| - 1] as int) - ('0' as int))
  }

  /** The rendering is faithful: reading it back gives the number. */
  lemma {:induction false} ParseRendering(n: nat)
    ensures ParseDecimal(NatToString(n)) == n
    decreases n
  {
    if n >= 10 {
      var s := NatToString(n);
      ParseRendering(n / 10);
      assert s[..|s| - 1] == NatToString(n / 10);
    }
  }

  /** A run of digits followed by a non-digit splits one way only: two such
      texts are equal only when their digit runs and their rests are. */
  lemma DigitsThenRest(d1: string, s1: string, d2: string, s2: string)
    requires forall i :: 0 <= i < |d1| ==> '0' <= d1[i] <= '9'
    requires forall i :: 0 <= i < |d2| ==> '0' <= d2[i] <= '9'
    requires |s1| > 0 && !('0' <= s1[0] <= '9')
    requires |s2| > 0 && !('0' <= s2[0] <= '9')
    requires d1 + s1 == d2 + s2
    ensures d1 == d2 && s1 == s2
  {
    var n := if |d1| < |d2| then |d1| else |d2|;
    assert (d1 + s1)[n] == (d2 + s2)[n];
    assert |d1| == |d2|;
    assert d1 == (d1 + s1)[..|d1|];
    assert d2 == (d2 + s2)[..|d2|];
    assert s1 == (d1 + s1)[|d1|..];
    assert s2 == (d2 + s2)[|d2|..];
  }

  /** A common prefix cancels. */
  lemma CancelPrefix(p: string, x: string, y: string)
    requires p + x == p + y
    ensures x == y
  {
    assert x == (p + x)[|p|..];
    assert y == (p + y)[|p|..];
  }

  /** A template with two counts, each followed by a text that does not start
      with a digit, determines both counts. */
  lemma TwoCountTemplateDistinct(head: string, mid: string, tail: string, a: nat, b: nat, a': nat, b': nat)
    requires |mid| > 0 && !('0' <= mid[0] <= '9')
    requires |tail| > 0 && !('0' <= tail[0] <= '9')
    requires head + NatToString(a) + mid + NatToString(b) + tail == head + NatToString(a') + mid + NatToString(b') + tail
    ensures a == a' && b == b'
  {
    var na, nb, na', nb' := NatToString(a), NatToString(b), NatToString(a'), NatToString(b');
    SeqAssoc(head + na, mid, nb, tail);
    SeqAssoc(head + na', mid, nb', tail);
    SplitAfterHead(head, na, mid + nb + tail, na', mid + nb' + tail);
    assert na == na' && mid + nb + tail == mid + nb' + tail;
    SplitAfterHead(mid, nb, tail, nb', tail);
    ParseRendering(a);
    ParseRendering(a');
    ParseRendering(b);
    ParseRendering(b');
  }

  /** The step of `TwoCountTemplateDistinct` for one count. */
  lemma SplitAfterHead(head: string, d1: string, s1: string, d2: string, s2: string)
    requires forall i :: 0 <= i < |d1| ==> '0' <= d1[i] <= '9'
    requires forall i :: 0 <= i < |d2| ==> '0' <= d2[i] <= '9'
    requires |s1| > 0 && !('0' <= s1[0] <= '9')
    requires |s2| > 0 && !('0' <= s2[0] <= '9')
    requires head + d1 + s1 == head + d2 + s2
    ensures d1 == d2 && s1 == s2
  {
    assert head + d1 + s1 == head + (d1 + s1);
    assert head + d2 + s2 == head + (d2 + s2);
    CancelPrefix(head, d1 + s1, d2 + s2);
    DigitsThenRest(d1, s1, d2, s2);
  }

  lemma SeqAssoc(a: string, b: string, c: string, d: string)
    ensures a + b + c + d == a + (b + c + d)
  {
  }
}
