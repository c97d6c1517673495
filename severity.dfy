/**
 * Severity levels, the label/number tables the analyzers use to compare them,
 * findings, and the overall severity of a list of findings
 * (`reduce` with `Math.max` over the numbers, then back to a label).
 */
module Severity {
  import opened Selection

  /** The severity labels "low", "medium", "high" and "critical". */
  datatype Level = Low | Medium | High | Critical

  /** The label-to-number table `{ critical: 4, high: 3, medium: 2, low: 1 }`. */
  function Rank(l: Level): (n: int)
    ensures 1 <= n <= 4
  {
    match l
    case Low => 1
    case Medium => 2
    case High => 3
    case Critical => 4
  }

  /** The number-to-label table `{ 4: "critical", 3: "high", 2: "medium", 1: "low" }`
      read through `|| "low"`: a number outside the table gives "low". */
  function Label(n: int): (l: Level)
    ensures 1 <= n <= 4 ==> Rank(l) == n
    ensures !(1 <= n <= 4) ==> l == Low
  {
    if n == 4 then Critical
    else if n == 3 then High
    else if n == 2 then Medium
    else Low
  }

  /** The two tables are inverse to each other on all four levels. */
  lemma LabelInvertsRank(l: Level)
    ensures Label(Rank(l)) == l
  {
  }

  /** The order low < medium < high < critical. */
  predicate AtMost(a: Level, b: Level)
  {
    Rank(a) <= Rank(b)
  }

  /** The larger of two levels. */
  function Join(a: Level, b: Level): (r: Level)
    ensures AtMost(a, r) && AtMost(b, r)
    ensures r == a || r == b
  {
    if Rank(a) >= Rank(b) then a else b
  }

  /** Join is associative, commutative and idempotent, with Low as its bottom. */
  lemma JoinIsSemilattice(a: Level, b: Level, c: Level)
    ensures Join(a, b) == Join(b, a)
    ensures Join(Join(a, b), c) == Join(a, Join(b, c))
    ensures Join(a, a) == a
    ensures Join(Low, a) == a
  {
  }

  /** A detected issue: its category and the category's severity. The issue's
      `type` and `description` strings are fixed per category, so they are
      functions of `kind` in each analyzer. */
  datatype Finding<K> = Finding(kind: K, severity: Level)

  /** The join of the severities of `fs`, starting from Low. */
  function JoinAll<K>(fs: seq<Finding<K>>): Level
    decreases |fs|
  {
    if fs == [] then Low else Join(fs[0].severity, JoinAll(fs[1..]))
  }

  /** `fs.reduce((max, f) => Math.max(max, Rank(f.severity)), acc)`. */
  function MaxRank<K>(acc: int, fs: seq<Finding<K>>): (n: int)
    ensures acc <= n
    ensures forall i :: 0 <= i < |fs| ==> Rank(fs[i].severity) <= n
    ensures n == acc || exists i :: 0 <= i < |fs| && n == Rank(fs[i].severity)
    decreases |fs|
  {
    if fs == [] then acc
    else
      var step := if acc >= Rank(fs[0].severity) then acc else Rank(fs[0].severity);
      MaxRank(step, fs[1..])
  }

  /** The severity an analyzer reports for its findings: the label of the largest
      number when there are findings, the label of 1 otherwise. */
  function OverallSeverity<K>(fs: seq<Finding<K>>): (l: Level)
    ensures fs == [] ==> l == Low
    ensures forall i :: 0 <= i < |fs| ==> AtMost(fs[i].severity, l)
    ensures fs != [] ==> exists i :: 0 <= i < |fs| && fs[i].severity == l
  {
    var n := if |fs| > 0 then MaxRank(0, fs) else 1;
    assert fs != [] ==> exists i :: 0 <= i < |fs| && Label(n) == fs[i].severity by {
      if fs != [] {
        var i :| 0 <= i < |fs| && (n == 0 || n == Rank(fs[i].severity));
        assert Rank(fs[0].severity) <= n;
        LabelInvertsRank(fs[i].severity);
      }
    }
    Label(n)
  }

  /** The table-driven fold computes the lattice join of the severities. */
  lemma {:induction false} OverallSeverityIsJoin<K>(fs: seq<Finding<K>>)
    ensures OverallSeverity(fs) == JoinAll(fs)
    decreases |fs|
  {
    if fs != [] {
      OverallSeverityIsJoin(fs[1..]);
      var l := OverallSeverity(fs);
      var tail := OverallSeverity(fs[1..]);
      var i :| 0 <= i < |fs| && fs[i].severity == l;
      assert AtMost(fs[0].severity, l);
      forall j | 0 <= j < |fs[1..]| ensures AtMost(fs[1..][j].severity, l) {
        assert fs[1..][j] == fs[j + 1];
      }
      if fs[1..] == [] {
        assert i == 0;
      } else {
        var k :| 0 <= k < |fs[1..]| && fs[1..][k].severity == tail;
        assert fs[k + 1].severity == tail;
        assert AtMost(tail, l);
        if i > 0 {
          assert fs[1..][i - 1] == fs[i];
          assert AtMost(l, tail);
        }
      }
    }
  }

  /** When exactly one table entry has category `k`, at index `j`, the
      selected findings include one of category `k` exactly when flag `j` is set. */
  lemma SelectByCategory<K>(xs: seq<Finding<K>>, keep: seq<bool>, k: K, j: int)
    requires |xs| == |keep|
    requires 0 <= j < |xs| && xs[j].kind == k
    requires forall i :: 0 <= i < |xs| && xs[i].kind == k ==> i == j
    ensures (exists i :: 0 <= i < |Select(xs, keep)| && Select(xs, keep)[i].kind == k) <==> keep[j]
  {
    var r := Select(xs, keep);
    if exists i :: 0 <= i < |r| && r[i].kind == k {
      var i :| 0 <= i < |r| && r[i].kind == k;
      SelectMember(xs, keep, r[i]);
      var i' :| 0 <= i' < |xs| && keep[i'] && xs[i'] == r[i];
    }
    if keep[j] {
      SelectMember(xs, keep, xs[j]);
      var i :| 0 <= i < |r| && r[i] == xs[j];
    }
  }
}
