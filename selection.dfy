/**
 * A list built by a fixed sequence of conditional pushes, as the analyzers
 * build their issue lists and the aggregator its summary parts: the entries of
 * a fixed table whose condition holds, in table order.
 */
module Selection {

  /** The elements of `xs` whose flag in `keep` is set, in the order of `xs`. */
  function Select<T>(xs: seq<T>, keep: seq<bool>): (r: seq<T>)
    requires |xs| == |keep|
    ensures |r| <= |xs|
    decreases |xs|
  {
    if xs == [] then []
    else (if keep[0] then [xs[0]] else []) + Select(xs[1..], keep[1..])
  }

  /** Nothing is kept exactly when no flag is set. */
  lemma {:induction false} SelectEmpty<T>(xs: seq<T>, keep: seq<bool>)
    requires |xs| == |keep|
    ensures Select(xs, keep) == [] <==> forall i :: 0 <= i < |keep| ==> !keep[i]
    decreases |xs|
  {
    if xs != [] {
      SelectEmpty(xs[1..], keep[1..]);
      if !keep[0] {
        forall i | 0 < i < |keep| ensures keep[i] == keep[1..][i - 1] { }
      }
    }
  }

  /** An element is kept exactly when it stands in the table with its flag set. */
  lemma {:induction false} SelectMember<T>(xs: seq<T>, keep: seq<bool>, x: T)
    requires |xs| == |keep|
    ensures x in Select(xs, keep) <==> exists i :: 0 <= i < |xs| && keep[i] && xs[i] == x
    decreases |xs|
  {
    if xs != [] {
      SelectMember(xs[1..], keep[1..], x);
      if x in Select(xs[1..], keep[1..]) {
        var i :| 0 <= i < |xs[1..]| && keep[1..][i] && xs[1..][i] == x;
        assert keep[i + 1] && xs[i + 1] == x;
      }
      if exists i :: 0 <= i < |xs| && keep[i] && xs[i] == x {
        var i :| 0 <= i < |xs| && keep[i] && xs[i] == x;
        if i > 0 {
          assert keep[1..][i - 1] && xs[1..][i - 1] == x;
        }
      }
    }
  }

  /** `rank` strictly increases along `xs`. */
  ghost predicate Ascending<T>(xs: seq<T>, rank: T -> int)
  {
    forall i, j :: 0 <= i < j < |xs| ==> rank(xs[i]) < rank(xs[j])
  }

  /** Keeping part of a table that is strictly ordered by `rank` keeps the order,
      so no table entry is kept twice. */
  lemma {:induction false} SelectKeepsOrder<T>(xs: seq<T>, keep: seq<bool>, rank: T -> int)
    requires |xs| == |keep|
    requires Ascending(xs, rank)
    ensures Ascending(Select(xs, keep), rank)
    decreases |xs|
  {
    if xs != [] {
      var tail := Select(xs[1..], keep[1..]);
      assert Ascending(xs[1..], rank) by {
        forall i, j | 0 <= i < j < |xs[1..]| ensures rank(xs[1..][i]) < rank(xs[1..][j]) {
          assert xs[1..][i] == xs[i + 1] && xs[1..][j] == xs[j + 1];
        }
      }
      SelectKeepsOrder(xs[1..], keep[1..], rank);
      if keep[0] {
        var r := [xs[0]] + tail;
        assert Select(xs, keep) == r;
        forall i, j | 0 <= i < j < |r| ensures rank(r[i]) < rank(r[j]) {
          if i == 0 {
            SelectMember(xs[1..], keep[1..], r[j]);
            var k :| 0 <= k < |xs[1..]| && keep[1..][k] && xs[1..][k] == r[j];
            assert xs[k + 1] == r[j];
          } else {
            assert r[i] == tail[i - 1] && r[j] == tail[j - 1];
          }
        }
      } else {
        assert Select(xs, keep) == tail;
      }
    }
  }

  /** A table of four entries: the kept entries are the four optional
      singletons in table order. */
  lemma SelectFour<T>(a: T, b: T, c: T, d: T, ka: bool, kb: bool, kc: bool, kd: bool)
    ensures Select([a, b, c, d], [ka, kb, kc, kd]) ==
            (if ka then [a] else []) + (if kb then [b] else []) + (if kc then [c] else []) + (if kd then [d] else [])
  {
    assert [a, b, c, d][1..] == [b, c, d] && [ka, kb, kc, kd][1..] == [kb, kc, kd];
    assert [b, c, d][1..] == [c, d] && [kb, kc, kd][1..] == [kc, kd];
    assert [c, d][1..] == [d] && [kc, kd][1..] == [kd];
    assert Select([d], [kd]) == (if kd then [d] else []) + Select([], []);
    assert Select([c, d], [kc, kd]) == (if kc then [c] else []) + Select([d], [kd]);
    assert Select([b, c, d], [kb, kc, kd]) == (if kb then [b] else []) + Select([c, d], [kc, kd]);
    assert Select([a, b, c, d], [ka, kb, kc, kd]) == (if ka then [a] else []) + Select([b, c, d], [kb, kc, kd]);
  }
}
