/** Sequence operations the data-frame pipeline is built from: row
    selection (`query`), column projection, `drop_duplicates`. */
module Seqs {

  predicate NoDuplicates<T(==)>(s: seq<T>)
  {
    forall i, j :: 0 <= i < j < |s| ==> s[i] != s[j]
  }

  /** Keeps, in order, the elements satisfying `keep`. */
  function Filter<T(!new)>(s: seq<T>, keep: T -> bool): (r: seq<T>)
    ensures |r| <= |s|
    ensures forall x :: x in r <==> x in s && keep(x)
  {
    if |s| == 0 then []
    else (if keep(s[0]) then [s[0]] else []) + Filter(s[1..], keep)
  }

  /** Every earlier element is related by `R` to every later one. */
  ghost predicate Ordered<T>(s: seq<T>, R: (T, T) -> bool)
  {
    forall i, j :: 0 <= i < j < |s| ==> R(s[i], s[j])
  }

  /** Selecting rows keeps every ordered relation between the rows kept. */
  lemma {:induction false} FilterKeepsOrder<T(!new)>(s: seq<T>, keep: T -> bool, R: (T, T) -> bool)
    requires Ordered(s, R)
    ensures Ordered(Filter(s, keep), R)
  {
    if |s| > 0 {
      var tail := s[1..];
      assert Ordered(tail, R) by {
        forall i, j | 0 <= i < j < |tail| ensures R(tail[i], tail[j]) {
          assert tail[i] == s[i + 1] && tail[j] == s[j + 1];
        }
      }
      FilterKeepsOrder(tail, keep, R);
      var rest := Filter(tail, keep);
      assert forall y :: y in rest ==> R(s[0], y) by {
        forall y | y in rest ensures R(s[0], y) {
          var k :| 0 <= k < |tail| && tail[k] == y;
          assert tail[k] == s[k + 1];
        }
      }
      var r := Filter(s, keep);
      if keep(s[0]) {
        assert r == [s[0]] + rest;
        forall i, j | 0 <= i < j < |r| ensures R(r[i], r[j]) {
          if i == 0 {
            assert r[j] == rest[j - 1];
            assert r[j] in rest;
          } else {
            assert r[i] == rest[i - 1] && r[j] == rest[j - 1];
          }
        }
      } else {
        assert r == rest;
      }
    }
  }

  /** Selecting rows from a sequence without repetitions gives a sequence
      without repetitions. */
  lemma FilterKeepsNoDuplicates<T(!new)>(s: seq<T>, keep: T -> bool)
    requires NoDuplicates(s)
    ensures NoDuplicates(Filter(s, keep))
  {
    var R := (a: T, b: T) => a != b;
    assert Ordered(s, R);
    FilterKeepsOrder(s, keep, R);
    var r := Filter(s, keep);
    assert forall i, j :: 0 <= i < j < |r| ==> R(r[i], r[j]);
  }

  /** Selecting from rows none of which qualifies yields nothing. */
  lemma {:induction false} FilterKeepsNothing<T(!new)>(s: seq<T>, keep: T -> bool)
    requires forall x :: x in s ==> !keep(x)
    ensures Filter(s, keep) == []
  {
    if |s| > 0 {
      assert forall x :: x in s[1..] ==> x in s;
      FilterKeepsNothing(s[1..], keep);
    }
  }

  lemma TwoDistinctMembers<T>(s: seq<T>, a: T, b: T)
    requires a in s && b in s && a != b
    ensures |s| >= 2
  {
    var i :| 0 <= i < |s| && s[i] == a;
    var j :| 0 <= j < |s| && s[j] == b;
    assert i != j;
  }

  /** A sequence without repetitions whose only member is `e` is `[e]`. */
  lemma OnlyMember<T>(s: seq<T>, e: T)
    requires NoDuplicates(s)
    requires forall x :: x in s <==> x == e
    ensures s == [e]
  {
    assert e in s;
    assert s[0] in s && s[|s| - 1] in s;
    assert |s| == 1;
  }

  /** Applies `f` to every element, in order (a column projection). */
  function Map<T(!new), U(!new)>(s: seq<T>, f: T -> U): (r: seq<U>)
    ensures |r| == |s|
    ensures forall x :: x in r <==> exists y :: y in s && f(y) == x
  {
    if |s| == 0 then []
    else
      var rest := Map(s[1..], f);
      assert forall y :: y in s <==> y == s[0] || y in s[1..] by {
        assert s == [s[0]] + s[1..];
      }
      [f(s[0])] + rest
  }

  /** Selecting rows of a concatenation selects from each part. */
  lemma {:induction false} FilterConcat<T(!new)>(a: seq<T>, b: seq<T>, keep: T -> bool)
    ensures Filter(a + b, keep) == Filter(a, keep) + Filter(b, keep)
  {
    if |a| > 0 {
      assert (a + b)[1..] == a[1..] + b;
      FilterConcat(a[1..], b, keep);
    } else {
      assert a + b == b;
    }
  }

  /** `drop_duplicates()`: keeps the first occurrence of every element, in
      the original order. */
  function Dedupe<T(==,!new)>(s: seq<T>): (r: seq<T>)
    ensures NoDuplicates(r)
    ensures forall x :: x in r <==> x in s
    ensures |r| <= |s|
  {
    if |s| == 0 then []
    else
      var prefix := Dedupe(s[..|s| - 1]);
      var last := s[|s| - 1];
      assert forall x :: x in s <==> x in s[..|s| - 1] || x == last by {
        assert s == s[..|s| - 1] + [last];
      }
      if last in prefix then prefix else prefix + [last]
  }
}
