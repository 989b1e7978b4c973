/** Python's ordering of strings (lexicographic by code point) and `sorted` on a
    set of strings. */
module Sorting {
  /** `a < b` on Python strings. */
  predicate LexLess(a: string, b: string)
    decreases |a|
  {
    if |a| == 0 then |b| > 0
    else if |b| == 0 then false
    else if a[0] != b[0] then a[0] < b[0]
    else LexLess(a[1..], b[1..])
  }

  lemma {:induction false} LexIrreflexive(a: string)
    ensures !LexLess(a, a)
    decreases |a|
  {
    if |a| > 0 {
      LexIrreflexive(a[1..]);
    }
  }

  lemma {:induction false} LexTransitive(a: string, b: string, c: string)
    requires LexLess(a, b) && LexLess(b, c)
    ensures LexLess(a, c)
    decreases |a|
  {
    if |a| > 0 && |b| > 0 && |c| > 0 && a[0] == b[0] && b[0] == c[0] {
      LexTransitive(a[1..], b[1..], c[1..]);
    }
  }

  /** Any two different strings are ordered one way or the other. */
  lemma {:induction false} LexTotal(a: string, b: string)
    requires a != b
    ensures LexLess(a, b) || LexLess(b, a)
    decreases |a|
  {
    if |a| > 0 && |b| > 0 && a[0] == b[0] {
      assert a == [a[0]] + a[1..] && b == [b[0]] + b[1..];
      LexTotal(a[1..], b[1..]);
    }
  }

  lemma {:induction false} LexAsymmetric(a: string, b: string)
    requires LexLess(a, b)
    ensures !LexLess(b, a)
  {
    if LexLess(b, a) {
      LexTransitive(a, b, a);
      LexIrreflexive(a);
    }
  }

  predicate StrictlySorted(r: seq<string>)
  {
    forall i, j :: 0 <= i < j < |r| ==> LexLess(r[i], r[j])
  }

  /** x is the least element of s. */
  predicate IsLeast(x: string, s: set<string>)
  {
    x in s && forall y :: y in s && y != x ==> LexLess(x, y)
  }

  lemma {:induction false} HasLeast(s: set<string>)
    requires s != {}
    ensures exists x :: IsLeast(x, s)
    decreases |s|
  {
    var a :| a in s;
    if s != {a} {
      var rest := s - {a};
      HasLeast(rest);
      var m :| IsLeast(m, rest);
      LexTotal(a, m);
      if LexLess(a, m) {
        forall y | y in s && y != a
          ensures LexLess(a, y)
        {
          if y != m {
            LexTransitive(a, m, y);
          }
        }
        assert IsLeast(a, s);
      } else {
        assert IsLeast(m, s);
      }
    } else {
      assert IsLeast(a, s);
    }
  }

  /** Every finite set of strings has a strictly sorted listing. */
  lemma {:induction false} SortedExists(s: set<string>)
    ensures exists r :: StrictlySorted(r) && |r| == |s| && forall x :: x in r <==> x in s
    decreases |s|
  {
    if s == {} {
      assert StrictlySorted([]) && forall x :: x in [] <==> x in s;
    } else {
      HasLeast(s);
      var x :| IsLeast(x, s);
      SortedExists(s - {x});
      var r :| StrictlySorted(r) && |r| == |s - {x}| && forall y :: y in r <==> y in s - {x};
      var r' := [x] + r;
      forall i, j | 0 <= i < j < |r'|
        ensures LexLess(r'[i], r'[j])
      {
        if i == 0 {
          assert r'[j] == r[j - 1] && r[j - 1] in r;
        } else {
          assert r'[i] == r[i - 1] && r'[j] == r[j - 1];
        }
      }
      assert forall y :: y in r' <==> y == x || y in r;
    }
  }

  /** The sorted listing of a set of strings. */
  ghost function SortedList(s: set<string>): (r: seq<string>)
    ensures StrictlySorted(r) && |r| == |s| && forall x :: x in r <==> x in s
  {
    SortedExists(s);
    var r :| StrictlySorted(r) && |r| == |s| && forall x :: x in r <==> x in s;
    r
  }

  /** `sorted(labels)`: the labels in increasing order, each once. */
  method SortLabels(labels: set<string>) returns (r: seq<string>)
    ensures StrictlySorted(r)
    ensures |r| == |labels| && forall x :: x in r <==> x in labels
    ensures r == SortedList(labels)
  {
    r := [];
    var rest := labels;
    while rest != {}
      invariant rest !! set x | x in r
      invariant forall x :: x in labels <==> x in r || x in rest
      invariant |r| + |rest| == |labels|
      invariant StrictlySorted(r)
      invariant forall i, y :: 0 <= i < |r| && y in rest ==> LexLess(r[i], y)
      decreases |rest|
    {
      HasLeast(rest);
      var x :| IsLeast(x, rest);
      r := r + [x];
      rest := rest - {x};
    }
    SortedUnique(r, SortedList(labels));
  }

  /** Two strictly sorted listings of the same strings start alike. */
  lemma {:induction false} SortedSameHead(a: seq<string>, b: seq<string>)
    requires StrictlySorted(a) && StrictlySorted(b) && |a| > 0 && |b| > 0
    requires forall x :: x in a <==> x in b
    ensures a[0] == b[0]
  {
    assert a[0] in a && b[0] in b;
    var i :| 0 <= i < |b| && b[i] == a[0];
    var j :| 0 <= j < |a| && a[j] == b[0];
    assert a[0] == b[0] || LexLess(b[0], a[0]);
    assert b[0] == a[0] || LexLess(a[0], b[0]);
    LexIrreflexive(a[0]);
    if LexLess(a[0], b[0]) {
      LexAsymmetric(a[0], b[0]);
    }
  }

  /** Dropping the common head keeps the two listings equal as sets. */
  lemma {:induction false} SortedSameTail(a: seq<string>, b: seq<string>, x: string)
    requires StrictlySorted(a) && StrictlySorted(b) && |a| > 0 && |b| > 0 && a[0] == b[0]
    requires forall y :: y in a <==> y in b
    requires x in a[1..]
    ensures x in b[1..]
  {
    var i :| 0 <= i < |a[1..]| && a[1..][i] == x;
    assert a[i + 1] == x && LexLess(a[0], x);
    LexIrreflexive(x);
    assert x in a;
    var k :| 0 <= k < |b| && b[k] == x;
    assert k != 0;
    assert b[1..][k - 1] == x;
  }

  /** A set has only one strictly sorted listing. */
  lemma {:induction false} SortedUnique(a: seq<string>, b: seq<string>)
    requires StrictlySorted(a) && StrictlySorted(b)
    requires forall x :: x in a <==> x in b
    ensures a == b
    decreases |a|
  {
    if |b| > 0 {
      assert b[0] in a;
    }
    if |a| > 0 {
      assert a[0] in b;
      SortedSameHead(a, b);
      forall x
        ensures x in a[1..] <==> x in b[1..]
      {
        if x in a[1..] {
          SortedSameTail(a, b, x);
        }
        if x in b[1..] {
          SortedSameTail(b, a, x);
        }
      }
      SortedUnique(a[1..], b[1..]);
      assert a == [a[0]] + a[1..] && b == [b[0]] + b[1..];
    }
  }
}
