/**
 * Python's ordering of `str` values (lexicographic by code point) and `sorted()` of a set of
 * strings, used wherever the ingest code iterates over sorted names or paths.
 */
module Order {

  /** `a < b` on Python strings. */
  predicate Less(a: string, b: string)
    decreases |a|
  {
    if a == [] then b != []
    else b != [] && (a[0] < b[0] || (a[0] == b[0] && Less(a[1..], b[1..])))
  }

  lemma {:induction false} LessIrreflexive(a: string)
    ensures !Less(a, a)
    decreases |a|
  {
    if a != [] {
      LessIrreflexive(a[1..]);
    }
  }

  lemma {:induction false} LessAsymmetric(a: string, b: string)
    requires Less(a, b)
    ensures !Less(b, a)
    decreases |a|
  {
    if a != [] && b != [] && a[0] == b[0] {
      LessAsymmetric(a[1..], b[1..]);
    }
  }

  lemma {:induction false} LessTransitive(a: string, b: string, c: string)
    requires Less(a, b) && Less(b, c)
    ensures Less(a, c)
    decreases |a|
  {
    if a != [] && a[0] == b[0] && b[0] == c[0] {
      LessTransitive(a[1..], b[1..], c[1..]);
    }
  }

  lemma {:induction false} LessTotal(a: string, b: string)
    ensures a == b || Less(a, b) || Less(b, a)
    decreases |a|
  {
    if a != [] && b != [] && a[0] == b[0] {
      LessTotal(a[1..], b[1..]);
      if a[1..] == b[1..] {
        assert a == [a[0]] + a[1..] && b == [b[0]] + b[1..];
      }
    }
  }

  predicate StrictlySorted(s: seq<string>) {
    forall i, j :: 0 <= i < j < |s| ==> Less(s[i], s[j])
  }

  /** `m` is the least element of `s`. */
  ghost predicate IsLeast(m: string, s: set<string>) {
    m in s && forall x :: x in s && x != m ==> Less(m, x)
  }

  /** `m` is the greatest element of `s`. */
  ghost predicate IsGreatest(m: string, s: set<string>) {
    m in s && forall x :: x in s && x != m ==> Less(x, m)
  }

  lemma {:induction false} LeastExists(s: set<string>)
    requires s != {}
    ensures exists m :: IsLeast(m, s)
    decreases |s|
  {
    var y :| y in s;
    if s == {y} {
      assert IsLeast(y, s);
    } else {
      LeastExists(s - {y});
      var m :| IsLeast(m, s - {y});
      LessTotal(y, m);
      if Less(y, m) {
        forall x | x in s && x != y
          ensures Less(y, x)
        {
          if x != m {
            LessTransitive(y, m, x);
          }
        }
        assert IsLeast(y, s);
      } else {
        assert IsLeast(m, s);
      }
    }
  }

  lemma {:induction false} GreatestExists(s: set<string>)
    requires s != {}
    ensures exists m :: IsGreatest(m, s)
    decreases |s|
  {
    var y :| y in s;
    if s == {y} {
      assert IsGreatest(y, s);
    } else {
      GreatestExists(s - {y});
      var m :| IsGreatest(m, s - {y});
      LessTotal(y, m);
      if Less(m, y) {
        forall x | x in s && x != y
          ensures Less(x, y)
        {
          if x != m {
            LessTransitive(x, m, y);
          }
        }
        assert IsGreatest(y, s);
      } else {
        assert IsGreatest(m, s);
      }
    }
  }

  lemma LeastUnique(m: string, n: string, s: set<string>)
    requires IsLeast(m, s) && IsLeast(n, s)
    ensures m == n
  {
    if m != n {
      LessAsymmetric(m, n);
    }
  }

  lemma GreatestUnique(m: string, n: string, s: set<string>)
    requires IsGreatest(m, s) && IsGreatest(n, s)
    ensures m == n
  {
    if m != n {
      LessAsymmetric(m, n);
    }
  }

  /** `sorted(s)[0]`. */
  ghost function Least(s: set<string>): (m: string)
    requires s != {}
    ensures IsLeast(m, s)
  {
    LeastExists(s);
    var m :| IsLeast(m, s);
    m
  }

  /** `max(s)`, equivalently `sorted(s)[-1]`. */
  ghost function Greatest(s: set<string>): (m: string)
    requires s != {}
    ensures IsGreatest(m, s)
  {
    GreatestExists(s);
    var m :| IsGreatest(m, s);
    m
  }

  /** Inserts `x` into a strictly sorted sequence at its place. */
  function Insert(x: string, s: seq<string>): (r: seq<string>)
    requires StrictlySorted(s) && x !in s
    ensures StrictlySorted(r)
    ensures forall y :: y in r <==> y == x || y in s
    ensures |r| == |s| + 1
  {
    if s == [] then [x]
    else
      LessTotal(x, s[0]);
      if Less(x, s[0]) then
        forall j | 0 < j < |s| ensures Less(x, s[j]) {
          LessTransitive(x, s[0], s[j]);
        }
        [x] + s
      else
        var t := Insert(x, s[1..]);
        assert forall j | 0 <= j < |t| :: Less(s[0], t[j]) by {
          forall j | 0 <= j < |t| ensures Less(s[0], t[j]) {
            assert t[j] in t;
            if t[j] != x {
              var k :| 0 <= k < |s[1..]| && s[1..][k] == t[j];
              assert s[1..][k] == s[k + 1];
            }
          }
        }
        [s[0]] + t
  }

  /** `sorted(s)` for a set of strings: the elements of `s` in strictly increasing order. */
  method SortedList(s: set<string>) returns (r: seq<string>)
    ensures StrictlySorted(r)
    ensures forall x :: x in r <==> x in s
  {
    r := [];
    var rest := s;
    while rest != {}
      invariant StrictlySorted(r)
      invariant rest <= s
      invariant forall x :: x in r <==> x in s && x !in rest
      decreases |rest|
    {
      var x :| x in rest;
      r := Insert(x, r);
      rest := rest - {x};
    }
  }

  /** A strictly sorted sequence starts with the least of its elements. */
  lemma SortedHeadIsLeast(r: seq<string>, s: set<string>)
    requires StrictlySorted(r) && s != {}
    requires forall x :: x in r <==> x in s
    ensures |r| > 0 && r[0] == Least(s)
  {
    var m := Least(s);
    assert |r| > 0 by {
      assert m in r;
    }
    assert IsLeast(r[0], s) by {
      forall x | x in s && x != r[0] ensures Less(r[0], x) {
        var k :| 0 <= k < |r| && r[k] == x;
      }
    }
    LeastUnique(r[0], m, s);
  }

  /** A strictly sorted sequence ends with the greatest of its elements. */
  lemma SortedLastIsGreatest(r: seq<string>, s: set<string>)
    requires StrictlySorted(r) && s != {}
    requires forall x :: x in r <==> x in s
    ensures |r| > 0 && r[|r| - 1] == Greatest(s)
  {
    var m := Greatest(s);
    assert |r| > 0 by {
      assert m in r;
    }
    var last := r[|r| - 1];
    assert IsGreatest(last, s) by {
      forall x | x in s && x != last ensures Less(x, last) {
        var k :| 0 <= k < |r| && r[k] == x;
      }
    }
    GreatestUnique(last, m, s);
  }

  /** `sorted` is determined by the set: two strictly sorted listings of the same elements are equal. */
  lemma {:induction false} SortedUnique(a: seq<string>, b: seq<string>)
    requires StrictlySorted(a) && StrictlySorted(b)
    requires forall x :: x in a <==> x in b
    ensures a == b
    decreases |a|
  {
    assert b != [] ==> b[0] in a;
    if a != [] {
      var s := set x | x in a;
      assert a[0] in s;
      SortedHeadIsLeast(a, s);
      SortedHeadIsLeast(b, s);
      assert a == [a[0]] + a[1..] && b == [b[0]] + b[1..];
      forall x ensures x in a[1..] <==> x in b[1..] {
        if x in a[1..] {
          var k :| 0 <= k < |a[1..]| && a[1..][k] == x;
          assert Less(a[0], x);
          LessIrreflexive(x);
          assert x in b && x != b[0];
        }
        if x in b[1..] {
          var k :| 0 <= k < |b[1..]| && b[1..][k] == x;
          assert Less(b[0], x);
          LessIrreflexive(x);
          assert x in a && x != a[0];
        }
      }
      SortedUnique(a[1..], b[1..]);
      assert a == [a[0]] + a[1..] && b == [b[0]] + b[1..];
    }
  }
}
