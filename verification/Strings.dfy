/** Python's order on `str`, and `sorted` of a set of strings. */
module Strings {

  /** Code-point lexicographic order. */
  predicate StringLe(a: string, b: string) {
    || a == []
    || (b != [] && (a[0] < b[0] || (a[0] == b[0] && StringLe(a[1..], b[1..]))))
  }

  lemma {:induction false} LeTotal(a: string, b: string)
    ensures StringLe(a, b) || StringLe(b, a)
  {
    if a != [] && b != [] && a[0] == b[0] {
      LeTotal(a[1..], b[1..]);
    }
  }

  lemma {:induction false} LeAntisymmetric(a: string, b: string)
    requires StringLe(a, b) && StringLe(b, a)
    ensures a == b
  {
    if a != [] && b != [] {
      LeAntisymmetric(a[1..], b[1..]);
      assert a == [a[0]] + a[1..] && b == [b[0]] + b[1..];
    }
  }

  lemma {:induction false} LeTransitive(a: string, b: string, c: string)
    requires StringLe(a, b) && StringLe(b, c)
    ensures StringLe(a, c)
  {
    if a != [] && b != [] && c != [] && a[0] == b[0] == c[0] {
      LeTransitive(a[1..], b[1..], c[1..]);
    }
  }

  lemma {:induction false} LeReflexive(a: string)
    ensures StringLe(a, a)
  {
    LeTotal(a, a);
  }

  /** One string comes before another one as its beginning, or by the first character that differs. */
  lemma {:induction false} LeMeans(a: string, b: string)
    ensures StringLe(a, b) <==> a <= b || exists k :: 0 <= k < |a| && k < |b| && a[..k] == b[..k] && a[k] < b[k]
  {
    if a != [] && b != [] && a[0] == b[0] {
      var s, t := a[1..], b[1..];
      assert a == [a[0]] + s && b == [b[0]] + t;
      LeMeans(s, t);
      if k :| 0 <= k < |s| && k < |t| && s[..k] == t[..k] && s[k] < t[k] {
        assert a[..k + 1] == [a[0]] + s[..k] && b[..k + 1] == [b[0]] + t[..k];
        assert a[k + 1] < b[k + 1];
      }
      if k :| 0 <= k < |a| && k < |b| && a[..k] == b[..k] && a[k] < b[k] {
        assert s[..k - 1] == a[..k][1..] && t[..k - 1] == b[..k][1..];
        assert s[k - 1] < t[k - 1];
      }
    } else if a != [] && b != [] {
      assert a[..0] == b[..0];
      if k :| 0 <= k < |a| && k < |b| && a[..k] == b[..k] && a[k] < b[k] {
        assert k > 0 ==> a[..k][0] == a[0] && b[..k][0] == b[0];
      }
    }
  }

  predicate IsLeast(x: string, s: set<string>) {
    x in s && forall y :: y in s ==> StringLe(x, y)
  }

  lemma {:induction false} LeastExists(s: set<string>) returns (x: string)
    requires s != {}
    ensures IsLeast(x, s)
    decreases |s|
  {
    var y :| y in s;
    LeReflexive(y);
    if s == {y} {
      x := y;
    } else {
      var z := LeastExists(s - {y});
      LeTotal(y, z);
      x := if StringLe(y, z) then y else z;
      forall w | w in s ensures StringLe(x, w) {
        if w != y {
          assert w in s - {y};
          LeTransitive(x, z, w) by { LeReflexive(z); }
        } else {
          LeReflexive(y);
        }
      }
    }
  }

  /** `r` lists the members of `s` in strictly ascending order. */
  ghost predicate Lists(r: seq<string>, s: set<string>) {
    && (forall x :: x in r <==> x in s)
    && (forall i, j :: 0 <= i < j < |r| ==> StringLe(r[i], r[j]) && r[i] != r[j])
  }

  lemma {:induction false} PrependLeast(x: string, r: seq<string>, s: set<string>)
    requires IsLeast(x, s) && Lists(r, s - {x})
    ensures Lists([x] + r, s)
  {
    var t := [x] + r;
    forall i, j | 0 <= i < j < |t| ensures StringLe(t[i], t[j]) && t[i] != t[j] {
      assert t[j] == r[j - 1] && r[j - 1] in r;
      if i > 0 { assert t[i] == r[i - 1]; }
    }
    forall y ensures y in t <==> y in s {
      assert y in t <==> y == x || y in r;
    }
  }

  lemma {:induction false} ListExists(s: set<string>) returns (r: seq<string>)
    ensures Lists(r, s)
    decreases |s|
  {
    if s == {} {
      r := [];
    } else {
      var x := LeastExists(s);
      var t := ListExists(s - {x});
      PrependLeast(x, t, s);
      r := [x] + t;
    }
  }

  lemma {:induction false} ListTail(r: seq<string>, s: set<string>)
    requires Lists(r, s) && r != []
    ensures IsLeast(r[0], s) && Lists(r[1..], s - {r[0]})
  {
    var t := r[1..];
    assert r == [r[0]] + t;
    forall y | y in s ensures StringLe(r[0], y) {
      assert y in r;
      var i :| 0 <= i < |r| && r[i] == y;
      if i == 0 { LeReflexive(y); }
    }
    forall y ensures y in t <==> y in s - {r[0]} {
      if y in t {
        var i :| 0 <= i < |t| && t[i] == y;
        assert y == r[i + 1] && r[0] != r[i + 1];
      }
      if y in s - {r[0]} {
        assert y in r;
      }
    }
    forall i, j | 0 <= i < j < |t| ensures StringLe(t[i], t[j]) && t[i] != t[j] {
      assert t[i] == r[i + 1] && t[j] == r[j + 1];
    }
  }

  lemma {:induction false} ListSize(r: seq<string>, s: set<string>)
    requires Lists(r, s)
    ensures |r| == |s|
  {
    if r == [] {
      assert s == {};
    } else {
      ListTail(r, s);
      assert r[0] in s;
      ListSize(r[1..], s - {r[0]});
    }
  }

  /** There is only one such list. */
  lemma {:induction false} ListUnique(a: seq<string>, b: seq<string>, s: set<string>)
    requires Lists(a, s) && Lists(b, s)
    ensures a == b
  {
    ListSize(a, s);
    ListSize(b, s);
    if a != [] {
      ListTail(a, s);
      ListTail(b, s);
      LeAntisymmetric(a[0], b[0]);
      ListUnique(a[1..], b[1..], s - {a[0]});
    }
  }

  /** `sorted(s)` for a set of strings. */
  ghost function SortedSet(s: set<string>): (r: seq<string>)
    ensures Lists(r, s)
  {
    assert exists r :: Lists(r, s) by { var r := ListExists(s); }
    var r :| Lists(r, s);
    r
  }

  lemma {:induction false} SortedSetSize(s: set<string>)
    ensures |SortedSet(s)| == |s|
  {
    ListSize(SortedSet(s), s);
  }

  /** Sorts a set by taking out least members. */
  method SortSet(s: set<string>) returns (r: seq<string>)
    ensures r == SortedSet(s)
  {
    r := SortRec(s);
    ListUnique(r, SortedSet(s), s);
  }

  method SortRec(s: set<string>) returns (r: seq<string>)
    ensures Lists(r, s)
    decreases |s|
  {
    if s == {} {
      return [];
    }
    ghost var least := LeastExists(s);
    var x :| x in s && forall y :: y in s ==> StringLe(x, y);
    var t := SortRec(s - {x});
    PrependLeast(x, t, s);
    return [x] + t;
  }
}
