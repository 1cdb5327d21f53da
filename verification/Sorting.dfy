/** Python's `sorted` / `list.sort`: a stable sort by a total preorder, with the facts about it
    that the rest of the model needs.  `le(x, y)` means "x may stand before y"; a descending sort
    is the same function with the order turned round, because `reverse=True` keeps ties in place. */
module Sorting {

  ghost predicate TotalPreorder<T(!new)>(le: (T, T) -> bool) {
    && (forall x, y :: le(x, y) || le(y, x))
    && (forall x, y, z :: le(x, y) && le(y, z) ==> le(x, z))
  }

  ghost predicate Sorted<T>(s: seq<T>, le: (T, T) -> bool) {
    forall i, j :: 0 <= i < j < |s| ==> le(s[i], s[j])
  }

  /** No two different members of `s` are equivalent. */
  ghost predicate Antisymmetric<T>(s: seq<T>, le: (T, T) -> bool) {
    forall i, j :: 0 <= i < |s| && 0 <= j < |s| && le(s[i], s[j]) && le(s[j], s[i]) ==> s[i] == s[j]
  }

  /** Puts `x`, which came before all of `s`, into the sorted `s`: in front of its equals. */
  function Insert<T>(x: T, s: seq<T>, le: (T, T) -> bool): seq<T> {
    if s == [] || le(x, s[0]) then [x] + s else [s[0]] + Insert(x, s[1..], le)
  }

  function Sort<T>(s: seq<T>, le: (T, T) -> bool): seq<T> {
    if s == [] then [] else Insert(s[0], Sort(s[1..], le), le)
  }

  /** The members of `s` equivalent to `x`, in order. */
  ghost function Ties<T>(s: seq<T>, x: T, le: (T, T) -> bool): seq<T> {
    if s == [] then []
    else (if le(x, s[0]) && le(s[0], x) then [s[0]] else []) + Ties(s[1..], x, le)
  }

  lemma {:induction false} InsertFacts<T(!new)>(x: T, s: seq<T>, le: (T, T) -> bool)
    requires TotalPreorder(le)
    requires Sorted(s, le)
    ensures Sorted(Insert(x, s, le), le)
    ensures multiset(Insert(x, s, le)) == multiset([x]) + multiset(s)
  {
    if s == [] || le(x, s[0]) {
    } else {
      InsertFacts(x, s[1..], le);
      var r := Insert(x, s[1..], le);
      assert s == [s[0]] + s[1..];
      forall j | 0 <= j < |r| ensures le(s[0], r[j]) {
        assert r[j] in multiset(r);
        if r[j] != x {
          assert r[j] in s[1..];
        }
      }
    }
  }

  /** The result of sorting is sorted and a rearrangement of the input. */
  lemma {:induction false} SortFacts<T(!new)>(s: seq<T>, le: (T, T) -> bool)
    requires TotalPreorder(le)
    ensures Sorted(Sort(s, le), le)
    ensures multiset(Sort(s, le)) == multiset(s)
    ensures |Sort(s, le)| == |s|
    ensures forall x :: x in Sort(s, le) <==> x in s
  {
    if s == [] {
    } else {
      SortFacts(s[1..], le);
      InsertFacts(s[0], Sort(s[1..], le), le);
      assert s == [s[0]] + s[1..];
    }
    var r := Sort(s, le);
    assert |r| == |multiset(r)| == |multiset(s)| == |s|;
    forall x ensures x in r <==> x in s {
      assert x in r <==> x in multiset(r);
      assert x in s <==> x in multiset(s);
    }
  }

  lemma {:induction false} InsertTies<T(!new)>(x: T, s: seq<T>, y: T, le: (T, T) -> bool)
    requires TotalPreorder(le)
    ensures Ties(Insert(x, s, le), y, le) == Ties([x] + s, y, le)
  {
    if s == [] || le(x, s[0]) {
    } else {
      InsertTies(x, s[1..], y, le);
      var r := Insert(x, s[1..], le);
      assert ([s[0]] + r)[1..] == r;
      assert ([x] + s)[1..] == s;
      assert ([x] + s[1..])[1..] == s[1..];
    }
  }

  /** Stability: members that compare equal keep their order. */
  lemma {:induction false} SortStable<T(!new)>(s: seq<T>, x: T, le: (T, T) -> bool)
    requires TotalPreorder(le)
    ensures Ties(Sort(s, le), x, le) == Ties(s, x, le)
  {
    if s == [] {
    } else {
      SortStable(s[1..], x, le);
      InsertTies(s[0], Sort(s[1..], le), x, le);
      assert ([s[0]] + Sort(s[1..], le))[1..] == Sort(s[1..], le);
    }
  }

  lemma {:induction false} SortOfSorted<T(!new)>(s: seq<T>, le: (T, T) -> bool)
    requires Sorted(s, le)
    ensures Sort(s, le) == s
  {
    if s == [] {
    } else {
      SortOfSorted(s[1..], le);
    }
  }

  lemma {:induction false} TailMultiset<T>(a: seq<T>)
    requires a != []
    ensures multiset(a[1..]) == multiset(a) - multiset([a[0]])
  {
    assert a == [a[0]] + a[1..];
  }

  lemma {:induction false} TailSorted<T>(a: seq<T>, le: (T, T) -> bool)
    requires a != [] && Sorted(a, le)
    ensures Sorted(a[1..], le)
    ensures Antisymmetric(a, le) ==> Antisymmetric(a[1..], le)
  {
    var c := a[1..];
    assert forall i :: 0 <= i < |c| ==> c[i] == a[i + 1];
  }

  lemma {:induction false} FirstAgrees<T(!new)>(a: seq<T>, b: seq<T>, le: (T, T) -> bool)
    requires TotalPreorder(le)
    requires Sorted(a, le) && Sorted(b, le)
    requires multiset(a) == multiset(b) && a != [] && b != []
    requires Antisymmetric(a, le)
    ensures a[0] == b[0]
  {
    assert a[0] in multiset(a) && b[0] in multiset(b);
    assert a[0] in b && b[0] in a;
    var i :| 0 <= i < |b| && b[i] == a[0];
    var j :| 0 <= j < |a| && a[j] == b[0];
    if i > 0 && j > 0 {
      assert le(a[0], a[j]) && le(b[0], b[i]);
      assert le(a[0], a[j]) && le(a[j], a[0]);
    }
  }

  /** Two sorted rearrangements of each other agree when equivalent members are equal. */
  lemma {:induction false} SortedUnique<T(!new)>(a: seq<T>, b: seq<T>, le: (T, T) -> bool)
    requires TotalPreorder(le)
    requires Sorted(a, le) && Sorted(b, le)
    requires multiset(a) == multiset(b)
    requires Antisymmetric(a, le)
    ensures a == b
  {
    assert |a| == |multiset(a)| == |multiset(b)| == |b|;
    if a != [] {
      FirstAgrees(a, b, le);
      TailMultiset(a);
      TailMultiset(b);
      TailSorted(a, le);
      TailSorted(b, le);
      SortedUnique(a[1..], b[1..], le);
    }
  }

  /** Sorting forgets the input order when equivalent members are equal. */
  lemma {:induction false} SortIgnoresOrder<T(!new)>(a: seq<T>, b: seq<T>, le: (T, T) -> bool)
    requires TotalPreorder(le)
    requires multiset(a) == multiset(b)
    requires Antisymmetric(a, le)
    ensures Sort(a, le) == Sort(b, le)
  {
    SortFacts(a, le);
    SortFacts(b, le);
    var r := Sort(a, le);
    forall i, j | 0 <= i < |r| && 0 <= j < |r| && le(r[i], r[j]) && le(r[j], r[i]) ensures r[i] == r[j] {
      assert r[i] in a && r[j] in a;
    }
    SortedUnique(r, Sort(b, le), le);
  }

  // ----- merging -----

  /** Stable merge: on a tie the left member goes first. */
  function Merge<T>(a: seq<T>, b: seq<T>, le: (T, T) -> bool): (r: seq<T>)
    ensures |r| == |a| + |b|
    decreases |a| + |b|
  {
    if a == [] then b
    else if b == [] then a
    else if le(a[0], b[0]) then [a[0]] + Merge(a[1..], b, le)
    else [b[0]] + Merge(a, b[1..], le)
  }

  lemma {:induction false} InsertMerge<T(!new)>(x: T, p: seq<T>, q: seq<T>, le: (T, T) -> bool)
    requires TotalPreorder(le)
    ensures Insert(x, Merge(p, q, le), le) == Merge(Insert(x, p, le), q, le)
    decreases |p| + |q|
  {
    if q == [] {
    } else if p == [] {
      assert [x][1..] == [];
      if !le(x, q[0]) {
        InsertMerge(x, p, q[1..], le);
      }
    } else {
      var m := Merge(p, q, le);
      if le(p[0], q[0]) {
        assert m[1..] == Merge(p[1..], q, le);
        if le(x, p[0]) {
          assert ([x] + p)[1..] == p;
        } else {
          InsertMerge(x, p[1..], q, le);
          assert ([p[0]] + Insert(x, p[1..], le))[1..] == Insert(x, p[1..], le);
        }
      } else {
        assert m[1..] == Merge(p, q[1..], le);
        if le(x, q[0]) {
          assert le(x, p[0]);
          assert ([x] + p)[1..] == p;
        } else {
          InsertMerge(x, p, q[1..], le);
          assert Insert(x, p, le)[0] == if le(x, p[0]) then x else p[0];
        }
      }
    }
  }

  /** Sorting a concatenation is merging the sorted halves. */
  lemma {:induction false} SortOfConcat<T(!new)>(a: seq<T>, b: seq<T>, le: (T, T) -> bool)
    requires TotalPreorder(le)
    ensures Sort(a + b, le) == Merge(Sort(a, le), Sort(b, le), le)
  {
    if a == [] {
      assert a + b == b;
    } else {
      SortOfConcat(a[1..], b, le);
      assert (a + b)[0] == a[0] && (a + b)[1..] == a[1..] + b;
      InsertMerge(a[0], Sort(a[1..], le), Sort(b, le), le);
    }
  }
}
