/** Paging over several providers whose hits all differ: exactly when the budgeted pages are right. */
module SearchPaging {
  import opened Basics
  import opened Sorting
  import opened GlobalSearch

  ghost predicate Distinct<T>(s: seq<T>) { forall i, j :: 0 <= i < j < |s| ==> s[i] != s[j] }

  /** `x` comes before `y` in `s`. */
  predicate Before(s: seq<SearchResult>, x: SearchResult, y: SearchResult): (b: bool)
    ensures b ==> x in s && y in s
  {
    s != [] && ((s[0] == x && y in s[1..]) || Before(s[1..], x, y))
  }

  /** Higher relevance, or the same and earlier in provider order. */
  predicate Outranks(ps: seq<Provider>, x: SearchResult, y: SearchResult) {
    x.relevance > y.relevance || (x.relevance == y.relevance && Before(AllHits(ps), x, y))
  }

  /** The returned hits that outrank `h`. */
  function Better(ps: seq<Provider>, n: nat, h: SearchResult): set<SearchResult> {
    set x | x in Collected(ps, n) && Outranks(ps, x, h)
  }

  /** Every hit held back under a budget of `n` has `n` returned hits that outrank it. */
  ghost predicate HiddenByEnough(ps: seq<Provider>, n: nat) {
    forall h :: h in AllHits(ps) && h !in Collected(ps, n) ==> |Better(ps, n, h)| >= n
  }

  // ----- sorting a selection -----

  /** The members of `s` that are in `c`. */
  function Kept(s: seq<SearchResult>, c: seq<SearchResult>): seq<SearchResult> {
    if s == [] then [] else if s[0] in c then [s[0]] + Kept(s[1..], c) else Kept(s[1..], c)
  }

  lemma {:induction false} KeptMembers(s: seq<SearchResult>, c: seq<SearchResult>)
    ensures forall x :: x in Kept(s, c) ==> x in s && x in c
  {
    if s != [] {
      KeptMembers(s[1..], c);
      assert s == [s[0]] + s[1..];
    }
  }

  lemma {:induction false} KeptCons(x: SearchResult, s: seq<SearchResult>, c: seq<SearchResult>)
    ensures Kept([x] + s, c) == if x in c then [x] + Kept(s, c) else Kept(s, c)
  {
    assert ([x] + s)[1..] == s;
  }

  lemma {:induction false} InsertFront(x: SearchResult, s: seq<SearchResult>)
    requires forall y :: y in s ==> NotLess(x, y)
    ensures Insert(x, s, NotLess) == [x] + s
  {
    assert s != [] ==> s[0] in s;
  }

  lemma {:induction false} InsertBehind(x: SearchResult, y: SearchResult, s: seq<SearchResult>)
    requires !NotLess(x, y)
    ensures Insert(x, [y] + s, NotLess) == [y] + Insert(x, s, NotLess)
  {
    assert ([y] + s)[1..] == s;
  }

  lemma {:induction false} KeptInsert(x: SearchResult, s: seq<SearchResult>, c: seq<SearchResult>)
    requires Sorted(s, NotLess)
    ensures Kept(Insert(x, s, NotLess), c) == if x in c then Insert(x, Kept(s, c), NotLess) else Kept(s, c)
  {
    if s == [] || NotLess(x, s[0]) {
      KeptCons(x, s, c);
      KeptMembers(s, c);
      InsertFront(x, Kept(s, c));
    } else {
      var first, rest := s[0], s[1..];
      assert s == [first] + rest;
      KeptInsert(x, rest, c);
      InsertBehind(x, first, rest);
      KeptCons(first, Insert(x, rest, NotLess), c);
      KeptCons(first, rest, c);
      InsertBehind(x, first, Kept(rest, c));
    }
  }

  lemma {:induction false} SortCons(x: SearchResult, s: seq<SearchResult>)
    ensures Sort([x] + s, NotLess) == Insert(x, Sort(s, NotLess), NotLess)
  {
    assert ([x] + s)[1..] == s;
  }

  lemma {:induction false} KeptSortStep(x: SearchResult, s: seq<SearchResult>, c: seq<SearchResult>)
    requires Kept(Sort(s, NotLess), c) == Sort(Kept(s, c), NotLess)
    ensures Kept(Sort([x] + s, NotLess), c) == Sort(Kept([x] + s, c), NotLess)
  {
    NotLessOrder();
    SortFacts(s, NotLess);
    KeptInsert(x, Sort(s, NotLess), c);
    SortCons(x, s);
    KeptCons(x, s, c);
    SortCons(x, Kept(s, c));
  }

  /** Selecting from the sorted whole is sorting the selection. */
  lemma {:induction false} KeptSort(s: seq<SearchResult>, c: seq<SearchResult>)
    ensures Kept(Sort(s, NotLess), c) == Sort(Kept(s, c), NotLess)
  {
    if s != [] {
      var first, rest := s[0], s[1..];
      KeptSort(rest, c);
      KeptSortStep(first, rest, c);
      assert s == [first] + rest;
    }
  }

  lemma {:induction false} KeptConcat(a: seq<SearchResult>, b: seq<SearchResult>, c: seq<SearchResult>)
    ensures Kept(a + b, c) == Kept(a, c) + Kept(b, c)
  {
    if a == [] {
      assert a + b == b;
    } else {
      hide *;
      var first, rest := a[0], a[1..];
      KeptConcat(rest, b, c);
      assert a == [first] + rest && a + b == [first] + (rest + b);
      KeptCons(first, rest, c);
      KeptCons(first, rest + b, c);
    }
  }

  lemma {:induction false} KeptAgree(s: seq<SearchResult>, c: seq<SearchResult>, d: seq<SearchResult>)
    requires forall x :: x in s ==> (x in c <==> x in d)
    ensures Kept(s, c) == Kept(s, d)
  {
    if s != [] {
      assert s[0] in s;
      KeptAgree(s[1..], c, d);
    }
  }

  lemma {:induction false} KeptAll(s: seq<SearchResult>)
    ensures Kept(s, s) == s
  {
    if s != [] {
      KeptAgree(s[1..], s, s[1..]);
      KeptAll(s[1..]);
    }
  }

  lemma {:induction false} KeptNone(s: seq<SearchResult>, c: seq<SearchResult>)
    requires forall x :: x in s ==> x !in c
    ensures Kept(s, c) == []
  {
    if s != [] {
      assert s[0] in s;
      KeptNone(s[1..], c);
    }
  }

  lemma {:induction false} DistinctHalves<T>(a: seq<T>, b: seq<T>)
    requires Distinct(a + b)
    ensures Distinct(a) && Distinct(b) && forall x :: x in a ==> x !in b
  {
    var s := a + b;
    forall i, j | 0 <= i < j < |a| ensures a[i] != a[j] {
      assert s[i] != s[j];
    }
    forall i, j | 0 <= i < j < |b| ensures b[i] != b[j] {
      assert s[|a| + i] != s[|a| + j];
    }
    forall i, j | 0 <= i < |a| && 0 <= j < |b| ensures a[i] != b[j] {
      assert s[i] != s[|a| + j];
    }
  }

  lemma {:induction false} KeptTake(s: seq<SearchResult>, n: nat)
    requires Distinct(s)
    ensures Kept(s, Take(s, n)) == Take(s, n)
  {
    var a := Take(s, n);
    var b := if n <= |s| then s[n..] else [];
    assert s == a + b;
    DistinctHalves(a, b);
    KeptConcat(a, b, a);
    KeptAll(a);
    KeptNone(b, a);
  }

  lemma {:induction false} CollectedAreHits(ps: seq<Provider>, n: nat)
    ensures forall x :: x in Collected(ps, n) ==> x in AllHits(ps)
  {
    if ps != [] {
      CollectedAreHits(ps[..|ps| - 1], n);
    }
  }

  lemma {:induction false} CollectedGrows(ps: seq<Provider>, n: nat, m: nat)
    requires n <= m
    ensures forall x :: x in Collected(ps, n) ==> x in Collected(ps, m)
  {
    if ps != [] {
      CollectedGrows(ps[..|ps| - 1], n, m);
      TakeTake(Answer(ps[|ps| - 1]), m, n);
    }
  }

  /** What a budget collects is a selection from all hits. */
  lemma {:induction false} CollectedIsKept(ps: seq<Provider>, n: nat)
    requires Distinct(AllHits(ps))
    ensures Collected(ps, n) == Kept(AllHits(ps), Collected(ps, n))
  {
    if ps != [] {
      var init, mine := ps[..|ps| - 1], Answer(ps[|ps| - 1]);
      DistinctHalves(AllHits(init), mine);
      CollectedIsKept(init, n);
      CollectedAreHits(init, n);
      KeptTake(mine, n);
      KeptAgree(AllHits(init), Collected(ps, n), Collected(init, n));
      KeptAgree(mine, Collected(ps, n), Take(mine, n));
      KeptConcat(AllHits(init), mine, Collected(ps, n));
    }
  }

  // ----- the front of a selection -----

  ghost predicate AllIn(s: seq<SearchResult>, c: seq<SearchResult>) { forall x :: x in s ==> x in c }

  lemma {:induction false} AllInCons(x: SearchResult, s: seq<SearchResult>, c: seq<SearchResult>)
    ensures AllIn([x] + s, c) <==> x in c && AllIn(s, c)
  {
    assert ([x] + s)[0] == x;
    assert forall y :: y in [x] + s <==> y == x || y in s;
  }

  lemma {:induction false} OtherFront(r: seq<SearchResult>, x: SearchResult, s: seq<SearchResult>, n: nat)
    requires n > 0 && x !in r
    ensures Take(r, n) != [x] + s
  {
    assert Take(r, n) != [] ==> Take(r, n)[0] == r[0];
  }

  /** A selection starts like the whole exactly when it leaves nothing out there. */
  lemma {:induction false} TopKept(r: seq<SearchResult>, c: seq<SearchResult>, n: nat)
    ensures Take(Kept(r, c), n) == Take(r, n) <==> AllIn(Take(r, n), c)
  {
    if n == 0 || r == [] {
    } else {
      hide *;
      var first, rest := r[0], r[1..];
      assert r == [first] + rest;
      TakeCons(first, rest, n);
      KeptCons(first, rest, c);
      AllInCons(first, Take(rest, n - 1), c);
      if first in c {
        TopKept(rest, c, n - 1);
        TakeCons(first, Kept(rest, c), n);
      } else {
        KeptMembers(r, c);
        OtherFront(Kept(r, c), first, Take(rest, n - 1), n);
      }
    }
  }

  lemma {:induction false} DistinctCount<T>(s: seq<T>)
    requires Distinct(s)
    ensures |set x | x in s| == |s|
  {
    if s != [] {
      var init, last := s[..|s| - 1], s[|s| - 1];
      assert s == init + [last];
      DistinctHalves(init, [last]);
      DistinctCount(init);
      assert (set x | x in s) == (set x | x in init) + {last};
    }
  }

  lemma {:induction false} BeforeMeans(r: seq<SearchResult>, i: nat, x: SearchResult)
    requires Distinct(r) && i < |r|
    ensures Before(r, x, r[i]) <==> x in r[..i]
  {
    assert r == [r[0]] + r[1..];
    DistinctHalves([r[0]], r[1..]);
    assert r[0] in [r[0]];
    if i > 0 {
      BeforeMeans(r[1..], i - 1, x);
      assert r[..i] == [r[0]] + r[1..][..i - 1];
    }
  }

  lemma {:induction false} SubsetSize(a: set<SearchResult>, b: set<SearchResult>)
    requires a <= b
    ensures |a| <= |b|
  {
    assert b == a + (b - a);
  }

  /** The selected ones that come before `h`. */
  function Ahead(r: seq<SearchResult>, c: seq<SearchResult>, h: SearchResult): set<SearchResult> {
    set x | x in c && Before(r, x, h)
  }

  lemma {:induction false} AheadIsFront(r: seq<SearchResult>, c: seq<SearchResult>, i: nat)
    requires Distinct(r) && i < |r|
    ensures Ahead(r, c, r[i]) == set x | x in c && x in r[..i]
  {
    forall x ensures Before(r, x, r[i]) <==> x in r[..i] {
      BeforeMeans(r, i, x);
    }
  }

  lemma {:induction false} FrontCount(r: seq<SearchResult>, i: nat)
    requires Distinct(r) && i <= |r|
    ensures |set x | x in r[..i]| == i
  {
    assert r == r[..i] + r[i..];
    DistinctHalves(r[..i], r[i..]);
    DistinctCount(r[..i]);
  }

  lemma {:induction false} AheadCount(r: seq<SearchResult>, c: seq<SearchResult>, n: nat, i: nat)
    requires Distinct(r) && i < |r| && r[i] !in c
    ensures |Ahead(r, c, r[i])| <= i
    ensures n <= i && AllIn(r[..n], c) ==> |Ahead(r, c, r[i])| >= n
  {
    AheadIsFront(r, c, i);
    FrontCount(r, i);
    SubsetSize(Ahead(r, c, r[i]), set x | x in r[..i]);
    if n <= i && AllIn(r[..n], c) {
      FrontCount(r, n);
      assert r[..i][..n] == r[..n];
      SubsetSize((set x | x in r[..n]), Ahead(r, c, r[i]));
    }
  }

  lemma {:induction false} TakeMember<T>(s: seq<T>, n: nat, i: nat)
    requires i < |s|
    ensures i < n ==> s[i] in Take(s, n)
  {
    assert i < n ==> Take(s, n)[i] == s[i];
  }

  /** The first `n` are all selected exactly when `n` selected ones come before everything left out. */
  lemma {:induction false} TopCounted(r: seq<SearchResult>, c: seq<SearchResult>, n: nat)
    requires Distinct(r)
    ensures AllIn(Take(r, n), c) <==> forall h :: h in r && h !in c ==> |Ahead(r, c, h)| >= n
  {
    if AllIn(Take(r, n), c) {
      forall h | h in r && h !in c ensures |Ahead(r, c, h)| >= n {
        var i: nat :| i < |r| && r[i] == h;
        TakeMember(r, n, i);
        AheadCount(r, c, n, i);
      }
    } else {
      var h :| h in Take(r, n) && h !in c;
      var i: nat :| i < |Take(r, n)| && Take(r, n)[i] == h;
      assert r[i] == h;
      AheadCount(r, c, n, i);
    }
  }

  // ----- the order of the ranking -----

  lemma {:induction false} BeforeInsert(z: SearchResult, t: seq<SearchResult>, x: SearchResult, y: SearchResult)
    requires Sorted(t, NotLess) && z !in t && x != y
    ensures Before(Insert(z, t, NotLess), x, y) <==>
            if x == z then y in t && NotLess(z, y)
            else if y == z then x in t && !NotLess(z, x)
            else Before(t, x, y)
  {
    if t == [] || NotLess(z, t[0]) {
      assert ([z] + t)[1..] == t;
    } else {
      var u := Insert(z, t, NotLess);
      assert u[0] == t[0] && u[1..] == Insert(z, t[1..], NotLess);
      BeforeInsert(z, t[1..], x, y);
      InsertFacts(z, t[1..], NotLess);
      SameMembers(u[1..], [z] + t[1..]);
    }
  }

  /** In the ranking, hits come before those they outrank. */
  lemma {:induction false} BeforeInSort(s: seq<SearchResult>, x: SearchResult, y: SearchResult)
    requires Distinct(s) && x in s && y in s && x != y
    ensures Before(Sort(s, NotLess), x, y) <==>
              x.relevance > y.relevance || (x.relevance == y.relevance && Before(s, x, y))
  {
    var t := Sort(s[1..], NotLess);
    assert s == [s[0]] + s[1..];
    DistinctHalves([s[0]], s[1..]);
    assert s[0] in [s[0]];
    NotLessOrder();
    SortFacts(s[1..], NotLess);
    BeforeInsert(s[0], t, x, y);
    if x != s[0] && y != s[0] {
      BeforeInSort(s[1..], x, y);
    }
  }

  lemma {:induction false} DistinctSort(s: seq<SearchResult>)
    requires Distinct(s)
    ensures Distinct(Sort(s, NotLess))
  {
    NotLessOrder();
    SortFacts(s, NotLess);
    var r := Sort(s, NotLess);
    forall i, j | 0 <= i < j < |r| ensures r[i] != r[j] {
      if r[i] == r[j] {
        TwiceCounts(r, i, j);
        OnceCounts(s, r[i]);
      }
    }
  }

  lemma {:induction false} TwiceCounts<T>(s: seq<T>, i: nat, j: nat)
    requires i < j < |s| && s[i] == s[j]
    ensures multiset(s)[s[i]] >= 2
  {
    assert s == s[..j] + s[j..] && s[..j][i] == s[i] && s[j..][0] == s[i];
    assert s[i] in multiset(s[..j]) && s[i] in multiset(s[j..]);
  }

  lemma {:induction false} OnceCounts<T>(s: seq<T>, x: T)
    requires Distinct(s)
    ensures multiset(s)[x] <= 1
  {
    if s != [] {
      assert s == [s[0]] + s[1..];
      DistinctHalves([s[0]], s[1..]);
      OnceCounts(s[1..], x);
      assert s[0] in [s[0]];
    }
  }

  // ----- pages -----

  /** The budgeted ranking starts like the full one exactly when enough returned hits outrank every hit
      held back. */
  lemma {:induction false} BudgetEnoughIff(ps: seq<Provider>, n: nat)
    requires Distinct(AllHits(ps))
    ensures Take(Sort(Collected(ps, n), NotLess), n) == Take(Ranking(ps), n) <==> HiddenByEnough(ps, n)
  {
    var c, r := Collected(ps, n), Ranking(ps);
    BudgetedRanking(ps, n);
    TopKept(r, c, n);
    RankingDistinct(ps);
    TopCounted(r, c, n);
    forall h | h in AllHits(ps) && h !in c ensures Ahead(r, c, h) == Better(ps, n, h) {
      SameAhead(ps, n, h);
    }
  }

  lemma {:induction false} BudgetedRanking(ps: seq<Provider>, n: nat)
    requires Distinct(AllHits(ps))
    ensures Sort(Collected(ps, n), NotLess) == Kept(Ranking(ps), Collected(ps, n))
  {
    CollectedIsKept(ps, n);
    KeptSort(AllHits(ps), Collected(ps, n));
  }

  lemma {:induction false} RankingDistinct(ps: seq<Provider>)
    requires Distinct(AllHits(ps))
    ensures Distinct(Ranking(ps))
    ensures forall x :: x in Ranking(ps) <==> x in AllHits(ps)
  {
    DistinctSort(AllHits(ps));
    NotLessOrder();
    SortFacts(AllHits(ps), NotLess);
  }

  lemma {:induction false} SameAhead(ps: seq<Provider>, n: nat, h: SearchResult)
    requires Distinct(AllHits(ps)) && h in AllHits(ps) && h !in Collected(ps, n)
    ensures Ahead(Ranking(ps), Collected(ps, n), h) == Better(ps, n, h)
  {
    CollectedAreHits(ps, n);
    forall x | x in Collected(ps, n) ensures Before(Ranking(ps), x, h) <==> Outranks(ps, x, h) {
      BeforeInSort(AllHits(ps), x, h);
    }
  }

  ghost predicate RightPages(ps: seq<Provider>, n: nat, limit: nat) {
    n == 0 || (RightPages(ps, n - 1, limit) && BudgetedPage(ps, n, limit) == Page(ps, n, limit))
  }

  /** At the end of each of the first `n` pages enough returned hits outrank every hit held back. */
  ghost predicate EnoughPages(ps: seq<Provider>, n: nat, limit: nat) {
    n == 0 || (EnoughPages(ps, n - 1, limit) && HiddenByEnough(ps, n * limit))
  }

  /** Whatever the providers and their orders, if their hits differ the first `n` pages are right exactly
      under that condition. */
  lemma {:induction false} SeveralPagesExactIff(ps: seq<Provider>, n: nat, limit: nat)
    requires Distinct(AllHits(ps))
    ensures RightPages(ps, n, limit) <==> EnoughPages(ps, n, limit)
  {
    if n > 0 {
      hide HiddenByEnough, BudgetedPage, Page;
      SeveralPagesExactIff(ps, n - 1, limit);
      if EnoughPages(ps, n - 1, limit) {
        PageStep(ps, n, limit);
      }
    }
  }

  lemma {:induction false} PageStep(ps: seq<Provider>, n: nat, limit: nat)
    requires Distinct(AllHits(ps)) && n > 0 && (n == 1 || HiddenByEnough(ps, (n - 1) * limit))
    ensures BudgetedPage(ps, n, limit) == Page(ps, n, limit) <==> HiddenByEnough(ps, n * limit)
  {
    hide *;
    BudgetSplits(n, limit);
    NoneBefore(ps);
    PageMeans(ps, n, limit, (n - 1) * limit);
    SliceNeedsIff(ps, (n - 1) * limit, limit);
  }

  lemma {:induction false} NoneBefore(ps: seq<Provider>)
    ensures HiddenByEnough(ps, 0)
  {
  }

  lemma {:induction false} PageMeans(ps: seq<Provider>, n: nat, limit: nat, start: nat)
    requires n > 0 && start == (n - 1) * limit && n * limit == start + limit
    ensures BudgetedPage(ps, n, limit) == Slice(Sort(Collected(ps, start + limit), NotLess), start, limit)
    ensures Page(ps, n, limit) == Slice(Ranking(ps), start, limit)
  {
  }

  lemma {:induction false} SliceNeedsIff(ps: seq<Provider>, start: nat, limit: nat)
    requires Distinct(AllHits(ps)) && HiddenByEnough(ps, start)
    ensures Slice(Sort(Collected(ps, start + limit), NotLess), start, limit) == Slice(Ranking(ps), start, limit) <==>
              HiddenByEnough(ps, start + limit)
  {
    hide *;
    LongerBudget(ps, start, start + limit);
    SliceOrPrefix(ps, start, limit);
    BudgetEnoughIff(ps, start + limit);
  }

  lemma {:induction false} SliceOrPrefix(ps: seq<Provider>, start: nat, limit: nat)
    requires Take(Sort(Collected(ps, start + limit), NotLess), start) == Take(Ranking(ps), start)
    ensures Slice(Sort(Collected(ps, start + limit), NotLess), start, limit) == Slice(Ranking(ps), start, limit) <==>
            Take(Sort(Collected(ps, start + limit), NotLess), start + limit) == Take(Ranking(ps), start + limit)
  {
    PrefixOrSlice(Sort(Collected(ps, start + limit), NotLess), Ranking(ps), start, limit);
  }

  lemma {:induction false} PrefixOrSlice<T>(a: seq<T>, b: seq<T>, start: nat, n: nat)
    requires Take(a, start) == Take(b, start)
    ensures Slice(a, start, n) == Slice(b, start, n) <==> Take(a, start + n) == Take(b, start + n)
  {
    SliceOfTake(a, start, n);
    SliceOfTake(b, start, n);
    if Slice(a, start, n) == Slice(b, start, n) {
      PrefixAndSlice(a, b, start, n);
    }
  }

  /** A larger budget keeps the right front of a smaller one. */
  lemma {:induction false} LongerBudget(ps: seq<Provider>, n: nat, m: nat)
    requires Distinct(AllHits(ps)) && HiddenByEnough(ps, n) && n <= m
    ensures Take(Sort(Collected(ps, m), NotLess), n) == Take(Ranking(ps), n)
  {
    BudgetEnoughIff(ps, n);
    BudgetedRanking(ps, n);
    BudgetedRanking(ps, m);
    TopKept(Ranking(ps), Collected(ps, n), n);
    TopKept(Ranking(ps), Collected(ps, m), n);
    CollectedGrows(ps, n, m);
  }
}
