/** Global search: every provider is asked for at most page * limit hits, the answers are put
    together, sorted stably by descending relevance, and one page is cut out. */
module GlobalSearch {
  import opened Basics
  import opened Sorting

  datatype SearchResult = SearchResult(kind: string, id: string, relevance: real)

  /** `hits` is everything the provider could return for the query; a faulting provider raises. */
  datatype Provider = Provider(hits: seq<SearchResult>, faults: bool)

  predicate NotLess(a: SearchResult, b: SearchResult) { a.relevance >= b.relevance }

  /** Python's `s[start:start + n]`. */
  function Slice<T>(s: seq<T>, start: nat, n: nat): seq<T> {
    if start >= |s| then [] else Take(s[start..], n)
  }

  function Answer(p: Provider): seq<SearchResult> { if p.faults then [] else p.hits }

  /** No hit behind the first `n` outranks one of them: what a budget of `n` returns is the best there is. */
  ghost predicate PrefixBest(s: seq<SearchResult>, n: nat) {
    forall i, j :: 0 <= i < n <= j < |s| ==> NotLess(s[i], s[j])
  }

  /** What all providers return together under a budget of `n` hits each. */
  function Collected(ps: seq<Provider>, n: nat): seq<SearchResult> {
    if ps == [] then [] else Collected(ps[..|ps| - 1], n) + Take(Answer(ps[|ps| - 1]), n)
  }

  function AllHits(ps: seq<Provider>): seq<SearchResult> {
    if ps == [] then [] else AllHits(ps[..|ps| - 1]) + Answer(ps[|ps| - 1])
  }

  /** The one ranking that all pages are cut from. */
  function Ranking(ps: seq<Provider>): seq<SearchResult> { Sort(AllHits(ps), NotLess) }

  lemma NotLessOrder()
    ensures TotalPreorder(NotLess)
  {
  }

  // ----- truncation and merging -----

  lemma {:induction false} TakeCons<T>(x: T, s: seq<T>, n: nat)
    ensures n > 0 ==> Take([x] + s, n) == [x] + Take(s, n - 1)
  {
  }

  lemma {:induction false} TakeTake<T>(s: seq<T>, m: nat, n: nat)
    requires m >= n
    ensures Take(Take(s, m), n) == Take(s, n)
  {
  }

  lemma {:induction false} TakeMono(x: SearchResult, a: seq<SearchResult>, c: seq<SearchResult>, n: nat)
    requires n > 0 && Take(a, n - 1) == Take(c, n - 1)
    ensures Take([x] + a, n) == Take([x] + c, n)
  {
    TakeCons(x, a, n);
    TakeCons(x, c, n);
  }

  /** The first `n` of a merge come from the first `n` of either side: cutting one side at `m >= n`
      changes nothing. */
  lemma {:induction false} MergeTakeLeft(a: seq<SearchResult>, c: seq<SearchResult>, m: nat, n: nat)
    requires m >= n
    ensures Take(Merge(a, c, NotLess), n) == Take(Merge(Take(a, m), c, NotLess), n)
    decreases |a| + |c|
  {
    if n == 0 || a == [] || c == [] {
      TakeTake(a, m, n);
    } else if NotLess(a[0], c[0]) {
      MergeTakeLeft(a[1..], c, m - 1, n - 1);
      assert Take(a, m)[1..] == Take(a[1..], m - 1);
      TakeMono(a[0], Merge(a[1..], c, NotLess), Merge(Take(a[1..], m - 1), c, NotLess), n);
    } else {
      MergeTakeLeft(a, c[1..], m, n - 1);
      TakeMono(c[0], Merge(a, c[1..], NotLess), Merge(Take(a, m), c[1..], NotLess), n);
    }
  }

  lemma {:induction false} MergeTakeRight(a: seq<SearchResult>, c: seq<SearchResult>, m: nat, n: nat)
    requires m >= n
    ensures Take(Merge(a, c, NotLess), n) == Take(Merge(a, Take(c, m), NotLess), n)
    decreases |a| + |c|
  {
    if n == 0 || a == [] || c == [] {
      TakeTake(c, m, n);
    } else if NotLess(a[0], c[0]) {
      MergeTakeRight(a[1..], c, m, n - 1);
      TakeMono(a[0], Merge(a[1..], c, NotLess), Merge(a[1..], Take(c, m), NotLess), n);
    } else {
      MergeTakeRight(a, c[1..], m - 1, n - 1);
      assert Take(c, m)[1..] == Take(c[1..], m - 1);
      TakeMono(c[0], Merge(a, c[1..], NotLess), Merge(a, Take(c[1..], m - 1), NotLess), n);
    }
  }

  lemma {:induction false} SortLength(s: seq<SearchResult>)
    ensures |Sort(s, NotLess)| == |s|
  {
    NotLessOrder();
    SortFacts(s, NotLess);
  }

  lemma {:induction false} MergeAppend(a: seq<SearchResult>, b: seq<SearchResult>)
    requires forall x, y :: x in a && y in b ==> NotLess(x, y)
    ensures Merge(a, b, NotLess) == a + b
  {
    if a != [] && b != [] {
      assert a[0] in a && b[0] in b;
      MergeAppend(a[1..], b);
      assert a == [a[0]] + a[1..];
    }
  }

  /** Sorting the first `n` gives the first `n` of the sorted whole exactly when they are the best. */
  lemma {:induction false} PrefixExactIff(s: seq<SearchResult>, n: nat)
    ensures Take(Sort(Take(s, n), NotLess), n) == Take(Sort(s, NotLess), n) <==> PrefixBest(s, n)
  {
    SortLength(s);
    SortLength(Take(s, n));
    if n < |s| {
      assert Take(Sort(Take(s, n), NotLess), n) == Sort(s[..n], NotLess);
      if PrefixBest(s, n) {
        BestStayInFront(s, n);
        assert Sort(s, NotLess)[..n] == Sort(s[..n], NotLess);
      } else if Sort(s[..n], NotLess) == Sort(s, NotLess)[..n] {
        BestInFront(s, n);
      }
    } else {
      assert Take(s, n) == s;
    }
  }

  lemma {:induction false} BestStayInFront(s: seq<SearchResult>, n: nat)
    requires n < |s| && PrefixBest(s, n)
    ensures Sort(s, NotLess) == Sort(s[..n], NotLess) + Sort(s[n..], NotLess) && |Sort(s[..n], NotLess)| == n
  {
    var a, b := s[..n], s[n..];
    assert s == a + b;
    NotLessOrder();
    SortFacts(a, NotLess);
    SortFacts(b, NotLess);
    forall x, y | x in Sort(a, NotLess) && y in Sort(b, NotLess) ensures NotLess(x, y) {
      assert x in a && y in b;
    }
    SortOfConcat(a, b, NotLess);
    MergeAppend(Sort(a, NotLess), Sort(b, NotLess));
  }

  lemma {:induction false} SameRest<T>(a: seq<T>, b: seq<T>, n: nat)
    requires n <= |a| && n <= |b| && multiset(a) == multiset(b) && multiset(a[..n]) == multiset(b[..n])
    ensures multiset(a[n..]) == multiset(b[n..])
  {
    assert a == a[..n] + a[n..] && b == b[..n] + b[n..];
    assert multiset(a[..n]) + multiset(a[n..]) == multiset(b[..n]) + multiset(b[n..]);
    assert multiset(a[n..]) == multiset(a) - multiset(a[..n]);
  }

  lemma {:induction false} BestInFront(s: seq<SearchResult>, n: nat)
    requires n < |s| && |Sort(s, NotLess)| == |s| && Sort(s[..n], NotLess) == Sort(s, NotLess)[..n]
    ensures PrefixBest(s, n)
  {
    var all := Sort(s, NotLess);
    NotLessOrder();
    SortFacts(s, NotLess);
    SortFacts(s[..n], NotLess);
    SameRest(all, s, n);
    forall i, j | 0 <= i < n <= j < |s| ensures NotLess(s[i], s[j]) {
      InFront(s, all, n, i, j);
    }
  }

  lemma {:induction false} InFront(s: seq<SearchResult>, all: seq<SearchResult>, n: nat, i: nat, j: nat)
    requires i < n <= j < |s| == |all| && Sorted(all, NotLess)
    requires multiset(all[..n]) == multiset(s[..n]) && multiset(all[n..]) == multiset(s[n..])
    ensures NotLess(s[i], s[j])
  {
    assert s[i] == s[..n][i] && s[i] in multiset(s[..n]) && s[i] in all[..n];
    assert s[j] == s[n..][j - n] && s[j] in multiset(s[n..]) && s[j] in all[n..];
    var p :| 0 <= p < n && all[..n][p] == s[i];
    var q :| 0 <= q < |s| - n && all[n..][q] == s[j];
    assert all[p] == s[i] && all[n + q] == s[j];
  }

  lemma {:induction false} BudgetStep(got: seq<SearchResult>, all: seq<SearchResult>, mine: seq<SearchResult>, n: nat)
    requires PrefixBest(mine, n)
    requires Take(Sort(got, NotLess), n) == Take(Sort(all, NotLess), n)
    ensures Take(Sort(got + Take(mine, n), NotLess), n) == Take(Sort(all + mine, NotLess), n)
  {
    NotLessOrder();
    SortOfConcat(got, Take(mine, n), NotLess);
    SortOfConcat(all, mine, NotLess);
    SortFacts(Take(mine, n), NotLess);
    PrefixExactIff(mine, n);
    var g, r, m := Sort(got, NotLess), Sort(all, NotLess), Sort(mine, NotLess);
    assert Sort(Take(mine, n), NotLess) == Take(m, n);
    MergeTakeRight(g, m, n, n);
    MergeTakeLeft(g, m, n, n);
    MergeTakeLeft(r, m, n, n);
  }

  /** A budget of `n` per provider loses none of the first `n` of the full ranking, provided that no
      provider holds back a better hit than those it returns. */
  lemma {:induction false} BudgetIsEnough(ps: seq<Provider>, n: nat)
    requires forall p :: p in ps ==> PrefixBest(Answer(p), n)
    ensures Take(Sort(Collected(ps, n), NotLess), n) == Take(Ranking(ps), n)
  {
    if ps != [] {
      var init, p := ps[..|ps| - 1], ps[|ps| - 1];
      BudgetIsEnough(init, n);
      assert p in ps;
      BudgetStep(Collected(init, n), AllHits(init), Answer(p), n);
    }
  }

  lemma {:induction false} SliceOfTake<T>(s: seq<T>, start: nat, n: nat)
    ensures Slice(Take(s, start + n), start, n) == Slice(s, start, n)
  {
    if start < |s| && start + n <= |s| {
      assert s[..start + n][start..] == s[start..][..n];
    }
  }

  lemma {:induction false} BudgetSplits(page: nat, limit: nat)
    requires page > 0
    ensures page * limit == (page - 1) * limit + limit
    ensures (page - 1) * limit >= 0
  {
  }

  lemma {:induction false} TakeThenSlice<T>(s: seq<T>, start: nat, n: nat)
    ensures Take(s, start) + Slice(s, start, n) == Take(s, start + n)
  {
    if start + n <= |s| {
      assert s[..start] + s[start..][..n] == s[..start + n];
    } else if start < |s| {
      assert s[..start] + s[start..] == s;
    }
  }

  // ----- the service -----

  /** The page as it should be: a slice of the one ranking. */
  function Page(ps: seq<Provider>, page: nat, limit: nat): seq<SearchResult>
    requires page > 0
  {
    Slice(Ranking(ps), (page - 1) * limit, limit)
  }

  /** The page that the budget of this page yields. */
  function BudgetedPage(ps: seq<Provider>, page: nat, limit: nat): seq<SearchResult>
    requires page > 0
  {
    Slice(Sort(Collected(ps, page * limit), NotLess), (page - 1) * limit, limit)
  }

  /** At the end of page `k` the provider holds back nothing better than what it returned. */
  ghost predicate BestUpTo(p: Provider, k: nat, limit: nat) { PrefixBest(Answer(p), k * limit) }

  /** A page is right if no provider holds back a better hit than those it returns for it. */
  lemma {:induction false} PageIsExact(ps: seq<Provider>, page: nat, limit: nat)
    requires page > 0 && forall p :: p in ps ==> BestUpTo(p, page, limit)
    ensures BudgetedPage(ps, page, limit) == Page(ps, page, limit)
  {
    BudgetSplits(page, limit);
    assert forall p :: p in ps ==> BestUpTo(p, page, limit) && PrefixBest(Answer(p), page * limit);
    BudgetIsEnough(ps, page * limit);
    SliceOfTake(Sort(Collected(ps, page * limit), NotLess), (page - 1) * limit, limit);
    SliceOfTake(Ranking(ps), (page - 1) * limit, limit);
  }

  /** Asks every provider; one that faults contributes nothing. */
  method Collect(ps: seq<Provider>, budget: nat) returns (collected: seq<SearchResult>)
    ensures collected == Collected(ps, budget)
  {
    collected := [];
    for i := 0 to |ps|
      invariant collected == Collected(ps[..i], budget)
    {
      assert ps[..i + 1][..i] == ps[..i];
      if ps[i].faults {
        continue;
      }
      collected := collected + Take(ps[i].hits, budget);
    }
    assert ps[..|ps|] == ps;
  }

  /** The page under its budget, and the number of hits inspected for it.  The page is a slice of the
      stable ranking of everything whenever no provider holds back a better hit than it returns. */
  method GlobalSearch(ps: seq<Provider>, page: nat, limit: nat) returns (results: seq<SearchResult>, total: nat)
    requires page > 0
    ensures results == BudgetedPage(ps, page, limit)
    ensures total == |Collected(ps, page * limit)|
    ensures (forall p :: p in ps ==> BestUpTo(p, page, limit)) ==> results == Page(ps, page, limit)
  {
    BudgetSplits(page, limit);
    var budget := page * limit;
    var collected := Collect(ps, budget);
    SortLength(collected);
    var start := (page - 1) * limit;
    if forall p :: p in ps ==> BestUpTo(p, page, limit) {
      PageIsExact(ps, page, limit);
    }
    return Slice(Sort(collected, NotLess), start, limit), |collected|;
  }

  function FirstPages(ps: seq<Provider>, n: nat, limit: nat): seq<SearchResult> {
    if n == 0 then [] else FirstPages(ps, n - 1, limit) + BudgetedPage(ps, n, limit)
  }

  /** At the end of each of the first `n` pages no provider holds back anything better. */
  ghost predicate BestPages(ps: seq<Provider>, n: nat, limit: nat) {
    n == 0 || (BestPages(ps, n - 1, limit) && forall p :: p in ps ==> BestUpTo(p, n, limit))
  }

  /** Then pages one to `n` put together are the first n * limit hits of the ranking: no hit is repeated
      or skipped from page to page. */
  lemma {:induction false} PagesConcatenate(ps: seq<Provider>, n: nat, limit: nat)
    requires BestPages(ps, n, limit)
    ensures FirstPages(ps, n, limit) == Take(Ranking(ps), n * limit)
  {
    if n > 0 {
      PagesConcatenate(ps, n - 1, limit);
      PageIsExact(ps, n, limit);
      NextPage(ps, n, limit);
    }
  }

  lemma {:induction false} NextPage(ps: seq<Provider>, n: nat, limit: nat)
    requires n > 0 && FirstPages(ps, n - 1, limit) == Take(Ranking(ps), (n - 1) * limit)
    requires BudgetedPage(ps, n, limit) == Page(ps, n, limit)
    ensures FirstPages(ps, n, limit) == Take(Ranking(ps), n * limit)
  {
    BudgetSplits(n, limit);
    TakeThenSlice(Ranking(ps), (n - 1) * limit, limit);
  }

  lemma {:induction false} OneProvider(p: Provider, n: nat)
    ensures Collected([p], n) == Take(Answer(p), n) && AllHits([p]) == Answer(p)
  {
    assert [p][..0] == [];
  }

  /** Page `k` from this provider alone is as it should be. */
  predicate RightPage(p: Provider, k: nat, limit: nat)
    requires k > 0
  {
    BudgetedPage([p], k, limit) == Page([p], k, limit)
  }

  /** For one provider the condition is also necessary: its first `n` pages are right exactly when at
      none of their ends a better hit is held back. */
  lemma {:induction false} PagesExactIff(p: Provider, n: nat, limit: nat)
    ensures (forall k: nat :: 0 < k <= n ==> RightPage(p, k, limit)) <==>
        forall k: nat :: 0 < k <= n ==> BestUpTo(p, k, limit)
  {
    if n > 0 {
      PagesExactIff(p, n - 1, limit);
      if BestUpTo(p, n, limit) {
        PageIsExact([p], n, limit);
        assert RightPage(p, n, limit);
      }
      if RightPage(p, n, limit) && (n == 1 || BestUpTo(p, n - 1, limit)) {
        BudgetSplits(n, limit);
        RightPageNeeds(p, n, limit, (n - 1) * limit);
      }
    }
  }

  lemma {:induction false} RightPageMeans(p: Provider, n: nat, limit: nat, start: nat)
    requires n > 0 && start == (n - 1) * limit && n * limit == start + limit
    ensures RightPage(p, n, limit) <==>
              Slice(Sort(Take(Answer(p), start + limit), NotLess), start, limit) ==
                  Slice(Sort(Answer(p), NotLess), start, limit)
  {
    OneProvider(p, n * limit);
  }

  lemma {:induction false} RightPageNeeds(p: Provider, n: nat, limit: nat, start: nat)
    requires n > 0 && start == (n - 1) * limit && n * limit == start + limit
    requires RightPage(p, n, limit) && (n == 1 || BestUpTo(p, n - 1, limit))
    ensures BestUpTo(p, n, limit)
  {
    RightPageMeans(p, n, limit, start);
    assert PrefixBest(Answer(p), start) by {
      if n == 1 { assert start == 0; }
    }
    RightSliceNeeds(Answer(p), start, limit);
  }

  lemma {:induction false} RightSliceNeeds(s: seq<SearchResult>, start: nat, limit: nat)
    requires PrefixBest(s, start)
    requires Slice(Sort(Take(s, start + limit), NotLess), start, limit) == Slice(Sort(s, NotLess), start, limit)
    ensures PrefixBest(s, start + limit)
  {
    LongerPrefix(s, start, start + limit);
    RightSliceExtends(s, start, limit);
    RightPrefixNeeds(s, start + limit);
  }

  lemma {:induction false} RightSliceExtends(s: seq<SearchResult>, start: nat, limit: nat)
    requires Take(Sort(Take(s, start + limit), NotLess), start) == Take(Sort(s, NotLess), start)
    requires Slice(Sort(Take(s, start + limit), NotLess), start, limit) == Slice(Sort(s, NotLess), start, limit)
    ensures Take(Sort(Take(s, start + limit), NotLess), start + limit) == Take(Sort(s, NotLess), start + limit)
  {
    PrefixAndSlice(Sort(Take(s, start + limit), NotLess), Sort(s, NotLess), start, limit);
  }

  lemma {:induction false} RightPrefixNeeds(s: seq<SearchResult>, n: nat)
    requires Take(Sort(Take(s, n), NotLess), n) == Take(Sort(s, NotLess), n)
    ensures PrefixBest(s, n)
  {
    PrefixExactIff(s, n);
  }

  lemma {:induction false} PrefixAndSlice<T>(a: seq<T>, b: seq<T>, start: nat, n: nat)
    requires Take(a, start) == Take(b, start) && Slice(a, start, n) == Slice(b, start, n)
    ensures Take(a, start + n) == Take(b, start + n)
  {
    TakeThenSlice(a, start, n);
    TakeThenSlice(b, start, n);
  }

  /** A best prefix is also the best of any longer one. */
  lemma {:induction false} LongerPrefix(s: seq<SearchResult>, n: nat, m: nat)
    requires n <= m && PrefixBest(s, n)
    ensures Take(Sort(Take(s, m), NotLess), n) == Take(Sort(s, NotLess), n)
  {
    BestOfTake(s, n, m);
    PrefixExactIff(s, n);
    PrefixExactIff(Take(s, m), n);
    TakeTake(s, m, n);
  }

  lemma {:induction false} BestOfTake(s: seq<SearchResult>, n: nat, m: nat)
    requires n <= m && PrefixBest(s, n)
    ensures PrefixBest(Take(s, m), n)
  {
    if m < |s| {
      forall i, j | 0 <= i < n <= j < m ensures NotLess(s[..m][i], s[..m][j]) {
        assert NotLess(s[i], s[j]);
      }
    }
  }

  lemma {:induction false} SortTwo(a: SearchResult, b: SearchResult)
    ensures Sort([b], NotLess) == [b]
    ensures Sort([a, b], NotLess) == if NotLess(a, b) then [a, b] else [b, a]
  {
    assert [b][1..] == [] && [a, b][1..] == [b];
    assert Insert(a, [], NotLess) == [a];
  }

  /** A provider in another order: the same hit fills pages one and two, and the exact match, which
      ranks first, is on neither. */
  lemma {:induction false} NameOrderHidesTheBest(near: SearchResult, exact: SearchResult)
    requires near == SearchResult("asset", "a-srv", 0.75) && exact == SearchResult("asset", "srv", 1.0)
    ensures var ps := [Provider([near, exact], false)];
            && BudgetedPage(ps, 1, 1) == [near] && BudgetedPage(ps, 2, 1) == [near]
            && Page(ps, 1, 1) == [exact]
  {
    var s := [near, exact];
    OneProvider(Provider(s, false), 1);
    OneProvider(Provider(s, false), 2);
    SortTwo(near, exact);
    SortTwo(exact, near);
    assert Take(s, 1) == [near] && Take(s, 2) == s;
  }

  /** The ranking is the stable descending sort of everything the working providers hold. */
  lemma {:induction false} RankingIsStable(ps: seq<Provider>, x: SearchResult)
    ensures Sorted(Ranking(ps), NotLess)
    ensures multiset(Ranking(ps)) == multiset(AllHits(ps))
    ensures Ties(Ranking(ps), x, NotLess) == Ties(AllHits(ps), x, NotLess)
  {
    NotLessOrder();
    SortFacts(AllHits(ps), NotLess);
    SortStable(AllHits(ps), x, NotLess);
  }

  lemma {:induction false} CollectedSnoc(ps: seq<Provider>, p: Provider, n: nat)
    ensures Collected(ps + [p], n) == Collected(ps, n) + if p.faults then [] else Take(p.hits, n)
  {
    assert (ps + [p])[..|ps|] == ps;
  }

  lemma {:induction false} CollectedConcat(ps: seq<Provider>, qs: seq<Provider>, n: nat)
    ensures Collected(ps + qs, n) == Collected(ps, n) + Collected(qs, n)
  {
    if qs == [] {
      assert ps + qs == ps;
    } else {
      var init, last := qs[..|qs| - 1], qs[|qs| - 1];
      assert qs == init + [last];
      assert (ps + qs)[..|ps + qs| - 1] == ps + init;
      CollectedConcat(ps, init, n);
    }
  }

  /** A faulting provider contributes nothing, wherever it stands; any other its first hits. */
  lemma {:induction false} CollectedOf(ps: seq<Provider>, p: Provider, qs: seq<Provider>, n: nat)
    ensures Collected(ps + [p] + qs, n) ==
            if p.faults then Collected(ps + qs, n) else Collected(ps, n) + Take(p.hits, n) + Collected(qs, n)
  {
    hide Collected, Take;
    CollectedConcat(ps + [p], qs, n);
    CollectedConcat(ps, qs, n);
    CollectedSnoc(ps, p, n);
  }

  lemma {:induction false} CollectedCount(ps: seq<Provider>, n: nat)
    ensures |Collected(ps, n)| <= |AllHits(ps)|
    ensures |Collected(ps, n)| == |AllHits(ps)| <==> forall p :: p in ps ==> |Answer(p)| <= n
  {
    if ps != [] {
      var init, p := ps[..|ps| - 1], ps[|ps| - 1];
      CollectedCount(init, n);
      assert forall q :: q in ps <==> q in init || q == p;
    }
  }

  /** The reported total is the number of hits there are exactly when no provider was cut off by
      the budget of this page. */
  lemma {:induction false} TotalExactIff(ps: seq<Provider>, page: nat, limit: nat)
    ensures |Collected(ps, page * limit)| == |Ranking(ps)| <==> forall p :: p in ps ==> |Answer(p)| <= page * limit
  {
    NotLessOrder();
    SortFacts(AllHits(ps), NotLess);
    CollectedCount(ps, page * limit);
  }
}
