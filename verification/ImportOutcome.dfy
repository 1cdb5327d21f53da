/** What the ingestion of a report stores and analyses, said entry by entry. */
module ImportOutcome {
  import opened Basics
  import opened PlainText
  import opened Sorting
  import opened ImportPipeline

  /** `at` are the numbers below `n` that pass the test, in ascending order. */
  ghost predicate Positions(at: seq<nat>, n: nat, test: nat -> bool) {
    && (forall i :: 0 <= i < |at| ==> at[i] < n && test(at[i]))
    && (forall i, j :: 0 <= i < j < |at| ==> at[i] < at[j])
    && (forall k: nat :: k < n && test(k) ==> k in at)
  }

  lemma {:induction false} NoPositions(test: nat -> bool)
    ensures Positions([], 0, test)
  {
  }

  lemma {:induction false} PositionsNext(at: seq<nat>, n: nat, test: nat -> bool)
    requires Positions(at, n, test)
    ensures Positions(if test(n) then at + [n] else at, n + 1, test)
  {
    if test(n) {
      var all := at + [n];
      forall k: nat | k < n + 1 && test(k) ensures k in all {
        assert k < n ==> k in at;
        assert all[|at|] == n;
      }
    }
  }

  // ----- one entry -----

  /** The first `n` characters. */
  function Cut(s: string, n: nat): string { s[..if |s| <= n then |s| else n] }

  function Unless(s: string, blank: string): string { if s == "" then blank else s }

  /** An entry is dropped exactly without an event id of at least 0; otherwise its fields are stripped, get
      their defaults and are cut to 16 and 1000 characters. */
  lemma {:induction false} NormalizeMeans(r: RawEvent)
    ensures Normalize(r).None? <==> r.NotARecord? || r.eventId.None? || r.eventId.value < 0
    ensures Normalize(r).Some? ==>
              var e := Normalize(r).value;
              && e.eventId == r.eventId.value && e.time == r.time && e.recordId == r.recordId
              && e.severity == Cut(Unless(Strip(r.severity), "Information"), 16)
              && e.channel == Unless(Strip(r.channel), "System")
              && e.provider == Unless(Strip(r.provider), "Unknown")
              && e.message == Cut(r.message, 1000)
  {
    hide Strip;
  }

  /** The text behind the key of an event. */
  lemma {:induction false} KeyMeans(rules: Rules, asset: string, e: Event)
    ensures Key(rules, asset, e) ==
            rules.digest(asset + "|" + e.channel + "|" + e.provider + "|" + e.recordId + "|" + rules.show(e.time))
  {
    var bar, time := "|", rules.show(e.time);
    assert bar == ['|'];
    assert Raw(rules, asset, e) ==
           asset + bar + e.channel + bar + e.provider + bar + e.recordId + bar + time by {
      assert Middle(e) == e.channel + bar + e.provider + bar + e.recordId;
    }
  }

  // ----- the usable entries and the new rows -----

  function IsUsable(events: seq<RawEvent>): nat -> bool { (k: nat) => k < |events| && Normalize(events[k]).Some? }

  lemma {:induction false} UsableUpTo(events: seq<RawEvent>, m: nat) returns (at: seq<nat>)
    requires m <= |events|
    ensures |at| == |Usable(events[..m])| && Positions(at, m, IsUsable(events))
    ensures forall i :: 0 <= i < |at| ==> Normalize(events[at[i]]) == Some(Usable(events[..m])[i])
  {
    hide Normalize, Positions;
    NoPositions(IsUsable(events));
    at := [];
    for k := 0 to m
      invariant |at| == |Usable(events[..k])| && Positions(at, k, IsUsable(events))
      invariant forall i :: 0 <= i < |at| ==> at[i] < k && Normalize(events[at[i]]) == Some(Usable(events[..k])[i])
    {
      assert events[..k + 1][..k] == events[..k];
      PositionsNext(at, k, IsUsable(events));
      at := if IsUsable(events)(k) then at + [k] else at;
    }
  }

  /** The usable entries in the order of the report; `at` are their positions. */
  lemma {:induction false} UsableMean(events: seq<RawEvent>) returns (at: seq<nat>)
    ensures |at| == |Usable(events)| && Positions(at, |events|, (k: nat) => k < |events| && Normalize(events[k]).Some?)
    ensures forall i :: 0 <= i < |at| ==> Normalize(events[at[i]]) == Some(Usable(events)[i])
  {
    at := UsableUpTo(events, |events|);
    assert events[..|events|] == events;
  }

  function IsNew(rules: Rules, asset: string, es: seq<Event>, known: set<string>): nat -> bool {
    (k: nat) => k < |es| && Key(rules, asset, es[k]) !in known
  }

  lemma {:induction false} RowsUpTo(rules: Rules, asset: string, es: seq<Event>, known: set<string>, m: nat)
    returns (at: seq<nat>)
    requires m <= |es|
    ensures |at| == |RowsFor(rules, asset, es[..m], known)| && Positions(at, m, IsNew(rules, asset, es, known))
    ensures forall i :: 0 <= i < |at| ==>
              RowsFor(rules, asset, es[..m], known)[i] == Row(asset, Key(rules, asset, es[at[i]]), es[at[i]])
  {
    hide Key, Positions;
    NoPositions(IsNew(rules, asset, es, known));
    at := [];
    for k := 0 to m
      invariant |at| == |RowsFor(rules, asset, es[..k], known)| && Positions(at, k, IsNew(rules, asset, es, known))
      invariant forall i :: 0 <= i < |at| ==>
                  at[i] < k &&
                  RowsFor(rules, asset, es[..k], known)[i] == Row(asset, Key(rules, asset, es[at[i]]), es[at[i]])
    {
      assert es[..k + 1][..k] == es[..k];
      PositionsNext(at, k, IsNew(rules, asset, es, known));
      at := if IsNew(rules, asset, es, known)(k) then at + [k] else at;
    }
  }

  /** One new row for each usable event whose key is not known, in order. */
  lemma {:induction false} RowsMean(rules: Rules, asset: string, es: seq<Event>, known: set<string>)
    returns (at: seq<nat>)
    ensures |at| == |RowsFor(rules, asset, es, known)|
    ensures Positions(at, |es|, (k: nat) => k < |es| && Key(rules, asset, es[k]) !in known)
    ensures forall i :: 0 <= i < |at| ==>
              RowsFor(rules, asset, es, known)[i] == Row(asset, Key(rules, asset, es[at[i]]), es[at[i]])
  {
    at := RowsUpTo(rules, asset, es, known, |es|);
    assert es[..|es|] == es;
  }

  /** The keys known of an asset are those of its stored rows, if the lookup works. */
  lemma {:induction false} KnownMean(w: Weather, rows: seq<Row>, asset: string, key: string)
    ensures key in Known(w, rows, asset) <==> w.lookup && exists r :: r in rows && r.asset == asset && r.key == key
  {
  }

  // ----- the analysis -----

  /** Analysed before are the keys of the history, if the lookup works. */
  lemma {:induction false} AnalysedBefore(w: Weather, history: seq<string>, key: string)
    ensures key in Done(w, history) <==> w.analysedLookup && key in history
  {
  }

  /** Critical before error before warning before everything else. */
  predicate Outranks(a: string, b: string) {
    || (a == "critical" && b != "critical")
    || (a == "error" && b != "critical" && b != "error")
    || (a == "warning" && b != "critical" && b != "error" && b != "warning")
  }

  lemma {:induction false} PriorityMeans(rules: Rules, e: Event, f: Event)
    ensures AnalysisPriority(rules, e) > AnalysisPriority(rules, f) <==>
              Outranks(rules.fold(e.severity), rules.fold(f.severity))
  {
  }

  lemma {:induction false} CapMeans(max: int)
    ensures EffectiveMax(max) == if max < 0 then 10 else max
  {
  }

  /** The candidates are new rows, as many as the cap allows, and no new row besides them is more severe. */
  lemma {:induction false} CandidatesMean(rules: Rules, added: seq<Row>, max: nat, c: nat, r: Row)
    requires c < |Candidates(rules, added, max)|
    ensures |Candidates(rules, added, max)| == if |added| <= max then |added| else max
    ensures multiset(Candidates(rules, added, max)) <= multiset(added)
    ensures multiset(added)[r] > multiset(Candidates(rules, added, max))[r] ==>
              !Outranks(rules.fold(r.event.severity),
                  rules.fold(Candidates(rules, added, max)[c].event.severity))
  {
    var le := MoreUrgent(rules);
    UrgencyOrder(rules);
    SortFacts(added, le);
    var sorted, few := Sort(added, le), Candidates(rules, added, max);
    PriorityMeans(rules, r.event, few[c].event);
    hide Outranks, AnalysisPriority;
    if max < |added| {
      assert sorted == few + sorted[max..];
      if multiset(added)[r] > multiset(few)[r] {
        assert multiset(sorted) == multiset(few) + multiset(sorted[max..]);
        assert r in multiset(sorted[max..]) && r in sorted[max..];
        var s :| 0 <= s < |sorted[max..]| && sorted[max..][s] == r;
        assert le(sorted[c], sorted[max + s]);
      }
    } else {
      assert few == sorted;
    }
  }

  /** Candidate `k` is analysed: it was not before, and the analysis works. */
  function Succeeds(cs: seq<Row>, done: set<string>, ok: nat -> bool): nat -> bool {
    (k: nat) => k < |cs| && cs[k].key !in done && ok(k)
  }

  /** The keys that enter the history, in the order of the candidates. */
  lemma {:induction false} AnalysedMean(cs: seq<Row>, done: set<string>, ok: nat -> bool, n: nat)
    returns (at: seq<nat>)
    requires n <= |cs|
    ensures |at| == |AnalysedKeys(cs, done, ok, n)|
    ensures Positions(at, n, (k: nat) => k < |cs| && cs[k].key !in done && ok(k))
    ensures forall i :: 0 <= i < |at| ==> AnalysedKeys(cs, done, ok, n)[i] == cs[at[i]].key
  {
    hide Positions;
    NoPositions(Succeeds(cs, done, ok));
    at := [];
    for k := 0 to n
      invariant |at| == |AnalysedKeys(cs, done, ok, k)| && Positions(at, k, Succeeds(cs, done, ok))
      invariant forall i :: 0 <= i < |at| ==> at[i] < k && AnalysedKeys(cs, done, ok, k)[i] == cs[at[i]].key
    {
      PositionsNext(at, k, Succeeds(cs, done, ok));
      ghost var before, now := AnalysedKeys(cs, done, ok, k), AnalysedKeys(cs, done, ok, k + 1);
      assert now == before + if Succeeds(cs, done, ok)(k) then [cs[k].key] else [];
      hide AnalysedKeys;
      if Succeeds(cs, done, ok)(k) {
        at := at + [k];
      }
    }
  }

  /** How many candidates were not analysed before. */
  lemma {:induction false} UnanalysedMean(cs: seq<Row>, done: set<string>, n: nat)
    requires n <= |cs|
    ensures Unanalysed(cs, done, n) == |set k: nat | k < n && cs[k].key !in done|
  {
    if n == 0 {
    } else {
      UnanalysedMean(cs, done, n - 1);
      CountNext(cs, done, n);
    }
  }

  lemma {:induction false} CountNext(cs: seq<Row>, done: set<string>, n: nat)
    requires 0 < n <= |cs|
    ensures |set k: nat | k < n && cs[k].key !in done| ==
            |set k: nat | k < n - 1 && cs[k].key !in done| + if cs[n - 1].key !in done then 1 else 0
  {
    var before := set k: nat | k < n - 1 && cs[k].key !in done;
    var now := set k: nat | k < n && cs[k].key !in done;
    assert now == before + if cs[n - 1].key !in done then {n - 1} else {};
  }
}
