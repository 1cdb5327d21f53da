/** The compliance score of an audit: every check earns 100, 50 or 0 points, the percentage is rounded
    half to even, and 80 or more is compliant.  Scores are exact rationals here. */
module Compliance {
  import opened Basics

  const COMPLIANCE_THRESHOLD: int := 80
  const FULL_MARKS: nat := 100

  /** One entry of a scanner's result: only a record with a "status" is a check. */
  datatype Entry = NotARecord | Check(status: Option<string>)

  datatype Domain = Domain(score: int, checks: nat)

  datatype Report = Report(score: int, verdict: string, totalChecks: nat, passCount: nat, warningCount: nat,
                           failCount: nat, breakdown: seq<Domain>)

  function Points(status: string): nat {
    if status == "PASS" then FULL_MARKS else if status == "WARNING" then 50 else 0
  }

  function Earned(statuses: seq<string>): nat {
    if statuses == [] then 0 else Earned(statuses[..|statuses| - 1]) + Points(statuses[|statuses| - 1])
  }

  function Count(statuses: seq<string>, status: string): nat {
    if statuses == [] then 0
    else Count(statuses[..|statuses| - 1], status) + if statuses[|statuses| - 1] == status then 1 else 0
  }

  function Statuses(data: seq<Entry>): seq<string> {
    if data == [] then []
    else
      var e := data[|data| - 1];
      Statuses(data[..|data| - 1]) + if e.Check? && e.status.Some? then [e.status.value] else []
  }

  function Flatten(domains: seq<seq<string>>): seq<string> {
    if domains == [] then [] else Flatten(domains[..|domains| - 1]) + domains[|domains| - 1]
  }

  /** The integer nearest to a/b, and the even one of two equally near. */
  function RoundHalfEven(a: nat, b: nat): nat
    requires b > 0
  {
    var q, r := a / b, a % b;
    if 2 * r < b || (2 * r == b && q % 2 == 0) then q else q + 1
  }

  function Score(statuses: seq<string>): nat {
    if statuses == [] then 0 else RoundHalfEven(Earned(statuses) * 100, |statuses| * FULL_MARKS)
  }

  // ----- rounding -----

  /** a/b rounds to at most h exactly when a/b is below h + 1/2, or equal to it with h even. */
  predicate NotAbove(a: nat, b: nat, h: int) {
    if h % 2 == 0 then 2 * a <= (2 * h + 1) * b else 2 * a < (2 * h + 1) * b
  }

  /** a/b rounds to at least h exactly when a/b is above h - 1/2, or equal to it with h even. */
  predicate NotBelow(a: nat, b: nat, h: int) {
    if h % 2 == 0 then (2 * h - 1) * b <= 2 * a else (2 * h - 1) * b < 2 * a
  }

  lemma {:induction false} ScaleOrder(x: int, y: int, b: nat)
    ensures x <= y ==> x * b <= y * b
  {
  }

  lemma {:induction false} ScaleAbove(x: int, y: int, b: nat)
    requires x + 2 <= y && b > 0
    ensures x * b < y * b
  {
    ScaleOrder(x + 2, y, b);
    assert (x + 2) * b == x * b + 2 * b;
  }

  lemma {:induction false} OddMultiples(q: nat, b: nat, p: nat)
    requires p == q * b
    ensures (2 * q - 1) * b == 2 * p - b && (2 * q + 1) * b == 2 * p + b && (2 * q + 3) * b == 2 * p + 3 * b
  {
    assert (2 * q) * b == 2 * p;
  }

  /** Down exactly when the remainder is less than half, or half behind an even quotient. */
  lemma {:induction false} RoundedDownOrUp(a: nat, b: nat, q: nat, r: nat, p: nat)
    requires a == p + r && r < b && p == q * b
    ensures 2 * r < b || (2 * r == b && q % 2 == 0) ==> NotAbove(a, b, q) && NotBelow(a, b, q)
    ensures !(2 * r < b || (2 * r == b && q % 2 == 0)) ==> NotAbove(a, b, q + 1) && NotBelow(a, b, q + 1)
  {
    OddMultiples(q, b, p);
    assert 2 * (q + 1) + 1 == 2 * q + 3 && 2 * (q + 1) - 1 == 2 * q + 1;
  }

  /** The rounded quotient is within half of the exact one. */
  lemma {:induction false} RoundedWithin(a: nat, b: nat)
    requires b > 0
    ensures NotAbove(a, b, RoundHalfEven(a, b)) && NotBelow(a, b, RoundHalfEven(a, b))
  {
    hide NotAbove, NotBelow;
    var q, r := a / b, a % b;
    assert a == q * b + r;
    RoundedDownOrUp(a, b, q, r, q * b);
  }

  lemma {:induction false} AboveBounds(a: nat, b: nat, k: int, h: int)
    requires b > 0 && NotAbove(a, b, k) && h > k
    ensures NotAbove(a, b, h) && !NotBelow(a, b, h)
  {
    ScaleAbove(2 * k + 1, 2 * h + 1, b);
    if h > k + 1 {
      ScaleAbove(2 * k + 1, 2 * h - 1, b);
    } else {
      assert 2 * h - 1 == 2 * k + 1;
    }
  }

  lemma {:induction false} BelowBounds(a: nat, b: nat, k: int, h: int)
    requires b > 0 && NotBelow(a, b, k) && h < k
    ensures NotBelow(a, b, h) && !NotAbove(a, b, h)
  {
    ScaleAbove(2 * h - 1, 2 * k - 1, b);
    if h < k - 1 {
      ScaleAbove(2 * h + 1, 2 * k - 1, b);
    } else {
      assert 2 * h + 1 == 2 * k - 1;
    }
  }

  lemma {:induction false} RoundingBounds(a: nat, b: nat, h: int)
    requires b > 0
    ensures RoundHalfEven(a, b) <= h <==> NotAbove(a, b, h)
    ensures RoundHalfEven(a, b) >= h <==> NotBelow(a, b, h)
  {
    hide *;
    var k := RoundHalfEven(a, b);
    RoundedWithin(a, b);
    if h > k {
      AboveBounds(a, b, k, h);
    } else if h < k {
      BelowBounds(a, b, k, h);
    }
  }

  // ----- points -----

  lemma {:induction false} EarnedConcat(x: seq<string>, y: seq<string>)
    ensures Earned(x + y) == Earned(x) + Earned(y)
  {
    if y == [] {
      assert x + y == x;
    } else {
      assert (x + y)[..|x + y| - 1] == x + y[..|y| - 1];
      EarnedConcat(x, y[..|y| - 1]);
    }
  }

  predicate Known(status: string) { status == "PASS" || status == "WARNING" || status == "FAIL" || status == "UNKNOWN" }

  /** A list of statuses matters only through its numbers of passes and warnings. */
  lemma {:induction false} EarnedCounts(statuses: seq<string>)
    ensures Earned(statuses) == 100 * Count(statuses, "PASS") + 50 * Count(statuses, "WARNING")
    ensures Count(statuses, "PASS") + Count(statuses, "WARNING") <= |statuses|
    ensures Earned(statuses) <= 100 * |statuses|
  {
    if statuses != [] {
      EarnedCounts(statuses[..|statuses| - 1]);
    }
  }

  function Counted(statuses: seq<string>): nat {
    Count(statuses, "PASS") + Count(statuses, "WARNING") + Count(statuses, "FAIL") + Count(statuses, "UNKNOWN")
  }

  lemma {:induction false} CountedLast(init: seq<string>, last: string)
    ensures Counted(init + [last]) == Counted(init) + if Known(last) then 1 else 0
  {
    assert (init + [last])[..|init|] == init;
    assert "PASS"[0] != "FAIL"[0] && "WARNING"[0] != "UNKNOWN"[0];
  }

  /** The three counters of the report cover every check exactly when every status is a known one. */
  lemma {:induction false} CountersCoverIff(statuses: seq<string>)
    ensures Counted(statuses) <= |statuses|
    ensures Counted(statuses) == |statuses| <==> forall s :: s in statuses ==> Known(s)
  {
    if statuses != [] {
      var init, last := statuses[..|statuses| - 1], statuses[|statuses| - 1];
      assert statuses == init + [last];
      CountersCoverIff(init);
      CountedLast(init, last);
      assert forall s :: s in statuses <==> s in init || s == last;
    }
  }

  /** The counters count occurrences. */
  lemma {:induction false} CountMeans(statuses: seq<string>, status: string)
    ensures Count(statuses, status) == |set i | 0 <= i < |statuses| && statuses[i] == status|
  {
    if statuses != [] {
      var n := |statuses| - 1;
      var init := statuses[..n];
      CountMeans(init, status);
      var before := set i | 0 <= i < |init| && init[i] == status;
      var now := set i | 0 <= i < |statuses| && statuses[i] == status;
      assert now == before + if statuses[n] == status then {n} else {};
    }
  }

  predicate HasStatus(e: Entry) { e.Check? && e.status.Some? }

  /** No status is dropped, and none is added: they come in the order of the entries that have one. */
  lemma {:induction false} StatusesMean(data: seq<Entry>, i: nat)
    requires i < |data|
    ensures |Statuses(data)| == |set k | 0 <= k < |data| && HasStatus(data[k])|
    ensures HasStatus(data[i]) ==>
              |Statuses(data[..i])| < |Statuses(data)| && Statuses(data)[|Statuses(data[..i])|] == data[i].status.value
  {
    StatusCount(data);
    if i < |data| - 1 {
      var init := data[..|data| - 1];
      StatusesMean(init, i);
      assert init[..i] == data[..i];
    }
  }

  lemma {:induction false} StatusCount(data: seq<Entry>)
    ensures |Statuses(data)| == |set k | 0 <= k < |data| && HasStatus(data[k])|
  {
    if data != [] {
      var n := |data| - 1;
      var init := data[..n];
      StatusCount(init);
      var before := set k | 0 <= k < |init| && HasStatus(init[k]);
      var now := set k | 0 <= k < |data| && HasStatus(data[k]);
      assert forall k :: 0 <= k < n ==> init[k] == data[k];
      hide HasStatus;
      assert now == before + if HasStatus(data[n]) then {n} else {};
      assert n !in before;
    }
  }

  // ----- laws of the score -----

  lemma {:induction false} ScoreBounds(statuses: seq<string>, h: int)
    requires statuses != []
    ensures Score(statuses) <= h <==> NotAbove(Earned(statuses), |statuses|, h)
    ensures Score(statuses) >= h <==> NotBelow(Earned(statuses), |statuses|, h)
  {
    var e, n := Earned(statuses), |statuses|;
    RoundingBounds(e * 100, n * 100, h);
    assert (2 * h + 1) * (n * 100) == 100 * ((2 * h + 1) * n);
    assert (2 * h - 1) * (n * 100) == 100 * ((2 * h - 1) * n);
  }

  lemma {:induction false} ScoreInRange(statuses: seq<string>)
    ensures 0 <= Score(statuses) <= 100
    ensures statuses != [] && Count(statuses, "PASS") == |statuses| ==> Score(statuses) == 100
  {
    if statuses != [] {
      EarnedCounts(statuses);
      ScoreBounds(statuses, 100);
    }
  }

  /** Mediant inequality through the rounding: the overall score lies between any bounds that hold for
      every domain with checks. */
  lemma {:induction false} OverallBetweenDomains(domains: seq<seq<string>>, lo: int, hi: int)
    requires forall d :: d in domains && d != [] ==> lo <= Score(d) <= hi
    ensures Flatten(domains) != [] ==> lo <= Score(Flatten(domains)) <= hi
  {
    Mediant(domains, lo, hi);
    if Flatten(domains) != [] {
      ScoreBounds(Flatten(domains), hi);
      ScoreBounds(Flatten(domains), lo);
    }
  }

  lemma {:induction false} MediantStep(a: nat, b: nat, c: nat, d: nat, h: int)
    ensures (b == 0 || NotAbove(a, b, h)) && NotAbove(c, d, h) && (b == 0 ==> a == 0) ==> NotAbove(a + c, b + d, h)
    ensures (b == 0 || NotBelow(a, b, h)) && NotBelow(c, d, h) && (b == 0 ==> a == 0) ==> NotBelow(a + c, b + d, h)
  {
    assert (2 * h + 1) * (b + d) == (2 * h + 1) * b + (2 * h + 1) * d;
    assert (2 * h - 1) * (b + d) == (2 * h - 1) * b + (2 * h - 1) * d;
  }

  lemma {:induction false} Mediant(domains: seq<seq<string>>, lo: int, hi: int)
    requires forall d :: d in domains && d != [] ==> lo <= Score(d) <= hi
    ensures var all := Flatten(domains);
            all != [] ==> NotAbove(Earned(all), |all|, hi) && NotBelow(Earned(all), |all|, lo)
  {
    if domains != [] {
      var init, last := domains[..|domains| - 1], domains[|domains| - 1];
      assert last in domains;
      Mediant(init, lo, hi);
      EarnedConcat(Flatten(init), last);
      if last == [] {
        assert Flatten(init) + last == Flatten(init);
      } else {
        ScoreBounds(last, hi);
        ScoreBounds(last, lo);
        MediantStep(Earned(Flatten(init)), |Flatten(init)|, Earned(last), |last|, hi);
        MediantStep(Earned(Flatten(init)), |Flatten(init)|, Earned(last), |last|, lo);
      }
    }
  }

  /** Some domain with checks scores no less than the whole, and some no more. */
  lemma {:induction false} OverallIsFramed(domains: seq<seq<string>>) returns (worst: seq<string>, best: seq<string>)
    requires Flatten(domains) != []
    ensures worst in domains && worst != [] && best in domains && best != []
    ensures Score(worst) <= Score(Flatten(domains)) <= Score(best)
  {
    worst, best := Extremes(domains);
    OverallBetweenDomains(domains, Score(worst), Score(best));
  }

  lemma {:induction false} Extremes(domains: seq<seq<string>>) returns (worst: seq<string>, best: seq<string>)
    requires Flatten(domains) != []
    ensures worst in domains && worst != [] && best in domains && best != []
    ensures forall d :: d in domains && d != [] ==> Score(worst) <= Score(d) <= Score(best)
  {
    var init, last := domains[..|domains| - 1], domains[|domains| - 1];
    assert domains == init + [last];
    if Flatten(init) == [] {
      worst, best := last, last;
      AllEmpty(init);
    } else {
      worst, best := Extremes(init);
      if last != [] {
        worst := if Score(last) < Score(worst) then last else worst;
        best := if Score(last) > Score(best) then last else best;
      }
    }
  }

  lemma {:induction false} AllEmpty(domains: seq<seq<string>>)
    requires Flatten(domains) == []
    ensures forall d :: d in domains ==> d == []
  {
    if domains != [] {
      var init, last := domains[..|domains| - 1], domains[|domains| - 1];
      assert domains == init + [last];
      AllEmpty(init);
    }
  }

  /** Raising the status of one check never lowers the score. */
  lemma {:induction false} RaisingNeverLowers(statuses: seq<string>, i: nat, status: string)
    requires i < |statuses| && Points(statuses[i]) <= Points(status)
    ensures Score(statuses) <= Score(statuses[i := status])
  {
    var raised := statuses[i := status];
    EarnedUpdate(statuses, i, status);
    ScoreBounds(statuses, Score(statuses));
    ScoreBounds(raised, Score(statuses));
  }

  lemma {:induction false} EarnedUpdate(statuses: seq<string>, i: nat, status: string)
    requires i < |statuses|
    ensures Earned(statuses[i := status]) == Earned(statuses) - Points(statuses[i]) + Points(status)
  {
    var n := |statuses| - 1;
    if i == n {
      assert statuses[i := status][..n] == statuses[..n];
    } else {
      assert statuses[i := status][..n] == statuses[..n][i := status];
      EarnedUpdate(statuses[..n], i, status);
    }
  }

  predicate Compliant(statuses: seq<string>) { Score(statuses) >= COMPLIANCE_THRESHOLD }

  /** The verdict as documented: the unrounded percentage is at least 80. */
  predicate CompliantAsDocumented(statuses: seq<string>) {
    statuses != [] && Earned(statuses) >= COMPLIANCE_THRESHOLD * |statuses|
  }

  /** The threshold is compared with the rounded score, so it is really at 79.5 percent, which rounds
      to the even 80. */
  lemma {:induction false} CompliantIff(statuses: seq<string>)
    ensures Compliant(statuses) <==>
              statuses != [] && 100 * (2 * Count(statuses, "PASS") + Count(statuses, "WARNING")) >= 159 * |statuses|
  {
    if statuses != [] {
      ScoreBounds(statuses, COMPLIANCE_THRESHOLD);
      EarnedCounts(statuses);
    }
  }

  /** The code is never stricter than its documentation, and more lenient exactly from 79.5 percent up
      to, but not including, 80. */
  lemma {:induction false} VerdictAgreesIff(statuses: seq<string>)
    ensures CompliantAsDocumented(statuses) ==> Compliant(statuses)
    ensures (Compliant(statuses) == CompliantAsDocumented(statuses)) <==>
              !(statuses != [] && 159 * |statuses| <= 2 * Earned(statuses) < 160 * |statuses|)
  {
    CompliantIff(statuses);
    EarnedCounts(statuses);
  }

  function Repeat(s: string, n: nat): (r: seq<string>)
    ensures |r| == n && Earned(r) == n * Points(s)
  {
    if n == 0 then [] else
      var r := Repeat(s, n - 1) + [s];
      assert r[..|r| - 1] == Repeat(s, n - 1);
      r
  }

  /** Seventeen passes, one warning and four failures: 79.54 percent, reported as 80 and compliant. */
  lemma {:induction false} LenientVerdict()
    ensures var s := Repeat("PASS", 17) + Repeat("WARNING", 1) + Repeat("FAIL", 4);
            Score(s) == 80 && Compliant(s) && !CompliantAsDocumented(s)
  {
    EarnedConcat(Repeat("PASS", 17) + Repeat("WARNING", 1), Repeat("FAIL", 4));
    EarnedConcat(Repeat("PASS", 17), Repeat("WARNING", 1));
    var s := Repeat("PASS", 17) + Repeat("WARNING", 1) + Repeat("FAIL", 4);
    assert |s| == 22 && Earned(s) == 1750;
  }

  // ----- the score engine -----

  method ExtractStatuses(data: seq<Entry>) returns (statuses: seq<string>)
    ensures statuses == Statuses(data)
  {
    statuses := [];
    for i := 0 to |data|
      invariant statuses == Statuses(data[..i])
    {
      assert data[..i + 1][..i] == data[..i];
      if data[i].Check? && data[i].status.Some? {
        statuses := statuses + [data[i].status.value];
      }
    }
    assert data[..|data|] == data;
  }

  function DomainScore(statuses: seq<string>): Domain { Domain(Score(statuses), |statuses|) }

  function Breakdown(domains: seq<seq<string>>): (r: seq<Domain>)
    ensures |r| == |domains|
  {
    seq(|domains|, i requires 0 <= i < |domains| => DomainScore(domains[i]))
  }

  /** The reported overall score lies between the scores of two domains of the reported breakdown. */
  ghost predicate Framed(report: Report) {
    exists i, j :: 0 <= i < |report.breakdown| && 0 <= j < |report.breakdown| && Between(report, i, j)
  }

  predicate Between(report: Report, i: nat, j: nat)
    requires i < |report.breakdown| && j < |report.breakdown|
  {
    && report.breakdown[i].checks > 0 && report.breakdown[j].checks > 0
    && report.breakdown[i].score <= report.score <= report.breakdown[j].score
  }

  lemma {:induction false} BreakdownFrames(domains: seq<seq<string>>, report: Report)
    requires Flatten(domains) != [] && report.breakdown == Breakdown(domains) && report.score == Score(Flatten(domains))
    ensures Framed(report)
  {
    var worst, best := OverallIsFramed(domains);
    var i :| 0 <= i < |domains| && domains[i] == worst;
    var j :| 0 <= j < |domains| && domains[j] == best;
    assert Between(report, i, j);
  }

  lemma {:induction false} FlattenFour(a: seq<string>, b: seq<string>, c: seq<string>, d: seq<string>)
    ensures Flatten([a, b, c, d]) == a + b + c + d
  {
    assert [a, b, c, d][..3] == [a, b, c];
    assert [a, b, c][..2] == [a, b];
    assert [a, b][..1] == [a];
    assert [a][..0] == [];
    assert Flatten([a]) == a;
    assert Flatten([a, b]) == a + b;
    assert Flatten([a, b, c]) == a + b + c;
  }

  /** What a report over the given statuses must look like. */
  ghost predicate Reports(report: Report, domains: seq<seq<string>>) {
    var all := Flatten(domains);
    && report.score == Score(all) && 0 <= report.score <= 100
    && |report.breakdown| == |domains|
    && (forall i :: 0 <= i < |domains| ==> report.breakdown[i] == Domain(Score(domains[i]), |domains[i]|))
    && report.totalChecks == |all|
    && report.passCount == Count(all, "PASS")
    && report.warningCount == Count(all, "WARNING")
    && report.failCount == Count(all, "FAIL") + Count(all, "UNKNOWN")
    && report.passCount + report.warningCount + report.failCount <= report.totalChecks
    && (report.passCount + report.warningCount + report.failCount == report.totalChecks <==>
        forall s :: s in all ==> Known(s))
    && report.verdict == (if 100 * (2 * report.passCount + report.warningCount) >= 159 * report.totalChecks > 0
                          then "Compliant" else "Non-Compliant")
    && (report.totalChecks > 0 ==> Framed(report))
  }

  /** The overall score and verdict, the counters, and the breakdown; `setup` may be missing. */
  method CalculateCompliance(security: seq<Entry>, services: seq<Entry>, registry: seq<Entry>,
      setup: Option<seq<Entry>>)
    returns (report: Report)
    ensures Reports(report, [Statuses(security), Statuses(services), Statuses(registry),
                             if setup.Some? then Statuses(setup.value) else []])
  {
    var securityStatuses := ExtractStatuses(security);
    var servicesStatuses := ExtractStatuses(services);
    var registryStatuses := ExtractStatuses(registry);
    var setupStatuses := [];
    if setup.Some? {
      setupStatuses := ExtractStatuses(setup.value);
    }
    var all := securityStatuses + servicesStatuses + registryStatuses + setupStatuses;
    var overall := Score(all);
    var verdict := if overall >= COMPLIANCE_THRESHOLD then "Compliant" else "Non-Compliant";
    var domains := [securityStatuses, servicesStatuses, registryStatuses, setupStatuses];
    report := Report(overall, verdict, |all|, Count(all, "PASS"), Count(all, "WARNING"),
                     Count(all, "FAIL") + Count(all, "UNKNOWN"), Breakdown(domains));
    FlattenFour(securityStatuses, servicesStatuses, registryStatuses, setupStatuses);
    ScoreInRange(all);
    CompliantIff(all);
    CountersCoverIff(all);
    if all != [] {
      BreakdownFrames(domains, report);
    }
  }
}
