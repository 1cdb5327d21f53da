/** What each field of an incident sketch holds, said in the records and their texts. */
module IncidentFields {
  import opened Basics
  import PlainText
  import opened Sorting
  import opened Strings
  import opened Evidence

  // ----- order -----

  /** By file name, and by line in one file. */
  predicate AtOrBefore(a: Record, b: Record) {
    if a.file == b.file then a.line <= b.line else StringLe(a.file, b.file)
  }

  /** The order of the records: in one clock domain timed ones first and by time, those of equal time and the
      untimed ones by place; in several clock domains all by place. */
  lemma {:induction false} OrderMeans(rs: seq<Record>, i: nat, j: nat)
    requires i < j < |rs|
    ensures |OrderRecords(rs)| == |rs|
    ensures var a, b := OrderRecords(rs)[i], OrderRecords(rs)[j];
            if exists p, q :: p in rs && q in rs && p.time.Some? && q.time.Some? && p.clock != q.clock
            then AtOrBefore(a, b)
            else
              && (b.time.Some? ==> a.time.Some? && a.time.value <= b.time.value)
              && (a.time == b.time ==> AtOrBefore(a, b))
  {
    OrderIsChronological(rs, i, j);
    ClocksDiffer(rs);
    forall a, b ensures ByPlace(a, b) <==> AtOrBefore(a, b) {}
  }

  lemma {:induction false} ClocksDiffer(rs: seq<Record>)
    ensures |Clocks(rs)| > 1 <==>
            exists p, q :: p in rs && q in rs && p.time.Some? && q.time.Some? && p.clock != q.clock
  {
    var cs := Clocks(rs);
    if p, q :| p in rs && q in rs && p.time.Some? && q.time.Some? && p.clock != q.clock {
      assert {p.clock, q.clock} <= cs;
      assert |cs - {p.clock} - {q.clock}| == |cs| - 2;
    } else if cs != {} {
      var c :| c in cs;
      assert cs == {c};
    }
  }

  // ----- the selected records -----

  /** A line that is neither empty nor noise, by the strength of its signal. */
  predicate Bad(rd: Reader, r: Record) { r.text != "" && !rd.noise(r.text) && rd.strength(r.text) >= 2 }

  predicate Warns(rd: Reader, r: Record) { r.text != "" && !rd.noise(r.text) && rd.strength(r.text) == 1 }

  predicate Hints(rd: Reader, r: Record) {
    r.text != "" && !rd.noise(r.text) && rd.strength(r.text) == 0 && rd.pathHint(r.text)
  }

  lemma {:induction false} SelectedMean(rd: Reader, rs: seq<Record>, r: Record)
    ensures multiset(FailuresOf(rd, rs))[r] == if Bad(rd, r) then multiset(rs)[r] else 0
    ensures multiset(WarningsOf(rd, rs))[r] == if Warns(rd, r) then multiset(rs)[r] else 0
  {
    FilterCounts(rs, FailureTest(rd), r);
    FilterCounts(rs, WarningTest(rd), r);
    OrderKeepsRecords(Filter(rs, FailureTest(rd)));
    OrderKeepsRecords(Filter(rs, WarningTest(rd)));
  }

  lemma {:induction false} SelectedMembers(rd: Reader, rs: seq<Record>, r: Record)
    ensures r in FailuresOf(rd, rs) <==> r in rs && Bad(rd, r)
    ensures r in WarningsOf(rd, rs) <==> r in rs && Warns(rd, r)
  {
    SelectedMean(rd, rs, r);
    assert r in rs <==> r in multiset(rs);
    assert r in FailuresOf(rd, rs) <==> r in multiset(FailuresOf(rd, rs));
    assert r in WarningsOf(rd, rs) <==> r in multiset(WarningsOf(rd, rs));
  }

  // ----- first and terminal event -----

  /** The failures in order, or the warnings when there is no failure. */
  function Leading(rd: Reader, rs: seq<Record>): seq<Record> {
    if FailuresOf(rd, rs) != [] then FailuresOf(rd, rs) else WarningsOf(rd, rs)
  }

  /** The first event is the first failure, or without failures the first warning; the terminal one the last.
      In one clock domain no timed one precedes the first, and none follows a timed terminal one. */
  lemma {:induction false} EventsMean(rd: Reader, rs: seq<Record>)
    ensures var es := Leading(rd, rs);
            && (es == [] <==> forall r :: r in rs ==> !Bad(rd, r) && !Warns(rd, r))
            && (es == [] ==> FirstEvent(rd, rs) == None && TerminalEvent(rd, rs) == None)
            && (es != [] ==>
                  && FirstEvent(rd, rs) == Some(es[0].text) && TerminalEvent(rd, rs) == Some(es[|es| - 1].text)
                  && forall k :: 0 <= k < |es| ==> LeadingKind(rd, rs, es[k]))
  {
    forall r ensures r in FailuresOf(rd, rs) <==> r in rs && Bad(rd, r) { SelectedMembers(rd, rs, r); }
    forall r ensures r in WarningsOf(rd, rs) <==> r in rs && Warns(rd, r) { SelectedMembers(rd, rs, r); }
    var es := Leading(rd, rs);
    hide Bad, Warns, FailuresOf, WarningsOf;
    assert es != [] ==> es[0] in es;
    forall k | 0 <= k < |es| ensures LeadingKind(rd, rs, es[k]) {
      assert es[k] in es;
    }
    assert FailuresOf(rd, rs) != [] ==> FailuresOf(rd, rs)[0] in FailuresOf(rd, rs);
    assert WarningsOf(rd, rs) != [] ==> WarningsOf(rd, rs)[0] in WarningsOf(rd, rs);
  }

  ghost predicate LeadingKind(rd: Reader, rs: seq<Record>, e: Record) {
    e in rs && if exists r :: r in rs && Bad(rd, r) then Bad(rd, e) else Warns(rd, e)
  }

  lemma {:induction false} OneClockFrames(rs: seq<Record>, r: Record)
    requires r in rs && r.time.Some?
    requires forall p, q :: p in rs && q in rs && p.time.Some? && q.time.Some? ==> p.clock == q.clock
    ensures var es := OrderRecords(rs);
            && |es| > 0 && es[0].time.Some? && es[0].time.value <= r.time.value
            && (es[|es| - 1].time.Some? ==> r.time.value <= es[|es| - 1].time.value)
  {
    hide *;
    ClocksDiffer(rs);
    EndsOfOrder(rs, r);
  }

  /** In one clock domain. */
  lemma {:induction false} EventsFrame(rd: Reader, rs: seq<Record>, r: Record)
    requires r in Leading(rd, rs) && r.time.Some?
    requires forall p, q :: p in Leading(rd, rs) && q in Leading(rd, rs) && p.time.Some? && q.time.Some? ==>
               p.clock == q.clock
    ensures var es := Leading(rd, rs);
            && es[0].time.Some? && es[0].time.value <= r.time.value
            && (es[|es| - 1].time.Some? ==> r.time.value <= es[|es| - 1].time.value)
  {
    hide Filter, OrderRecords, StringLe;
    var chosen := if FailuresOf(rd, rs) != [] then Filter(rs, FailureTest(rd)) else Filter(rs, WarningTest(rd));
    assert Leading(rd, rs) == OrderRecords(chosen);
    hide *;
    OrderKeepsRecords(chosen);
    OneClockFrames(chosen, r);
  }

  // ----- the other fields -----

  /** The first `n` characters. */
  function Cut(s: string, n: nat): string { s[..if |s| <= n then |s| else n] }

  /** The texts of the first `n` records, each cut to 300 characters. */
  ghost predicate ShowsFirst(texts: seq<string>, rs: seq<Record>, n: nat) {
    && |texts| == (if |rs| <= n then |rs| else n)
    && forall i :: 0 <= i < |texts| ==> texts[i] == Cut(rs[i].text, 300)
  }

  lemma {:induction false} TextsShow(rs: seq<Record>, n: nat)
    ensures ShowsFirst(Texts(Take(rs, n), 300), rs, n)
  {
  }

  /** Timeline of the first twelve signals, evidence of the first ten failures, and the next evidence. */
  lemma {:induction false} ListsMean(rd: Reader, rs: seq<Record>, family: string)
    ensures var x := IncidentOf(rd, rs, family);
            && ShowsFirst(x.timeline, OrderRecords(FailuresOf(rd, rs) + WarningsOf(rd, rs)), 12)
            && ShowsFirst(x.evidence, FailuresOf(rd, rs), 10)
            && x.nextEvidence == rd.next(family)
            && x.first == FirstEvent(rd, rs) && x.terminal == TerminalEvent(rd, rs)
  {
    hide ShowsFirst, Texts;
    TextsShow(OrderRecords(FailuresOf(rd, rs) + WarningsOf(rd, rs)), 12);
    TextsShow(FailuresOf(rd, rs), 10);
  }

  ghost predicate SortedOnce(ss: seq<string>) {
    forall i, j :: 0 <= i < j < |ss| ==> ss[i] != ss[j] && StringLe(ss[i], ss[j])
  }

  /** The signatures: the first 200 characters of each failure that carries one. */
  lemma {:induction false} SignaturesMean(rd: Reader, rs: seq<Record>, family: string)
    ensures var x := IncidentOf(rd, rs, family);
            && SortedOnce(x.signatures)
            && forall s :: s in x.signatures <==>
                 exists r :: r in rs && Bad(rd, r) && rd.signature(r.text) && s == Cut(r.text, 200)
  {
    var fs := FailuresOf(rd, rs);
    forall r ensures r in fs <==> r in rs && Bad(rd, r) { SelectedMembers(rd, rs, r); }
    hide FailuresOf, Bad;
    forall s ensures s in SignatureSet(rd, fs) <==>
        exists r :: r in rs && Bad(rd, r) && rd.signature(r.text) && s == Cut(r.text, 200)
    {
      if s in SignatureSet(rd, fs) {
        var r :| r in fs && rd.signature(r.text) && s == Take(r.text, 200);
        assert s == Cut(r.text, 200);
      }
      if r :| r in rs && Bad(rd, r) && rd.signature(r.text) && s == Cut(r.text, 200) {
        assert s == Take(r.text, 200);
      }
    }
  }

  /** Paths come from signals, and from hinted lines at places without a signal; never from HTML. */
  ghost predicate Reads(rd: Reader, rs: seq<Record>, r: Record) {
    r in rs && !rd.html(r.text) && (Bad(rd, r) || Warns(rd, r) || (Hints(rd, r) && Alone(rd, rs, r)))
  }

  ghost predicate Alone(rd: Reader, rs: seq<Record>, r: Record) {
    forall q :: q in rs && (Bad(rd, q) || Warns(rd, q)) ==> q.file != r.file || q.line != r.line
  }

  ghost predicate PathIn(rd: Reader, rs: seq<Record>, p: string) {
    exists r :: Reads(rd, rs, r) && p in rd.paths(r.text)
  }

  lemma {:induction false} PathSetMeans(rd: Reader, rs: seq<Record>, p: string)
    ensures p in PathSet(rd, FailuresOf(rd, rs) + WarningsOf(rd, rs), rs) <==> PathIn(rd, rs, p)
  {
    var signals := FailuresOf(rd, rs) + WarningsOf(rd, rs);
    forall r ensures r in signals <==> r in rs && (Bad(rd, r) || Warns(rd, r)) { SelectedMembers(rd, rs, r); }
    hide FailuresOf, WarningsOf;
    forall r ensures Reads(rd, rs, r) <==> r in signals + rs && ReadsPaths(rd, signals, r) && !rd.html(r.text) {
      assert r in signals + rs <==> r in signals || r in rs;
    }
  }

  /** The three least of these paths. */
  lemma {:induction false} PathsMean(rd: Reader, rs: seq<Record>, family: string)
    ensures var x := IncidentOf(rd, rs, family);
            && |x.paths| <= 3 && SortedOnce(x.paths)
            && (forall p :: p in x.paths ==> PathIn(rd, rs, p))
            && (forall p, q :: PathIn(rd, rs, p) && p !in x.paths && q in x.paths ==> StringLe(q, p))
            && ((exists p :: PathIn(rd, rs, p) && p !in x.paths) ==> |x.paths| == 3)
  {
    var all := PathSet(rd, FailuresOf(rd, rs) + WarningsOf(rd, rs), rs);
    forall p ensures p in all <==> PathIn(rd, rs, p) { PathSetMeans(rd, rs, p); }
    hide PathIn, PathSet, FailuresOf, WarningsOf;
    LeastThree(SortedSet(all), all);
  }

  lemma {:induction false} LeastThree(sorted: seq<string>, all: set<string>)
    requires Lists(sorted, all)
    ensures var few := Take(sorted, 3);
            && |few| <= 3 && SortedOnce(few)
            && (forall p :: p in few ==> p in all)
            && (forall p, q :: p in all && p !in few && q in few ==> StringLe(q, p))
            && ((exists p :: p in all && p !in few) ==> |few| == 3)
  {
    var few := Take(sorted, 3);
    assert forall i :: 0 <= i < |few| ==> few[i] == sorted[i];
    forall p, q | p in all && p !in few && q in few ensures StringLe(q, p) {
      var i :| 0 <= i < |sorted| && sorted[i] == p;
      var j :| 0 <= j < |few| && few[j] == q;
      TakeHas(sorted, 3, i);
    }
    if |sorted| <= 3 {
      assert few == sorted;
    }
  }

  lemma {:induction false} TakeHas(s: seq<string>, n: nat, i: nat)
    requires i < |s|
    ensures i < n ==> s[i] in Take(s, n)
  {
    assert i < n ==> Take(s, n)[i] == s[i];
  }

  /** What is not known about the times: clocks that cannot be compared, or signals without a time. */
  lemma {:induction false} UnknownMeans(rd: Reader, rs: seq<Record>, family: string)
    ensures var signals := FailuresOf(rd, rs) + WarningsOf(rd, rs);
            IncidentOf(rd, rs, family).unknown ==
              if exists p, q :: p in signals && q in signals && p.time.Some? && q.time.Some? && p.clock != q.clock
              then IncomparableClocks
              else if exists r :: r in signals && r.time.None? then SomeUntimed else NoneAdded
  {
    ClocksDiffer(FailuresOf(rd, rs) + WarningsOf(rd, rs));
  }

  /** The lines with a signal, in the order of the records. */
  function SignalLines(rd: Reader, rs: seq<Record>): seq<string> {
    if rs == [] then []
    else
      var last := rs[|rs| - 1];
      SignalLines(rd, rs[..|rs| - 1]) + if Bad(rd, last) || Warns(rd, last) then [last.text] else []
  }

  lemma {:induction false} NoSignalLines(rd: Reader)
    ensures WholeTexts(Filter([], SignalTest(rd))) == []
  {
    assert Filter([], SignalTest(rd)) == [];
  }

  lemma {:induction false} HasSignalIs(rd: Reader, r: Record)
    ensures SignalTest(rd)(r) <==> Bad(rd, r) || Warns(rd, r)
  {
  }

  lemma {:induction false} SignalLinesAre(rd: Reader, rs: seq<Record>)
    ensures WholeTexts(Filter(rs, SignalTest(rd))) == SignalLines(rd, rs)
  {
    hide Filter, WholeTexts, Bad, Warns;
    if rs == [] {
      NoSignalLines(rd);
    } else {
      var front, last := rs[..|rs| - 1], rs[|rs| - 1];
      assert rs == front + [last];
      SignalLinesAre(rd, front);
      SignalTextsNext(rd, front, last);
      HasSignalIs(rd, last);
    }
  }

  /** The stage: the labels that match anywhere in the signal lines, joined. */
  lemma {:induction false} StageMeans(rd: Reader, rs: seq<Record>, family: string)
    ensures IncidentOf(rd, rs, family).stage ==
            PlainText.Join(" / ", Labels(rd.stages, PlainText.Join("\n", SignalLines(rd, rs))))
  {
    SignalLinesAre(rd, rs);
  }
}
