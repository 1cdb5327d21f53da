/** Normalised evidence records, their chronological order across files, and the incident sketch
    that is drawn from them. */
module Evidence {
  import opened Basics
  import PlainText
  import opened Sorting
  import opened Strings

  datatype Clock = NoClock | SyslogYearUnknown | Utc | Local

  datatype Operation = Revert | Create | Delete | ManualMove

  /** One log line.  `time` is in microseconds; `clock` is the clock domain of its timestamp; `sessions`
      and `operations` are what the session and operation patterns find in the line. */
  datatype Record = Record(file: string, line: nat, text: string, time: Option<int>, clock: Clock,
                           sessions: map<string, string>, operations: set<Operation>)

  // ----- the orders -----

  predicate SamePlace(a: Record, b: Record) { a.file == b.file && a.line == b.line }

  predicate ByPlace(a: Record, b: Record) {
    if a.file != b.file then StringLe(a.file, b.file) else a.line <= b.line
  }

  /** Timed records first, by time; ties and untimed records by place. */
  predicate ByTime(a: Record, b: Record) {
    if a.time.Some? && b.time.Some? && a.time.value != b.time.value then a.time.value < b.time.value
    else if a.time.Some? != b.time.Some? then a.time.Some?
    else ByPlace(a, b)
  }

  lemma {:induction false} ByPlaceOrder()
    ensures TotalPreorder(ByPlace)
    ensures forall a, b :: ByPlace(a, b) && ByPlace(b, a) ==> SamePlace(a, b)
  {
    forall a, b ensures ByPlace(a, b) || ByPlace(b, a) { LeTotal(a.file, b.file); }
    forall a, b | ByPlace(a, b) && ByPlace(b, a) ensures SamePlace(a, b) {
      if a.file != b.file { LeAntisymmetric(a.file, b.file); }
    }
    forall a, b, c | ByPlace(a, b) && ByPlace(b, c) ensures ByPlace(a, c) {
      ByPlaceTransitive(a, b, c);
    }
  }

  lemma {:induction false} ByPlaceTransitive(a: Record, b: Record, c: Record)
    requires ByPlace(a, b) && ByPlace(b, c)
    ensures ByPlace(a, c)
  {
    LeReflexive(a.file);
    LeReflexive(b.file);
    LeTransitive(a.file, b.file, c.file);
    if a.file == c.file && a.file != b.file {
      LeAntisymmetric(a.file, b.file);
    }
  }

  lemma {:induction false} ByTimeOrder()
    ensures TotalPreorder(ByTime)
    ensures forall a, b :: ByTime(a, b) && ByTime(b, a) ==> SamePlace(a, b)
  {
    ByPlaceOrder();
  }

  ghost predicate DistinctPlaces(rs: seq<Record>) {
    forall i, j :: 0 <= i < j < |rs| ==> !SamePlace(rs[i], rs[j])
  }

  // ----- order_records -----

  /** The clock domains of the timed records. */
  function Clocks(rs: seq<Record>): set<Clock> {
    set r | r in rs && r.time.Some? :: r.clock
  }

  /** Times of different clock domains are not compared: then the whole set goes by place. */
  function OrderRecords(rs: seq<Record>): seq<Record> {
    if |Clocks(rs)| > 1 then Sort(rs, ByPlace) else Sort(rs, ByTime)
  }

  /** The order depends on the records alone, not on the order in which they come. */
  lemma {:induction false} OrderIgnoresInput(a: seq<Record>, b: seq<Record>)
    requires multiset(a) == multiset(b) && DistinctPlaces(a)
    ensures OrderRecords(a) == OrderRecords(b)
  {
    SameMembers(a, b);
    assert Clocks(a) == Clocks(b);
    ByPlaceOrder();
    ByTimeOrder();
    PlacesDecide(a, ByPlace);
    PlacesDecide(a, ByTime);
    SortIgnoresOrder(a, b, ByPlace);
    SortIgnoresOrder(a, b, ByTime);
  }

  lemma {:induction false} PlacesDecide(a: seq<Record>, le: (Record, Record) -> bool)
    requires DistinctPlaces(a)
    requires forall x, y :: le(x, y) && le(y, x) ==> SamePlace(x, y)
    ensures Antisymmetric(a, le)
  {
    forall i, j | 0 <= i < |a| && 0 <= j < |a| && le(a[i], a[j]) && le(a[j], a[i]) ensures a[i] == a[j] {
      assert SamePlace(a[i], a[j]) && SamePlace(a[j], a[i]);
    }
  }

  lemma {:induction false} OrderKeepsRecords(rs: seq<Record>)
    ensures multiset(OrderRecords(rs)) == multiset(rs) && |OrderRecords(rs)| == |rs|
    ensures forall r :: r in OrderRecords(rs) <==> r in rs
  {
    ByPlaceOrder();
    ByTimeOrder();
    SortFacts(rs, ByPlace);
    SortFacts(rs, ByTime);
  }

  /** In one clock domain the timed records come first, in chronological order, and the untimed ones
      follow by place; in several, all records go by place. */
  lemma {:induction false} OrderIsChronological(rs: seq<Record>, i: nat, j: nat)
    requires i < j < |rs|
    ensures |OrderRecords(rs)| == |rs|
    ensures var a, b := OrderRecords(rs)[i], OrderRecords(rs)[j];
            if |Clocks(rs)| <= 1 then
              && (b.time.Some? ==> a.time.Some? && a.time.value <= b.time.value)
              && (a.time == b.time ==> ByPlace(a, b))
            else ByPlace(a, b)
  {
    ByTimeOrder();
    ByPlaceOrder();
    SortFacts(rs, ByTime);
    SortFacts(rs, ByPlace);
    assert if |Clocks(rs)| <= 1 then ByTime(OrderRecords(rs)[i], OrderRecords(rs)[j])
           else ByPlace(OrderRecords(rs)[i], OrderRecords(rs)[j]);
  }

  // ----- the incident sketch -----

  /** What the patterns say about a line: noise, signal strength 0 to 3, whether it carries a
      diagnostic signature or a path hint, whether it looks like an HTML fragment, and its paths; the
      stage patterns, which are matched against the joined signal lines; and the evidence to ask for next
      from a family of sources. */
  datatype Reader = Reader(noise: string -> bool, strength: string -> nat, signature: string -> bool,
                           pathHint: string -> bool, html: string -> bool, paths: string -> seq<string>,
                           stages: seq<StageRule>, next: string -> seq<string>)

  datatype StageRule = StageRule(matches: string -> bool, name: string)

  datatype Unknown = NoneAdded | IncomparableClocks | SomeUntimed

  datatype Incident = Incident(first: Option<string>, terminal: Option<string>, timeline: seq<string>, stage: string,
                               signatures: seq<string>, evidence: seq<string>, paths: seq<string>, unknown: Unknown,
                               nextEvidence: seq<string>)

  predicate Scored(rd: Reader, r: Record) { r.text != "" && !rd.noise(r.text) }

  predicate IsFailure(rd: Reader, r: Record) { Scored(rd, r) && rd.strength(r.text) >= 2 }

  predicate IsWarning(rd: Reader, r: Record) { Scored(rd, r) && rd.strength(r.text) == 1 }

  predicate IsPathOnly(rd: Reader, r: Record) { Scored(rd, r) && rd.strength(r.text) == 0 && rd.pathHint(r.text) }

  function Filter(rs: seq<Record>, p: Record -> bool): seq<Record> {
    if rs == [] then []
    else Filter(rs[..|rs| - 1], p) + if p(rs[|rs| - 1]) then [rs[|rs| - 1]] else []
  }

  function FailureTest(rd: Reader): Record -> bool { r => IsFailure(rd, r) }

  function WarningTest(rd: Reader): Record -> bool { r => IsWarning(rd, r) }

  function FailuresOf(rd: Reader, rs: seq<Record>): seq<Record> { OrderRecords(Filter(rs, FailureTest(rd))) }

  function WarningsOf(rd: Reader, rs: seq<Record>): seq<Record> { OrderRecords(Filter(rs, WarningTest(rd))) }

  function Texts(rs: seq<Record>, n: nat): seq<string> {
    seq(|rs|, i requires 0 <= i < |rs| => Take(rs[i].text, n))
  }

  function First(failures: seq<Record>, warnings: seq<Record>): Option<string> {
    if failures != [] then Some(failures[0].text)
    else if warnings != [] then Some(warnings[0].text)
    else None
  }

  function Terminal(failures: seq<Record>, warnings: seq<Record>): Option<string> {
    if failures != [] then Some(failures[|failures| - 1].text)
    else if warnings != [] then Some(warnings[|warnings| - 1].text)
    else None
  }

  function UnknownOf(signals: seq<Record>): Unknown {
    if |Clocks(signals)| > 1 then IncomparableClocks
    else if exists r :: r in signals && r.time.None? then SomeUntimed
    else NoneAdded
  }

  /** Paths are read from the signals, and from hinted lines at places where no signal stands. */
  predicate ReadsPaths(rd: Reader, signals: seq<Record>, r: Record) {
    r in signals || (IsPathOnly(rd, r) && forall q :: q in signals ==> !SamePlace(q, r))
  }

  function PathSet(rd: Reader, signals: seq<Record>, rs: seq<Record>): set<string> {
    set r, p | r in signals + rs && ReadsPaths(rd, signals, r) && !rd.html(r.text) && p in rd.paths(r.text) :: p
  }

  function SignatureSet(rd: Reader, failures: seq<Record>): set<string> {
    set r | r in failures && rd.signature(r.text) :: Take(r.text, 200)
  }

  function FirstEvent(rd: Reader, rs: seq<Record>): Option<string> { First(FailuresOf(rd, rs), WarningsOf(rd, rs)) }

  function TerminalEvent(rd: Reader, rs: seq<Record>): Option<string> {
    Terminal(FailuresOf(rd, rs), WarningsOf(rd, rs))
  }

  function SignalTest(rd: Reader): Record -> bool { r => Scored(rd, r) && rd.strength(r.text) >= 1 }

  function WholeTexts(rs: seq<Record>): seq<string> {
    if rs == [] then [] else WholeTexts(rs[..|rs| - 1]) + [rs[|rs| - 1].text]
  }

  /** The labels of the patterns that match, each once. */
  function Labels(rules: seq<StageRule>, text: string): seq<string> {
    if rules == [] then []
    else
      var before, rule := Labels(rules[..|rules| - 1], text), rules[|rules| - 1];
      if rule.matches(text) && rule.name !in before then before + [rule.name] else before
  }

  /** The stage reads the signal lines in the order of the records. */
  function StageOf(rd: Reader, rs: seq<Record>): string {
    PlainText.Join(" / ", Labels(rd.stages, PlainText.Join("\n", WholeTexts(Filter(rs, SignalTest(rd))))))
  }

  ghost function IncidentOf(rd: Reader, rs: seq<Record>, family: string): Incident {
    var failures, warnings := FailuresOf(rd, rs), WarningsOf(rd, rs);
    Incident(FirstEvent(rd, rs),
             TerminalEvent(rd, rs),
             Texts(Take(OrderRecords(failures + warnings), 12), 300),
             StageOf(rd, rs),
             SortedSet(SignatureSet(rd, failures)),
             Texts(Take(failures, 10), 300),
             Take(SortedSet(PathSet(rd, failures + warnings, rs)), 3),
             UnknownOf(failures + warnings),
             rd.next(family))
  }

  lemma {:induction false} FilterMembers(rs: seq<Record>, p: Record -> bool)
    ensures forall r :: r in Filter(rs, p) <==> r in rs && p(r)
  {
    if rs != [] {
      var init, last := rs[..|rs| - 1], rs[|rs| - 1];
      FilterMembers(init, p);
      assert rs == init + [last];
      assert forall r :: r in rs <==> r in init || r == last;
    }
  }

  lemma {:induction false} FilterCounts(rs: seq<Record>, p: Record -> bool, r: Record)
    ensures multiset(Filter(rs, p))[r] == if p(r) then multiset(rs)[r] else 0
  {
    if rs != [] {
      var init, last := rs[..|rs| - 1], rs[|rs| - 1];
      FilterCounts(init, p, r);
      assert rs == init + [last];
    }
  }

  lemma {:induction false} FilterIgnoresOrder(a: seq<Record>, b: seq<Record>, p: Record -> bool)
    requires multiset(a) == multiset(b)
    ensures multiset(Filter(a, p)) == multiset(Filter(b, p))
  {
    forall r ensures multiset(Filter(a, p))[r] == multiset(Filter(b, p))[r] {
      FilterCounts(a, p, r);
      FilterCounts(b, p, r);
    }
  }

  lemma {:induction false} FilterDistinct(rs: seq<Record>, p: Record -> bool)
    requires DistinctPlaces(rs)
    ensures DistinctPlaces(Filter(rs, p))
  {
    if rs != [] {
      var init, last := rs[..|rs| - 1], rs[|rs| - 1];
      FilterDistinct(init, p);
      FilterMembers(init, p);
      var f := Filter(init, p);
      forall i | 0 <= i < |f| ensures !SamePlace(f[i], last) {
        assert f[i] in f;
        var j :| 0 <= j < |init| && init[j] == f[i];
        assert rs[j] == f[i] && rs[|rs| - 1] == last;
      }
    }
  }

  lemma {:induction false} SelectionIgnoresOrder(a: seq<Record>, b: seq<Record>, p: Record -> bool)
    requires multiset(a) == multiset(b) && DistinctPlaces(a)
    ensures OrderRecords(Filter(a, p)) == OrderRecords(Filter(b, p))
  {
    FilterIgnoresOrder(a, b, p);
    FilterDistinct(a, p);
    OrderIgnoresInput(Filter(a, p), Filter(b, p));
  }

  /** The files of a bundle may be uploaded in any order: the sketch is the same in every field but the
      stage, whose patterns look at the lines in the order of the records. */
  lemma {:induction false} IncidentIgnoresUploadOrder(rd: Reader, a: seq<Record>, b: seq<Record>, family: string)
    requires multiset(a) == multiset(b) && DistinctPlaces(a)
    ensures IncidentOf(rd, a, family).(stage := StageOf(rd, b)) == IncidentOf(rd, b, family)
  {
    SelectionIgnoresOrder(a, b, FailureTest(rd));
    SelectionIgnoresOrder(a, b, WarningTest(rd));
    SameMembers(a, b);
    var signals := FailuresOf(rd, a) + WarningsOf(rd, a);
    assert PathSet(rd, signals, a) == PathSet(rd, signals, b) by {
      assert forall r :: r in signals + a <==> r in signals + b;
    }
  }

  lemma {:induction false} EndsOfOrder(rs: seq<Record>, r: Record)
    requires r in rs && r.time.Some? && |Clocks(rs)| <= 1
    ensures var o := OrderRecords(rs);
            && o != [] && o[0].time.Some? && o[0].time.value <= r.time.value
            && (o[|o| - 1].time.Some? ==> r.time.value <= o[|o| - 1].time.value)
  {
    OrderKeepsRecords(rs);
    var o := OrderRecords(rs);
    var k: nat :| k < |o| && o[k] == r;
    if k > 0 { OrderIsChronological(rs, 0, k); }
    if k < |o| - 1 { OrderIsChronological(rs, k, |o| - 1); }
  }

  lemma {:induction false} FailuresAreFailures(rd: Reader, rs: seq<Record>, k: nat)
    requires k < |FailuresOf(rd, rs)|
    ensures FailuresOf(rd, rs)[k] in rs && IsFailure(rd, FailuresOf(rd, rs)[k])
  {
    var all, fs := Filter(rs, FailureTest(rd)), FailuresOf(rd, rs);
    FilterMembers(rs, FailureTest(rd));
    OrderKeepsRecords(all);
    assert fs[k] in fs && fs[k] in all;
  }

  lemma {:induction false} FailuresFramed(rd: Reader, rs: seq<Record>, r: Record)
    requires r in rs && IsFailure(rd, r) && r.time.Some?
    requires |Clocks(Filter(rs, FailureTest(rd)))| <= 1
    ensures var fs := FailuresOf(rd, rs);
            && fs != [] && fs[0].time.Some? && fs[0].time.value <= r.time.value
            && (fs[|fs| - 1].time.Some? ==> r.time.value <= fs[|fs| - 1].time.value)
  {
    FilterMembers(rs, FailureTest(rd));
    EndsOfOrder(Filter(rs, FailureTest(rd)), r);
  }

  /** In one clock domain the first reported failure is a failure of the bundle and no timed failure
      is earlier; the terminal one, when timed, is one that no failure follows. */
  lemma {:induction false} FirstAndTerminal(rd: Reader, rs: seq<Record>, r: Record)
    requires r in rs && IsFailure(rd, r) && r.time.Some?
    requires |Clocks(Filter(rs, FailureTest(rd)))| <= 1
    ensures var fs := FailuresOf(rd, rs);
            && fs != [] && fs[0] in rs && IsFailure(rd, fs[0]) && fs[|fs| - 1] in rs && IsFailure(rd, fs[|fs| - 1])
            && FirstEvent(rd, rs) == Some(fs[0].text) && TerminalEvent(rd, rs) == Some(fs[|fs| - 1].text)
            && fs[0].time.Some? && fs[0].time.value <= r.time.value
            && (fs[|fs| - 1].time.Some? ==> r.time.value <= fs[|fs| - 1].time.value)
  {
    FailuresFramed(rd, rs, r);
    FailuresAreFailures(rd, rs, 0);
    FailuresAreFailures(rd, rs, |FailuresOf(rd, rs)| - 1);
  }

  // ----- the loops -----

  /** Builds the sketch. */
  method IncidentFromRecords(rd: Reader, records: seq<Record>, family: string) returns (incident: Incident)
    ensures incident == IncidentOf(rd, records, family)
  {
    var failures, warnings := [], [];
    var signalTexts: seq<string> := [];
    for i := 0 to |records|
      invariant failures == Filter(records[..i], FailureTest(rd))
      invariant warnings == Filter(records[..i], WarningTest(rd))
      invariant signalTexts == WholeTexts(Filter(records[..i], SignalTest(rd)))
    {
      var r := records[i];
      assert records[..i + 1][..i] == records[..i] && records[..i] + [r] == records[..i + 1];
      SignalTextsNext(rd, records[..i], r);
      if r.text == "" || rd.noise(r.text) {
        continue;
      }
      var s := rd.strength(r.text);
      if s >= 1 {
        signalTexts := signalTexts + [r.text];
      }
      if s >= 2 {
        failures := failures + [r];
      } else if s == 1 {
        warnings := warnings + [r];
      }
    }
    assert records[..|records|] == records;
    failures, warnings := OrderRecords(failures), OrderRecords(warnings);
    var stages := CollectLabels(rd.stages, PlainText.Join("\n", signalTexts));
    var paths := CollectPaths(rd, failures + warnings, records);
    var signatures := SortSet(SignatureSet(rd, failures));
    return Incident(First(failures, warnings), Terminal(failures, warnings),
                    Texts(Take(OrderRecords(failures + warnings), 12), 300), PlainText.Join(" / ", stages), signatures,
                    Texts(Take(failures, 10), 300), Take(paths, 3), UnknownOf(failures + warnings), rd.next(family));
  }

  lemma {:induction false} SignalTextsNext(rd: Reader, rs: seq<Record>, r: Record)
    ensures WholeTexts(Filter(rs + [r], SignalTest(rd))) ==
              WholeTexts(Filter(rs, SignalTest(rd))) + if SignalTest(rd)(r) then [r.text] else []
  {
    var kept := Filter(rs, SignalTest(rd));
    assert (rs + [r])[..|rs|] == rs;
    if SignalTest(rd)(r) {
      assert (kept + [r])[..|kept|] == kept;
    } else {
      assert kept + [] == kept;
    }
  }

  /** One of the rules with this name matches. */
  ghost predicate Matched(rules: seq<StageRule>, text: string, name: string) {
    exists i :: 0 <= i < |rules| && rules[i].matches(text) && rules[i].name == name
  }

  lemma {:induction false} MatchedSnoc(rules: seq<StageRule>, last: StageRule, text: string, name: string)
    ensures Matched(rules + [last], text, name) <==>
              Matched(rules, text, name) || (last.matches(text) && last.name == name)
  {
    var all := rules + [last];
    assert all[|rules|] == last;
    if Matched(rules, text, name) {
      var i :| 0 <= i < |rules| && rules[i].matches(text) && rules[i].name == name;
      assert all[i] == rules[i];
    }
  }

  /** The labels are the names of the rules that match, each once, in the order of the rules: those of the
      first `k` rules come first. */
  lemma {:induction false} LabelsAreMatches(rules: seq<StageRule>, text: string, k: nat)
    requires k <= |rules|
    ensures forall name :: name in Labels(rules, text) <==> Matched(rules, text, name)
    ensures forall i, j :: 0 <= i < j < |Labels(rules, text)| ==> Labels(rules, text)[i] != Labels(rules, text)[j]
    ensures Labels(rules[..k], text) <= Labels(rules, text)
  {
    if rules == [] {
      assert rules[..k] == rules;
    } else {
      var init, last := rules[..|rules| - 1], rules[|rules| - 1];
      assert rules == init + [last];
      if k == |rules| {
        assert rules[..k] == rules;
        LabelsAreMatches(init, text, 0);
      } else {
        assert init[..k] == rules[..k];
        LabelsAreMatches(init, text, k);
      }
      forall name ensures name in Labels(rules, text) <==> Matched(rules, text, name) {
        MatchedSnoc(init, last, text, name);
      }
    }
  }

  method CollectLabels(rules: seq<StageRule>, text: string) returns (labels: seq<string>)
    ensures labels == Labels(rules, text)
    ensures forall name :: name in labels <==> Matched(rules, text, name)
    ensures forall i, j :: 0 <= i < j < |labels| ==> labels[i] != labels[j]
  {
    labels := [];
    for i := 0 to |rules|
      invariant labels == Labels(rules[..i], text)
    {
      assert rules[..i + 1][..i] == rules[..i];
      if rules[i].matches(text) && rules[i].name !in labels {
        labels := labels + [rules[i].name];
      }
    }
    assert rules[..|rules|] == rules;
    LabelsAreMatches(rules, text, 0);
  }

  /** The path lines are the signals, then the hinted lines at other places. */
  method CollectPaths(rd: Reader, signals: seq<Record>, records: seq<Record>) returns (paths: seq<string>)
    ensures paths == SortedSet(PathSet(rd, signals, records))
  {
    var lines := signals;
    for i := 0 to |records|
      invariant forall r :: r in lines <==> r in signals || (r in records[..i] && ReadsPaths(rd, signals, r))
    {
      var r := records[i];
      assert forall q :: q in records[..i + 1] <==> q in records[..i] || q == r;
      if IsPathOnly(rd, r) && forall q :: q in signals ==> !SamePlace(q, r) {
        lines := lines + [r];
      }
    }
    assert records[..|records|] == records;
    var found: set<string> := {};
    for i := 0 to |lines|
      invariant forall p :: p in found <==> exists r :: r in lines[..i] && !rd.html(r.text) && p in rd.paths(r.text)
    {
      var r := lines[i];
      assert forall q :: q in lines[..i + 1] <==> q in lines[..i] || q == r;
      if rd.html(r.text) {
        continue;
      }
      found := found + set p | p in rd.paths(r.text);
    }
    assert lines[..|lines|] == lines;
    assert found == PathSet(rd, signals, records);
    paths := SortSet(found);
  }
}
