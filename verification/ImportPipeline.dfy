/** Ingestion of the event evidence of an offline report: normalise, drop what the asset already has,
    persist the rest in one transaction, analyse the most severe new events up to a cap. */
module ImportPipeline {
  import opened Basics
  import opened PlainText
  import opened Sorting

  const DEFAULT_ANALYZE_MAX: nat := 10
  const MAX_MESSAGE: nat := 1000
  const MAX_SEVERITY: nat := 16

  /** An entry of the report.  `eventId` is absent when it does not convert to an integer, `time` when
      it does not parse. */
  datatype RawEvent =
    | NotARecord
    | RawEvent(eventId: Option<int>, severity: string, channel: string, provider: string,
               time: Option<int>, recordId: string, message: string)

  datatype Event = Event(eventId: nat, severity: string, channel: string, provider: string,
                         time: Option<int>, recordId: string, message: string)

  function OrDefault(s: string, default: string): string { if s == "" then default else s }

  function Normalize(e: RawEvent): Option<Event> {
    if e.NotARecord? || e.eventId.None? || e.eventId.value < 0 then None
    else Some(Event(e.eventId.value, Take(OrDefault(Strip(e.severity), "Information"), MAX_SEVERITY),
                    OrDefault(Strip(e.channel), "System"), OrDefault(Strip(e.provider), "Unknown"),
                    e.time, e.recordId, Take(e.message, MAX_MESSAGE)))
  }

  /** Some entry of a report is normalised to this event. */
  ghost predicate Producible(e: Event) { exists r :: Normalize(r) == Some(e) }

  predicate Named(s: string) { s != "" && Trim(s) }

  lemma {:induction false} NamedOrDefault(s: string, default: string)
    requires Named(default)
    ensures Named(OrDefault(Strip(s), default))
  {
    hide Strip;
    StripFacts(s);
  }

  lemma {:induction false} DefaultNames()
    ensures Named("System") && Named("Unknown")
  {
  }

  lemma {:induction false} ProducibleNames(e: Event)
    requires Producible(e)
    ensures Named(e.channel) && Named(e.provider)
  {
    hide Named, OrDefault, Strip, Take;
    var r :| Normalize(r) == Some(e);
    DefaultNames();
    NamedOrDefault(r.channel, "System");
    NamedOrDefault(r.provider, "Unknown");
  }

  lemma {:induction false} ProducibleWith(e: Event, channel: string, provider: string, recordId: string)
    requires Producible(e) && Named(channel) && Named(provider)
    ensures Producible(e.(channel := channel, provider := provider, recordId := recordId))
  {
    var r :| Normalize(r) == Some(e);
    StripOfTrim(channel);
    StripOfTrim(provider);
    assert Normalize(r.(channel := channel, provider := provider, recordId := recordId)) ==
           Some(e.(channel := channel, provider := provider, recordId := recordId));
  }

  /** The digest and the printed time that make the identity of an event, and the folding (strip and
      lower-case) of a severity. */
  datatype Rules = Rules(digest: string -> string, show: Option<int> -> string, fold: string -> string)

  function Barred(a: string, b: string, c: string): string { a + ['|'] + (b + ['|'] + c) }

  function Middle(e: Event): string { Barred(e.channel, e.provider, e.recordId) }

  /** The text whose digest identifies an event of an asset. */
  function Raw(rules: Rules, asset: string, e: Event): string {
    asset + ['|'] + (Middle(e) + ['|'] + rules.show(e.time))
  }

  function Key(rules: Rules, asset: string, e: Event): string { rules.digest(Raw(rules, asset, e)) }

  function AnalysisPriority(rules: Rules, e: Event): nat {
    match rules.fold(e.severity)
    case "critical" => 3
    case "error" => 2
    case "warning" => 1
    case _ => 0
  }

  datatype Row = Row(asset: string, key: string, event: Event)

  // ----- identity -----

  predicate BarFree(rules: Rules, asset: string, e: Event) {
    '|' !in asset && '|' !in e.channel && '|' !in e.provider && '|' !in e.recordId && '|' !in rules.show(e.time)
  }

  ghost predicate Injective(digest: string -> string) { forall s, t :: digest(s) == digest(t) ==> s == t }

  predicate SameIdentity(rules: Rules, e: Event, f: Event) {
    e.channel == f.channel && e.provider == f.provider && e.recordId == f.recordId
        && rules.show(e.time) == rules.show(f.time)
  }

  lemma {:induction false} FirstField(a: string, x: string, b: string, y: string)
    requires '|' !in a && '|' !in b && a + ['|'] + x == b + ['|'] + y
    ensures a == b && x == y
  {
    SplitFirst(a, x, '|');
    SplitFirst(b, y, '|');
    assert Split(a + ['|'] + x, '|')[0] == a && Split(b + ['|'] + y, '|')[0] == b;
    assert (a + ['|'] + x)[|a| + 1..] == x && (b + ['|'] + y)[|b| + 1..] == y;
  }

  lemma {:induction false} LastBar(x: string, a: string)
    requires '|' !in a
    ensures var s := x + ['|'] + a; s[|x|] == '|' && forall i :: |x| < i < |s| ==> s[i] != '|'
  {
    var s := x + ['|'] + a;
    forall i | |x| < i < |s| ensures s[i] != '|' {
      assert s[i] == a[i - |x| - 1] && a[i - |x| - 1] in a;
    }
  }

  lemma {:induction false} LastField(x: string, a: string, y: string, b: string)
    requires '|' !in a && '|' !in b && x + ['|'] + a == y + ['|'] + b
    ensures x == y && a == b
  {
    LastBar(x, a);
    LastBar(y, b);
    var s := x + ['|'] + a;
    assert |x| == |y|;
    assert s[..|x|] == x && s[|x| + 1..] == a;
    assert (y + ['|'] + b)[..|y|] == y && (y + ['|'] + b)[|y| + 1..] == b;
  }

  function Bars(s: string): nat { if s == "" then 0 else Bars(s[1..]) + if s[0] == '|' then 1 else 0 }

  lemma {:induction false} BarsConcat(s: string, t: string)
    ensures Bars(s + t) == Bars(s) + Bars(t)
  {
    if s == "" {
      assert s + t == t;
    } else {
      assert (s + t)[1..] == s[1..] + t;
      BarsConcat(s[1..], t);
    }
  }

  lemma {:induction false} NoBars(s: string)
    ensures Bars(s) == 0 <==> '|' !in s
  {
    if s != "" {
      NoBars(s[1..]);
      assert s == [s[0]] + s[1..];
    }
  }

  lemma {:induction false} BarsBetween(s: string, t: string)
    ensures Bars(s + ['|'] + t) == Bars(s) + 1 + Bars(t)
  {
    BarsConcat(s + ['|'], t);
    BarsConcat(s, ['|']);
    assert ['|'][1..] == "";
  }

  lemma {:induction false} BarsOfRaw(rules: Rules, asset: string, e: Event)
    ensures Bars(Raw(rules, asset, e)) >= 4
    ensures Bars(Raw(rules, asset, e)) == 4 <==> BarFree(rules, asset, e)
  {
    BarsBetween(asset, Middle(e) + ['|'] + rules.show(e.time));
    BarsBetween(Middle(e), rules.show(e.time));
    BarsBetween(e.channel, e.provider + ['|'] + e.recordId);
    BarsBetween(e.provider, e.recordId);
    NoBars(asset);
    NoBars(e.channel);
    NoBars(e.provider);
    NoBars(e.recordId);
    NoBars(rules.show(e.time));
  }

  /** An event without `|` in its fields shares its key with no other: for a collision-free digest, the
      keys of it and of any event of any asset agree exactly when asset, channel, provider, record id
      and printed time do, whatever the message, severity and event id. */
  lemma {:induction false} KeyIdentifies(rules: Rules, a: string, e: Event, b: string, f: Event)
    requires Injective(rules.digest) && BarFree(rules, a, e)
    ensures Key(rules, a, e) == Key(rules, b, f) <==> a == b && SameIdentity(rules, e, f)
  {
    if Key(rules, a, e) == Key(rules, b, f) {
      BarsOfRaw(rules, a, e);
      BarsOfRaw(rules, b, f);
      FirstField(a, Middle(e) + ['|'] + rules.show(e.time), b, Middle(f) + ['|'] + rules.show(f.time));
      LastField(Middle(e), rules.show(e.time), Middle(f), rules.show(f.time));
      FirstField(e.channel, e.provider + ['|'] + e.recordId, f.channel, f.provider + ['|'] + f.recordId);
      FirstField(e.provider, e.recordId, f.provider, f.recordId);
    }
  }

  // ----- which events can be confused -----

  predicate BarAt(s: string, i: int) { 0 <= i < |s| && s[i] == '|' }

  /** No blank right before or right after position `i`; outside the text there is none. */
  predicate ClearBefore(s: string, i: int) { 0 < i <= |s| ==> !Blank(s[i - 1]) }

  predicate ClearAfter(s: string, i: int) { 0 <= i < |s| - 1 ==> !Blank(s[i + 1]) }

  predicate SplitsRecord(e: Event, i: int) { BarAt(e.recordId, i) && ClearBefore(e.recordId, i) }

  predicate EndsProvider(e: Event, i: int) { BarAt(e.provider, i) && i > 0 && ClearBefore(e.provider, i) }

  predicate StartsProvider(e: Event, i: int) {
    BarAt(e.provider, i) && i < |e.provider| - 1 && ClearBefore(e.provider, i) && ClearAfter(e.provider, i)
  }

  predicate SplitsChannel(e: Event, i: int) {
    BarAt(e.channel, i) && i > 0 && ClearBefore(e.channel, i) && ClearAfter(e.channel, i)
  }

  /** One of the two cuts between channel, provider and record id can move to another `|` without
      leaving an empty or blank-edged channel or provider. */
  ghost predicate Movable(e: Event) {
    || (exists i :: SplitsRecord(e, i))
    || (exists i :: EndsProvider(e, i))
    || (exists i :: StartsProvider(e, i))
    || (exists i :: SplitsChannel(e, i))
  }

  /** `f` is an event of some report that the key of the asset does not tell from `e`. */
  ghost predicate Confused(rules: Rules, asset: string, e: Event, f: Event) {
    Producible(f) && Key(rules, asset, f) == Key(rules, asset, e) && !SameIdentity(rules, e, f)
  }

  lemma {:induction false} Regroup(a: string, b: string, c: string, d: string)
    ensures Barred(a, b + ['|'] + c, d) == Barred(a, b, c + ['|'] + d)
    ensures Barred(a + ['|'] + b, c, d) == Barred(a, b + ['|'] + c, d)
  {
    assert b + ['|'] + c + ['|'] + d == b + ['|'] + (c + ['|'] + d);
    assert a + ['|'] + b + ['|'] + (c + ['|'] + d) == a + ['|'] + (b + ['|'] + c + ['|'] + d);
  }

  /** A pair that shares a key: the same text, cut in two ways. */
  lemma {:induction false} BarsConfuseKeys(rules: Rules, asset: string, e: Event)
    ensures var f, g := e.(channel := "x|y", provider := "z"), e.(channel := "x", provider := "y|z");
            Key(rules, asset, f) == Key(rules, asset, g) && !SameIdentity(rules, f, g)
  {
    Regroup("x", "y", "z", e.recordId);
    assert "x" + ['|'] + "y" == "x|y" && "y" + ['|'] + "z" == "y|z" && |"x|y"| != |"x"|;
  }

  lemma {:induction false} Bar(s: string, i: int)
    requires BarAt(s, i)
    ensures s == s[..i] + ['|'] + s[i + 1..]
  {
  }

  lemma {:induction false} NamedEnds(s: string, t: string)
    ensures Named(s) && (t == "" || !Blank(t[|t| - 1])) ==> Named(s + ['|'] + t)
    ensures Named(t) && (s == "" || !Blank(s[0])) ==> Named(s + ['|'] + t)
  {
  }

  lemma {:induction false} NamedPart(s: string, i: int)
    requires Named(s) && BarAt(s, i)
    ensures i > 0 && ClearBefore(s, i) ==> Named(s[..i])
    ensures i < |s| - 1 && ClearAfter(s, i) ==> Named(s[i + 1..])
  {
  }

  lemma {:induction false} Reading(rules: Rules, asset: string, e: Event, channel: string, provider: string,
      recordId: string)
    returns (f: Event)
    requires Producible(e) && Named(channel) && Named(provider) && Barred(channel, provider, recordId) == Middle(e)
    requires |channel| != |e.channel| || |provider| != |e.provider|
    ensures Confused(rules, asset, e, f)
  {
    f := e.(channel := channel, provider := provider, recordId := recordId);
    ProducibleWith(e, channel, provider, recordId);
  }

  lemma {:induction false} RecordMoves(rules: Rules, asset: string, e: Event, i: int) returns (f: Event)
    requires Producible(e) && SplitsRecord(e, i)
    ensures Confused(rules, asset, e, f)
  {
    var x, y := e.recordId[..i], e.recordId[i + 1..];
    ProducibleNames(e);
    Bar(e.recordId, i);
    Regroup(e.channel, e.provider, x, y);
    NamedEnds(e.provider, x);
    f := Reading(rules, asset, e, e.channel, e.provider + ['|'] + x, y);
  }

  lemma {:induction false} ProviderEndMoves(rules: Rules, asset: string, e: Event, i: int) returns (f: Event)
    requires Producible(e) && EndsProvider(e, i)
    ensures Confused(rules, asset, e, f)
  {
    var x, y := e.provider[..i], e.provider[i + 1..];
    ProducibleNames(e);
    Bar(e.provider, i);
    Regroup(e.channel, x, y, e.recordId);
    NamedPart(e.provider, i);
    f := Reading(rules, asset, e, e.channel, x, y + ['|'] + e.recordId);
  }

  lemma {:induction false} ProviderStartMoves(rules: Rules, asset: string, e: Event, i: int) returns (f: Event)
    requires Producible(e) && StartsProvider(e, i)
    ensures Confused(rules, asset, e, f)
  {
    var x, y := e.provider[..i], e.provider[i + 1..];
    ProducibleNames(e);
    Bar(e.provider, i);
    Regroup(e.channel, x, y, e.recordId);
    NamedPart(e.provider, i);
    NamedEnds(e.channel, x);
    f := Reading(rules, asset, e, e.channel + ['|'] + x, y, e.recordId);
  }

  lemma {:induction false} ChannelMoves(rules: Rules, asset: string, e: Event, i: int) returns (f: Event)
    requires Producible(e) && SplitsChannel(e, i)
    ensures Confused(rules, asset, e, f)
  {
    var x, y := e.channel[..i], e.channel[i + 1..];
    ProducibleNames(e);
    Bar(e.channel, i);
    Regroup(x, y, e.provider, e.recordId);
    NamedPart(e.channel, i);
    NamedEnds(y, e.provider);
    f := Reading(rules, asset, e, x, y + ['|'] + e.provider, e.recordId);
  }

  /** Where the two cuts of `f` fall in the text it shares with `e`. */
  lemma {:induction false} OtherCuts(e: Event, f: Event)
    requires Middle(e) == Middle(f) && Named(f.channel) && Named(f.provider)
    requires e.channel != f.channel || e.provider != f.provider || e.recordId != f.recordId
    ensures Movable(e)
  {
    var k, l := |e.channel|, |e.channel| + 1 + |e.provider|;
    var k', l' := |f.channel|, |f.channel| + 1 + |f.provider|;
    if k' == k && l' == l {
      SameCuts(e, f);
    } else if l' >= k + 2 && l' != l {
      SecondCutMoved(e, f);
    } else {
      FirstCutMoved(e, f);
    }
  }

  lemma {:induction false} SameCuts(e: Event, f: Event)
    requires Middle(e) == Middle(f) && |e.channel| == |f.channel| && |e.provider| == |f.provider|
    ensures e.channel == f.channel && e.provider == f.provider && e.recordId == f.recordId
  {
    var m, k, l := Middle(e), |e.channel|, |e.channel| + 1 + |e.provider|;
    assert m[..k] == e.channel && m[k + 1..l] == e.provider && m[l + 1..] == e.recordId;
    assert Middle(f)[..k] == f.channel && Middle(f)[k + 1..l] == f.provider && Middle(f)[l + 1..] == f.recordId;
  }

  lemma {:induction false} SecondCutMoved(e: Event, f: Event)
    requires Middle(e) == Middle(f) && Named(f.channel) && Named(f.provider)
    requires |f.channel| + 1 + |f.provider| >= |e.channel| + 2
    requires |f.channel| + |f.provider| != |e.channel| + |e.provider|
    ensures Movable(e)
  {
    var k, l, l' := |e.channel|, |e.channel| + 1 + |e.provider|, |f.channel| + 1 + |f.provider|;
    assert Middle(f)[l'] == '|' && Middle(f)[l' - 1] == f.provider[|f.provider| - 1];
    if l' > l {
      assert SplitsRecord(e, l' - l - 1);
    } else {
      assert EndsProvider(e, l' - k - 1);
    }
  }

  lemma {:induction false} FirstCutMoved(e: Event, f: Event)
    requires Middle(e) == Middle(f) && Named(f.channel) && Named(f.provider) && |f.channel| != |e.channel|
    requires |f.channel| + |f.provider| == |e.channel| + |e.provider| || |f.channel| + |f.provider| <= |e.channel|
    ensures Movable(e)
  {
    var k, k' := |e.channel|, |f.channel|;
    assert Middle(f)[k'] == '|' && Middle(f)[k' - 1] == f.channel[k' - 1] && Middle(f)[k' + 1] == f.provider[0];
    if k' > k {
      assert StartsProvider(e, k' - k - 1);
    } else {
      assert SplitsChannel(e, k');
    }
  }

  /** Exactly which events can be confused: with a collision-free digest and no `|` in asset and printed
      times, another event of some report has the same key and another identity if and only if a cut of
      this one can move. */
  lemma {:induction false} ConfusedIff(rules: Rules, asset: string, e: Event)
    requires Injective(rules.digest) && '|' !in asset && (forall t :: '|' !in rules.show(t)) && Producible(e)
    ensures (exists f :: Confused(rules, asset, e, f)) <==> Movable(e)
  {
    if Movable(e) {
      var f;
      if i :| SplitsRecord(e, i) {
        f := RecordMoves(rules, asset, e, i);
      } else if i :| EndsProvider(e, i) {
        f := ProviderEndMoves(rules, asset, e, i);
      } else if i :| StartsProvider(e, i) {
        f := ProviderStartMoves(rules, asset, e, i);
      } else {
        var i :| SplitsChannel(e, i);
        f := ChannelMoves(rules, asset, e, i);
      }
    }
    if f :| Confused(rules, asset, e, f) {
      FirstField(asset, Middle(e) + ['|'] + rules.show(e.time), asset, Middle(f) + ['|'] + rules.show(f.time));
      LastField(Middle(e), rules.show(e.time), Middle(f), rules.show(f.time));
      ProducibleNames(f);
      OtherCuts(e, f);
    }
  }

  // ----- what a report amounts to -----

  function Usable(events: seq<RawEvent>): seq<Event> {
    if events == [] then []
    else
      var n := Normalize(events[|events| - 1]);
      Usable(events[..|events| - 1]) + if n.Some? then [n.value] else []
  }

  /** The keys already stored for the asset. */
  function StoredKeys(rows: seq<Row>, asset: string): set<string> {
    set r | r in rows && r.asset == asset :: r.key
  }

  /** The rows for the events whose key is not among the known ones. */
  function RowsFor(rules: Rules, asset: string, events: seq<Event>, known: set<string>): seq<Row> {
    if events == [] then []
    else
      var e := events[|events| - 1];
      RowsFor(rules, asset, events[..|events| - 1], known) +
      if Key(rules, asset, e) in known then [] else [Row(asset, Key(rules, asset, e), e)]
  }

  /** What importing the report adds to `rows` when the dedup lookup succeeds. */
  function NewRows(rules: Rules, rows: seq<Row>, asset: string, events: seq<RawEvent>): seq<Row> {
    RowsFor(rules, asset, Usable(events), StoredKeys(rows, asset))
  }

  function Priority(rules: Rules, r: Row): nat { AnalysisPriority(rules, r.event) }

  function MoreUrgent(rules: Rules): (Row, Row) -> bool { (a, b) => Priority(rules, a) >= Priority(rules, b) }

  /** The new rows picked for analysis. */
  function Candidates(rules: Rules, added: seq<Row>, max: nat): seq<Row> {
    Take(Sort(added, MoreUrgent(rules)), max)
  }

  // ----- facts about the new rows -----

  lemma {:induction false} RowsForCount(rules: Rules, asset: string, events: seq<Event>, known: set<string>)
    ensures |RowsFor(rules, asset, events, known)| <= |events|
    ensures forall r :: r in RowsFor(rules, asset, events, known) ==> r.asset == asset && r.key !in known
  {
    if events != [] {
      RowsForCount(rules, asset, events[..|events| - 1], known);
    }
  }

  lemma {:induction false} RowsForMembers(rules: Rules, asset: string, events: seq<Event>, known: set<string>, e: Event)
    requires e in events
    ensures Key(rules, asset, e) in known || Row(asset, Key(rules, asset, e), e) in RowsFor(rules, asset, events, known)
  {
    var init, last := events[..|events| - 1], events[|events| - 1];
    assert events == init + [last];
    if e in init {
      RowsForMembers(rules, asset, init, known, e);
    }
  }

  /** Nothing is new exactly when every usable event is known. */
  lemma {:induction false} NothingNewIff(rules: Rules, asset: string, events: seq<Event>, known: set<string>)
    ensures RowsFor(rules, asset, events, known) == [] <==> forall e :: e in events ==> Key(rules, asset, e) in known
  {
    if events != [] {
      var init, last := events[..|events| - 1], events[|events| - 1];
      assert events == init + [last];
      NothingNewIff(rules, asset, init, known);
      assert forall e :: e in events <==> e in init || e == last;
    }
  }

  /** Idempotence: once a report was imported, importing it again for the same asset adds nothing, at
      any later time, whatever was imported in between. */
  lemma {:induction false} ReimportAddsNothing(rules: Rules, rows: seq<Row>, asset: string, events: seq<RawEvent>,
      later: seq<Row>)
    ensures NewRows(rules, rows + NewRows(rules, rows, asset, events) + later, asset, events) == []
  {
    var added := NewRows(rules, rows, asset, events);
    var all := rows + added + later;
    NothingNewIff(rules, asset, Usable(events), StoredKeys(all, asset));
    forall e | e in Usable(events) ensures Key(rules, asset, e) in StoredKeys(all, asset) {
      RowsForMembers(rules, asset, Usable(events), StoredKeys(rows, asset), e);
      if Key(rules, asset, e) in StoredKeys(rows, asset) {
        var r :| r in rows && r.asset == asset && r.key == Key(rules, asset, e);
        assert r in all;
      } else {
        var r := Row(asset, Key(rules, asset, e), e);
        assert r in added && r in all;
      }
    }
  }

  ghost predicate KeysUnique(rows: seq<Row>) {
    forall i, j :: 0 <= i < j < |rows| && rows[i].asset == rows[j].asset ==> rows[i].key != rows[j].key
  }

  /** Two events share a key that is not stored yet. */
  ghost predicate Repeats(rules: Rules, asset: string, es: seq<Event>, known: set<string>) {
    exists i, j :: 0 <= i < j < |es| && Key(rules, asset, es[i]) == Key(rules, asset, es[j])
        && Key(rules, asset, es[i]) !in known
  }

  ghost predicate HasKey(rows: seq<Row>, key: string) { exists r :: r in rows && r.key == key }

  lemma {:induction false} KeysUniqueNext(rows: seq<Row>, r: Row)
    requires forall q :: q in rows ==> q.asset == r.asset
    ensures KeysUnique(rows + [r]) <==> KeysUnique(rows) && !HasKey(rows, r.key)
  {
    var all := rows + [r];
    if KeysUnique(all) {
      forall i, j | 0 <= i < j < |rows| && rows[i].asset == rows[j].asset ensures rows[i].key != rows[j].key {
        assert all[i] == rows[i] && all[j] == rows[j];
      }
      forall q | q in rows ensures q.key != r.key {
        var i :| 0 <= i < |rows| && rows[i] == q;
        assert all[i] == q && all[|rows|] == r;
      }
    }
    if KeysUnique(rows) && !HasKey(rows, r.key) {
      forall i, j | 0 <= i < j < |all| && all[i].asset == all[j].asset ensures all[i].key != all[j].key {
        assert all[i] in rows;
      }
    }
  }

  ghost predicate OccursIn(rules: Rules, asset: string, es: seq<Event>, key: string) {
    exists i :: 0 <= i < |es| && Key(rules, asset, es[i]) == key
  }

  lemma {:induction false} RowKeys(rules: Rules, asset: string, es: seq<Event>, known: set<string>, key: string)
    requires key !in known
    ensures HasKey(RowsFor(rules, asset, es, known), key) <==> OccursIn(rules, asset, es, key)
  {
    if es != [] {
      var init, last := es[..|es| - 1], es[|es| - 1];
      RowKeys(rules, asset, init, known, key);
      var before, rows := RowsFor(rules, asset, init, known), RowsFor(rules, asset, es, known);
      if HasKey(before, key) {
        var r :| r in before && r.key == key;
        assert r in rows;
        var i :| 0 <= i < |init| && Key(rules, asset, init[i]) == key;
        assert es[i] == init[i];
      } else if Key(rules, asset, last) == key {
        assert rows[|rows| - 1] in rows;
      } else {
        forall i | 0 <= i < |es| ensures Key(rules, asset, es[i]) != key {
          assert i < |init| ==> es[i] == init[i];
        }
        assert forall r :: r in rows ==> r in before || r.key == Key(rules, asset, last);
      }
    }
  }

  lemma {:induction false} RepeatsNext(rules: Rules, asset: string, init: seq<Event>, last: Event, known: set<string>)
    ensures Repeats(rules, asset, init + [last], known) <==>
              || Repeats(rules, asset, init, known)
              || (Key(rules, asset, last) !in known && OccursIn(rules, asset, init, Key(rules, asset, last)))
  {
    var es := init + [last];
    if Repeats(rules, asset, es, known) {
      var i, j :| 0 <= i < j < |es| && Key(rules, asset, es[i]) == Key(rules, asset, es[j])
          && Key(rules, asset, es[i]) !in known;
      assert es[i] == init[i];
      assert j < |init| ==> es[j] == init[j];
    }
    if Repeats(rules, asset, init, known) {
      var i, j :| 0 <= i < j < |init| && Key(rules, asset, init[i]) == Key(rules, asset, init[j])
          && Key(rules, asset, init[i]) !in known;
      assert es[i] == init[i] && es[j] == init[j];
    }
    if Key(rules, asset, last) !in known && OccursIn(rules, asset, init, Key(rules, asset, last)) {
      var i :| 0 <= i < |init| && Key(rules, asset, init[i]) == Key(rules, asset, last);
      assert es[i] == init[i] && es[|init|] == last;
    }
  }

  /** The new rows have different keys exactly when no key that is not stored occurs twice. */
  lemma {:induction false} RowsUniqueIff(rules: Rules, asset: string, es: seq<Event>, known: set<string>)
    ensures KeysUnique(RowsFor(rules, asset, es, known)) <==> !Repeats(rules, asset, es, known)
  {
    if es != [] {
      var init, last := es[..|es| - 1], es[|es| - 1];
      assert es == init + [last];
      RowsUniqueIff(rules, asset, init, known);
      RepeatsNext(rules, asset, init, last, known);
      var key, rows := Key(rules, asset, last), RowsFor(rules, asset, init, known);
      if key in known {
        assert RowsFor(rules, asset, es, known) == rows;
      } else {
        RowsForCount(rules, asset, init, known);
        RowKeys(rules, asset, init, known, key);
        KeysUniqueNext(rows, Row(asset, key, last));
      }
    }
  }

  /** Stored keys stay unique if and only if no two usable entries of the report share a key that is not
      stored yet: repeats inside one report are not recognised. */
  lemma {:induction false} KeysStayUniqueIff(rules: Rules, rows: seq<Row>, asset: string, events: seq<RawEvent>)
    requires KeysUnique(rows)
    ensures KeysUnique(rows + NewRows(rules, rows, asset, events)) <==>
              !Repeats(rules, asset, Usable(events), StoredKeys(rows, asset))
  {
    var added := NewRows(rules, rows, asset, events);
    var all := rows + added;
    RowsForCount(rules, asset, Usable(events), StoredKeys(rows, asset));
    RowsUniqueIff(rules, asset, Usable(events), StoredKeys(rows, asset));
    if KeysUnique(added) {
      forall i, j | 0 <= i < j < |all| && all[i].asset == all[j].asset ensures all[i].key != all[j].key {
        if i < |rows| <= j {
          assert all[j] in added && rows[i] in rows;
        } else if i >= |rows| {
          assert all[i] == added[i - |rows|] && all[j] == added[j - |rows|];
        }
      }
    }
    if KeysUnique(all) {
      forall i, j | 0 <= i < j < |added| && added[i].asset == added[j].asset ensures added[i].key != added[j].key {
        assert all[|rows| + i] == added[i] && all[|rows| + j] == added[j];
      }
    }
  }

  lemma {:induction false} UsableNext(events: seq<RawEvent>, r: RawEvent)
    requires Normalize(r).Some?
    ensures Usable(events + [r]) == Usable(events) + [Normalize(r).value]
  {
    assert (events + [r])[..|events|] == events;
  }

  lemma {:induction false} RowsNext(rules: Rules, asset: string, es: seq<Event>, e: Event, known: set<string>)
    requires Key(rules, asset, e) !in known
    ensures RowsFor(rules, asset, es + [e], known) == RowsFor(rules, asset, es, known)
        + [Row(asset, Key(rules, asset, e), e)]
  {
    assert (es + [e])[..|es|] == es;
  }

  /** A report that lists one usable entry twice stores its key twice. */
  lemma {:induction false} ListedTwiceStoredTwice(rules: Rules, asset: string, r: RawEvent)
    requires Normalize(r).Some?
    ensures var row := Row(asset, Key(rules, asset, Normalize(r).value), Normalize(r).value);
            NewRows(rules, [], asset, [r, r]) == [row, row] && !KeysUnique([row, row])
  {
    var e := Normalize(r).value;
    UsableNext([], r);
    UsableNext([] + [r], r);
    assert [r, r] == [] + [r] + [r];
    RowsNext(rules, asset, [], e, {});
    RowsNext(rules, asset, [] + [e], e, {});
    assert StoredKeys([], asset) == {};
    var row := Row(asset, Key(rules, asset, e), e);
    assert [row, row][0].key == [row, row][1].key;
  }

  lemma {:induction false} UrgencyOrder(rules: Rules)
    ensures TotalPreorder(MoreUrgent(rules))
  {
  }

  /** Most severe first: no new event outside the candidates outranks one inside, and equally severe
      events keep the order of the report. */
  lemma {:induction false} NoSkippedEventOutranks(rules: Rules, added: seq<Row>, max: nat, c: nat, s: nat)
    requires c < max <= s < |added|
    ensures |Candidates(rules, added, max)| == max && |Sort(added, MoreUrgent(rules))| == |added|
    ensures multiset(Sort(added, MoreUrgent(rules))) == multiset(added)
    ensures Priority(rules, Candidates(rules, added, max)[c]) >= Priority(rules, Sort(added, MoreUrgent(rules))[s])
    ensures Ties(Sort(added, MoreUrgent(rules)), added[s], MoreUrgent(rules)) ==
        Ties(added, added[s], MoreUrgent(rules))
  {
    UrgencyOrder(rules);
    SortFacts(added, MoreUrgent(rules));
    SortStable(added, added[s], MoreUrgent(rules));
    var sorted := Sort(added, MoreUrgent(rules));
    assert MoreUrgent(rules)(sorted[c], sorted[s]);
  }

  // ----- the ingestion -----

  class Database {
    var rows: seq<Row>
    var history: seq<string>   // dedup keys of the analysed events

    constructor ()
      ensures rows == [] && history == []
    {
      rows, history := [], [];
    }
  }

  /** What may go wrong outside: the dedup lookup, the transaction, the lookup of analysed keys, and
      each single analysis. */
  datatype Weather = Weather(lookup: bool, commits: bool, analysedLookup: bool, analysis: nat -> bool)

  /** The keys the dedup lookup returns, and those the lookup of earlier analyses returns; a failed
      lookup returns none. */
  function Known(w: Weather, rows: seq<Row>, asset: string): set<string> {
    if w.lookup then StoredKeys(rows, asset) else {}
  }

  function Done(w: Weather, history: seq<string>): set<string> { if w.analysedLookup then set k | k in history else {} }

  datatype Result = Result(received: nat, added: nat, duplicate: nat, failed: nat, analyzed: nat, analysisFailed: nat)

  function EffectiveMax(max: int): nat { if max < 0 then DEFAULT_ANALYZE_MAX else max }

  /** The keys that the analysis of the first `n` candidates adds to the history: those not analysed
      before whose analysis succeeds. */
  function AnalysedKeys(cs: seq<Row>, done: set<string>, ok: nat -> bool, n: nat): seq<string>
    requires n <= |cs|
  {
    if n == 0 then []
    else AnalysedKeys(cs, done, ok, n - 1) + if cs[n - 1].key !in done && ok(n - 1) then [cs[n - 1].key] else []
  }

  /** How many of the first `n` candidates had no analysis before. */
  function Unanalysed(cs: seq<Row>, done: set<string>, n: nat): nat
    requires n <= |cs|
  {
    if n == 0 then 0 else Unanalysed(cs, done, n - 1) + if cs[n - 1].key !in done then 1 else 0
  }

  lemma {:induction false} UsableCount(events: seq<RawEvent>)
    ensures |Usable(events)| <= |events|
  {
    if events != [] {
      UsableCount(events[..|events| - 1]);
    }
  }

  /** Ingests a report; `events` is absent when the report carries no event list.  Every entry is
      counted once, committed rows are never taken back, and at most the cap of the new events is
      analysed. */
  method IngestReportEvents(rules: Rules, db: Database, asset: string, events: Option<seq<RawEvent>>, analyzeMax: int,
      w: Weather)
    returns (result: Result)
    modifies db
    ensures events.None? ==> result == Result(0, 0, 0, 0, 0, 0)
    ensures events.Some? ==> result.received == |events.value|
    ensures result.received == result.added + result.duplicate + result.failed
    ensures events.Some? ==>
              var added := RowsFor(rules, asset, Usable(events.value), Known(w, old(db.rows), asset));
              var stored := if w.commits then added else [];
              && db.rows == old(db.rows) + stored && result.added == |stored|
              && result.duplicate == |Usable(events.value)| - |added|
    ensures events.None? || !w.commits ==> db.rows == old(db.rows) && db.history == old(db.history)
    ensures result.analyzed + result.analysisFailed <= EffectiveMax(analyzeMax)
    ensures result.analyzed + result.analysisFailed <= result.added
    ensures events.Some? && w.commits ==>
              var added := RowsFor(rules, asset, Usable(events.value), Known(w, old(db.rows), asset));
              var cs := Candidates(rules, added, EffectiveMax(analyzeMax));
              var analysed := AnalysedKeys(cs, Done(w, old(db.history)), w.analysis, |cs|);
              && db.history == old(db.history) + analysed && result.analyzed == |analysed|
              && result.analyzed + result.analysisFailed == Unanalysed(cs, Done(w, old(db.history)), |cs|)
  {
    result := Result(0, 0, 0, 0, 0, 0);
    if events.None? {
      return;
    }
    var usable, failed := NormalizeAll(events.value);
    UsableCount(events.value);
    var existing := Known(w, db.rows, asset);
    var added, duplicate := Partition(rules, asset, usable, existing);
    result := Result(|events.value|, |added|, duplicate, failed, 0, 0);
    if added == [] {
      CandidatesOfNone(rules, EffectiveMax(analyzeMax));
      return;
    }
    if !w.commits {
      return result.(failed := failed + |added|, added := 0);
    }
    db.rows := db.rows + added;
    var candidates := Candidates(rules, added, EffectiveMax(analyzeMax));
    CandidatesSize(rules, added, EffectiveMax(analyzeMax));
    var analyzed, analysisFailed := Analyse(db, candidates, Done(w, db.history), w.analysis);
    result := result.(analyzed := analyzed, analysisFailed := analysisFailed);
  }

  lemma {:induction false} CandidatesOfNone(rules: Rules, max: nat)
    ensures Candidates(rules, [], max) == []
  {
  }

  /** Drops what is structurally unusable and counts it. */
  method NormalizeAll(events: seq<RawEvent>) returns (usable: seq<Event>, failed: nat)
    ensures usable == Usable(events) && failed + |usable| == |events|
  {
    usable, failed := [], 0;
    for i := 0 to |events|
      invariant usable == Usable(events[..i]) && failed + |usable| == i
    {
      assert events[..i + 1][..i] == events[..i];
      var clean := Normalize(events[i]);
      if clean.None? {
        failed := failed + 1;
        continue;
      }
      usable := usable + [clean.value];
    }
    assert events[..|events|] == events;
  }

  /** Splits the usable events into new rows and duplicates. */
  method Partition(rules: Rules, asset: string, usable: seq<Event>, existing: set<string>)
    returns (added: seq<Row>, duplicate: nat)
    ensures added == RowsFor(rules, asset, usable, existing) && duplicate + |added| == |usable|
  {
    added, duplicate := [], 0;
    for i := 0 to |usable|
      invariant added == RowsFor(rules, asset, usable[..i], existing) && duplicate + |added| == i
    {
      assert usable[..i + 1][..i] == usable[..i];
      var key := Key(rules, asset, usable[i]);
      if key in existing {
        duplicate := duplicate + 1;
        continue;
      }
      added := added + [Row(asset, key, usable[i])];
    }
    assert usable[..|usable|] == usable;
  }

  lemma {:induction false} CandidatesSize(rules: Rules, added: seq<Row>, max: nat)
    ensures |Candidates(rules, added, max)| <= max && |Candidates(rules, added, max)| <= |added|
  {
    UrgencyOrder(rules);
    SortFacts(added, MoreUrgent(rules));
  }

  /** Analyses the candidates that have no analysis yet; a failure only counts. */
  method Analyse(db: Database, candidates: seq<Row>, done: set<string>, ok: nat -> bool)
    returns (analyzed: nat, failed: nat)
    modifies db`history
    ensures db.history == old(db.history) + AnalysedKeys(candidates, done, ok, |candidates|)
    ensures analyzed == |AnalysedKeys(candidates, done, ok, |candidates|)|
    ensures analyzed + failed == Unanalysed(candidates, done, |candidates|) <= |candidates|
  {
    analyzed, failed := 0, 0;
    for i := 0 to |candidates|
      invariant analyzed + failed == Unanalysed(candidates, done, i) <= i
      invariant db.history == old(db.history) + AnalysedKeys(candidates, done, ok, i)
      invariant analyzed == |AnalysedKeys(candidates, done, ok, i)|
    {
      if candidates[i].key in done {
        continue;
      }
      if ok(i) {
        db.history := db.history + [candidates[i].key];
        analyzed := analyzed + 1;
      } else {
        failed := failed + 1;
      }
    }
  }
}
