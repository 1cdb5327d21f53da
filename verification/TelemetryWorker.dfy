/** The consumer that drains the telemetry stream in batches, as one undisturbed pass of its loop. */
module TelemetryWorker {
  import AssetJournal
  import opened TelemetryStream
  import opened FailedLogins

  /** A source address that passed the failure limit, with the agent whose entry showed it. */
  datatype Alert = Alert(fingerprint: string, ip: string, count: nat)

  const FAILED_LOGON := 4625

  predicate IsFailedLogin(e: Entry) {
    e.eventType.Winlog? && e.payload.Usable? && e.payload.eventId == FAILED_LOGON && e.payload.sourceIp != ""
  }

  // ----- what a batch amounts to -----

  datatype Scan = Scan(metrics: seq<Row>, winlogs: seq<Row>, alerts: seq<Alert>, store: Store, raised: bool)

  function ScanEntry(sc: Scan, e: Entry, now: int): Scan {
    if sc.raised then sc
    else
      match Classify(e)
      case Skip => sc
      case Raise => sc.(raised := true)
      case Emit(row) =>
        if e.eventType.Heartbeat? then sc.(metrics := sc.metrics + [row])
        else
          var sc' := sc.(winlogs := sc.winlogs + [row]);
          if !IsFailedLogin(e) then sc'
          else
            var ip := e.payload.sourceIp;
            var n := Count(Lookup(sc.store, ip), now);
            sc'.(store := RecordFailure(sc.store, Failure(ip, Hit(now, false))),
                 alerts := sc.alerts + if n > MAX_FAILURES then [Alert(e.fingerprint, ip, n)] else [])
  }

  /** Entry `i` is looked at at time `clock[i]`. */
  function ScanBatch(es: seq<Entry>, clock: seq<int>, store: Store): Scan
    requires |es| <= |clock|
  {
    if es == [] then Scan([], [], [], store, false)
    else ScanEntry(ScanBatch(es[..|es| - 1], clock, store), es[|es| - 1], clock[|es| - 1])
  }

  function OfType(rows: seq<Row>, t: EventType): seq<Row> {
    if rows == [] then []
    else OfType(rows[..|rows| - 1], t) + if rows[|rows| - 1].eventType == t then [rows[|rows| - 1]] else []
  }

  /** The failure an entry counts, if any. */
  function FailureIn(e: Entry, now: int): seq<Failure> {
    if IsFailedLogin(e) then [Failure(e.payload.sourceIp, Hit(now, false))] else []
  }

  /** The counted failures of a batch, in order. */
  function FailuresOf(es: seq<Entry>, clock: seq<int>): seq<Failure>
    requires |es| <= |clock|
  {
    if es == [] then []
    else FailuresOf(es[..|es| - 1], clock) + FailureIn(es[|es| - 1], clock[|es| - 1])
  }

  lemma {:induction false} OfTypeConcat(a: seq<Row>, b: seq<Row>, t: EventType)
    ensures OfType(a + b, t) == OfType(a, t) + OfType(b, t)
  {
    if b == [] {
      assert a + b == a;
    } else {
      OfTypeConcat(a, b[..|b| - 1], t);
      assert (a + b)[..|a + b| - 1] == a + b[..|b| - 1];
    }
  }

  lemma {:induction false} OfTypeSingle(r: Row, t: EventType)
    ensures OfType([r], t) == if r.eventType == t then [r] else []
  {
    assert [r][..0] == [];
  }

  lemma {:induction false} ScanRaises(es: seq<Entry>, clock: seq<int>, store: Store)
    requires |es| <= |clock|
    ensures ScanBatch(es, clock, store).raised == Raises(es)
  {
    if es != [] {
      var init, last := es[..|es| - 1], es[|es| - 1];
      ScanRaises(init, clock, store);
      if Raises(init) {
        var i :| 0 <= i < |init| && Classify(init[i]).Raise?;
        assert es[i] == init[i];
      }
      if Raises(es) {
        var i :| 0 <= i < |es| && Classify(es[i]).Raise?;
        assert i < |init| ==> init[i] == es[i];
      }
    }
  }

  lemma {:induction false} RowsOfSnoc(es: seq<Entry>, e: Entry, t: EventType)
    ensures OfType(RowsOf(es + [e]), t) == OfType(RowsOf(es), t) + RowIn(e, t)
  {
    assert (es + [e])[..|es|] == es;
    if Classify(e).Emit? {
      OfTypeConcat(RowsOf(es), [Classify(e).row], t);
      OfTypeSingle(Classify(e).row, t);
    } else {
      assert RowsOf(es) + [] == RowsOf(es);
    }
  }

  /** The rows one entry adds to the table for `t`. */
  function RowIn(e: Entry, t: EventType): seq<Row> {
    var o := Classify(e);
    if o.Emit? && o.row.eventType == t then [o.row] else []
  }

  lemma {:induction false} ScanEntryRows(sc: Scan, e: Entry, now: int)
    requires !ScanEntry(sc, e, now).raised
    ensures !sc.raised
    ensures ScanEntry(sc, e, now).metrics == sc.metrics + RowIn(e, Heartbeat)
    ensures ScanEntry(sc, e, now).winlogs == sc.winlogs + RowIn(e, Winlog)
  {
  }

  lemma {:induction false} ScanEntryExtendsRows(sc: Scan, init: seq<Entry>, last: Entry, now: int)
    requires !ScanEntry(sc, last, now).raised
    requires sc.metrics == OfType(RowsOf(init), Heartbeat) && sc.winlogs == OfType(RowsOf(init), Winlog)
    ensures ScanEntry(sc, last, now).metrics == OfType(RowsOf(init + [last]), Heartbeat)
    ensures ScanEntry(sc, last, now).winlogs == OfType(RowsOf(init + [last]), Winlog)
  {
    ScanEntryRows(sc, last, now);
    RowsOfSnoc(init, last, Heartbeat);
    RowsOfSnoc(init, last, Winlog);
  }

  lemma {:induction false} ScanRows(es: seq<Entry>, clock: seq<int>, store: Store)
    requires |es| <= |clock| && !ScanBatch(es, clock, store).raised
    ensures ScanBatch(es, clock, store).metrics == OfType(RowsOf(es), Heartbeat)
    ensures ScanBatch(es, clock, store).winlogs == OfType(RowsOf(es), Winlog)
  {
    if es != [] {
      var init, last := es[..|es| - 1], es[|es| - 1];
      assert es == init + [last];
      var sc := ScanBatch(init, clock, store);
      ScanEntryRows(sc, last, clock[|init|]);
      ScanRows(init, clock, store);
      ScanEntryExtendsRows(sc, init, last, clock[|init|]);
    }
  }

  lemma {:induction false} ScanEntryStore(sc: Scan, e: Entry, now: int)
    requires !ScanEntry(sc, e, now).raised
    ensures ScanEntry(sc, e, now).store == RecordAll(sc.store, FailureIn(e, now))
  {
    if IsFailedLogin(e) {
      var fs := FailureIn(e, now);
      assert fs[..|fs| - 1] == [];
    }
  }

  lemma {:induction false} RecordAllConcat(store: Store, a: seq<Failure>, b: seq<Failure>)
    ensures RecordAll(store, a + b) == RecordAll(RecordAll(store, a), b)
  {
    if b == [] {
      assert a + b == a;
    } else {
      RecordAllConcat(store, a, b[..|b| - 1]);
      assert (a + b)[..|a + b| - 1] == a + b[..|b| - 1];
    }
  }

  lemma {:induction false} ScanFailures(es: seq<Entry>, clock: seq<int>, store: Store)
    requires |es| <= |clock| && !ScanBatch(es, clock, store).raised
    ensures ScanBatch(es, clock, store).store == RecordAll(store, FailuresOf(es, clock))
  {
    if es != [] {
      var init, last := es[..|es| - 1], es[|es| - 1];
      ScanEntryStore(ScanBatch(init, clock, store), last, clock[|init|]);
      ScanEntryRows(ScanBatch(init, clock, store), last, clock[|init|]);
      ScanFailures(init, clock, store);
      RecordAllConcat(store, FailuresOf(init, clock), FailureIn(last, clock[|init|]));
    }
  }

  /** The entries looked at before the first one that raises. */
  function Reached(es: seq<Entry>): (r: seq<Entry>)
    ensures r <= es
  {
    if es == [] then []
    else
      var init := es[..|es| - 1];
      var r := Reached(init);
      if |r| < |init| || Classify(es[|es| - 1]).Raise? then r else es
  }

  lemma {:induction false} ReachedAll(es: seq<Entry>)
    ensures Reached(es) == es <==> !Raises(es)
  {
    if es != [] {
      var init, last := es[..|es| - 1], es[|es| - 1];
      ReachedAll(init);
      if Raises(init) {
        var i :| 0 <= i < |init| && Classify(init[i]).Raise?;
        assert es[i] == init[i];
      } else {
        assert forall i :: 0 <= i < |init| ==> es[i] == init[i];
        assert Reached(init) == init;
      }
    }
  }

  /** The counters keep what was counted before an entry raised. */
  lemma {:induction false} ScanCounts(es: seq<Entry>, clock: seq<int>, store: Store)
    requires |es| <= |clock|
    ensures ScanBatch(es, clock, store).store == RecordAll(store, FailuresOf(Reached(es), clock))
  {
    ReachedAll(es);
    ScanRaises(es, clock, store);
    if !Raises(es) {
      ScanFailures(es, clock, store);
    } else {
      var init, last := es[..|es| - 1], es[|es| - 1];
      ScanCounts(init, clock, store);
      ScanRaises(init, clock, store);
      ReachedAll(init);
    }
  }

  /** The scan stops exactly at an entry that raises, keeping the failures counted until then; a finished
      scan holds the rows the protocol commits, by table. */
  lemma {:induction false} ScanMeaning(es: seq<Entry>, clock: seq<int>, store: Store)
    requires |es| <= |clock|
    ensures ScanBatch(es, clock, store).raised == Raises(es)
    ensures ScanBatch(es, clock, store).store == RecordAll(store, FailuresOf(Reached(es), clock))
    ensures !Raises(es) ==>
              var sc := ScanBatch(es, clock, store);
              && sc.metrics == OfType(RowsOf(es), Heartbeat)
              && sc.winlogs == OfType(RowsOf(es), Winlog)
              && Reached(es) == es
  {
    ScanRaises(es, clock, store);
    ScanCounts(es, clock, store);
    ReachedAll(es);
    if !Raises(es) {
      ScanRows(es, clock, store);
    }
  }

  /** Every row belongs to one of the two tables. */
  lemma {:induction false} RowsByTable(es: seq<Entry>)
    ensures |RowsOf(es)| == |OfType(RowsOf(es), Heartbeat)| + |OfType(RowsOf(es), Winlog)|
  {
    if es != [] {
      var init, last := es[..|es| - 1], es[|es| - 1];
      RowsByTable(init);
      assert es == init + [last];
      RowsOfSnoc(init, last, Heartbeat);
      RowsOfSnoc(init, last, Winlog);
    }
  }

  lemma {:induction false} HitsOfSnoc(fs: seq<Failure>, f: Failure, ip: string)
    ensures HitsOf(fs + [f], ip) == HitsOf(fs, ip) + if f.ip == ip then [f.hit] else []
  {
    assert (fs + [f])[..|fs|] == fs;
  }

  /** Failure `j` or a later one raises an alert. */
  ghost predicate AlertsFrom(hits: seq<Hit>, j: nat) {
    exists k :: j <= k < |hits| && Alerts(hits, k)
  }

  lemma {:induction false} AlertsFromSnoc(hits: seq<Hit>, t: int, j: nat)
    requires j <= |hits|
    ensures AlertsFrom(hits + [Hit(t, false)], j) <==> AlertsFrom(hits, j) || Count(KeyAfter(hits), t) > MAX_FAILURES
  {
    var all := hits + [Hit(t, false)];
    assert all[..|hits|] == hits;
    assert Alerts(all, |hits|) <==> Count(KeyAfter(hits), t) > MAX_FAILURES;
    forall k | 0 <= k < |hits| ensures Alerts(all, k) == Alerts(hits, k) {
      assert all[..k] == hits[..k];
    }
  }

  ghost predicate Names(alerts: seq<Alert>, ip: string) {
    exists a :: a in alerts && a.ip == ip
  }

  /** An address is reported for a batch exactly when one of its failures in the batch alerts, the
      counter having seen the failures `h` before. */
  lemma {:induction false} ReportedIffAlerting(es: seq<Entry>, clock: seq<int>, h: seq<Failure>, ip: string)
    requires |es| <= |clock| && !ScanBatch(es, clock, RecordAll(map[], h)).raised
    ensures |HitsOf(h, ip)| <= |HitsOf(h + FailuresOf(es, clock), ip)|
    ensures Names(ScanBatch(es, clock, RecordAll(map[], h)).alerts, ip)
            <==> AlertsFrom(HitsOf(h + FailuresOf(es, clock), ip), |HitsOf(h, ip)|)
  {
    if es == [] {
      assert h + [] == h;
    } else {
      var init, last := es[..|es| - 1], es[|es| - 1];
      ReportedIffAlerting(init, clock, h, ip);
      assert es == init + [last];
      if IsFailedLogin(last) {
        FailureReported(init, last, clock, h, ip);
      } else {
        OtherEntry(init, last, clock, RecordAll(map[], h));
      }
    }
  }

  lemma {:induction false} OtherEntry(init: seq<Entry>, last: Entry, clock: seq<int>, store: Store)
    requires |init| < |clock| && !IsFailedLogin(last)
    ensures FailuresOf(init + [last], clock) == FailuresOf(init, clock)
    ensures ScanBatch(init + [last], clock, store).alerts == ScanBatch(init, clock, store).alerts
  {
    assert (init + [last])[..|init|] == init;
  }

  /** One more failure, and the failures of an address. */
  lemma {:induction false} HistoryGrows(init: seq<Entry>, last: Entry, clock: seq<int>, h: seq<Failure>, ip: string)
    requires |init| < |clock| && IsFailedLogin(last)
    ensures HitsOf(h + FailuresOf(init + [last], clock), ip) ==
              var hits := HitsOf(h + FailuresOf(init, clock), ip);
              if last.payload.sourceIp == ip then hits + [Hit(clock[|init|], false)] else hits
  {
    var f := Failure(last.payload.sourceIp, Hit(clock[|init|], false));
    var before := h + FailuresOf(init, clock);
    assert (init + [last])[..|init|] == init;
    assert h + FailuresOf(init + [last], clock) == before + [f];
    HitsOfSnoc(before, f, ip);
  }

  lemma {:induction false} FailureReported(init: seq<Entry>, last: Entry, clock: seq<int>, h: seq<Failure>, ip: string)
    requires |init| < |clock| && IsFailedLogin(last) && !ScanBatch(init, clock, RecordAll(map[], h)).raised
    requires |HitsOf(h, ip)| <= |HitsOf(h + FailuresOf(init, clock), ip)|
    requires Names(ScanBatch(init, clock, RecordAll(map[], h)).alerts, ip)
             <==> AlertsFrom(HitsOf(h + FailuresOf(init, clock), ip), |HitsOf(h, ip)|)
    ensures |HitsOf(h, ip)| <= |HitsOf(h + FailuresOf(init + [last], clock), ip)|
    ensures Names(ScanBatch(init + [last], clock, RecordAll(map[], h)).alerts, ip)
            <==> AlertsFrom(HitsOf(h + FailuresOf(init + [last], clock), ip), |HitsOf(h, ip)|)
  {
    HistoryGrows(init, last, clock, h, ip);
    LastAlertNames(init, last, clock, RecordAll(map[], h), ip);
    if last.payload.sourceIp == ip {
      AlertsFromSnoc(HitsOf(h + FailuresOf(init, clock), ip), clock[|init|], |HitsOf(h, ip)|);
      CountedAgainstHistory(init, clock, h, ip);
    }
  }

  lemma {:induction false} CountedAgainstHistory(es: seq<Entry>, clock: seq<int>, h: seq<Failure>, ip: string)
    requires |es| <= |clock| && !ScanBatch(es, clock, RecordAll(map[], h)).raised
    ensures Lookup(ScanBatch(es, clock, RecordAll(map[], h)).store, ip) ==
        KeyAfter(HitsOf(h + FailuresOf(es, clock), ip))
  {
    ScanFailures(es, clock, RecordAll(map[], h));
    RecordAllConcat(map[], h, FailuresOf(es, clock));
    AddressesIndependent(h + FailuresOf(es, clock), ip);
  }

  lemma {:induction false} LastAlertNames(init: seq<Entry>, last: Entry, clock: seq<int>, store: Store, ip: string)
    requires |init| < |clock| && !ScanBatch(init, clock, store).raised && IsFailedLogin(last)
    ensures var sc := ScanBatch(init, clock, store);
            Names(ScanBatch(init + [last], clock, store).alerts, ip) <==>
              || Names(sc.alerts, ip)
              || (last.payload.sourceIp == ip && Count(Lookup(sc.store, ip), clock[|init|]) > MAX_FAILURES)
  {
    assert (init + [last])[..|init|] == init;
    EntryAlertNames(ScanBatch(init, clock, store), last, clock[|init|], ip);
  }

  lemma {:induction false} EntryAlertNames(sc: Scan, last: Entry, now: int, ip: string)
    requires !sc.raised && IsFailedLogin(last)
    ensures Names(ScanEntry(sc, last, now).alerts, ip) <==>
              || Names(sc.alerts, ip)
              || (last.payload.sourceIp == ip && Count(Lookup(sc.store, ip), now) > MAX_FAILURES)
  {
    var alerts := ScanEntry(sc, last, now).alerts;
    if alerts != sc.alerts {
      assert alerts == sc.alerts + [alerts[|alerts| - 1]];
      assert alerts[|alerts| - 1] in alerts;
    }
  }

  // ----- the collaborators -----

  class Redis {
    var entries: seq<Entry>
    var failures: Store

    constructor ()
      ensures entries == [] && failures == map[]
    {
      entries, failures := [], map[];
    }
  }

  class Database {
    var metrics: seq<Row>
    var winlogs: seq<Row>

    constructor ()
      ensures metrics == [] && winlogs == []
    {
      metrics, winlogs := [], [];
    }
  }

  /** What the outside does during a pass: whether the read and the transaction succeed, when each
      entry is looked at, how many entries the approximate trim would like to remove, and which asset an
      agent's certificate fingerprint stands for. */
  datatype Weather = Weather(readable: bool, commits: bool, clock: seq<int>, trim: nat, resolve: string -> nat)

  /** The alerts as the registry takes them. */
  function Located(resolve: string -> nat, alerts: seq<Alert>): seq<AssetJournal.Alert> {
    seq(|alerts|, i requires 0 <= i < |alerts| => AssetJournal.Alert(resolve(alerts[i].fingerprint), alerts[i].count))
  }

  /** Every alert comes with the row of its entry. */
  lemma {:induction false} AlertsHaveRows(es: seq<Entry>, clock: seq<int>, store: Store)
    requires |es| <= |clock|
    ensures ScanBatch(es, clock, store).alerts != [] ==> ScanBatch(es, clock, store).winlogs != []
  {
    if es != [] {
      AlertsHaveRows(es[..|es| - 1], clock, store);
    }
  }

  datatype Result = Nothing | Aborted | Processed(count: nat, alerts: seq<Alert>)

  /** How many of the oldest entries a trim below `minId` removes when it removes at most `k`. */
  function TrimCount(es: seq<Entry>, minId: nat, k: nat): (r: nat)
    ensures MayTrim(es, minId, r) && r <= k
  {
    if es == [] || k == 0 || es[0].id >= minId then 0
    else
      var r := TrimCount(es[1..], minId, k - 1);
      assert forall i :: 0 < i < r + 1 ==> es[i] == es[1..][i - 1];
      r + 1
  }

  /** At most `most` entries went, oldest first and all of them below `minId`. */
  ghost predicate TrimmedBelow(es: seq<Entry>, minId: nat, most: nat, rest: seq<Entry>) {
    exists k: nat :: MayTrim(es, minId, k) && k <= most && rest == es[k..]
  }

  /** The protocol state `s` describes these contents between two passes. */
  ghost predicate Shows(s: State, entries: seq<Entry>, cursor: nat, metrics: seq<Row>, winlogs: seq<Row>) {
    && s.phase.Idle? && s.stream == entries && s.cursor == cursor
    && metrics == OfType(s.rows, Heartbeat) && winlogs == OfType(s.rows, Winlog)
  }

  lemma {:induction false} PassIsCycle(s: State, n: nat, k: nat, metrics: seq<Row>, winlogs: seq<Row>)
    requires CanCycle(s, n, k) && Shows(s, s.stream, s.cursor, metrics, winlogs)
    ensures var b := Batch(s.stream, s.cursor, n);
            && Legal(s, Cycle(n, k))
            && Shows(Run(s, Cycle(n, k)), s.stream[k..], NextCursor(s.cursor, b),
                     metrics + OfType(RowsOf(b), Heartbeat), winlogs + OfType(RowsOf(b), Winlog))
  {
    CycleEffect(s, n, k);
    var b := Batch(s.stream, s.cursor, n);
    OfTypeConcat(s.rows, RowsOf(b), Heartbeat);
    OfTypeConcat(s.rows, RowsOf(b), Winlog);
  }

  /** The change of stream, cursor and tables is one cycle of the protocol, from every protocol state
      that shows the contents before. */
  ghost predicate IsCycle(n: nat, k: nat, entries: seq<Entry>, cursor: nat, metrics: seq<Row>, winlogs: seq<Row>,
                          entries': seq<Entry>, cursor': nat, metrics': seq<Row>, winlogs': seq<Row>) {
    forall s :: Shows(s, entries, cursor, metrics, winlogs) ==>
      && CanCycle(s, n, k) && Legal(s, Cycle(n, k))
      && Shows(Run(s, Cycle(n, k)), entries', cursor', metrics', winlogs')
  }

  lemma {:induction false} PassShows(n: nat, k: nat, entries: seq<Entry>, cursor: nat, metrics: seq<Row>,
      winlogs: seq<Row>)
    requires var b := Batch(entries, cursor, n); n > 0 && b != [] && !Raises(b) && MayTrim(entries, Newest(b), k)
    ensures var b := Batch(entries, cursor, n);
            IsCycle(n, k, entries, cursor, metrics, winlogs, entries[k..], NextCursor(cursor, b),
                    metrics + OfType(RowsOf(b), Heartbeat), winlogs + OfType(RowsOf(b), Winlog))
  {
    forall s | Shows(s, entries, cursor, metrics, winlogs)
      ensures CanCycle(s, n, k) && Legal(s, Cycle(n, k))
      ensures var b := Batch(entries, cursor, n);
              Shows(Run(s, Cycle(n, k)), entries[k..], NextCursor(cursor, b),
                    metrics + OfType(RowsOf(b), Heartbeat), winlogs + OfType(RowsOf(b), Winlog))
    {
      PassIsCycle(s, n, k, metrics, winlogs);
    }
  }

  lemma {:induction false} BatchBound(es: seq<Entry>, cursor: nat, n: nat)
    ensures |Batch(es, cursor, n)| <= n
  {
  }

  /** What a pass reads and writes: stream, failure counters, cursor, tables, the worker's own lists of
      processed rows, and the asset registry. */
  datatype World = World(entries: seq<Entry>, failures: Store, lastId: nat, metrics: seq<Row>, winlogs: seq<Row>,
                         processedMetrics: seq<Row>, processedWinlogs: seq<Row>, registry: AssetJournal.Registry)

  predicate Empty(sc: Scan) { sc.metrics == [] && sc.winlogs == [] && sc.alerts == [] }

  function AfterPass(x: World, n: nat, w: Weather): (World, Result)
    requires n <= |w.clock|
  {
    var b := Batch(x.entries, x.lastId, n);
    BatchBound(x.entries, x.lastId, n);
    var sc := ScanBatch(b, w.clock, x.failures);
    if !w.readable || b == [] then (x, Nothing)
    else if sc.raised || (!Empty(sc) && !w.commits) then (x.(failures := sc.store), Aborted)
    else
      (World(x.entries[TrimCount(x.entries, Newest(b), w.trim)..], sc.store,
             if sc.metrics + sc.winlogs != [] then Newest(b) else x.lastId,
             x.metrics + sc.metrics, x.winlogs + sc.winlogs,
             x.processedMetrics + sc.metrics, x.processedWinlogs + sc.winlogs,
             AssetJournal.QuarantineAll(x.registry, Located(w.resolve, sc.alerts))),
       Processed(|sc.metrics| + |sc.winlogs|, sc.alerts))
  }

  lemma {:induction false} PassFindsNothing(x: World, n: nat, w: Weather)
    requires n <= |w.clock| && (!w.readable || Batch(x.entries, x.lastId, n) == [])
    ensures AfterPass(x, n, w) == (x, Nothing)
  {
  }

  lemma {:induction false} PassAborts(x: World, n: nat, w: Weather, b: seq<Entry>, sc: Scan)
    requires |b| <= n <= |w.clock| && w.readable && b == Batch(x.entries, x.lastId, n) != []
    requires sc == ScanBatch(b, w.clock, x.failures) && (sc.raised || (!Empty(sc) && !w.commits))
    ensures AfterPass(x, n, w) == (x.(failures := sc.store), Aborted)
  {
  }

  lemma {:induction false} PassGoesThrough(x: World, n: nat, w: Weather, b: seq<Entry>, sc: Scan)
    requires |b| <= n <= |w.clock| && w.readable && b == Batch(x.entries, x.lastId, n) != []
    requires sc == ScanBatch(b, w.clock, x.failures) && !sc.raised && (Empty(sc) || w.commits)
    ensures AfterPass(x, n, w) ==
            (World(x.entries[TrimCount(x.entries, Newest(b), w.trim)..], sc.store,
                   if |sc.metrics| + |sc.winlogs| > 0 then Newest(b) else x.lastId,
                   x.metrics + sc.metrics, x.winlogs + sc.winlogs,
                   x.processedMetrics + sc.metrics, x.processedWinlogs + sc.winlogs,
                   AssetJournal.QuarantineAll(x.registry, Located(w.resolve, sc.alerts))),
             Processed(|sc.metrics| + |sc.winlogs|, sc.alerts))
  {
    hide ScanBatch, TrimCount, Located, Batch, AssetJournal.QuarantineAll;
    assert |sc.metrics + sc.winlogs| == |sc.metrics| + |sc.winlogs|;
  }

  /** A pass that goes through is one cycle of the protocol, counts the failures of its batch and
      reports every row once, and quarantines the alerted assets in the same transaction. */
  lemma {:induction false} PassEffect(x: World, n: nat, w: Weather)
    requires n <= |w.clock| && AfterPass(x, n, w).1.Processed?
    ensures var b, y := Batch(x.entries, x.lastId, n), AfterPass(x, n, w).0;
            && b != [] && !Raises(b) && (RowsOf(b) == [] || w.commits)
            && AfterPass(x, n, w).1.count == |RowsOf(b)|
            && y.failures == RecordAll(x.failures, FailuresOf(b, w.clock))
            && y.processedMetrics == x.processedMetrics + OfType(RowsOf(b), Heartbeat)
            && y.processedWinlogs == x.processedWinlogs + OfType(RowsOf(b), Winlog)
            && y.registry == AssetJournal.QuarantineAll(x.registry, Located(w.resolve, AfterPass(x, n, w).1.alerts))
            && IsCycle(n, TrimCount(x.entries, Newest(b), w.trim), x.entries, x.lastId, x.metrics, x.winlogs,
                       y.entries, y.lastId, y.metrics, y.winlogs)
  {
    var b := Batch(x.entries, x.lastId, n);
    BatchBound(x.entries, x.lastId, n);
    ScanMeaning(b, w.clock, x.failures);
    AlertsHaveRows(b, w.clock, x.failures);
    RowsByTable(b);
    PassShows(n, TrimCount(x.entries, Newest(b), w.trim), x.entries, x.lastId, x.metrics, x.winlogs);
  }

  /** A pass stops early exactly when the read fails, nothing is waiting, an entry of the batch raises,
      or the transaction that would write its rows fails; then stream, tables, cursor and lists stay, but
      the counters keep the failures reached. */
  lemma {:induction false} PassStopsIff(x: World, n: nat, w: Weather)
    requires n <= |w.clock|
    ensures var b, y := Batch(x.entries, x.lastId, n), AfterPass(x, n, w);
            && (y.1 == Nothing <==> !w.readable || b == [])
            && (y.1 == Aborted <==> w.readable && b != [] && (Raises(b) || (RowsOf(b) != [] && !w.commits)))
            && (y.1 == Aborted ==> y.0 == x.(failures := RecordAll(x.failures, FailuresOf(Reached(b), w.clock))))
            && (y.1 == Nothing ==> y.0 == x)
  {
    var b := Batch(x.entries, x.lastId, n);
    BatchBound(x.entries, x.lastId, n);
    ScanMeaning(b, w.clock, x.failures);
    AlertsHaveRows(b, w.clock, x.failures);
    RowsByTable(b);
  }

  class TelemetryStreamConsumer {
    var lastId: nat
    var processedMetrics: seq<Row>
    var processedWinlogs: seq<Row>

    constructor ()
      ensures lastId == 0 && processedMetrics == [] && processedWinlogs == []
    {
      lastId, processedMetrics, processedWinlogs := 0, [], [];
    }

    ghost function Sees(redis: Redis, db: Database, assets: AssetJournal.AssetRepository): World
      reads this, redis, db, assets
    {
      World(redis.entries, redis.failures, lastId, db.metrics, db.winlogs, processedMetrics, processedWinlogs,
          assets.Now())
    }

    /** One pass: read a batch behind the cursor, turn it into rows and alerts, commit, trim, advance. */
    method ProcessBatch(redis: Redis, db: Database, assets: AssetJournal.AssetRepository, batchSize: nat, w: Weather)
      returns (result: Result)
      requires batchSize <= |w.clock|
      modifies this, redis, db, assets
      ensures (Sees(redis, db, assets), result) == AfterPass(old(Sees(redis, db, assets)), batchSize, w)
    {
      hide AfterPass, Batch, ScanBatch, TrimCount, TrimmedBelow, Located, AssetJournal.QuarantineAll;
      ghost var before := Sees(redis, db, assets);
      if !w.readable {
        PassFindsNothing(before, batchSize, w);
        return Nothing;
      }
      var messages := Batch(redis.entries, lastId, batchSize);
      if messages == [] {
        PassFindsNothing(before, batchSize, w);
        return Nothing;
      }
      BatchBound(redis.entries, lastId, batchSize);
      var sc := ReadMessages(redis, messages, w.clock);
      if sc.raised {
        PassAborts(before, batchSize, w, messages, sc);
        return Aborted;
      }
      var persisted := PersistBatch(db, assets, sc, w);
      if !persisted {
        PassAborts(before, batchSize, w, messages, sc);
        return Aborted;
      }
      processedMetrics, processedWinlogs := processedMetrics + sc.metrics, processedWinlogs + sc.winlogs;
      var newestId := messages[|messages| - 1].id;
      AckAndTrim(redis, newestId, w.trim);
      PassGoesThrough(before, batchSize, w, messages, sc);
      if |sc.metrics| + |sc.winlogs| > 0 {
        lastId := newestId;
      }
      return Processed(|sc.metrics| + |sc.winlogs|, sc.alerts);
    }

    /** One transaction for both tables and the quarantines; with nothing to write there is none. */
    method PersistBatch(db: Database, assets: AssetJournal.AssetRepository, sc: Scan, w: Weather) returns (ok: bool)
      modifies db, assets
      ensures ok == (w.commits || Empty(sc))
      ensures db.metrics == if ok then old(db.metrics) + sc.metrics else old(db.metrics)
      ensures db.winlogs == if ok then old(db.winlogs) + sc.winlogs else old(db.winlogs)
      ensures assets.Now() == if ok then AssetJournal.QuarantineAll(old(assets.Now()), Located(w.resolve, sc.alerts))
                              else old(assets.Now())
    {
      ok := true;
      if Empty(sc) {
        return;
      }
      if !w.commits {
        return false;
      }
      db.metrics, db.winlogs := db.metrics + sc.metrics, db.winlogs + sc.winlogs;
      assets.QuarantineAlerted(Located(w.resolve, sc.alerts));
    }

    /** Trims the stream below the newest entry of the batch; the approximate trim stops early.  Only a
        prefix goes, all of it below that entry, and no more than asked for. */
    method AckAndTrim(redis: Redis, newestId: nat, most: nat)
      modifies redis`entries
      ensures redis.entries == old(redis.entries)[TrimCount(old(redis.entries), newestId, most)..]
      ensures TrimmedBelow(old(redis.entries), newestId, most, redis.entries)
    {
      redis.entries := redis.entries[TrimCount(redis.entries, newestId, most)..];
    }

    /** The loop over a batch: rows by table, alerts, and the failure counters as it goes.  An entry
        that raises ends it; the counters keep what was counted until then. */
    method ReadMessages(redis: Redis, messages: seq<Entry>, clock: seq<int>) returns (sc: Scan)
      requires |messages| <= |clock|
      modifies redis`failures
      ensures sc == ScanBatch(messages, clock, old(redis.failures))
      ensures redis.failures == sc.store
    {
      var metrics: seq<Row>, winlogs: seq<Row>, alerts: seq<Alert> := [], [], [];
      var i := 0;
      while i < |messages|
        invariant i <= |messages|
        invariant ScanBatch(messages[..i], clock, old(redis.failures)) ==
            Scan(metrics, winlogs, alerts, redis.failures, false)
      {
        var e := messages[i];
        assert messages[..i + 1][..i] == messages[..i];
        i := i + 1;
        if e.payload.Malformed? {
          continue;
        }
        if !e.eventType.OtherType? && e.payload.Unusable? {
          RaisesEarly(messages, i, clock, old(redis.failures));
          return Scan(metrics, winlogs, alerts, redis.failures, true);
        }
        if e.eventType.Heartbeat? {
          metrics := metrics + [Row(e.id, Heartbeat, e.fingerprint, 0)];
        } else if e.eventType.Winlog? {
          winlogs := winlogs + [Row(e.id, Winlog, e.fingerprint, e.payload.eventId)];
          if e.payload.eventId == FAILED_LOGON && e.payload.sourceIp != "" {
            var ip, now := e.payload.sourceIp, clock[i - 1];
            var count := Count(Lookup(redis.failures, ip), now);
            redis.failures := RecordFailure(redis.failures, Failure(ip, Hit(now, false)));
            if count > MAX_FAILURES {
              alerts := alerts + [Alert(e.fingerprint, ip, count)];
            }
          }
        }
      }
      assert messages[..i] == messages;
      return Scan(metrics, winlogs, alerts, redis.failures, false);
    }
  }

  /** A scan that raised stays as it was. */
  lemma {:induction false} RaisesEarly(es: seq<Entry>, i: nat, clock: seq<int>, store: Store)
    requires 0 < i <= |es| <= |clock| && Classify(es[i - 1]).Raise?
    requires !ScanBatch(es[..i - 1], clock, store).raised
    ensures Raises(es)
    ensures ScanBatch(es, clock, store) == ScanBatch(es[..i - 1], clock, store).(raised := true)
  {
    if i == |es| {
    } else {
      var init := es[..|es| - 1];
      assert init[..i - 1] == es[..i - 1];
      RaisesEarly(init, i, clock, store);
    }
  }
}
