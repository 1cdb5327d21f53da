/** What the telemetry consumer reads, stores, reports and quarantines, said in the fields of the entries. */
module TelemetryTables {
  import AssetJournal
  import opened Basics
  import opened TelemetryStream
  import opened FailedLogins
  import opened TelemetryWorker
  import opened TelemetryRuns

  // ----- which entries are stored, and as what -----

  /** A heartbeat or a Windows log entry whose payload can be used. */
  predicate Storable(e: Entry) { e.payload.Usable? && (e.eventType.Heartbeat? || e.eventType.Winlog?) }

  /** One whose payload cannot. */
  predicate Broken(e: Entry) { e.payload.Unusable? && (e.eventType.Heartbeat? || e.eventType.Winlog?) }

  /** The metric of a heartbeat. */
  predicate Metric(e: Entry, r: Row) {
    e.payload.Usable? && e.eventType.Heartbeat? && r == Row(e.id, Heartbeat, e.fingerprint, 0)
  }

  /** The event of a Windows log entry. */
  predicate LogEvent(e: Entry, r: Row) {
    e.payload.Usable? && e.eventType.Winlog? && r == Row(e.id, Winlog, e.fingerprint, e.payload.eventId)
  }

  lemma {:induction false} ClassifyMeans(e: Entry)
    ensures forall r :: Classify(e) == Emit(r) <==> Metric(e, r) || LogEvent(e, r)
    ensures Classify(e).Raise? <==> Broken(e)
    ensures Classify(e).Emit? <==> Storable(e)
  {
  }

  /** No loss: whatever happens, the metric of a published heartbeat is in its table, and the event of a log
      entry in its own, or the entry is still in the stream, or 100 000 entries were published after it. */
  lemma {:induction false} EntriesAreKept(evs: seq<Event>, x: Session, i: nat, r: Row)
    requires AllPossible(START, evs) && x == TelemetryRuns.After(START, evs) && i < |x.published|
    ensures Metric(x.published[i], r) ==>
              || r in x.world.metrics || x.published[i] in x.world.entries || |x.published| - 1 - i >= 100000
    ensures LogEvent(x.published[i], r) ==>
              || r in x.world.winlogs || x.published[i] in x.world.entries || |x.published| - 1 - i >= 100000
  {
    ConsumerLosesNothing(evs, x, i);
    ClassifyMeans(x.published[i]);
    StartAgrees();
    HistoryIsRun(Init, START, evs);
    var s := Run(Init, AllSteps(START, evs));
    TableHoldsType(s.rows, Heartbeat);
    TableHoldsType(s.rows, Winlog);
  }

  lemma {:induction false} TableHoldsType(rows: seq<Row>, t: EventType)
    ensures forall r :: r in OfType(rows, t) ==> r in rows && r.eventType == t
  {
    if rows != [] {
      var init, last := rows[..|rows| - 1], rows[|rows| - 1];
      assert rows == init + [last];
      TableHoldsType(init, t);
    }
  }

  /** The row an entry puts into the table for `t`. */
  predicate Puts(e: Entry, t: EventType, r: Row) {
    match t
    case Heartbeat => Metric(e, r)
    case Winlog => LogEvent(e, r)
    case OtherType => false
  }

  ghost predicate PutBySome(es: seq<Entry>, t: EventType, r: Row) { exists e :: e in es && Puts(e, t, r) }

  lemma {:induction false} RowInMeans(e: Entry, t: EventType)
    ensures |RowIn(e, t)| <= 1 && forall r :: r in RowIn(e, t) <==> Puts(e, t, r)
  {
  }

  lemma {:induction false} PutBySnoc(init: seq<Entry>, last: Entry, t: EventType, r: Row)
    ensures PutBySome(init + [last], t, r) <==> PutBySome(init, t, r) || Puts(last, t, r)
  {
    var es := init + [last];
    assert forall e :: e in es <==> e in init || e == last;
  }

  ghost predicate OriginsAscend(rows: seq<Row>) {
    forall i, j :: 0 <= i < j < |rows| ==> rows[i].origin < rows[j].origin
  }

  /** The table rows of ascending entries: exactly those that some entry puts there, in order. */
  lemma {:induction false} TableMeans(es: seq<Entry>, t: EventType)
    requires Ascending(es)
    ensures var rows := OfType(RowsOf(es), t);
            OriginsAscend(rows) && forall r :: r in rows <==> PutBySome(es, t, r)
  {
    if es != [] {
      var init, last := es[..|es| - 1], es[|es| - 1];
      assert es == init + [last];
      TableMeans(init, t);
      RowsOfSnoc(init, last, t);
      RowInMeans(last, t);
      forall r ensures PutBySome(es, t, r) <==> PutBySome(init, t, r) || Puts(last, t, r) {
        PutBySnoc(init, last, t, r);
      }
      var before := OfType(RowsOf(init), t);
      forall r | r in before ensures r.origin < last.id {
        var e :| e in init && Puts(e, t, r);
      }
      hide RowsOf, OfType, PutBySome;
      AscendNext(before, RowIn(last, t), last.id);
    }
  }

  lemma {:induction false} AscendNext(before: seq<Row>, more: seq<Row>, id: nat)
    requires OriginsAscend(before) && |more| <= 1 && forall r :: r in more ==> r.origin == id
    requires forall r :: r in before ==> r.origin < id
    ensures OriginsAscend(before + more)
  {
    var all := before + more;
    forall i, j | 0 <= i < j < |all| ensures all[i].origin < all[j].origin {
      assert all[i] == before[i] && before[i] in before;
      if j == |before| {
        assert all[j] == more[0] && more[0] in more;
      }
    }
  }

  lemma {:induction false} UpToMembers(es: seq<Entry>, m: nat)
    requires Ascending(es)
    ensures Ascending(UpTo(es, m)) && forall e :: e in UpTo(es, m) <==> e in es && e.id <= m
  {
    var k: nat := 0;
    while k < |es| && es[k].id <= m
      invariant k <= |es| && forall i :: 0 <= i < k ==> es[i].id <= m
    {
      k := k + 1;
    }
    UpToFacts(es, m, k);
    forall e ensures e in es[..k] <==> e in es && e.id <= m {
      if e in es && e.id <= m {
        var i :| 0 <= i < |es| && es[i] == e;
        assert i < k;
      }
    }
  }

  /** Exactly once: without truncation, cancellation and restart the metrics are those of the heartbeats up to
      where the consumer has stored, and the events those of the log entries, in order and each once. */
  lemma {:induction false} TablesMean(evs: seq<Event>, x: Session)
    requires AllPossible(START, evs) && x == TelemetryRuns.After(START, evs)
    requires forall i :: 0 <= i < |evs| ==> Uninterrupted(evs[i])
    ensures OriginsAscend(x.world.metrics) && OriginsAscend(x.world.winlogs)
    ensures forall r :: r in x.world.metrics <==>
              exists e :: e in x.published && e.id <= StoredUpTo(x) && Metric(e, r)
    ensures forall r :: r in x.world.winlogs <==>
              exists e :: e in x.published && e.id <= StoredUpTo(x) && LogEvent(e, r)
  {
    HistoryAscends(evs);
    ConsumerExactlyOnce(evs, x);
    var es := UpTo(x.published, StoredUpTo(x));
    UpToMembers(x.published, StoredUpTo(x));
    TableMeans(es, Heartbeat);
    TableMeans(es, Winlog);
    hide RowsOf, OfType, Metric, LogEvent, StoredUpTo;
    forall r ensures PutBySome(es, Heartbeat, r) <==> exists e :: e in es && Metric(e, r) {
      assert forall e :: Puts(e, Heartbeat, r) <==> Metric(e, r);
    }
    forall r ensures PutBySome(es, Winlog, r) <==> exists e :: e in es && LogEvent(e, r) {
      assert forall e :: Puts(e, Winlog, r) <==> LogEvent(e, r);
    }
  }

  // ----- what a pass reads and how it ends -----

  /** A batch is the next entries behind the cursor, as many as asked for if there are so many. */
  lemma {:induction false} BatchMeans(es: seq<Entry>, cursor: nat, n: nat) returns (k: nat)
    requires Ascending(es)
    ensures k <= |es| && Batch(es, cursor, n) == es[k..Min(k + n, |es|)]
    ensures (forall i :: 0 <= i < k ==> es[i].id <= cursor) && (forall i :: k <= i < |es| ==> es[i].id > cursor)
  {
    k := AfterFacts(es, cursor);
    assert forall i :: k < i < |es| ==> es[k].id < es[i].id;
  }

  /** How many entries of a batch are stored. */
  function StorableCount(es: seq<Entry>): nat {
    if es == [] then 0 else StorableCount(es[..|es| - 1]) + if Storable(es[|es| - 1]) then 1 else 0
  }

  lemma {:induction false} RowsCount(es: seq<Entry>)
    ensures |RowsOf(es)| == StorableCount(es)
    ensures StorableCount(es) > 0 <==> exists i :: 0 <= i < |es| && Storable(es[i])
  {
    if es != [] {
      var init, last := es[..|es| - 1], es[|es| - 1];
      RowsCount(init);
      ClassifyMeans(last);
      if i :| 0 <= i < |init| && Storable(init[i]) {
        assert es[i] == init[i];
      }
      if i :| 0 <= i < |es| && Storable(es[i]) {
        assert i < |init| ==> init[i] == es[i];
      }
    }
  }

  lemma {:induction false} RaisesMeans(es: seq<Entry>)
    ensures Raises(es) <==> exists i :: 0 <= i < |es| && Broken(es[i])
  {
    forall e ensures Classify(e).Raise? <==> Broken(e) { ClassifyMeans(e); }
    if i :| 0 <= i < |es| && Broken(es[i]) {
      assert Classify(es[i]).Raise?;
    }
  }

  /** A pass finds nothing without a read or a batch; it is aborted exactly by an entry that is broken, or
      by a transaction that fails although there is something to store; and it counts what it stored. */
  lemma {:induction false} PassMeans(x: World, n: nat, w: Weather)
    requires n <= |w.clock|
    ensures var b, result := Batch(x.entries, x.lastId, n), AfterPass(x, n, w).1;
            if !w.readable || b == [] then result == Nothing
            else if (exists i :: 0 <= i < |b| && Broken(b[i])) then result == Aborted
            else if !w.commits && (exists i :: 0 <= i < |b| && Storable(b[i])) then result == Aborted
            else result.Processed? && result.count == StorableCount(b)
  {
    var b := Batch(x.entries, x.lastId, n);
    PassStopsIff(x, n, w);
    RaisesMeans(b);
    RowsCount(b);
    hide AfterPass, Batch, Raises, RowsOf, Broken, Storable;
    if AfterPass(x, n, w).1.Processed? {
      PassEffect(x, n, w);
    }
  }

  // ----- what is counted -----

  /** Event 4625 of the Windows log, with a source address. */
  predicate Login(e: Entry) {
    e.eventType.Winlog? && e.payload.Usable? && e.payload.eventId == 4625 && e.payload.sourceIp != ""
  }

  lemma {:induction false} FailedAscend(es: seq<Entry>)
    requires Ascending(es)
    ensures Ascending(FailedEntries(es))
  {
    if es != [] {
      var init, last := es[..|es| - 1], es[|es| - 1];
      assert es == init + [last];
      FailedAscend(init);
      var fs := FailedEntries(init);
      forall i | 0 <= i < |fs| ensures fs[i].id < last.id {
        FailedMembers(init, fs[i]);
        var k :| 0 <= k < |init| && init[k] == fs[i];
        assert es[k].id < es[|init|].id;
      }
    }
  }

  /** Over an undisturbed history, between two passes, the entries counted are the failed logins with a source
      address among the entries up to the cursor, in order and each once. */
  lemma {:induction false} LoginsCounted(evs: seq<Event>, x: Session)
    requires AllPossible(START, evs) && AllUndisturbed(START, evs) && x == TelemetryRuns.After(START, evs)
    requires x.phase.Idle?
    ensures Ascending(x.counted)
    ensures forall e :: e in x.counted <==> e in x.published && e.id <= x.world.lastId && Login(e)
  {
    CountedExactlyOnce(evs, x);
    var es := UpTo(x.published, x.world.lastId);
    UpToMembers(x.published, x.world.lastId);
    FailedAscend(es);
    forall e ensures e in FailedEntries(es) <==> e in es && Login(e) {
      FailedMembers(es, e);
    }
  }

  /** In every history the counters hold one failure for each login counted, at its address. */
  lemma {:induction false} CountersMean(evs: seq<Event>, x: Session)
    requires AllPossible(START, evs) && x == TelemetryRuns.After(START, evs)
    ensures x.world.failures == RecordAll(map[], x.recorded) && |x.recorded| == |x.counted|
    ensures forall i :: 0 <= i < |x.counted| ==>
              Login(x.counted[i]) && x.recorded[i].ip == x.counted[i].payload.sourceIp
  {
    CountersAreRecorded(START, evs);
  }

  /** A batch given up in the middle of a login leaves it counted, without an end for its key if it began one. */
  lemma {:induction false} CutIsCounted(x: Session, n: nat, clock: seq<int>, upto: nat)
    requires Possible(x, Halt(n, clock, upto, true)) && upto < |Batch(x.world.entries, x.world.lastId, n)|
    requires var b := Batch(x.world.entries, x.world.lastId, n);
             Login(b[upto]) && forall i :: 0 <= i < upto ==> !Broken(b[i])
    ensures |Batch(x.world.entries, x.world.lastId, n)| <= |clock|
    ensures var y, e := Happen(x, Halt(n, clock, upto, true)), Batch(x.world.entries, x.world.lastId, n)[upto];
            && y.counted != [] && y.counted[|y.counted| - 1] == e
            && y.recorded != []
            && y.recorded[|y.recorded| - 1] == Failure(e.payload.sourceIp, Hit(clock[upto], true))
  {
    BatchBound(x.world.entries, x.world.lastId, n);
    RaisesMeans(Batch(x.world.entries, x.world.lastId, n)[..upto]);
  }

  // ----- what is reported, and whose asset is quarantined -----

  /** Entry `i` of the batch is a failed login that goes over the limit, given the failures `h` counted
      before the batch, and this is its alert. */
  ghost predicate Alerting(es: seq<Entry>, clock: seq<int>, h: seq<Failure>, i: nat, a: Alert)
    requires |es| <= |clock|
  {
    && i < |es| && Login(es[i])
    && var ip := es[i].payload.sourceIp;
       var before := HitsOf(h + FailuresOf(es[..i], clock), ip);
       var count := CountAt(before + [Hit(clock[i], false)], |before|);
       count >= 6 && a == Alert(es[i].fingerprint, ip, count)
  }

  lemma {:induction false} AlertingSnoc(init: seq<Entry>, last: Entry, clock: seq<int>, h: seq<Failure>, i: nat,
      a: Alert)
    requires |init| < |clock| && i < |init|
    ensures Alerting(init + [last], clock, h, i, a) <==> Alerting(init, clock, h, i, a)
  {
    assert (init + [last])[..i] == init[..i] && (init + [last])[i] == init[i];
  }

  lemma {:induction false} EntryAlert(sc: Scan, e: Entry, now: int, a: Alert)
    requires !ScanEntry(sc, e, now).raised
    ensures !sc.raised
    ensures a in ScanEntry(sc, e, now).alerts <==>
              || a in sc.alerts
              || (Login(e) && Count(Lookup(sc.store, e.payload.sourceIp), now) >= 6
                  && a == Alert(e.fingerprint, e.payload.sourceIp, Count(Lookup(sc.store, e.payload.sourceIp), now)))
  {
  }

  lemma {:induction false} LastAlert(init: seq<Entry>, last: Entry, clock: seq<int>, h: seq<Failure>, a: Alert)
    requires |init| < |clock| && !ScanBatch(init + [last], clock, RecordAll(map[], h)).raised
    ensures !ScanBatch(init, clock, RecordAll(map[], h)).raised
    ensures a in ScanBatch(init + [last], clock, RecordAll(map[], h)).alerts <==>
              || a in ScanBatch(init, clock, RecordAll(map[], h)).alerts
              || Alerting(init + [last], clock, h, |init|, a)
  {
    var es, store := init + [last], RecordAll(map[], h);
    assert es[..|init|] == init && es[|init|] == last;
    var sc := ScanBatch(init, clock, store);
    assert ScanBatch(es, clock, store) == ScanEntry(sc, last, clock[|init|]);
    hide ScanBatch, ScanEntry, Lookup, RecordAll, HitsOf, FailuresOf, KeyAfter, Count;
    EntryAlert(sc, last, clock[|init|], a);
    if Login(last) {
      var ip := last.payload.sourceIp;
      CountedAgainstHistory(init, clock, h, ip);
      var before := HitsOf(h + FailuresOf(init, clock), ip);
      assert (before + [Hit(clock[|init|], false)])[..|before|] == before;
    }
  }

  /** The alerts of a batch: one for each failed login that goes over the limit, with the agent that sent it,
      its address and the count. */
  lemma {:induction false} AlertsMean(es: seq<Entry>, clock: seq<int>, h: seq<Failure>, a: Alert)
    requires |es| <= |clock| && !ScanBatch(es, clock, RecordAll(map[], h)).raised
    ensures a in ScanBatch(es, clock, RecordAll(map[], h)).alerts <==> exists i: nat :: Alerting(es, clock, h, i, a)
  {
    if es != [] {
      var init, last := es[..|es| - 1], es[|es| - 1];
      assert es == init + [last];
      LastAlert(init, last, clock, h, a);
      AlertsMean(init, clock, h, a);
      forall i: nat | i < |init| ensures Alerting(es, clock, h, i, a) <==> Alerting(init, clock, h, i, a) {
        AlertingSnoc(init, last, clock, h, i, a);
      }
      hide ScanBatch;
      assert forall i: nat :: Alerting(es, clock, h, i, a) ==> i < |init| || i == |init|;
    }
  }

  lemma {:induction false} LocatedNames(resolve: string -> nat, alerts: seq<Alert>, asset: nat)
    ensures AssetJournal.Named(Located(resolve, alerts), asset) <==>
              exists a :: a in alerts && resolve(a.fingerprint) == asset
  {
    var located := Located(resolve, alerts);
    if AssetJournal.Named(located, asset) {
      var i :| 0 <= i < |located| && located[i].asset == asset;
      assert alerts[i] in alerts;
    }
    if a :| a in alerts && resolve(a.fingerprint) == asset {
      var i :| 0 <= i < |alerts| && alerts[i] == a;
      assert located[i].asset == asset;
    }
  }

  /** A pass that goes through quarantines exactly the assets of the agents whose failed logins went over the
      limit: each loses 30 points, down to zero, and all other assets stay as they were. */
  lemma {:induction false} PassQuarantines(x: World, n: nat, w: Weather, h: seq<Failure>, asset: nat)
    requires n <= |w.clock| && AfterPass(x, n, w).1.Processed? && x.failures == RecordAll(map[], h)
    ensures |Batch(x.entries, x.lastId, n)| <= |w.clock|
    ensures var b, later := Batch(x.entries, x.lastId, n), AfterPass(x, n, w).0.registry.assets;
            && (asset in later <==> asset in x.registry.assets)
            && (asset in later ==>
                  var was := x.registry.assets[asset];
                  later[asset] ==
                    if !was.state.Quarantined?
                       && (exists i: nat, a :: Alerting(b, w.clock, h, i, a) && w.resolve(b[i].fingerprint) == asset)
                    then was.(state := AssetJournal.Quarantined, score := if was.score >= 30 then was.score - 30 else 0)
                    else was)
  {
    var b := Batch(x.entries, x.lastId, n);
    BatchBound(x.entries, x.lastId, n);
    PassEffect(x, n, w);
    ScanMeaning(b, w.clock, x.failures);
    var alerts := ScanBatch(b, w.clock, x.failures).alerts;
    assert AfterPass(x, n, w).1.alerts == alerts;
    AssetJournal.QuarantineTouches(x.registry, Located(w.resolve, alerts), asset);
    LocatedNames(w.resolve, alerts, asset);
    forall a ensures a in alerts <==> exists i: nat :: Alerting(b, w.clock, h, i, a) { AlertsMean(b, w.clock, h, a); }
    hide AfterPass, ScanBatch, Located;
    assert forall i: nat, a :: Alerting(b, w.clock, h, i, a) ==> a.fingerprint == b[i].fingerprint;
  }
}
