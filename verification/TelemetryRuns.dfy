/** The consumer over time, step by step: arrivals, reads, transactions, trims, cancellations and restarts
    in any order.  Every such history is a run of the protocol, so the protocol's theorems hold of the
    tables; and the failed-login counters are followed from step to step. */
module TelemetryRuns {
  import AssetJournal
  import opened Basics
  import opened TelemetryStream
  import opened FailedLogins
  import opened TelemetryWorker

  datatype Event =
    | Arrive(entry: Entry, evict: nat)               // a publisher appends; the stream may be truncated
    | Read(batchSize: nat, clock: seq<int>)          // a batch is read and looked through
    | Halt(batchSize: nat, clock: seq<int>, upto: nat, cut: bool)   // the same, given up after `upto` entries
    | Persist(resolve: string -> nat)                // the transaction goes through
    | GiveUp                                         // an entry raised, or the transaction failed
    | Clear(most: nat)                               // the stream is trimmed
    | Move                                           // the cursor moves
    | Stop                                           // the task is cancelled between two steps
    | Reboot                                         // the process dies and starts again at "0-0"

  /** The contents, how far the present pass has come, and what its scan found; besides, what only an
      observer keeps: the entries published, the entries whose failures were counted, and those failures. */
  datatype Session = Session(world: World, phase: Phase, scan: Scan,
                             published: seq<Entry>, counted: seq<Entry>, recorded: seq<Failure>)

  const NOTHING_SCANNED := Scan([], [], [], map[], false)

  const START :=
    Session(World([], map[], 0, [], [], [], [], AssetJournal.EMPTY), Idle, NOTHING_SCANNED, [], [], [])

  function Latest(published: seq<Entry>): nat { if published == [] then 0 else published[|published| - 1].id }

  predicate Possible(x: Session, ev: Event) {
    match ev
    case Arrive(e, evict) => e.id > Latest(x.published) && MayEvict(|x.world.entries| + 1, evict)
    case Read(n, clock) => x.phase.Idle? && 0 < n <= |clock|
    case Halt(n, clock, _, _) => x.phase.Idle? && 0 < n <= |clock|
    case Persist(_) => x.phase.Fetched? && !x.scan.raised
    case GiveUp => x.phase.Fetched? && (x.scan.raised || !Empty(x.scan))
    case Clear(_) => x.phase.Committed? && x.phase.batch != []
    case Move => x.phase.Trimmed? && x.phase.batch != []
    case Stop => true
    case Reboot => true
  }

  function FailedEntries(es: seq<Entry>): seq<Entry> {
    if es == [] then []
    else FailedEntries(es[..|es| - 1]) + if IsFailedLogin(es[|es| - 1]) then [es[|es| - 1]] else []
  }

  /** The counters, and the observer's lists, after the entries `b` were looked at. */
  function LookThrough(x: Session, b: seq<Entry>, clock: seq<int>): Session
    requires |b| <= |clock|
  {
    var reached := Reached(b);
    x.(world := x.world.(failures := ScanBatch(b, clock, x.world.failures).store),
       counted := x.counted + FailedEntries(reached),
       recorded := x.recorded + FailuresOf(reached, clock))
  }

  /** The next entry is cut off between INCR and EXPIRE. */
  function CutOff(x: Session, e: Entry, now: int): Session
    requires IsFailedLogin(e)
  {
    var f := Failure(e.payload.sourceIp, Hit(now, true));
    x.(world := x.world.(failures := RecordFailure(x.world.failures, f)),
       counted := x.counted + [e], recorded := x.recorded + [f])
  }

  /** A batch given up after `upto` entries. */
  function LookPartly(x: Session, b: seq<Entry>, clock: seq<int>, upto: nat, cut: bool): Session
    requires |b| <= |clock|
  {
    var y := LookThrough(x, Take(b, upto), clock);
    if cut && upto < |b| && !Raises(Take(b, upto)) && IsFailedLogin(b[upto]) then CutOff(y, b[upto], clock[upto]) else y
  }

  function Happen(x: Session, ev: Event): Session
    requires Possible(x, ev)
  {
    match ev
    case Arrive(e, evict) =>
      x.(world := x.world.(entries := (x.world.entries + [e])[evict..]), published := x.published + [e])
    case Read(n, clock) =>
      var b := Batch(x.world.entries, x.world.lastId, n);
      BatchBound(x.world.entries, x.world.lastId, n);
      if b == [] then x
      else LookThrough(x, b, clock).(phase := Fetched(b), scan := ScanBatch(b, clock, x.world.failures))
    case Halt(n, clock, upto, cut) =>
      var b := Batch(x.world.entries, x.world.lastId, n);
      BatchBound(x.world.entries, x.world.lastId, n);
      LookPartly(x, b, clock, upto, cut)
    case Persist(resolve) =>
      var w, sc := x.world, x.scan;
      x.(phase := Committed(x.phase.batch),
         world := w.(metrics := w.metrics + sc.metrics, winlogs := w.winlogs + sc.winlogs,
                     processedMetrics := w.processedMetrics + sc.metrics,
                     processedWinlogs := w.processedWinlogs + sc.winlogs,
                     registry := AssetJournal.QuarantineAll(w.registry, Located(resolve, sc.alerts))))
    case GiveUp => x.(phase := Idle)
    case Clear(most) =>
      var w, b := x.world, x.phase.batch;
      x.(phase := Trimmed(b), world := w.(entries := w.entries[TrimCount(w.entries, Newest(b), most)..]))
    case Move =>
      var moved := if x.scan.metrics + x.scan.winlogs != [] then Newest(x.phase.batch) else x.world.lastId;
      x.(phase := Idle, world := x.world.(lastId := moved))
    case Stop => x.(phase := Idle)
    case Reboot =>
      x.(phase := Idle, world := x.world.(lastId := 0, processedMetrics := [], processedWinlogs := []))
  }

  ghost predicate AllPossible(x: Session, evs: seq<Event>)
    decreases |evs|
  {
    evs == [] || (Possible(x, evs[0]) && AllPossible(Happen(x, evs[0]), evs[1..]))
  }

  ghost function After(x: Session, evs: seq<Event>): Session
    requires AllPossible(x, evs)
    decreases |evs|
  {
    if evs == [] then x else After(Happen(x, evs[0]), evs[1..])
  }

  // ----- an undisturbed pass is four of these steps -----

  /** The steps of one pass when nothing comes between them. */
  function PassSteps(x: World, n: nat, w: Weather): seq<Event>
    requires n <= |w.clock|
  {
    match AfterPass(x, n, w).1
    case Nothing => []
    case Aborted => [Read(n, w.clock), GiveUp]
    case Processed(_, _) => [Read(n, w.clock), Persist(w.resolve), Clear(w.trim), Move]
  }

  lemma {:induction false} TwoSteps(x: Session, a: Event, b: Event)
    requires Possible(x, a) && Possible(Happen(x, a), b)
    ensures AllPossible(x, [a, b]) && After(x, [a, b]) == Happen(Happen(x, a), b)
  {
    var y := Happen(x, a);
    assert [a, b][1..] == [b] && [b][1..] == [];
    assert AllPossible(Happen(y, b), []) && After(Happen(y, b), []) == Happen(y, b);
    assert AllPossible(y, [b]);
  }

  lemma {:induction false} FourSteps(x: Session, a: Event, b: Event, c: Event, d: Event)
    requires Possible(x, a) && Possible(Happen(x, a), b)
    requires var y := Happen(Happen(x, a), b); Possible(y, c) && Possible(Happen(y, c), d)
    ensures AllPossible(x, [a, b, c, d])
    ensures After(x, [a, b, c, d]) == Happen(Happen(Happen(Happen(x, a), b), c), d)
  {
    TwoSteps(Happen(Happen(x, a), b), c, d);
    assert [a, b, c, d][1..] == [b, c, d] && [b, c, d][1..] == [c, d];
    assert AllPossible(Happen(x, a), [b, c, d]);
  }

  /** The pass of the worker is the run of its steps. */
  lemma {:induction false} PassIsSteps(x: Session, n: nat, w: Weather)
    requires x.phase.Idle? && 0 < n <= |w.clock|
    ensures AllPossible(x, PassSteps(x.world, n, w))
    ensures After(x, PassSteps(x.world, n, w)).world == AfterPass(x.world, n, w).0
    ensures After(x, PassSteps(x.world, n, w)).phase.Idle?
  {
    var b := Batch(x.world.entries, x.world.lastId, n);
    BatchBound(x.world.entries, x.world.lastId, n);
    var y := Happen(x, Read(n, w.clock));
    match AfterPass(x.world, n, w).1 {
      case Nothing =>
      case Aborted => TwoSteps(x, Read(n, w.clock), GiveUp);
      case Processed(_, _) =>
        AlertsHaveRows(b, w.clock, x.world.failures);
        FourSteps(x, Read(n, w.clock), Persist(w.resolve), Clear(w.trim), Move);
    }
  }

  // ----- histories are protocol runs -----

  /** The protocol steps of an event; a batch given up is a fetch that fails. */
  function Steps(x: Session, ev: Event): seq<Action>
    requires Possible(x, ev)
  {
    match ev
    case Arrive(e, evict) => [Publish(e, evict)]
    case Read(n, _) => [Fetch(n)]
    case Halt(n, _, _, _) => if Batch(x.world.entries, x.world.lastId, n) == [] then [] else [Fetch(n), Fail]
    case Persist(_) => [Commit]
    case GiveUp => [Fail]
    case Clear(most) => [Trim(TrimCount(x.world.entries, Newest(x.phase.batch), most))]
    case Move => [Advance]
    case Stop => [Cancel]
    case Reboot => [Restart]
  }

  ghost function AllSteps(x: Session, evs: seq<Event>): seq<Action>
    requires AllPossible(x, evs)
    decreases |evs|
  {
    if evs == [] then [] else Steps(x, evs[0]) + AllSteps(Happen(x, evs[0]), evs[1..])
  }

  /** The scan is that of the batch in flight. */
  ghost predicate ScanFits(x: Session) {
    !x.phase.Idle? ==>
      var b := x.phase.batch;
      && x.scan.raised == Raises(b) && (!x.phase.Fetched? ==> !Raises(b))
      && (!Raises(b) ==>
            && x.scan.metrics == OfType(RowsOf(b), Heartbeat) && x.scan.winlogs == OfType(RowsOf(b), Winlog)
            && (x.scan.metrics + x.scan.winlogs != [] <==> RowsOf(b) != []))
  }

  ghost predicate Agrees(s: State, x: Session) {
    && s.stream == x.world.entries && s.cursor == x.world.lastId && s.phase == x.phase
    && x.world.metrics == OfType(s.rows, Heartbeat) && x.world.winlogs == OfType(s.rows, Winlog)
    && s.published == x.published && s.lastId == Latest(x.published) && ScanFits(x)
  }

  lemma {:induction false} RunOne(s: State, a: Action)
    requires Enabled(s, a)
    ensures Legal(s, [a]) && Run(s, [a]) == Apply(s, a)
  {
    var t := Apply(s, a);
    assert [a][1..] == [] && Legal(t, []) && Run(t, []) == t;
  }

  lemma {:induction false} FailedFetch(s: State, n: nat)
    requires s.phase.Idle? && n > 0 && Batch(s.stream, s.cursor, n) != []
    ensures Legal(s, [Fetch(n), Fail]) && Run(s, [Fetch(n), Fail]) == s
  {
    var t := Apply(s, Fetch(n));
    RunOne(t, Fail);
    assert [Fetch(n), Fail][1..] == [Fail];
  }

  lemma {:induction false} ScanFitsBatch(b: seq<Entry>, clock: seq<int>, store: Store)
    requires |b| <= |clock|
    ensures var sc := ScanBatch(b, clock, store);
            && sc.raised == Raises(b)
            && (!Raises(b) ==>
                  && sc.metrics == OfType(RowsOf(b), Heartbeat) && sc.winlogs == OfType(RowsOf(b), Winlog)
                  && (sc.metrics + sc.winlogs != [] <==> RowsOf(b) != []))
  {
    ScanMeaning(b, clock, store);
    RowsByTable(b);
  }

  /** One event is one action, or a fetch that fails. */
  lemma {:induction false} EventStep(s: State, x: Session, ev: Event)
    requires Agrees(s, x) && Possible(x, ev) && !ev.Halt?
    ensures |Steps(x, ev)| == 1 && Enabled(s, Steps(x, ev)[0])
    ensures Agrees(Apply(s, Steps(x, ev)[0]), Happen(x, ev))
  {
    match ev {
      case Arrive(_, _) =>
      case Read(n, clock) =>
        var b := Batch(x.world.entries, x.world.lastId, n);
        BatchBound(x.world.entries, x.world.lastId, n);
        ScanFitsBatch(b, clock, x.world.failures);
      case Persist(_) =>
        OfTypeConcat(s.rows, RowsOf(x.phase.batch), Heartbeat);
        OfTypeConcat(s.rows, RowsOf(x.phase.batch), Winlog);
      case GiveUp =>
      case Clear(_) =>
      case Move =>
      case Stop =>
      case Reboot =>
    }
  }

  lemma {:induction false} HaltSteps(s: State, x: Session, ev: Event)
    requires Agrees(s, x) && Possible(x, ev) && ev.Halt?
    ensures Legal(s, Steps(x, ev)) && Run(s, Steps(x, ev)) == s && Agrees(s, Happen(x, ev))
  {
    if Batch(x.world.entries, x.world.lastId, ev.batchSize) != [] {
      FailedFetch(s, ev.batchSize);
    }
  }

  lemma {:induction false} EventSteps(s: State, x: Session, ev: Event)
    requires Agrees(s, x) && Possible(x, ev)
    ensures Legal(s, Steps(x, ev)) && Agrees(Run(s, Steps(x, ev)), Happen(x, ev))
  {
    if ev.Halt? {
      HaltSteps(s, x, ev);
    } else {
      EventStep(s, x, ev);
      RunOne(s, Steps(x, ev)[0]);
      assert Steps(x, ev) == [Steps(x, ev)[0]];
    }
  }

  /** Refinement: whatever happens around and inside the passes of the consumer, stream, cursor and tables
      change as in a run of the protocol. */
  lemma {:induction false} HistoryIsRun(s: State, x: Session, evs: seq<Event>)
    requires Agrees(s, x) && AllPossible(x, evs)
    ensures Legal(s, AllSteps(x, evs)) && Agrees(Run(s, AllSteps(x, evs)), After(x, evs))
    decreases |evs|
  {
    if evs != [] {
      EventSteps(s, x, evs[0]);
      HistoryIsRun(Run(s, Steps(x, evs[0])), Happen(x, evs[0]), evs[1..]);
      RunConcat(s, Steps(x, evs[0]), AllSteps(Happen(x, evs[0]), evs[1..]));
    }
  }

  lemma {:induction false} StartAgrees()
    ensures Agrees(Init, START)
  {
  }

  // ----- the tables -----

  lemma {:induction false} OfTypeMember(rows: seq<Row>, r: Row)
    requires r in rows
    ensures r in OfType(rows, r.eventType)
  {
    var init, last := rows[..|rows| - 1], rows[|rows| - 1];
    assert rows == init + [last];
    if r in init {
      OfTypeMember(init, r);
    }
  }

  /** No loss: the row of every published entry is in its table, or the entry is still in the stream, or
      at least MAX_STREAM_LENGTH entries were published after it. */
  lemma {:induction false} ConsumerLosesNothing(evs: seq<Event>, x: Session, i: nat)
    requires AllPossible(START, evs) && x == After(START, evs) && i < |x.published|
    ensures var o := Classify(x.published[i]);
            o.Emit? ==>
              || o.row in x.world.metrics || o.row in x.world.winlogs
              || x.published[i] in x.world.entries
              || |x.published| - 1 - i >= MAX_STREAM_LENGTH
  {
    StartAgrees();
    HistoryIsRun(Init, START, evs);
    var s := Run(Init, AllSteps(START, evs));
    NoLoss(AllSteps(START, evs), i, s);
    var o := Classify(x.published[i]);
    if o.Emit? && o.row in s.rows {
      OfTypeMember(s.rows, o.row);
    }
  }

  /** Undisturbed: nothing truncated, no cancellation or restart, and no batch given up after a failure in
      it was counted. */
  predicate Undisturbed(x: Session, ev: Event)
    requires Possible(x, ev)
  {
    match ev
    case Arrive(_, evict) => evict == 0
    case Halt(_, _, _, _) => false
    case GiveUp => FailedEntries(Reached(x.phase.batch)) == []
    case Stop => false
    case Reboot => false
    case _ => true
  }

  /** Neither truncation nor cancellation between steps nor restart; batches may be given up. */
  predicate Uninterrupted(ev: Event) { !ev.Stop? && !ev.Reboot? && (ev.Arrive? ==> ev.evict == 0) }

  lemma {:induction false} CalmConcat(s: State, a: seq<Action>, b: seq<Action>)
    requires LegalCalm(s, a, true) && Legal(s, a) && LegalCalm(Run(s, a), b, true)
    ensures LegalCalm(s, a + b, true)
    decreases |a|
  {
    if a == [] {
      assert a + b == b;
    } else {
      CalmConcat(Apply(s, a[0]), a[1..], b);
      assert (a + b)[0] == a[0] && (a + b)[1..] == a[1..] + b;
    }
  }

  lemma {:induction false} QuietSteps(s: State, acts: seq<Action>)
    requires Legal(s, acts)
    requires forall i :: 0 <= i < |acts| ==>
        !acts[i].Cancel? && !acts[i].Restart? && (acts[i].Publish? ==> acts[i].evict == 0)
    ensures LegalCalm(s, acts, true)
    decreases |acts|
  {
    if acts != [] {
      QuietSteps(Apply(s, acts[0]), acts[1..]);
    }
  }

  lemma {:induction false} CalmSteps(s: State, x: Session, ev: Event)
    requires Agrees(s, x) && Possible(x, ev) && Uninterrupted(ev)
    ensures Legal(s, Steps(x, ev)) && LegalCalm(s, Steps(x, ev), true)
  {
    hide Agrees, TrimCount, LegalCalm, Legal, Happen;
    EventSteps(s, x, ev);
    QuietSteps(s, Steps(x, ev));
  }

  lemma {:induction false} UninterruptedIsCalm(s: State, x: Session, evs: seq<Event>)
    requires Agrees(s, x) && AllPossible(x, evs) && forall i :: 0 <= i < |evs| ==> Uninterrupted(evs[i])
    ensures Legal(s, AllSteps(x, evs)) && LegalCalm(s, AllSteps(x, evs), true)
    decreases |evs|
  {
    hide Steps, Happen, Agrees, Uninterrupted, Possible;
    HistoryIsRun(s, x, evs);
    if evs != [] {
      EventSteps(s, x, evs[0]);
      CalmSteps(s, x, evs[0]);
      UninterruptedIsCalm(Run(s, Steps(x, evs[0])), Happen(x, evs[0]), evs[1..]);
      CalmConcat(s, Steps(x, evs[0]), AllSteps(Happen(x, evs[0]), evs[1..]));
    }
  }

  /** What the consumer has stored reaches up to here. */
  ghost function StoredUpTo(x: Session): nat {
    if (x.phase.Committed? || x.phase.Trimmed?) && x.phase.batch != [] then Newest(x.phase.batch) else x.world.lastId
  }

  /** The rows stored over a history without truncation, cancellation and restart. */
  lemma {:induction false} RowsUpToCursor(evs: seq<Event>, x: Session)
    requires AllPossible(START, evs) && x == After(START, evs) && forall i :: 0 <= i < |evs| ==> Uninterrupted(evs[i])
    ensures Legal(Init, AllSteps(START, evs))
    ensures Agrees(Run(Init, AllSteps(START, evs)), x)
    ensures Run(Init, AllSteps(START, evs)).rows == RowsOf(UpTo(x.published, StoredUpTo(x)))
  {
    StartAgrees();
    HistoryIsRun(Init, START, evs);
    UninterruptedIsCalm(Init, START, evs);
    ExactlyOnce(AllSteps(START, evs), Run(Init, AllSteps(START, evs)));
  }

  /** Exactly once: without truncation, cancellation and restart the two tables hold at every moment, in
      order, the rows of the published entries up to the cursor or to the end of the batch just committed,
      also after failed reads, batches given up and skipped batches. */
  lemma {:induction false} ConsumerExactlyOnce(evs: seq<Event>, x: Session)
    requires AllPossible(START, evs) && x == After(START, evs) && forall i :: 0 <= i < |evs| ==> Uninterrupted(evs[i])
    ensures x.world.metrics == OfType(RowsOf(UpTo(x.published, StoredUpTo(x))), Heartbeat)
    ensures x.world.winlogs == OfType(RowsOf(UpTo(x.published, StoredUpTo(x))), Winlog)
  {
    RowsUpToCursor(evs, x);
  }

  // ----- the failures counted from pass to pass -----

  lemma {:induction false} FailedMembers(es: seq<Entry>, e: Entry)
    ensures e in FailedEntries(es) <==> e in es && IsFailedLogin(e)
  {
    if es != [] {
      var init, last := es[..|es| - 1], es[|es| - 1];
      FailedMembers(init, e);
      assert es == init + [last];
    }
  }

  lemma {:induction false} ReachedPrefix(a: seq<Entry>, b: seq<Entry>)
    requires a <= b
    ensures Reached(a) <= Reached(b)
  {
    if |a| < |b| {
      ReachedPrefix(a, b[..|b| - 1]);
    } else {
      assert a == b;
    }
  }

  lemma {:induction false} AfterAppend(es: seq<Entry>, more: seq<Entry>, cursor: nat)
    requires TelemetryStream.After(es, cursor) != []
    ensures TelemetryStream.After(es + more, cursor) == TelemetryStream.After(es, cursor) + more
  {
    if es[0].id <= cursor {
      assert (es + more)[1..] == es[1..] + more;
      AfterAppend(es[1..], more, cursor);
    }
  }

  lemma {:induction false} BatchGrows(es: seq<Entry>, more: seq<Entry>, cursor: nat, n: nat)
    requires Batch(es, cursor, n) != []
    ensures Batch(es, cursor, n) <= Batch(es + more, cursor, n)
  {
    AfterAppend(es, more, cursor);
  }

  lemma {:induction false} AheadOfCursor(es: seq<Entry>, cursor: nat, n: nat, e: Entry)
    requires Ascending(es) && e in Batch(es, cursor, n)
    ensures cursor < e.id <= Newest(Batch(es, cursor, n))
  {
    var b := Batch(es, cursor, n);
    var k := AfterFacts(es, cursor);
    var i :| 0 <= i < |b| && b[i] == e;
    assert b[0] == es[k] && b[i] == es[k + i] && b[|b| - 1] == es[k + |b| - 1];
  }

  lemma {:induction false} NewestOfRows(es: seq<Entry>, cursor: nat, n: nat, e: Entry)
    requires Ascending(es) && e in Batch(es, cursor, n) && Classify(e).Emit?
    ensures e.id <= NextCursor(cursor, Batch(es, cursor, n))
  {
    var b := Batch(es, cursor, n);
    var i: nat :| i < |b| && b[i] == e;
    RowsOfMember(b, i);
    AheadOfCursor(es, cursor, n, e);
  }

  lemma {:induction false} NotReadAgain(es: seq<Entry>, k: nat, cursor: nat, n: nat, e: Entry)
    requires Ascending(es) && k <= |es| && e.id <= cursor
    ensures e !in Batch(es[k..], cursor, n)
  {
    if e in Batch(es[k..], cursor, n) {
      AheadOfCursor(es[k..], cursor, n, e);
    }
  }

  lemma {:induction false} StaysBehind(es: seq<Entry>, cursor: nat, n: nat, k: nat, more: seq<Entry>, e: Entry)
    requires Ascending(es + more) && k <= |es| && e in Batch(es, cursor, n) && Classify(e).Emit?
    ensures e !in Batch(es[k..] + more, NextCursor(cursor, Batch(es, cursor, n)), n)
  {
    var all := es + more;
    assert es[k..] + more == all[k..];
    assert Ascending(es) by {
      assert forall i :: 0 <= i < |es| ==> all[i] == es[i];
    }
    NewestOfRows(es, cursor, n, e);
    NotReadAgain(all, k, NextCursor(cursor, Batch(es, cursor, n)), n, e);
  }

  lemma {:induction false} ProcessedMoves(x: World, n: nat, w: Weather) returns (k: nat)
    requires n <= |w.clock| && AfterPass(x, n, w).1.Processed?
    ensures var b, y := Batch(x.entries, x.lastId, n), AfterPass(x, n, w).0;
            b != [] && y.lastId == NextCursor(x.lastId, b) && k <= |x.entries| && y.entries == x.entries[k..]
  {
    var b := Batch(x.entries, x.lastId, n);
    BatchBound(x.entries, x.lastId, n);
    ScanMeaning(b, w.clock, x.failures);
    RowsByTable(b);
    k := TrimCount(x.entries, Newest(b), w.trim);
  }

  /** A failure counted in one pass is counted again by the next exactly when the pass was aborted,
      whatever arrives in between. */
  lemma {:induction false} CountedAgainIff(x: World, n: nat, w: Weather, more: seq<Entry>, e: Entry)
    requires n <= |w.clock| && w.readable && Ascending(x.entries + more)
    requires e in FailedEntries(Reached(Batch(x.entries, x.lastId, n)))
    ensures var y := AfterPass(x, n, w);
            e in FailedEntries(Reached(Batch(y.0.entries + more, y.0.lastId, n))) <==> y.1.Aborted?
  {
    var b, y := Batch(x.entries, x.lastId, n), AfterPass(x, n, w);
    FailedMembers(Reached(b), e);
    assert e in b;
    PassStopsIff(x, n, w);
    if y.1.Aborted? {
      CountedAgain(x.entries, x.lastId, n, more, e);
    } else {
      var k := ProcessedMoves(x, n, w);
      StaysBehind(x.entries, x.lastId, n, k, more, e);
      FailedMembers(Reached(Batch(y.0.entries + more, y.0.lastId, n)), e);
    }
  }

  lemma {:induction false} CountedAgain(es: seq<Entry>, cursor: nat, n: nat, more: seq<Entry>, e: Entry)
    requires e in FailedEntries(Reached(Batch(es, cursor, n)))
    ensures e in FailedEntries(Reached(Batch(es + more, cursor, n)))
  {
    FailedMembers(Reached(Batch(es, cursor, n)), e);
    FailedMembers(Reached(Batch(es + more, cursor, n)), e);
    BatchGrows(es, more, cursor, n);
    ReachedPrefix(Batch(es, cursor, n), Batch(es + more, cursor, n));
  }

  ghost predicate AllUndisturbed(x: Session, evs: seq<Event>)
    requires AllPossible(x, evs)
    decreases |evs|
  {
    evs == [] || (Undisturbed(x, evs[0]) && AllUndisturbed(Happen(x, evs[0]), evs[1..]))
  }

  lemma {:induction false} UndisturbedIsUninterrupted(x: Session, evs: seq<Event>)
    requires AllPossible(x, evs) && AllUndisturbed(x, evs)
    ensures forall i :: 0 <= i < |evs| ==> Uninterrupted(evs[i])
    decreases |evs|
  {
    if evs != [] {
      UndisturbedIsUninterrupted(Happen(x, evs[0]), evs[1..]);
      assert forall i :: 0 < i < |evs| ==> evs[i] == evs[1..][i - 1];
    }
  }

  /** The failed login with this id, if it is one. */
  function FailedWithId(published: seq<Entry>, id: nat): seq<Entry> {
    if published == [] then []
    else
      var last := published[|published| - 1];
      if last.id == id then (if IsFailedLogin(last) then [last] else [])
          else FailedWithId(published[..|published| - 1], id)
  }

  /** The failed logins that these rows come from. */
  function FailedOfRows(published: seq<Entry>, rows: seq<Row>): seq<Entry> {
    if rows == [] then []
    else FailedOfRows(published, rows[..|rows| - 1]) + FailedWithId(published, rows[|rows| - 1].origin)
  }

  lemma {:induction false} FailedOfRowsConcat(published: seq<Entry>, a: seq<Row>, b: seq<Row>)
    ensures FailedOfRows(published, a + b) == FailedOfRows(published, a) + FailedOfRows(published, b)
  {
    if b == [] {
      assert a + b == a;
    } else {
      FailedOfRowsConcat(published, a, b[..|b| - 1]);
      assert (a + b)[..|a + b| - 1] == a + b[..|b| - 1];
    }
  }

  lemma {:induction false} FailedOfRow(published: seq<Entry>, rows: seq<Row>, r: Row)
    ensures FailedOfRows(published, rows + [r]) == FailedOfRows(published, rows) + FailedWithId(published, r.origin)
  {
    assert (rows + [r])[..|rows|] == rows;
  }

  lemma {:induction false} FoundById(published: seq<Entry>, e: Entry)
    requires Ascending(published) && e in published
    ensures FailedWithId(published, e.id) == if IsFailedLogin(e) then [e] else []
  {
    var init, last := published[..|published| - 1], published[|published| - 1];
    assert published == init + [last];
    if e in init {
      FoundById(init, e);
    }
  }

  /** Rows tell which failed logins they come from. */
  lemma {:induction false} FailedFromRows(published: seq<Entry>, es: seq<Entry>)
    requires Ascending(published) && forall e :: e in es ==> e in published
    ensures FailedEntries(es) == FailedOfRows(published, RowsOf(es))
  {
    if es != [] {
      var init, last := es[..|es| - 1], es[|es| - 1];
      assert es == init + [last];
      FailedFromRows(published, init);
      if Classify(last).Emit? {
        FoundById(published, last);
        FailedOfRow(published, RowsOf(init), Classify(last).row);
      } else {
        assert RowsOf(es) == RowsOf(init) && FailedEntries(es) == FailedEntries(init);
      }
    }
  }

  /** The failures counted are those of the rows stored, and of the batch being looked at. */
  ghost predicate CountedFits(s: State, x: Session, all: seq<Entry>) {
    x.counted == FailedOfRows(all, s.rows) + if x.phase.Fetched? then FailedEntries(Reached(x.phase.batch)) else []
  }

  lemma {:induction false} BatchPublished(s: State, all: seq<Entry>)
    requires WellFormed(s) && !s.phase.Idle? && forall e :: e in s.published ==> e in all
    ensures forall e :: e in s.phase.batch ==> e in all
  {
    var lo: nat :| BatchAt(s, s.phase.batch, lo) && s.published[lo].id > s.cursor;
    forall e | e in s.phase.batch ensures e in all {
      var k :| 0 <= k < |s.phase.batch| && s.phase.batch[k] == e;
      assert s.published[lo + k] == e;
    }
  }

  lemma {:induction false} CountedPersist(s: State, x: Session, resolve: string -> nat, all: seq<Entry>)
    requires Agrees(s, x) && WellFormed(s) && Possible(x, Persist(resolve)) && CountedFits(s, x, all)
    requires Ascending(all) && forall e :: e in s.published ==> e in all
    ensures CountedFits(Apply(s, Commit), Happen(x, Persist(resolve)), all)
  {
    var b := x.phase.batch;
    BatchPublished(s, all);
    ReachedAll(b);
    FailedFromRows(all, b);
    FailedOfRowsConcat(all, s.rows, RowsOf(b));
  }

  lemma {:induction false} CountedStep(s: State, x: Session, ev: Event, all: seq<Entry>)
    requires Agrees(s, x) && WellFormed(s) && Possible(x, ev) && Undisturbed(x, ev) && CountedFits(s, x, all)
    requires Ascending(all) && forall e :: e in s.published ==> e in all
    ensures Legal(s, Steps(x, ev)) && CountedFits(Run(s, Steps(x, ev)), Happen(x, ev), all)
  {
    EventStep(s, x, ev);
    RunOne(s, Steps(x, ev)[0]);
    assert Steps(x, ev) == [Steps(x, ev)[0]];
    if ev.Persist? {
      CountedPersist(s, x, ev.resolve, all);
    }
  }

  lemma {:induction false} PublishedGrows(x: Session, evs: seq<Event>)
    requires AllPossible(x, evs)
    ensures x.published <= After(x, evs).published
    decreases |evs|
  {
    if evs != [] {
      PublishedGrows(Happen(x, evs[0]), evs[1..]);
    }
  }

  lemma {:induction false} CountedFromRows(s: State, x: Session, evs: seq<Event>, all: seq<Entry>)
    requires Agrees(s, x) && WellFormed(s) && AllPossible(x, evs) && AllUndisturbed(x, evs) && CountedFits(s, x, all)
    requires Ascending(all) && After(x, evs).published == all
    ensures Legal(s, AllSteps(x, evs)) && CountedFits(Run(s, AllSteps(x, evs)), After(x, evs), all)
    decreases |evs|
  {
    hide Possible, Happen, Undisturbed, Steps, Agrees, CountedFits, WellFormed;
    if evs != [] {
      PublishedGrows(x, evs);
      HistoryPublished(s, x);
      CountedStep(s, x, evs[0], all);
      EventSteps(s, x, evs[0]);
      RunWellFormed(s, Steps(x, evs[0]));
      CountedFromRows(Run(s, Steps(x, evs[0])), Happen(x, evs[0]), evs[1..], all);
      RunConcat(s, Steps(x, evs[0]), AllSteps(Happen(x, evs[0]), evs[1..]));
    }
  }

  lemma {:induction false} HistoryPublished(s: State, x: Session)
    requires Agrees(s, x)
    ensures s.published == x.published
  {
  }

  lemma {:induction false} InUpTo(es: seq<Entry>, cursor: nat)
    ensures forall e :: e in UpTo(es, cursor) ==> e in es
  {
    if es != [] && es[0].id <= cursor {
      InUpTo(es[1..], cursor);
    }
  }

  lemma {:induction false} StartCounts(all: seq<Entry>)
    ensures WellFormed(Init) && Agrees(Init, START) && CountedFits(Init, START, all)
  {
  }

  lemma {:induction false} HistoryAscends(evs: seq<Event>)
    requires AllPossible(START, evs)
    ensures Ascending(After(START, evs).published)
  {
    StartAgrees();
    HistoryIsRun(Init, START, evs);
    RunWellFormed(Init, AllSteps(START, evs));
  }

  lemma {:induction false} CountedBetweenPasses(s: State, x: Session, all: seq<Entry>)
    requires CountedFits(s, x, all) && x.phase.Idle?
    ensures x.counted == FailedOfRows(all, s.rows) && StoredUpTo(x) == x.world.lastId
  {
  }

  /** Over an undisturbed history, whenever no pass is under way, every failed login up to the cursor has
      been counted exactly once, in order, and no other. */
  lemma {:induction false} CountedExactlyOnce(evs: seq<Event>, x: Session)
    requires AllPossible(START, evs) && AllUndisturbed(START, evs) && x == After(START, evs) && x.phase.Idle?
    ensures x.counted == FailedEntries(UpTo(x.published, x.world.lastId)) && Ascending(x.published)
  {
    hide *;
    HistoryAscends(evs);
    StartCounts(x.published);
    CountedFromRows(Init, START, evs, x.published);
    UndisturbedIsUninterrupted(START, evs);
    RowsUpToCursor(evs, x);
    CountedBetweenPasses(Run(Init, AllSteps(START, evs)), x, x.published);
    InUpTo(x.published, x.world.lastId);
    FailedFromRows(x.published, UpTo(x.published, x.world.lastId));
  }

  /** Each failure is that of its entry, at some time. */
  ghost predicate FromEntries(fs: seq<Failure>, es: seq<Entry>) {
    && |fs| == |es|
    && forall i :: 0 <= i < |fs| ==> IsFailedLogin(es[i]) && fs[i].ip == es[i].payload.sourceIp
  }

  /** The failures behind the counters are those of the entries counted. */
  ghost predicate Recorded(x: Session) {
    x.world.failures == RecordAll(map[], x.recorded) && FromEntries(x.recorded, x.counted)
  }

  lemma {:induction false} FailuresAreEntries(es: seq<Entry>, clock: seq<int>)
    requires |es| <= |clock|
    ensures FromEntries(FailuresOf(es, clock), FailedEntries(es))
  {
    if es != [] {
      FailuresAreEntries(es[..|es| - 1], clock);
    }
  }

  lemma {:induction false} FromEntriesConcat(fs: seq<Failure>, es: seq<Entry>, gs: seq<Failure>, hs: seq<Entry>)
    requires FromEntries(fs, es) && FromEntries(gs, hs)
    ensures FromEntries(fs + gs, es + hs)
  {
  }

  lemma {:induction false} LookRecords(x: Session, b: seq<Entry>, clock: seq<int>)
    requires |b| <= |clock| && Recorded(x)
    ensures Recorded(LookThrough(x, b, clock))
  {
    ScanMeaning(b, clock, x.world.failures);
    FailuresAreEntries(Reached(b), clock);
    FromEntriesConcat(x.recorded, x.counted, FailuresOf(Reached(b), clock), FailedEntries(Reached(b)));
    RecordAllConcat(map[], x.recorded, FailuresOf(Reached(b), clock));
  }

  lemma {:induction false} CutRecords(x: Session, e: Entry, now: int)
    requires IsFailedLogin(e) && Recorded(x)
    ensures Recorded(CutOff(x, e, now))
  {
    var f := Failure(e.payload.sourceIp, Hit(now, true));
    assert (x.recorded + [f])[..|x.recorded|] == x.recorded;
  }

  lemma {:induction false} EventRecords(x: Session, ev: Event)
    requires Possible(x, ev) && Recorded(x)
    ensures Recorded(Happen(x, ev))
  {
    hide LookThrough, CutOff, FromEntries, RecordAll;
    match ev {
      case Read(n, clock) =>
        var b := Batch(x.world.entries, x.world.lastId, n);
        BatchBound(x.world.entries, x.world.lastId, n);
        LookRecords(x, b, clock);
      case Halt(n, clock, upto, cut) =>
        var b := Batch(x.world.entries, x.world.lastId, n);
        BatchBound(x.world.entries, x.world.lastId, n);
        LookRecords(x, Take(b, upto), clock);
        if upto < |b| && IsFailedLogin(b[upto]) {
          CutRecords(LookThrough(x, Take(b, upto), clock), b[upto], clock[upto]);
        }
      case _ =>
    }
  }

  /** In every history, disturbed or not, the counters are those of the failures counted. */
  lemma {:induction false} CountersAreRecorded(x: Session, evs: seq<Event>)
    requires AllPossible(x, evs) && Recorded(x)
    ensures Recorded(After(x, evs))
    decreases |evs|
  {
    if evs != [] {
      EventRecords(x, evs[0]);
      CountersAreRecorded(Happen(x, evs[0]), evs[1..]);
    }
  }

  // ----- one failed login, counted again and again -----

  /** Passes in a row. */
  function Passes(x: World, n: nat, ws: seq<Weather>): World
    requires forall w :: w in ws ==> n <= |w.clock|
  {
    if ws == [] then x else AfterPass(Passes(x, n, ws[..|ws| - 1]), n, ws[|ws| - 1]).0
  }

  /** No transaction goes through; some reads may fail as well. */
  ghost predicate Outage(n: nat, ws: seq<Weather>) { forall w :: w in ws ==> !w.commits && 0 < n <= |w.clock| }

  /** The first entry of a pass, counted. */
  function First(w: Weather): Hit
    requires |w.clock| > 0
  {
    Hit(w.clock[0], false)
  }

  /** When the passes that could read looked at the first entry of their batch. */
  function LookedAt(ws: seq<Weather>): seq<Hit>
    requires forall w :: w in ws ==> |w.clock| > 0
  {
    if ws == [] then []
    else LookedAt(ws[..|ws| - 1]) + if ws[|ws| - 1].readable then [First(ws[|ws| - 1])] else []
  }

  /** Nothing but one entry waiting on the stream, after the failures `fs` were counted. */
  function Lone(e: Entry, fs: seq<Failure>, r: AssetJournal.Registry): World {
    World([e], RecordAll(map[], fs), 0, [], [], [], [], r)
  }

  /** From a count of six on there is an alert. */
  function AlertsAt(e: Entry, ip: string, count: nat): seq<Alert> {
    if count >= 6 then [Alert(e.fingerprint, ip, count)] else []
  }

  /** A failed login, event 4625 of the Windows log, from this address. */
  predicate IsLogin(e: Entry, ip: string) {
    e.id > 0 && e.eventType.Winlog? && e.payload == Usable(4625, ip) && ip != ""
  }

  lemma {:induction false} OneEntryPass(x: World, e: Entry, ip: string, n: nat, w: Weather)
    requires IsLogin(e, ip) && x.entries == [e] && x.lastId < e.id && 0 < n <= |w.clock| && w.readable
    ensures var f := Failure(ip, First(w));
            && (!w.commits ==> AfterPass(x, n, w) == (x.(failures := RecordFailure(x.failures, f)), Aborted))
            && (w.commits ==>
                  AfterPass(x, n, w).1 == Processed(1, AlertsAt(e, ip, Count(Lookup(x.failures, ip), f.hit.time))))
  {
    assert Batch([e], x.lastId, n) == [e] && [e][..0] == [];
    var sc := ScanBatch([e], w.clock, x.failures);
    assert ScanBatch([], w.clock, x.failures) == Scan([], [], [], x.failures, false);
    assert sc == ScanEntry(ScanBatch([], w.clock, x.failures), e, w.clock[0]);
    assert |sc.winlogs| == 1 && sc.metrics == [];
  }

  /** An outage counts the login once for every pass that could read, and changes nothing else. */
  lemma {:induction false} OutageCounts(e: Entry, ip: string, fs: seq<Failure>, n: nat, ws: seq<Weather>,
      r: AssetJournal.Registry)
    returns (gs: seq<Failure>)
    requires IsLogin(e, ip) && Outage(n, ws)
    ensures Passes(Lone(e, fs, r), n, ws) == Lone(e, gs, r)
    ensures HitsOf(gs, ip) == HitsOf(fs, ip) + LookedAt(ws)
  {
    hide AfterPass;
    if ws == [] {
      gs := fs;
    } else {
      var init, w := ws[..|ws| - 1], ws[|ws| - 1];
      gs := OutageCounts(e, ip, fs, n, init, r);
      assert w in ws;
      if w.readable {
        var f := Failure(ip, First(w));
        OneEntryPass(Lone(e, gs, r), e, ip, n, w);
        HitsOfSnoc(gs, f, f.ip);
        assert (gs + [f])[..|gs|] == gs;
        gs := gs + [f];
      } else {
        PassFindsNothing(Lone(e, gs, r), n, w);
      }
    }
  }

  /** A single failed login after an outage, whenever its passes came: the pass that goes through reports
      it, and quarantines its asset, exactly when the key of its address alerts at the increments of all
      passes that could read, of which the login itself was only one. */
  lemma {:induction false} LoneLoginReportedIff(e: Entry, ip: string, fs: seq<Failure>, n: nat,
      ws: seq<Weather>, w: Weather, r: AssetJournal.Registry)
    requires IsLogin(e, ip) && Outage(n, ws) && 0 < n <= |w.clock| && w.readable && w.commits
    ensures var y := AfterPass(Passes(Lone(e, fs, r), n, ws), n, w);
            var before := HitsOf(fs, ip) + LookedAt(ws);
            var alerts := AlertsAt(e, ip, CountAt(before + [First(w)], |before|));
            y.1 == Processed(1, alerts) && y.0.registry == AssetJournal.QuarantineAll(r, Located(w.resolve, alerts))
  {
    var before := HitsOf(fs, ip) + LookedAt(ws);
    var gs := OutageCounts(e, ip, fs, n, ws, r);
    AddressesIndependent(gs, ip);
    assert (before + [First(w)])[..|before|] == before;
    OneEntryPass(Lone(e, gs, r), e, ip, n, w);
    PassEffect(Lone(e, gs, r), n, w);
  }

  /** Passes within 60 seconds of the first all count, so there five aborted ones suffice. */
  lemma {:induction false} QuickOutageReportedIff(e: Entry, ip: string, n: nat, ws: seq<Weather>, w: Weather,
      r: AssetJournal.Registry)
    requires IsLogin(e, ip) && Outage(n, ws) && 0 < n <= |w.clock| && w.readable && w.commits
    requires var hits := LookedAt(ws) + [First(w)];
             forall k :: 0 <= k < |hits| ==> hits[0].time <= hits[k].time < hits[0].time + 60000
    ensures AfterPass(Passes(Lone(e, [], r), n, ws), n, w).1 == Processed(1, AlertsAt(e, ip, |LookedAt(ws)| + 1))
  {
    hide AfterPass, Passes, Lone;
    var hits := LookedAt(ws) + [First(w)];
    LoneLoginReportedIff(e, ip, [], n, ws, w, r);
    assert HitsOf([], ip) + LookedAt(ws) == LookedAt(ws);
    assert hits[..0] == [];
    CountRunsOn(hits, 0, |LookedAt(ws)|);
  }

  /** Passes at a steady pace report a single login exactly after five aborted ones that come less than
      twelve seconds apart; slower ones never do, however many there are. */
  lemma {:induction false} SteadyOutageReportedIff(e: Entry, ip: string, n: nat, ws: seq<Weather>, w: Weather, d: nat,
      r: AssetJournal.Registry)
    requires IsLogin(e, ip) && Outage(n, ws) && 0 < n <= |w.clock| && w.readable && w.commits
    requires Steady(LookedAt(ws) + [First(w)], d)
    ensures AfterPass(Passes(Lone(e, [], r), n, ws), n, w).1 ==
              Processed(1, if d < 12000 then AlertsAt(e, ip, |LookedAt(ws)| + 1) else [])
  {
    hide AfterPass, Passes, Lone, CountAt;
    LoneLoginReportedIff(e, ip, [], n, ws, w, r);
    assert HitsOf([], ip) + LookedAt(ws) == LookedAt(ws);
    SteadyCount(LookedAt(ws) + [First(w)], d, |LookedAt(ws)|);
  }

  /** Aborted passes a quarter of a minute apart. */
  function SlowPasses(k: nat, resolve: string -> nat): (ws: seq<Weather>)
    ensures |ws| == k
  {
    if k == 0 then [] else SlowPasses(k - 1, resolve) + [Weather(true, false, [15000 * (k - 1)], 0, resolve)]
  }

  lemma {:induction false} SlowPassesAreSteady(k: nat, resolve: string -> nat)
    ensures Outage(1, SlowPasses(k, resolve)) && |LookedAt(SlowPasses(k, resolve))| == k
    ensures forall i :: 0 <= i < k ==> LookedAt(SlowPasses(k, resolve))[i] == Hit(15000 * i, false)
  {
    if k > 0 {
      SlowPassesAreSteady(k - 1, resolve);
      assert SlowPasses(k, resolve)[..k - 1] == SlowPasses(k - 1, resolve);
    }
  }

  /** So five aborted passes, or any other number, need not lead to an alert. */
  lemma {:induction false} SlowOutageSilent(e: Entry, ip: string, k: nat,
      resolve: string -> nat, r: AssetJournal.Registry)
    requires IsLogin(e, ip)
    ensures Outage(1, SlowPasses(k, resolve)) && |LookedAt(SlowPasses(k, resolve))| == k
    ensures AfterPass(Passes(Lone(e, [], r), 1, SlowPasses(k, resolve)), 1,
                Weather(true, true, [15000 * k], 0, resolve)).1 == Processed(1, [])
  {
    SlowPassesAreSteady(k, resolve);
    assert Steady(LookedAt(SlowPasses(k, resolve)) + [Hit(15000 * k, false)], 15000);
    SteadyOutageReportedIff(e, ip, 1, SlowPasses(k, resolve), Weather(true, true, [15000 * k], 0, resolve), 15000, r);
  }

  // ----- the registry -----

  /** The consumer keeps the registry consistent: its journal goes on determining it. */
  lemma {:induction false} RegistryStaysConsistent(x: Session, evs: seq<Event>)
    requires AllPossible(x, evs) && AssetJournal.Consistent(x.world.registry)
    ensures AssetJournal.Consistent(After(x, evs).world.registry)
    decreases |evs|
  {
    if evs != [] {
      if evs[0].Persist? {
        AssetJournal.QuarantineConsistent(x.world.registry, Located(evs[0].resolve, x.scan.alerts));
      }
      RegistryStaysConsistent(Happen(x, evs[0]), evs[1..]);
    }
  }
}
