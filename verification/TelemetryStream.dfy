/** The telemetry stream protocol as a state machine over its interleaved steps: publishers append
    to a bounded Redis stream while one consumer reads after its in-memory cursor, commits a batch
    in one transaction, trims the stream and advances the cursor. */
module TelemetryStream {

  const MAX_STREAM_LENGTH: nat := 100000

  datatype EventType = Heartbeat | Winlog | OtherType

  /** What `json.loads` and the field conversions make of an entry's payload. */
  datatype Payload =
    | Malformed                                  // JSONDecodeError: logged and dropped
    | Unusable                                   // parses, but a later conversion raises
    | Usable(eventId: int, sourceIp: string)     // "" stands for no source address

  /** Stream ids grow strictly; 0 stands for the initial cursor "0-0". */
  datatype Entry = Entry(id: nat, eventType: EventType, fingerprint: string, payload: Payload)

  datatype Row = Row(origin: nat, eventType: EventType, fingerprint: string, eventId: int)

  datatype Outcome = Skip | Raise | Emit(row: Row)

  /** What the batch loop does with one entry. */
  function Classify(e: Entry): Outcome {
    if e.payload.Malformed? || e.eventType.OtherType? then Skip
    else if e.payload.Unusable? then Raise
    else Emit(Row(e.id, e.eventType, e.fingerprint, if e.eventType.Winlog? then e.payload.eventId else 0))
  }

  predicate Raises(es: seq<Entry>) {
    exists i :: 0 <= i < |es| && Classify(es[i]).Raise?
  }

  /** The rows a batch commits, in stream order. */
  function RowsOf(es: seq<Entry>): seq<Row> {
    if es == [] then []
    else
      var init, last := es[..|es| - 1], es[|es| - 1];
      RowsOf(init) + if Classify(last).Emit? then [Classify(last).row] else []
  }

  /** XREAD: the entries behind the cursor, on a stream whose ids ascend. */
  function After(es: seq<Entry>, cursor: nat): seq<Entry> {
    if es == [] || es[0].id > cursor then es else After(es[1..], cursor)
  }

  function Batch(es: seq<Entry>, cursor: nat, n: nat): seq<Entry> {
    var tail := After(es, cursor);
    if |tail| <= n then tail else tail[..n]
  }

  function Newest(b: seq<Entry>): nat
    requires b != []
  {
    b[|b| - 1].id
  }

  /** The cursor moves only past a batch that produced rows. */
  function NextCursor(cursor: nat, b: seq<Entry>): nat
    requires b != []
  {
    if RowsOf(b) != [] then Newest(b) else cursor
  }

  /** XADD ... MAXLEN ~: an approximate trim never cuts below the bound. */
  predicate MayEvict(length: nat, evict: nat) {
    evict == 0 || (evict <= length && length - evict >= MAX_STREAM_LENGTH)
  }

  /** The bound is tight: an XADD to a stream of 100 000 entries may drop the oldest one. */
  lemma {:induction false} TruncationMayDrop(s: State, e: Entry)
    requires WellFormed(s) && |s.stream| >= 100000 && e.id > s.lastId
    ensures Enabled(s, Publish(e, 1)) && s.stream[0] !in Apply(s, Publish(e, 1)).stream
  {
    var later := Apply(s, Publish(e, 1)).stream;
    forall i | 0 <= i < |later| ensures later[i].id > s.stream[0].id {
      assert i < |s.stream| - 1 ==> later[i] == s.stream[i + 1];
    }
  }

  /** XTRIM ... MINID ~: some of the entries below the id go, oldest first. */
  predicate MayTrim(es: seq<Entry>, minId: nat, k: nat) {
    k <= |es| && forall i :: 0 <= i < k ==> es[i].id < minId
  }

  // ----- the state machine -----

  datatype Phase = Idle | Fetched(batch: seq<Entry>) | Committed(batch: seq<Entry>) | Trimmed(batch: seq<Entry>)

  /** `published` is the history of successful XADDs and `interruptions` counts cancelled cycles
      and restarts; the program keeps neither. */
  datatype State = State(stream: seq<Entry>, lastId: nat, cursor: nat, phase: Phase, rows: seq<Row>,
                         published: seq<Entry>, interruptions: nat)

  datatype Action =
    | Publish(entry: Entry, evict: nat)
    | Fetch(batchSize: nat)
    | Commit
    | Fail                      // the transaction fails, or an entry of the batch raises
    | Trim(count: nat)
    | Advance
    | Cancel                    // the worker task is cancelled; the cursor stays
    | Restart                   // the process dies; the next one starts at "0-0"

  const Init := State([], 0, 0, Idle, [], [], 0)

  predicate Enabled(s: State, a: Action) {
    match a
    case Publish(e, evict) => e.id > s.lastId && MayEvict(|s.stream| + 1, evict)
    case Fetch(n) => s.phase.Idle? && n > 0
    case Commit => s.phase.Fetched? && !Raises(s.phase.batch)
    case Fail => s.phase.Fetched?
    case Trim(k) => s.phase.Committed? && s.phase.batch != [] && MayTrim(s.stream, Newest(s.phase.batch), k)
    case Advance => s.phase.Trimmed? && s.phase.batch != []
    case Cancel => true
    case Restart => true
  }

  function Apply(s: State, a: Action): State
    requires Enabled(s, a)
  {
    match a
    case Publish(e, evict) =>
      s.(stream := (s.stream + [e])[evict..], lastId := e.id, published := s.published + [e])
    case Fetch(n) =>
      var b := Batch(s.stream, s.cursor, n);
      if b == [] then s else s.(phase := Fetched(b))
    case Commit => s.(phase := Committed(s.phase.batch), rows := s.rows + RowsOf(s.phase.batch))
    case Fail => s.(phase := Idle)
    case Trim(k) => s.(phase := Trimmed(s.phase.batch), stream := s.stream[k..])
    case Advance => s.(phase := Idle, cursor := NextCursor(s.cursor, s.phase.batch))
    case Cancel => s.(phase := Idle, interruptions := s.interruptions + 1)
    case Restart => s.(phase := Idle, cursor := 0, interruptions := s.interruptions + 1)
  }

  ghost predicate Legal(s: State, acts: seq<Action>)
    decreases |acts|
  {
    acts == [] || (Enabled(s, acts[0]) && Legal(Apply(s, acts[0]), acts[1..]))
  }

  ghost function Run(s: State, acts: seq<Action>): State
    requires Legal(s, acts)
    decreases |acts|
  {
    if acts == [] then s else Run(Apply(s, acts[0]), acts[1..])
  }

  // ----- facts about batches -----

  lemma {:induction false} RowsOfConcat(a: seq<Entry>, b: seq<Entry>)
    ensures RowsOf(a + b) == RowsOf(a) + RowsOf(b)
  {
    if b == [] {
      assert a + b == a;
    } else {
      var init := b[..|b| - 1];
      RowsOfConcat(a, init);
      assert (a + b)[..|a + b| - 1] == a + init;
    }
  }

  lemma {:induction false} RowsOfMember(es: seq<Entry>, i: nat)
    requires i < |es| && Classify(es[i]).Emit?
    ensures Classify(es[i]).row in RowsOf(es)
  {
    if i < |es| - 1 {
      RowsOfMember(es[..|es| - 1], i);
    }
  }

  lemma {:induction false} RowsOfSource(es: seq<Entry>, r: Row) returns (i: nat)
    requires r in RowsOf(es)
    ensures i < |es| && Classify(es[i]) == Emit(r)
  {
    var init, last := es[..|es| - 1], es[|es| - 1];
    if r in RowsOf(init) {
      i := RowsOfSource(init, r);
    } else {
      i := |es| - 1;
    }
  }

  lemma {:induction false} RowsOfNone(es: seq<Entry>)
    ensures RowsOf(es) == [] <==> forall i :: 0 <= i < |es| ==> !Classify(es[i]).Emit?
  {
    if exists i :: 0 <= i < |es| && Classify(es[i]).Emit? {
      var i: nat :| i < |es| && Classify(es[i]).Emit?;
      RowsOfMember(es, i);
    } else if RowsOf(es) != [] {
      var i := RowsOfSource(es, RowsOf(es)[0]);
    }
  }

  ghost predicate Ascending(es: seq<Entry>) {
    forall i, j :: 0 <= i < j < |es| ==> es[i].id < es[j].id
  }

  lemma {:induction false} RowsOfDistinct(es: seq<Entry>, r: Row)
    requires Ascending(es)
    ensures multiset(RowsOf(es))[r] <= 1
  {
    if es != [] {
      var init, last := es[..|es| - 1], es[|es| - 1];
      RowsOfDistinct(init, r);
      if r in RowsOf(init) {
        var i := RowsOfSource(init, r);
        assert es[i].id < last.id;
      }
    }
  }

  // ----- what every step keeps -----

  ghost function Dropped(s: State): int { |s.published| - |s.stream| }

  /** The stream is what is left of the history after its oldest entries went. */
  ghost predicate StreamIsSuffix(s: State) {
    |s.stream| <= |s.published| && forall i :: 0 <= i < |s.stream| ==> s.stream[i] == s.published[Dropped(s) + i]
  }

  ghost predicate BatchAt(s: State, b: seq<Entry>, lo: nat) {
    b != [] && lo + |b| <= |s.published| && forall k :: 0 <= k < |b| ==> b[k] == s.published[lo + k]
  }

  ghost predicate WellFormed(s: State) {
    && Ascending(s.published)
    && (forall i :: 0 <= i < |s.published| ==> 0 < s.published[i].id <= s.lastId)
    && s.cursor <= s.lastId
    && StreamIsSuffix(s)
    && (!s.phase.Idle? ==> exists lo: nat :: BatchAt(s, s.phase.batch, lo) && s.published[lo].id > s.cursor)
  }

  lemma {:induction false} AfterFacts(es: seq<Entry>, cursor: nat) returns (k: nat)
    ensures k <= |es| && After(es, cursor) == es[k..]
    ensures forall i :: 0 <= i < k ==> es[i].id <= cursor
    ensures k < |es| ==> es[k].id > cursor
  {
    if es == [] || es[0].id > cursor {
      k := 0;
    } else {
      var k' := AfterFacts(es[1..], cursor);
      k := k' + 1;
      forall i | 0 <= i < k ensures es[i].id <= cursor {
        if i > 0 { assert es[i] == es[1..][i - 1]; }
      }
    }
  }

  /** A fetched batch is a slice of the history, right behind the entries at or below the cursor. */
  lemma {:induction false} BatchIsSlice(s: State, n: nat) returns (lo: nat)
    requires StreamIsSuffix(s) && Batch(s.stream, s.cursor, n) != []
    ensures BatchAt(s, Batch(s.stream, s.cursor, n), lo)
    ensures Dropped(s) <= lo
    ensures forall i :: Dropped(s) <= i < lo ==> s.published[i].id <= s.cursor
    ensures s.published[lo].id > s.cursor
  {
    var k := AfterFacts(s.stream, s.cursor);
    lo := Dropped(s) + k;
    var b := Batch(s.stream, s.cursor, n);
    forall j | 0 <= j < |b| ensures b[j] == s.published[lo + j] {
      assert b[j] == s.stream[k + j];
    }
    forall i | Dropped(s) <= i < lo ensures s.published[i].id <= s.cursor {
      assert s.published[i] == s.stream[i - Dropped(s)];
    }
    assert b[0] == s.stream[k];
  }

  lemma {:induction false} PublishWellFormed(s: State, a: Action)
    requires WellFormed(s) && Enabled(s, a) && a.Publish?
    ensures WellFormed(Apply(s, a))
  {
    hide RowsOf, Raises, Batch, NextCursor, MayTrim;
    var t := Apply(s, a);
    forall i | 0 <= i < |s.published| ensures t.published[i] == s.published[i] {}
    forall i | 0 <= i < |t.stream| ensures t.stream[i] == t.published[Dropped(t) + i] {
      assert t.stream[i] == (s.stream + [a.entry])[a.evict + i];
    }
    if !s.phase.Idle? {
      var lo: nat :| BatchAt(s, s.phase.batch, lo) && s.published[lo].id > s.cursor;
      assert BatchAt(t, t.phase.batch, lo);
    }
  }

  lemma {:induction false} AdvanceWellFormed(s: State, a: Action)
    requires WellFormed(s) && Enabled(s, a) && a.Advance?
    ensures WellFormed(Apply(s, a))
  {
    var lo: nat :| BatchAt(s, s.phase.batch, lo) && s.published[lo].id > s.cursor;
    assert s.phase.batch[|s.phase.batch| - 1] == s.published[lo + |s.phase.batch| - 1];
  }

  lemma {:induction false} FetchWellFormed(s: State, a: Action)
    requires WellFormed(s) && Enabled(s, a) && a.Fetch?
    ensures WellFormed(Apply(s, a))
  {
    if Batch(s.stream, s.cursor, a.batchSize) != [] {
      var lo := BatchIsSlice(s, a.batchSize);
      assert BatchAt(Apply(s, a), Batch(s.stream, s.cursor, a.batchSize), lo);
    }
  }

  lemma {:induction false} BatchStaysWellFormed(s: State, a: Action)
    requires WellFormed(s) && Enabled(s, a) && (a.Commit? || a.Trim?)
    ensures WellFormed(Apply(s, a))
  {
    hide RowsOf, Raises, Batch, NextCursor, MayEvict, Ascending;
    var lo: nat :| BatchAt(s, s.phase.batch, lo) && s.published[lo].id > s.cursor;
    assert BatchAt(Apply(s, a), s.phase.batch, lo);
  }

  lemma {:induction false} StepWellFormed(s: State, a: Action)
    requires WellFormed(s) && Enabled(s, a)
    ensures WellFormed(Apply(s, a))
  {
    match a {
      case Publish(_, _) => PublishWellFormed(s, a);
      case Fetch(_) => FetchWellFormed(s, a);
      case Commit => BatchStaysWellFormed(s, a);
      case Trim(_) => BatchStaysWellFormed(s, a);
      case Advance => AdvanceWellFormed(s, a);
      case Fail =>
      case Cancel =>
      case Restart =>
    }
  }

  lemma {:induction false} RunWellFormed(s: State, acts: seq<Action>)
    requires WellFormed(s) && Legal(s, acts)
    ensures WellFormed(Run(s, acts))
    decreases |acts|
  {
    if acts != [] {
      StepWellFormed(s, acts[0]);
      RunWellFormed(Apply(s, acts[0]), acts[1..]);
    }
  }

  // ----- no loss -----

  /** Entry `i` owes the database nothing: it yields no row, its row is there, or at least
      MAX_STREAM_LENGTH entries were published after it. */
  ghost predicate Accounted(s: State, i: nat)
    requires i < |s.published|
  {
    var o := Classify(s.published[i]);
    o.Emit? ==> o.row in s.rows || |s.published| - 1 - i >= MAX_STREAM_LENGTH
  }

  ghost predicate AccountedBelow(s: State, n: nat) {
    forall i: nat :: i < n && i < |s.published| ==> Accounted(s, i)
  }

  ghost predicate Settled(s: State, b: seq<Entry>, lo: nat) {
    && BatchAt(s, b, lo)
    && AccountedBelow(s, if s.phase.Fetched? then lo else lo + |b|)
  }

  ghost predicate NoLossInv(s: State) {
    && WellFormed(s)
    && AccountedBelow(s, Dropped(s))
    && (forall i: nat :: i < |s.published| && s.published[i].id <= s.cursor ==> Accounted(s, i))
    && (!s.phase.Idle? ==> exists lo: nat :: Settled(s, s.phase.batch, lo))
  }

  lemma {:induction false} AccountedStays(s: State, a: Action, i: nat)
    requires Enabled(s, a) && i < |s.published| && Accounted(s, i)
    ensures Accounted(Apply(s, a), i)
  {
    assert Apply(s, a).published[i] == s.published[i];
  }

  lemma {:induction false} EvictedAccounted(s: State, a: Action, i: nat)
    requires StreamIsSuffix(s) && Enabled(s, a) && a.Publish? && Dropped(s) <= i < Dropped(Apply(s, a))
    ensures Accounted(Apply(s, a), i)
  {
  }

  lemma {:induction false} PublishKeepsNoLoss(s: State, a: Action)
    requires NoLossInv(s) && Enabled(s, a) && a.Publish?
    ensures NoLossInv(Apply(s, a))
  {
    hide Accounted, Raises, RowsOf;
    var t := Apply(s, a);
    StepWellFormed(s, a);
    forall i: nat | i < |s.published| && Accounted(s, i) ensures Accounted(t, i) { AccountedStays(s, a, i); }
    forall i: nat | Dropped(s) <= i < Dropped(t) ensures Accounted(t, i) { EvictedAccounted(s, a, i); }
    if !s.phase.Idle? {
      var lo: nat :| Settled(s, s.phase.batch, lo);
      SettledStays(s, a, lo);
    }
    hide Settled;
  }

  lemma {:induction false} SettledStays(s: State, a: Action, lo: nat)
    requires Enabled(s, a) && a.Publish? && !s.phase.Idle? && Settled(s, s.phase.batch, lo)
    ensures Apply(s, a).phase == s.phase && Settled(Apply(s, a), s.phase.batch, lo)
  {
    hide Accounted, Raises, RowsOf;
    var t := Apply(s, a);
    forall i: nat | i < |s.published| && Accounted(s, i) ensures Accounted(t, i) { AccountedStays(s, a, i); }
  }

  lemma {:induction false} FetchKeepsNoLoss(s: State, a: Action)
    requires NoLossInv(s) && Enabled(s, a) && a.Fetch?
    ensures NoLossInv(Apply(s, a))
  {
    hide Accounted, Raises, RowsOf;
    var t := Apply(s, a);
    StepWellFormed(s, a);
    forall i: nat | i < |s.published| && Accounted(s, i) ensures Accounted(t, i) { AccountedStays(s, a, i); }
    if Batch(s.stream, s.cursor, a.batchSize) != [] {
      var lo := BatchIsSlice(s, a.batchSize);
      assert Settled(t, t.phase.batch, lo);
    }
  }

  lemma {:induction false} CommitAccounts(s: State, lo: nat, i: nat)
    requires Enabled(s, Commit) && BatchAt(s, s.phase.batch, lo) && lo <= i < lo + |s.phase.batch|
    ensures Accounted(Apply(s, Commit), i)
  {
    assert s.phase.batch[i - lo] == s.published[i];
    if Classify(s.published[i]).Emit? {
      RowsOfMember(s.phase.batch, i - lo);
    }
  }

  lemma {:induction false} CommitKeepsNoLoss(s: State)
    requires NoLossInv(s) && Enabled(s, Commit)
    ensures NoLossInv(Apply(s, Commit))
  {
    hide Accounted, WellFormed, RowsOf, Raises;
    var t := Apply(s, Commit);
    StepWellFormed(s, Commit);
    var lo: nat :| Settled(s, s.phase.batch, lo);
    forall i: nat | i < |s.published| && Accounted(s, i) ensures Accounted(t, i) { AccountedStays(s, Commit, i); }
    forall i: nat | lo <= i < lo + |s.phase.batch| ensures Accounted(t, i) { CommitAccounts(s, lo, i); }
    assert Settled(t, t.phase.batch, lo);
  }

  /** Everything up to the newest entry of a batch lies in the batch or before it. */
  lemma {:induction false} UpToNewest(s: State, lo: nat, i: nat)
    requires Ascending(s.published) && i < |s.published|
    requires !s.phase.Idle? && BatchAt(s, s.phase.batch, lo)
    requires s.published[i].id <= Newest(s.phase.batch)
    ensures i < lo + |s.phase.batch|
  {
    assert s.phase.batch[|s.phase.batch| - 1] == s.published[lo + |s.phase.batch| - 1];
  }

  lemma {:induction false} TrimmedIsOld(s: State, a: Action, lo: nat, i: nat)
    requires WellFormed(s) && Enabled(s, a) && a.Trim? && BatchAt(s, s.phase.batch, lo)
    requires Dropped(s) <= i < Dropped(Apply(s, a))
    ensures i < lo + |s.phase.batch|
  {
    hide RowsOf, Raises;
    assert s.stream[i - Dropped(s)] == s.published[i];
    UpToNewest(s, lo, i);
  }

  lemma {:induction false} TrimKeepsNoLoss(s: State, a: Action)
    requires NoLossInv(s) && Enabled(s, a) && a.Trim?
    ensures NoLossInv(Apply(s, a))
  {
    hide Accounted, WellFormed;
    var t := Apply(s, a);
    StepWellFormed(s, a);
    var lo: nat :| Settled(s, s.phase.batch, lo);
    forall i: nat | i < |s.published| && Accounted(s, i) ensures Accounted(t, i) { AccountedStays(s, a, i); }
    forall i: nat | Dropped(s) <= i < Dropped(t) ensures Accounted(s, i) {
      TrimmedIsOld(s, a, lo, i);
    }
    assert Settled(t, s.phase.batch, lo);
  }

  lemma {:induction false} AdvanceKeepsNoLoss(s: State, a: Action)
    requires NoLossInv(s) && Enabled(s, a) && a.Advance?
    ensures NoLossInv(Apply(s, a))
  {
    hide Accounted, Raises;
    var t := Apply(s, a);
    StepWellFormed(s, a);
    var lo: nat :| Settled(s, s.phase.batch, lo);
    forall i: nat | i < |s.published| && Accounted(s, i) ensures Accounted(t, i) { AccountedStays(s, a, i); }
    forall i: nat | i < |s.published| && s.published[i].id <= t.cursor ensures Accounted(s, i) {
      if s.published[i].id > s.cursor {
        UpToNewest(s, lo, i);
      }
    }
  }

  lemma {:induction false} StepKeepsNoLoss(s: State, a: Action)
    requires NoLossInv(s) && Enabled(s, a)
    ensures NoLossInv(Apply(s, a))
  {
    hide Accounted, RowsOf, Raises, Batch;
    match a {
      case Publish(_, _) => PublishKeepsNoLoss(s, a);
      case Fetch(_) => FetchKeepsNoLoss(s, a);
      case Commit => CommitKeepsNoLoss(s);
      case Trim(_) => TrimKeepsNoLoss(s, a);
      case Advance => AdvanceKeepsNoLoss(s, a);
      case _ =>
        StepWellFormed(s, a);
        var t := Apply(s, a);
        forall i: nat | i < |s.published| && Accounted(s, i) ensures Accounted(t, i) { AccountedStays(s, a, i); }
    }
  }

  lemma {:induction false} RunKeepsNoLoss(s: State, acts: seq<Action>)
    requires NoLossInv(s) && Legal(s, acts)
    ensures NoLossInv(Run(s, acts))
    decreases |acts|
  {
    if acts != [] {
      StepKeepsNoLoss(s, acts[0]);
      RunKeepsNoLoss(Apply(s, acts[0]), acts[1..]);
    }
  }

  lemma {:induction false} DroppedIsAccounted(s: State, i: nat)
    requires NoLossInv(s) && i < |s.published|
    ensures Accounted(s, i) || s.published[i] in s.stream
  {
    if i >= Dropped(s) {
      assert s.stream[i - Dropped(s)] == s.published[i];
    }
  }

  /** No loss, whatever the interleaving of publishes, commits, failures, trims and restarts: the
      row of every published entry is committed, or the entry is still in the stream, or at least
      MAX_STREAM_LENGTH entries were published after it. */
  lemma {:induction false} NoLoss(acts: seq<Action>, i: nat, s: State)
    requires Legal(Init, acts) && s == Run(Init, acts) && i < |s.published|
    ensures Classify(s.published[i]).Emit? ==>
              || Classify(s.published[i]).row in s.rows
              || s.published[i] in s.stream
              || |s.published| - 1 - i >= MAX_STREAM_LENGTH
  {
    RunKeepsNoLoss(Init, acts);
    DroppedIsAccounted(s, i);
  }

  // ----- nothing invented -----

  ghost predicate Sourced(s: State) {
    forall r :: r in s.rows ==> exists i: nat :: i < |s.published| && Classify(s.published[i]) == Emit(r)
  }

  lemma {:induction false} StepKeepsSourced(s: State, a: Action)
    requires WellFormed(s) && Sourced(s) && Enabled(s, a)
    ensures Sourced(Apply(s, a))
  {
    var t := Apply(s, a);
    forall r | r in t.rows ensures exists i: nat :: i < |t.published| && Classify(t.published[i]) == Emit(r) {
      if r in s.rows {
        var i: nat :| i < |s.published| && Classify(s.published[i]) == Emit(r);
        assert t.published[i] == s.published[i];
      } else {
        var lo: nat :| BatchAt(s, s.phase.batch, lo);
        var k := RowsOfSource(s.phase.batch, r);
        assert t.published[lo + k] == s.phase.batch[k];
      }
    }
  }

  /** Every committed row is the row of a published entry. */
  lemma {:induction false} NothingInvented(s: State, acts: seq<Action>)
    requires WellFormed(s) && Sourced(s) && Legal(s, acts)
    ensures Sourced(Run(s, acts))
    decreases |acts|
  {
    if acts != [] {
      StepWellFormed(s, acts[0]);
      StepKeepsSourced(s, acts[0]);
      NothingInvented(Apply(s, acts[0]), acts[1..]);
    }
  }

  // ----- how often a row is committed -----

  ghost predicate InCommittedBatch(s: State, e: Entry) {
    (s.phase.Committed? || s.phase.Trimmed?) && e in s.phase.batch
  }

  /** How many commits the row of `e` may have had: one more than the interruptions once `e` lies
      at or below the cursor or in the batch being finished. */
  ghost function Allowance(s: State, e: Entry): nat {
    s.interruptions + if e.id <= s.cursor || InCommittedBatch(s, e) then 1 else 0
  }

  ghost predicate CountInv(s: State) {
    && WellFormed(s)
    && (forall r :: r in s.rows ==> r.origin <= s.lastId)
    && (forall i, r :: 0 <= i < |s.published| && Classify(s.published[i]) == Emit(r) ==>
          multiset(s.rows)[r] <= Allowance(s, s.published[i]))
  }

  lemma {:induction false} BatchIdsAscend(s: State, lo: nat)
    requires Ascending(s.published) && !s.phase.Idle? && BatchAt(s, s.phase.batch, lo)
    ensures Ascending(s.phase.batch)
  {
    var b := s.phase.batch;
    forall j, k | 0 <= j < k < |b| ensures b[j].id < b[k].id {
      assert b[j] == s.published[lo + j] && b[k] == s.published[lo + k];
    }
  }

  /** A row of the batch comes from the published entry that it belongs to. */
  lemma {:induction false} BatchRowSource(s: State, lo: nat, i: nat, r: Row)
    requires Ascending(s.published) && !s.phase.Idle? && BatchAt(s, s.phase.batch, lo)
    requires i < |s.published| && Classify(s.published[i]) == Emit(r) && r in RowsOf(s.phase.batch)
    ensures s.published[i] in s.phase.batch && s.published[lo].id <= s.published[i].id <= Newest(s.phase.batch)
  {
    var b := s.phase.batch;
    var k := RowsOfSource(b, r);
    BatchIdsAscend(s, lo);
    assert b[k] == s.published[lo + k];
    assert s.published[lo + k].id == r.origin == s.published[i].id;
    assert b[0] == s.published[lo];
  }

  /** A batch yields each row at most once, and only from the entry it belongs to. */
  lemma {:induction false} BatchRow(s: State, lo: nat, i: nat, r: Row)
    requires Ascending(s.published) && !s.phase.Idle? && BatchAt(s, s.phase.batch, lo)
    requires i < |s.published| && Classify(s.published[i]) == Emit(r)
    ensures multiset(RowsOf(s.phase.batch))[r] <= 1
    ensures r in RowsOf(s.phase.batch) <==> s.published[i] in s.phase.batch
    ensures r in RowsOf(s.phase.batch) ==> s.published[lo].id <= s.published[i].id <= Newest(s.phase.batch)
  {
    hide *;
    var b := s.phase.batch;
    BatchIdsAscend(s, lo);
    RowsOfDistinct(b, r);
    if s.published[i] in b {
      var k: nat :| k < |b| && b[k] == s.published[i];
      RowsOfMember(b, k);
    }
    if r in RowsOf(b) {
      BatchRowSource(s, lo, i, r);
    }
  }

  lemma {:induction false} CommitCount(s: State, lo: nat, i: nat, r: Row)
    requires Ascending(s.published) && Enabled(s, Commit) && BatchAt(s, s.phase.batch, lo)
    requires s.published[lo].id > s.cursor
    requires i < |s.published| && Classify(s.published[i]) == Emit(r)
    requires multiset(s.rows)[r] <= Allowance(s, s.published[i])
    ensures multiset(Apply(s, Commit).rows)[r] <= Allowance(Apply(s, Commit), s.published[i])
  {
    BatchRow(s, lo, i, r);
    assert multiset(s.rows + RowsOf(s.phase.batch))[r] == multiset(s.rows)[r] + multiset(RowsOf(s.phase.batch))[r];
  }

  lemma {:induction false} BatchOrigins(s: State, lo: nat, r: Row)
    requires forall i :: 0 <= i < |s.published| ==> s.published[i].id <= s.lastId
    requires !s.phase.Idle? && BatchAt(s, s.phase.batch, lo) && r in RowsOf(s.phase.batch)
    ensures r.origin <= s.lastId
  {
    var k := RowsOfSource(s.phase.batch, r);
    assert s.phase.batch[k] == s.published[lo + k];
  }

  lemma {:induction false} CommitKeepsCount(s: State)
    requires CountInv(s) && Enabled(s, Commit)
    ensures CountInv(Apply(s, Commit))
  {
    hide Allowance, RowsOf, Raises, Batch;
    var t := Apply(s, Commit);
    StepWellFormed(s, Commit);
    var lo: nat :| BatchAt(s, s.phase.batch, lo) && s.published[lo].id > s.cursor;
    forall i, r | 0 <= i < |t.published| && Classify(t.published[i]) == Emit(r)
      ensures multiset(t.rows)[r] <= Allowance(t, t.published[i])
    {
      CommitCount(s, lo, i, r);
    }
    forall r | r in t.rows ensures r.origin <= t.lastId {
      if r !in s.rows { BatchOrigins(s, lo, r); }
    }
  }

  lemma {:induction false} AdvanceCount(s: State, lo: nat, i: nat, r: Row)
    requires Ascending(s.published) && Enabled(s, Advance) && BatchAt(s, s.phase.batch, lo)
    requires s.published[lo].id > s.cursor
    requires i < |s.published| && Classify(s.published[i]) == Emit(r)
    requires multiset(s.rows)[r] <= Allowance(s, s.published[i])
    ensures multiset(s.rows)[r] <= Allowance(Apply(s, Advance), s.published[i])
  {
    BatchRow(s, lo, i, r);
    assert s.phase.batch[|s.phase.batch| - 1] == s.published[lo + |s.phase.batch| - 1];
  }

  lemma {:induction false} AdvanceKeepsCount(s: State)
    requires CountInv(s) && Enabled(s, Advance)
    ensures CountInv(Apply(s, Advance))
  {
    hide Allowance, RowsOf, Raises, Batch;
    var t := Apply(s, Advance);
    StepWellFormed(s, Advance);
    var lo: nat :| BatchAt(s, s.phase.batch, lo) && s.published[lo].id > s.cursor;
    forall i, r | 0 <= i < |t.published| && Classify(t.published[i]) == Emit(r)
      ensures multiset(t.rows)[r] <= Allowance(t, t.published[i])
    {
      AdvanceCount(s, lo, i, r);
    }
  }

  lemma {:induction false} StepKeepsCount(s: State, a: Action)
    requires CountInv(s) && Enabled(s, a)
    ensures CountInv(Apply(s, a))
  {
    hide RowsOf, Raises, Batch, NextCursor, StreamIsSuffix, BatchAt;
    if a.Commit? {
      CommitKeepsCount(s);
    } else if a.Advance? {
      AdvanceKeepsCount(s);
    } else {
      var t := Apply(s, a);
      StepWellFormed(s, a);
      forall i, r | 0 <= i < |t.published| && Classify(t.published[i]) == Emit(r)
        ensures multiset(t.rows)[r] <= Allowance(t, t.published[i])
      {
        if i < |s.published| {
          assert t.published[i] == s.published[i];
          assert multiset(s.rows)[r] <= Allowance(s, s.published[i]);
        } else {
          assert r.origin > s.lastId;
        }
      }
    }
  }

  lemma {:induction false} RunKeepsCount(s: State, acts: seq<Action>)
    requires CountInv(s) && Legal(s, acts)
    ensures CountInv(Run(s, acts))
    decreases |acts|
  {
    if acts != [] {
      StepKeepsCount(s, acts[0]);
      RunKeepsCount(Apply(s, acts[0]), acts[1..]);
    }
  }

  /** A row is committed at most once more than the worker was interrupted, in every run. */
  lemma {:induction false} CommittedAtMostOncePerLife(acts: seq<Action>, r: Row)
    requires Legal(Init, acts)
    ensures multiset(Run(Init, acts).rows)[r] <= 1 + Run(Init, acts).interruptions
  {
    RunKeepsCount(Init, acts);
    NothingInvented(Init, acts);
    var s := Run(Init, acts);
    if r in s.rows {
      var i: nat :| i < |s.published| && Classify(s.published[i]) == Emit(r);
      assert multiset(s.rows)[r] <= Allowance(s, s.published[i]);
    }
  }

  // ----- exactly once -----

  ghost function CursorAfter(s: State, a: Action): nat {
    if a.Restart? then 0 else s.cursor
  }

  /** An interruption is exposed when the stream still holds, behind the cursor it leaves, an entry
      whose row is already committed. */
  ghost predicate Exposed(s: State, a: Action) {
    exists i :: 0 <= i < |s.stream| && s.stream[i].id > CursorAfter(s, a)
                && Classify(s.stream[i]).Emit? && Classify(s.stream[i]).row in s.rows
  }

  /** No truncation; interruptions only where nothing is exposed, or none at all. */
  ghost predicate Calm(s: State, a: Action, strict: bool) {
    && (a.Publish? ==> a.evict == 0)
    && (a.Cancel? || a.Restart? ==> !strict && !Exposed(s, a))
  }

  ghost predicate LegalCalm(s: State, acts: seq<Action>, strict: bool)
    decreases |acts|
  {
    acts == [] || (Enabled(s, acts[0]) && Calm(s, acts[0], strict) && LegalCalm(Apply(s, acts[0]), acts[1..], strict))
  }

  ghost predicate Done(s: State) { s.phase.Committed? || s.phase.Trimmed? }

  /** Entry `i` is already covered but may be read again. */
  ghost predicate Rereadable(s: State, i: nat, w: nat, lo: nat, strict: bool)
    requires w <= |s.published|
  {
    && i < w && s.published[i].id > s.cursor && (strict || Dropped(s) <= i)
    && (Done(s) ==> !(lo <= i < lo + |s.phase.batch|))
  }

  /** The database holds the rows of the first `w` published entries, in order; what is covered and
      may be read again yields nothing; `lo` is where the current batch starts. */
  ghost predicate OnceAt(s: State, w: nat, lo: nat, strict: bool) {
    && WellFormed(s)
    && Dropped(s) <= w <= |s.published|
    && s.rows == RowsOf(s.published[..w])
    && (forall i :: 0 <= i < |s.published| && s.published[i].id <= s.cursor ==> i < w)
    && (forall i: nat :: i < w && Rereadable(s, i, w, lo, strict) ==> !Classify(s.published[i]).Emit?)
    && (!s.phase.Idle? ==>
          && BatchAt(s, s.phase.batch, lo)
          && s.published[lo].id > s.cursor
          && (s.phase.Fetched? ==> Dropped(s) <= lo <= w)
          && (Done(s) ==> lo + |s.phase.batch| <= w && (RowsOf(s.phase.batch) == [] || w == lo + |s.phase.batch|)))
  }

  lemma {:induction false} RowsOfPrefix(es: seq<Entry>, k: nat, w: nat)
    requires k <= w <= |es|
    requires forall i :: k <= i < w ==> !Classify(es[i]).Emit?
    ensures RowsOf(es[..w]) == RowsOf(es[..k])
  {
    assert es[..w] == es[..k] + es[k..w];
    RowsOfConcat(es[..k], es[k..w]);
    RowsOfNone(es[k..w]);
  }

  /** A fetched batch starts inside the covered prefix or right behind it. */
  lemma {:induction false} FetchStart(s: State, n: nat, w: nat) returns (lo: nat)
    requires StreamIsSuffix(s) && Batch(s.stream, s.cursor, n) != []
    requires Dropped(s) <= w && forall i :: 0 <= i < |s.published| && s.published[i].id <= s.cursor ==> i < w
    ensures BatchAt(s, Batch(s.stream, s.cursor, n), lo) && s.published[lo].id > s.cursor && Dropped(s) <= lo <= w
  {
    lo := BatchIsSlice(s, n);
    assert lo == Dropped(s) || s.published[lo - 1].id <= s.cursor;
  }

  lemma {:induction false} FetchUnread(s: State, a: Action, w: nat, lo: nat, lo': nat, strict: bool)
    requires OnceAt(s, w, lo, strict) && Enabled(s, a) && a.Fetch? && Apply(s, a).phase.Fetched?
    ensures forall i: nat :: i < w && Rereadable(Apply(s, a), i, w, lo', strict) ==> !Classify(s.published[i]).Emit?
  {
    forall i: nat | i < w && Rereadable(Apply(s, a), i, w, lo', strict) ensures !Classify(s.published[i]).Emit? {
      assert Rereadable(s, i, w, lo, strict);
    }
  }

  lemma {:induction false} FetchOnce(s: State, a: Action, w: nat, lo: nat, strict: bool) returns (lo': nat)
    requires OnceAt(s, w, lo, strict) && Enabled(s, a) && a.Fetch?
    ensures OnceAt(Apply(s, a), w, lo', strict)
  {
    hide RowsOf, Raises, Rereadable;
    lo' := lo;
    var b := Batch(s.stream, s.cursor, a.batchSize);
    StepWellFormed(s, a);
    if b != [] {
      lo' := FetchStart(s, a.batchSize, w);
      FetchUnread(s, a, w, lo, lo', strict);
      assert Apply(s, a) == s.(phase := Fetched(b));
    }
  }

  /** Adding a slice that starts inside the covered prefix, where only entries without rows overlap. */
  lemma {:induction false} RowsOfOverlap(es: seq<Entry>, w: nat, lo: nat, b: seq<Entry>) returns (w': nat)
    requires lo <= w <= |es| && lo + |b| <= |es|
    requires forall k :: 0 <= k < |b| ==> b[k] == es[lo + k]
    requires forall i :: lo <= i < w ==> !Classify(es[i]).Emit?
    ensures w' == (if lo + |b| <= w then w else lo + |b|)
    ensures RowsOf(es[..w]) + RowsOf(b) == RowsOf(es[..w'])
    ensures RowsOf(b) == [] || w' == lo + |b|
  {
    var end := lo + |b|;
    w' := if end <= w then w else end;
    RowsOfPrefix(es, lo, w);
    if end <= w {
      forall k | 0 <= k < |b| ensures !Classify(b[k]).Emit? { assert b[k] == es[lo + k]; }
      RowsOfNone(b);
    } else {
      assert es[..end] == es[..lo] + b;
      RowsOfConcat(es[..lo], b);
    }
  }

  /** What a fetched batch shares with the covered prefix yields nothing. */
  lemma {:induction false} OverlapEmpty(s: State, w: nat, lo: nat, strict: bool, i: nat)
    requires OnceAt(s, w, lo, strict) && s.phase.Fetched? && lo <= i < w
    ensures !Classify(s.published[i]).Emit?
  {
    assert s.published[lo].id <= s.published[i].id;
    assert Rereadable(s, i, w, lo, strict);
  }

  lemma {:induction false} CommitOnce(s: State, w: nat, lo: nat, strict: bool) returns (w': nat)
    requires OnceAt(s, w, lo, strict) && Enabled(s, Commit)
    ensures OnceAt(Apply(s, Commit), w', lo, strict)
  {
    hide RowsOf, Raises, Batch, Ascending, StreamIsSuffix;
    var t := Apply(s, Commit);
    StepWellFormed(s, Commit);
    forall i: nat | lo <= i < w ensures !Classify(s.published[i]).Emit? { OverlapEmpty(s, w, lo, strict, i); }
    w' := RowsOfOverlap(s.published, w, lo, s.phase.batch);
    forall i: nat | i < w' && Rereadable(t, i, w', lo, strict) ensures !Classify(s.published[i]).Emit? {
      assert Rereadable(s, i, w, lo, strict);
    }
  }

  lemma {:induction false} TrimStaysBehind(s: State, a: Action, lo: nat)
    requires Ascending(s.published) && StreamIsSuffix(s) && Enabled(s, a) && a.Trim?
    requires BatchAt(s, s.phase.batch, lo)
    ensures Dropped(Apply(s, a)) == Dropped(s) + a.count
    ensures Dropped(Apply(s, a)) == Dropped(s) || Dropped(Apply(s, a)) <= lo + |s.phase.batch|
  {
    if a.count > 0 {
      var i := Dropped(s) + a.count - 1;
      assert s.stream[a.count - 1] == s.published[i];
      UpToNewest(s, lo, i);
    }
  }

  lemma {:induction false} TrimOnce(s: State, a: Action, w: nat, lo: nat, strict: bool)
    requires OnceAt(s, w, lo, strict) && Enabled(s, a) && a.Trim?
    ensures OnceAt(Apply(s, a), w, lo, strict)
  {
    var t := Apply(s, a);
    StepWellFormed(s, a);
    TrimStaysBehind(s, a, lo);
    forall i: nat | i < w && Rereadable(t, i, w, lo, strict) ensures !Classify(s.published[i]).Emit? {
      assert Rereadable(s, i, w, lo, strict);
    }
  }

  lemma {:induction false} AdvanceCovered(s: State, w: nat, lo: nat, strict: bool, i: nat)
    requires OnceAt(s, w, lo, strict) && Enabled(s, Advance)
    requires i < |s.published| && s.published[i].id <= NextCursor(s.cursor, s.phase.batch)
    ensures i < w
  {
    if RowsOf(s.phase.batch) != [] {
      UpToNewest(s, lo, i);
    }
  }

  lemma {:induction false} AdvanceUnread(s: State, w: nat, lo: nat, strict: bool, i: nat)
    requires OnceAt(s, w, lo, strict) && Enabled(s, Advance)
    requires i < w && Rereadable(Apply(s, Advance), i, w, lo, strict)
    ensures !Classify(s.published[i]).Emit?
  {
    var b := s.phase.batch;
    assert Newest(b) == s.published[lo + |b| - 1].id by { assert b[|b| - 1] == s.published[lo + |b| - 1]; }
    if lo <= i < lo + |b| {
      assert RowsOf(b) == [];
      RowsOfNone(b);
      assert b[i - lo] == s.published[i];
    } else {
      assert Rereadable(s, i, w, lo, strict);
    }
  }

  lemma {:induction false} AdvanceOnce(s: State, w: nat, lo: nat, strict: bool)
    requires OnceAt(s, w, lo, strict) && Enabled(s, Advance)
    ensures OnceAt(Apply(s, Advance), w, lo, strict)
  {
    hide WellFormed, NextCursor, Rereadable, RowsOf;
    var t := Apply(s, Advance);
    StepWellFormed(s, Advance);
    forall i: nat | i < |s.published| && s.published[i].id <= t.cursor ensures i < w {
      AdvanceCovered(s, w, lo, strict, i);
    }
    forall i: nat | i < w && Rereadable(t, i, w, lo, strict) ensures !Classify(s.published[i]).Emit? {
      AdvanceUnread(s, w, lo, strict, i);
    }
  }

  lemma {:induction false} InterruptOnce(s: State, a: Action, w: nat, lo: nat, strict: bool)
    requires OnceAt(s, w, lo, strict) && Calm(s, a, strict) && (a.Cancel? || a.Restart?)
    ensures OnceAt(Apply(s, a), w, lo, strict)
  {
    var t := Apply(s, a);
    StepWellFormed(s, a);
    forall i: nat | i < w && Rereadable(t, i, w, lo, strict) ensures !Classify(s.published[i]).Emit? {
      assert s.stream[i - Dropped(s)] == s.published[i];
      if Classify(s.published[i]).Emit? {
        RowsOfMember(s.published[..w], i);
      }
    }
  }

  lemma {:induction false} PublishOnce(s: State, a: Action, w: nat, lo: nat, strict: bool)
    requires OnceAt(s, w, lo, strict) && Enabled(s, a) && Calm(s, a, strict) && a.Publish?
    ensures OnceAt(Apply(s, a), w, lo, strict)
  {
    var t := Apply(s, a);
    StepWellFormed(s, a);
    assert t.published[..w] == s.published[..w];
    forall i: nat | i < w && Rereadable(t, i, w, lo, strict) ensures !Classify(t.published[i]).Emit? {
      assert Rereadable(s, i, w, lo, strict);
    }
  }

  lemma {:induction false} FailOnce(s: State, w: nat, lo: nat, strict: bool)
    requires OnceAt(s, w, lo, strict) && Enabled(s, Fail)
    ensures OnceAt(Apply(s, Fail), w, lo, strict)
  {
    StepWellFormed(s, Fail);
    forall i: nat | i < w && Rereadable(Apply(s, Fail), i, w, lo, strict) ensures !Classify(s.published[i]).Emit? {
      assert Rereadable(s, i, w, lo, strict);
    }
  }

  lemma {:induction false} StepOnce(s: State, a: Action, w: nat, lo: nat, strict: bool) returns (w': nat, lo': nat)
    requires OnceAt(s, w, lo, strict) && Enabled(s, a) && Calm(s, a, strict)
    ensures OnceAt(Apply(s, a), w', lo', strict)
  {
    w', lo' := w, lo;
    match a {
      case Publish(_, _) => PublishOnce(s, a, w, lo, strict);
      case Fetch(_) => lo' := FetchOnce(s, a, w, lo, strict);
      case Commit => w' := CommitOnce(s, w, lo, strict);
      case Fail => FailOnce(s, w, lo, strict);
      case Trim(_) => TrimOnce(s, a, w, lo, strict);
      case Advance => AdvanceOnce(s, w, lo, strict);
      case Cancel => InterruptOnce(s, a, w, lo, strict);
      case Restart => InterruptOnce(s, a, w, lo, strict);
    }
  }

  lemma {:induction false} RunOnce(s: State, acts: seq<Action>, w: nat, lo: nat, strict: bool)
    returns (w': nat, lo': nat)
    requires OnceAt(s, w, lo, strict) && LegalCalm(s, acts, strict)
    ensures Legal(s, acts) && OnceAt(Run(s, acts), w', lo', strict)
    decreases |acts|
  {
    if acts == [] {
      w', lo' := w, lo;
    } else {
      var w1, lo1 := StepOnce(s, acts[0], w, lo, strict);
      w', lo' := RunOnce(Apply(s, acts[0]), acts[1..], w1, lo1, strict);
    }
  }

  /** The published entries with an id up to `cursor`. */
  ghost function UpTo(es: seq<Entry>, cursor: nat): seq<Entry> {
    if es == [] || es[0].id > cursor then [] else [es[0]] + UpTo(es[1..], cursor)
  }

  lemma {:induction false} UpToFacts(es: seq<Entry>, cursor: nat, k: nat)
    requires k <= |es| && (forall i :: 0 <= i < k ==> es[i].id <= cursor) && (k < |es| ==> es[k].id > cursor)
    ensures UpTo(es, cursor) == es[..k]
  {
    if k > 0 {
      UpToFacts(es[1..], cursor, k - 1);
      assert es[..k] == [es[0]] + es[1..][..k - 1];
    }
  }

  /** How far the consumer has got: the batch being finished counts. */
  ghost function Watermark(s: State): nat {
    if Done(s) && s.phase.batch != [] then Newest(s.phase.batch) else s.cursor
  }

  lemma {:induction false} OnceAtWatermark(s: State, w: nat, lo: nat)
    requires OnceAt(s, w, lo, true)
    ensures s.rows == RowsOf(UpTo(s.published, Watermark(s)))
  {
    hide StreamIsSuffix, NextCursor, Batch;
    var m := Watermark(s);
    var k: nat := 0;
    while k < |s.published| && s.published[k].id <= m
      invariant k <= |s.published| && forall i :: 0 <= i < k ==> s.published[i].id <= m
    {
      k := k + 1;
    }
    UpToFacts(s.published, m, k);
    if Done(s) {
      assert s.phase.batch[|s.phase.batch| - 1] == s.published[lo + |s.phase.batch| - 1];
      assert k >= lo + |s.phase.batch|;
      UpToNewest(s, lo, k - 1);
    }
    assert k == 0 || s.published[k - 1].id <= m;
    forall i | k <= i < w ensures !Classify(s.published[i]).Emit? {
      assert s.published[k].id <= s.published[i].id;
      assert s.cursor <= m by {
        if Done(s) { assert s.published[lo].id <= s.published[lo + |s.phase.batch| - 1].id; }
      }
      assert Rereadable(s, i, w, lo, true);
    }
    RowsOfPrefix(s.published, k, w);
  }

  /** Exactly once, in order: without truncation and interruptions the database holds the rows of
      the published entries up to the consumer's watermark and nothing else, also after failed
      commits and after batches without rows, which trim the stream but leave the cursor. */
  lemma {:induction false} ExactlyOnce(acts: seq<Action>, s: State)
    requires Legal(Init, acts) && LegalCalm(Init, acts, true) && s == Run(Init, acts)
    ensures s.rows == RowsOf(UpTo(s.published, Watermark(s)))
  {
    var w, lo := RunOnce(Init, acts, 0, 0, true);
    OnceAtWatermark(s, w, lo);
  }

  ghost predicate HasDuplicate(rows: seq<Row>) {
    exists r :: multiset(rows)[r] > 1
  }

  lemma {:induction false} PrefixAscending(es: seq<Entry>, w: nat)
    requires Ascending(es) && w <= |es|
    ensures !HasDuplicate(RowsOf(es[..w]))
  {
    forall r ensures multiset(RowsOf(es[..w]))[r] <= 1 {
      RowsOfDistinct(es[..w], r);
    }
  }

  /** Interruptions that expose nothing keep it so: the rows are those of a prefix of the history,
      each once and in order. */
  lemma {:induction false} ExactlyOnceUnexposed(acts: seq<Action>, s: State) returns (w: nat)
    requires Legal(Init, acts) && LegalCalm(Init, acts, false) && s == Run(Init, acts)
    ensures w <= |s.published| && s.rows == RowsOf(s.published[..w]) && !HasDuplicate(s.rows)
  {
    var lo;
    w, lo := RunOnce(Init, acts, 0, 0, false);
    PrefixAscending(s.published, w);
  }

  lemma {:induction false} RunConcat(s: State, a: seq<Action>, b: seq<Action>)
    requires Legal(s, a) && Legal(Run(s, a), b)
    ensures Legal(s, a + b) && Run(s, a + b) == Run(Run(s, a), b)
    decreases |a|
  {
    if a == [] {
      assert a + b == b;
    } else {
      RunConcat(Apply(s, a[0]), a[1..], b);
      assert (a + b)[0] == a[0] && (a + b)[1..] == a[1..] + b;
    }
  }

  // ----- one whole cycle -----

  function Cycle(n: nat, k: nat): seq<Action> { [Fetch(n), Commit, Trim(k), Advance] }

  ghost predicate CanCycle(s: State, n: nat, k: nat) {
    var b := Batch(s.stream, s.cursor, n);
    n > 0 && s.phase.Idle? && b != [] && !Raises(b) && MayTrim(s.stream, Newest(b), k)
  }

  /** What an undisturbed cycle changes. */
  lemma {:induction false} CycleEffect(s: State, n: nat, k: nat)
    requires CanCycle(s, n, k)
    ensures Legal(s, Cycle(n, k))
    ensures var b := Batch(s.stream, s.cursor, n);
            Run(s, Cycle(n, k)) ==
              s.(stream := s.stream[k..], rows := s.rows + RowsOf(b), cursor := NextCursor(s.cursor, b))
  {
    var acts := Cycle(n, k);
    var s1 := Apply(s, Fetch(n));
    var s2 := Apply(s1, Commit);
    var s3 := Apply(s2, Trim(k));
    var s4 := Apply(s3, Advance);
    assert Legal(s4, acts[4..]) && Run(s4, acts[4..]) == s4;
    assert acts[3..][1..] == acts[4..] && Legal(s3, acts[3..]) && Run(s3, acts[3..]) == s4;
    assert acts[2..][1..] == acts[3..] && Legal(s2, acts[2..]) && Run(s2, acts[2..]) == s4;
    assert acts[1..][1..] == acts[2..] && Legal(s1, acts[1..]) && Run(s1, acts[1..]) == s4;
  }

  lemma {:induction false} AfterIsSuffix(es: seq<Entry>, cursor: nat, k: nat)
    requires k <= |es| && (forall i :: 0 <= i < k ==> es[i].id <= cursor) && (k < |es| ==> es[k].id > cursor)
    ensures After(es, cursor) == es[k..]
  {
    if k > 0 {
      AfterIsSuffix(es[1..], cursor, k - 1);
    }
  }

  lemma {:induction false} StreamAscending(s: State)
    requires WellFormed(s)
    ensures Ascending(s.stream)
  {
    forall i, j | 0 <= i < j < |s.stream| ensures s.stream[i].id < s.stream[j].id {
      assert s.stream[i] == s.published[Dropped(s) + i] && s.stream[j] == s.published[Dropped(s) + j];
    }
  }

  /** The next cycle reads the same batch again exactly when the batch has no row and the trim
      leaves all of it: skipped entries move neither the cursor nor, by themselves, the stream. */
  lemma {:induction false} RereadsIff(s: State, n: nat, k: nat)
    requires WellFormed(s) && CanCycle(s, n, k)
    ensures var b, t := Batch(s.stream, s.cursor, n), s.stream[k..];
            Batch(t, NextCursor(s.cursor, b), n) == b
            <==> RowsOf(b) == [] && k + |After(s.stream, s.cursor)| <= |s.stream|
  {
    hide Raises, RowsOf, WellFormed, After;
    var b, t := Batch(s.stream, s.cursor, n), s.stream[k..];
    var c := NextCursor(s.cursor, b);
    var start := AfterFacts(s.stream, s.cursor);
    assert b[0] == s.stream[start];
    assert Newest(b) == s.stream[start + |b| - 1].id;
    StreamAscending(s);
    var again := AfterFacts(t, c);
    if RowsOf(b) != [] {
      if Batch(t, c, n) != [] {
        assert Batch(t, c, n)[0] == t[again];
      }
    } else if k <= start {
      AfterIsSuffix(t, s.cursor, start - k);
    } else if Batch(t, c, n) != [] {
      assert Batch(t, c, n)[0] == t[again] == s.stream[k + again];
    }
  }

  function Cycles(n: nat, m: nat): seq<Action> {
    if m == 0 then [] else Cycle(n, 0) + Cycles(n, m - 1)
  }

  /** A batch of skipped entries can hold the consumer for ever: while the approximate trim removes
      nothing, any number of cycles leaves the whole state as it was. */
  lemma {:induction false} SkippedBatchStalls(s: State, n: nat, m: nat)
    requires CanCycle(s, n, 0) && RowsOf(Batch(s.stream, s.cursor, n)) == []
    ensures |Cycles(n, m)| == 4 * m && Legal(s, Cycles(n, m)) && Run(s, Cycles(n, m)) == s
  {
    if m > 0 {
      CycleEffect(s, n, 0);
      assert s.stream[0..] == s.stream && s.rows + [] == s.rows;
      SkippedBatchStalls(s, n, m - 1);
      RunConcat(s, Cycle(n, 0), Cycles(n, m - 1));
    }
  }
}
