/** What cancellations and restarts of the telemetry worker do to the committed rows: when a row is
    committed a second time, and when it cannot be. */
module TelemetryReplay {
  import opened TelemetryStream

  // ----- no duplicates without exposed interruptions -----

  /** Interruptions only where nothing is exposed; the stream may be truncated. */
  ghost predicate LegalUnexposed(s: State, acts: seq<Action>)
    decreases |acts|
  {
    acts == [] ||
    (&& Enabled(s, acts[0]) && (acts[0].Cancel? || acts[0].Restart? ==> !Exposed(s, acts[0]))
     && LegalUnexposed(Apply(s, acts[0]), acts[1..]))
  }

  ghost predicate Stored(s: State, e: Entry) { Classify(e).Emit? && Classify(e).row in s.rows }

  /** Only the batch being finished is both stored and still ahead of the cursor. */
  ghost predicate OnlyBatchAhead(s: State) {
    forall e :: e in s.stream && e.id > s.cursor && Stored(s, e) ==> Done(s) && e in s.phase.batch
  }

  ghost predicate FreshBatch(s: State) {
    s.phase.Fetched? ==> forall e :: e in s.phase.batch ==> !Stored(s, e)
  }

  ghost predicate OriginsKnown(s: State) { forall r :: r in s.rows ==> r.origin <= s.lastId }

  ghost predicate NoDuplicateInv(s: State) {
    WellFormed(s) && !HasDuplicate(s.rows) && OriginsKnown(s) && OnlyBatchAhead(s) && FreshBatch(s)
  }

  lemma {:induction false} BatchFacts(s: State, cursor: nat, n: nat)
    requires WellFormed(s)
    ensures Ascending(Batch(s.stream, cursor, n))
    ensures forall i :: 0 <= i < |Batch(s.stream, cursor, n)| ==>
              Batch(s.stream, cursor, n)[i] in s.stream && Batch(s.stream, cursor, n)[i].id > cursor
  {
    var b := Batch(s.stream, cursor, n);
    var k := AfterFacts(s.stream, cursor);
    forall i, j | 0 <= i < j < |b| ensures b[i].id < b[j].id {
      assert b[i] == s.stream[k + i] && b[j] == s.stream[k + j];
    }
    forall i | 0 <= i < |b| ensures b[i] in s.stream && b[i].id > cursor {
      assert b[0] == s.stream[k] && b[i] == s.stream[k + i];
    }
  }

  /** Appending the rows of ascending entries repeats a row exactly when one of them is stored. */
  lemma {:induction false} AppendDuplicatesIff(s: State, b: seq<Entry>)
    requires !HasDuplicate(s.rows) && Ascending(b)
    ensures HasDuplicate(s.rows + RowsOf(b)) <==> exists i :: 0 <= i < |b| && Stored(s, b[i])
  {
    if i: nat :| i < |b| && Stored(s, b[i]) {
      RowsOfMember(b, i);
      var r := Classify(b[i]).row;
      assert multiset(s.rows + RowsOf(b))[r] == multiset(s.rows)[r] + multiset(RowsOf(b))[r];
    } else {
      forall r ensures multiset(s.rows + RowsOf(b))[r] <= 1 {
        RowsOfDistinct(b, r);
        assert multiset(s.rows + RowsOf(b))[r] == multiset(s.rows)[r] + multiset(RowsOf(b))[r];
        if r in RowsOf(b) {
          var k := RowsOfSource(b, r);
          assert !Stored(s, b[k]);
        }
        assert multiset(s.rows)[r] <= 1;
      }
    }
  }

  lemma {:induction false} InStream(s: State, e: Entry)
    requires StreamIsSuffix(s) && e in s.stream
    ensures e in s.published
  {
    var i :| 0 <= i < |s.stream| && s.stream[i] == e;
    assert s.published[Dropped(s) + i] == e;
  }

  lemma {:induction false} InBatch(s: State, e: Entry)
    requires WellFormed(s) && !s.phase.Idle? && e in s.phase.batch
    ensures e in s.published
  {
    var lo: nat :| BatchAt(s, s.phase.batch, lo) && s.published[lo].id > s.cursor;
    var k :| 0 <= k < |s.phase.batch| && s.phase.batch[k] == e;
    assert s.published[lo + k] == e;
  }

  lemma {:induction false} BatchAscends(s: State)
    requires WellFormed(s) && !s.phase.Idle?
    ensures Ascending(s.phase.batch)
  {
    var lo: nat :| BatchAt(s, s.phase.batch, lo) && s.published[lo].id > s.cursor;
    BatchIdsAscend(s, lo);
  }

  lemma {:induction false} SameIdSameEntry(es: seq<Entry>, e: Entry, f: Entry)
    requires Ascending(es) && e in es && f in es && e.id == f.id
    ensures e == f
  {
  }

  lemma {:induction false} PublishNoDuplicate(s: State, a: Action)
    requires NoDuplicateInv(s) && Enabled(s, a) && a.Publish?
    ensures NoDuplicateInv(Apply(s, a))
  {
    hide WellFormed, Raises, RowsOf;
    var t, x := Apply(s, a), a.entry;
    StepWellFormed(s, a);
    assert !Stored(s, x) && forall e :: Stored(t, e) <==> Stored(s, e);
    assert forall e :: e in t.stream ==> e in s.stream || e == x;
  }

  lemma {:induction false} FetchNoDuplicate(s: State, a: Action)
    requires NoDuplicateInv(s) && Enabled(s, a) && a.Fetch?
    ensures NoDuplicateInv(Apply(s, a))
  {
    hide WellFormed, Raises, RowsOf, Classify;
    var t := Apply(s, a);
    StepWellFormed(s, a);
    if t.phase.Fetched? {
      BatchFacts(s, s.cursor, a.batchSize);
      forall e | e in t.phase.batch ensures !Stored(t, e) {
        assert e in s.stream && e.id > s.cursor;
      }
    }
    forall e | e in t.stream && e.id > t.cursor && Stored(t, e) ensures Done(t) && e in t.phase.batch {
      assert Stored(s, e);
    }
  }

  /** What a commit stores is what was stored before and the batch. */
  lemma {:induction false} CommitStores(s: State, e: Entry)
    requires WellFormed(s) && Enabled(s, Commit) && e in s.published && Stored(Apply(s, Commit), e)
    ensures Stored(s, e) || e in s.phase.batch
  {
    var b := s.phase.batch;
    if !Stored(s, e) {
      var k := RowsOfSource(b, Classify(e).row);
      InBatch(s, b[k]);
      SameIdSameEntry(s.published, e, b[k]);
    }
  }

  lemma {:induction false} CommitOrigins(s: State)
    requires NoDuplicateInv(s) && Enabled(s, Commit)
    ensures OriginsKnown(Apply(s, Commit))
  {
    var b := s.phase.batch;
    forall r | r in RowsOf(b) ensures r.origin <= s.lastId {
      var k := RowsOfSource(b, r);
      InBatch(s, b[k]);
    }
  }

  lemma {:induction false} CommitAhead(s: State)
    requires NoDuplicateInv(s) && Enabled(s, Commit)
    ensures OnlyBatchAhead(Apply(s, Commit))
  {
    var t := Apply(s, Commit);
    forall e | e in t.stream && e.id > t.cursor && Stored(t, e) ensures e in s.phase.batch {
      InStream(s, e);
      CommitStores(s, e);
    }
  }

  lemma {:induction false} CommitNoDuplicate(s: State)
    requires NoDuplicateInv(s) && Enabled(s, Commit)
    ensures NoDuplicateInv(Apply(s, Commit))
  {
    StepWellFormed(s, Commit);
    CommitOrigins(s);
    CommitAhead(s);
    BatchAscends(s);
    AppendDuplicatesIff(s, s.phase.batch);
    assert forall i :: 0 <= i < |s.phase.batch| ==> s.phase.batch[i] in s.phase.batch;
  }

  lemma {:induction false} UpToNewestOfBatch(s: State, e: Entry)
    requires WellFormed(s) && !s.phase.Idle? && e in s.phase.batch
    ensures e.id <= Newest(s.phase.batch) && s.cursor <= Newest(s.phase.batch)
    ensures Classify(e).Emit? ==> RowsOf(s.phase.batch) != []
  {
    var b := s.phase.batch;
    BatchAscends(s);
    RowsOfNone(b);
    var k :| 0 <= k < |b| && b[k] == e;
    var lo: nat :| BatchAt(s, b, lo) && s.published[lo].id > s.cursor;
    assert b[0].id <= b[k].id <= Newest(b);
  }

  lemma {:induction false} AdvanceNoDuplicate(s: State)
    requires NoDuplicateInv(s) && Enabled(s, Advance)
    ensures NoDuplicateInv(Apply(s, Advance))
  {
    var t, b := Apply(s, Advance), s.phase.batch;
    StepWellFormed(s, Advance);
    forall e | e in b ensures e.id <= Newest(b) && s.cursor <= Newest(b) && (Classify(e).Emit? ==> RowsOf(b) != []) {
      UpToNewestOfBatch(s, e);
    }
    assert s.cursor <= t.cursor by { assert b[0] in b; }
    forall e | e in t.stream && e.id > t.cursor ensures !Stored(t, e) {
      assert Stored(s, e) ==> e in b;
    }
  }

  lemma {:induction false} StepNoDuplicate(s: State, a: Action)
    requires NoDuplicateInv(s) && Enabled(s, a) && (a.Cancel? || a.Restart? ==> !Exposed(s, a))
    ensures NoDuplicateInv(Apply(s, a))
  {
    var t := Apply(s, a);
    match a {
      case Publish(_, _) => PublishNoDuplicate(s, a);
      case Fetch(_) => FetchNoDuplicate(s, a);
      case Commit => CommitNoDuplicate(s);
      case Advance => AdvanceNoDuplicate(s);
      case Trim(_) => UnreadStays(s, a);
      case Fail => UnreadStays(s, a);
      case Cancel => UnreadStays(s, a);
      case Restart => UnreadStays(s, a);
    }
  }

  lemma {:induction false} UnreadStays(s: State, a: Action)
    requires NoDuplicateInv(s) && Enabled(s, a) && (a.Trim? || a.Fail? || a.Cancel? || a.Restart?)
    requires a.Cancel? || a.Restart? ==> !Exposed(s, a)
    ensures NoDuplicateInv(Apply(s, a))
  {
    var t := Apply(s, a);
    StepWellFormed(s, a);
    forall e | e in t.stream && e.id > t.cursor && Stored(t, e) ensures Done(t) && e in t.phase.batch {
      assert e in s.stream && Stored(s, e);
      var i :| 0 <= i < |s.stream| && s.stream[i] == e;
    }
  }

  lemma {:induction false} RunNoDuplicate(s: State, acts: seq<Action>)
    requires NoDuplicateInv(s) && LegalUnexposed(s, acts)
    ensures Legal(s, acts) && NoDuplicateInv(Run(s, acts))
    decreases |acts|
  {
    if acts != [] {
      StepNoDuplicate(s, acts[0]);
      RunNoDuplicate(Apply(s, acts[0]), acts[1..]);
    }
  }

  /** Truncated or not: in every run whose interruptions expose nothing, no row is committed twice. */
  lemma {:induction false} NoDuplicatesUnexposed(acts: seq<Action>)
    requires LegalUnexposed(Init, acts)
    ensures Legal(Init, acts) && !HasDuplicate(Run(Init, acts).rows)
  {
    RunNoDuplicate(Init, acts);
  }

  // ----- which interruptions duplicate -----

  lemma {:induction false} WholeBatch(es: seq<Entry>, cursor: nat, i: nat)
    requires i < |es| && es[i].id > cursor
    ensures es[i] in Batch(es, cursor, |es|)
  {
    var k := AfterFacts(es, cursor);
    assert es[i] == es[k..][i - k];
  }

  /** The rows of the next batch repeat a stored one, for some batch size, exactly when the
      interruption was exposed. */
  lemma {:induction false} ReplayDuplicatesIffExposed(s: State, a: Action)
    requires WellFormed(s) && !HasDuplicate(s.rows)
    requires a.Cancel? || a.Restart?
    ensures Exposed(s, a) <==>
            exists n: nat :: HasDuplicate(s.rows + RowsOf(Batch(s.stream, CursorAfter(s, a), n)))
  {
    var c := CursorAfter(s, a);
    forall n: nat
      ensures HasDuplicate(s.rows + RowsOf(Batch(s.stream, c, n))) ==> Exposed(s, a)
    {
      BatchFacts(s, c, n);
      var b := Batch(s.stream, c, n);
      AppendDuplicatesIff(s, b);
      if i :| 0 <= i < |b| && Stored(s, b[i]) {
        var j :| 0 <= j < |s.stream| && s.stream[j] == b[i];
      }
    }
    if Exposed(s, a) {
      var i :| 0 <= i < |s.stream| && s.stream[i].id > c
               && Classify(s.stream[i]).Emit? && Classify(s.stream[i]).row in s.rows;
      var b := Batch(s.stream, c, |s.stream|);
      WholeBatch(s.stream, c, i);
      BatchFacts(s, c, |s.stream|);
      AppendDuplicatesIff(s, b);
      var k :| 0 <= k < |b| && b[k] == s.stream[i];
      assert Stored(s, b[k]);
    }
  }

  lemma {:induction false} UpToMembers(es: seq<Entry>, cursor: nat, e: Entry)
    requires Ascending(es)
    ensures e in UpTo(es, cursor) <==> e in es && e.id <= cursor
  {
    if es != [] {
      assert es == [es[0]] + es[1..];
      if es[0].id <= cursor {
        UpToMembers(es[1..], cursor, e);
      } else if e in es {
        var i :| 0 <= i < |es| && es[i] == e;
      }
    }
  }

  /** In a run as in `ExactlyOnce` an entry of the history is stored exactly up to the watermark. */
  lemma {:induction false} StoredIff(acts: seq<Action>, s: State, e: Entry)
    requires Legal(Init, acts) && LegalCalm(Init, acts, true) && s == Run(Init, acts)
    requires e in s.published
    ensures WellFormed(s) && (Stored(s, e) <==> Classify(e).Emit? && e.id <= Watermark(s))
  {
    RunWellFormed(Init, acts);
    ExactlyOnce(acts, s);
    var done := UpTo(s.published, Watermark(s));
    UpToMembers(s.published, Watermark(s), e);
    if e in done && Classify(e).Emit? {
      var i: nat :| i < |done| && done[i] == e;
      RowsOfMember(done, i);
    }
    if Stored(s, e) {
      var k := RowsOfSource(done, Classify(e).row);
      UpToMembers(s.published, Watermark(s), done[k]);
      assert done[k].id == e.id;
    }
  }

  /** After such a run an interruption is exposed exactly when the stream still holds an entry with a row
      between the cursor it leaves and the watermark: a cancelled worker repeats only what is left in
      the stream of a batch it had committed, a restarted one whatever committed entries are left. */
  lemma {:induction false} ExposedIff(acts: seq<Action>, s: State, a: Action)
    requires Legal(Init, acts) && LegalCalm(Init, acts, true) && s == Run(Init, acts)
    requires a.Cancel? || a.Restart?
    ensures Exposed(s, a) <==>
              exists e :: e in s.stream && Classify(e).Emit? && CursorAfter(s, a) < e.id <= Watermark(s)
    ensures a.Cancel? && !Done(s) ==> !Exposed(s, a)
  {
    hide WellFormed, Classify;
    RunWellFormed(Init, acts);
    forall e | e in s.stream ensures Stored(s, e) <==> Classify(e).Emit? && e.id <= Watermark(s) {
      InStream(s, e);
      StoredIff(acts, s, e);
    }
    if Exposed(s, a) {
      var i :| 0 <= i < |s.stream| && s.stream[i].id > CursorAfter(s, a)
               && Classify(s.stream[i]).Emit? && Classify(s.stream[i]).row in s.rows;
      assert Stored(s, s.stream[i]);
    }
    if e :| e in s.stream && Classify(e).Emit? && CursorAfter(s, a) < e.id <= Watermark(s) {
      var i :| 0 <= i < |s.stream| && s.stream[i] == e;
      assert Stored(s, s.stream[i]);
    }
  }

  lemma {:induction false} ReplayRun(s: State, a: Action, n: nat)
    requires WellFormed(s) && (a.Cancel? || a.Restart?)
    requires n > 0 && Batch(s.stream, CursorAfter(s, a), n) != []
    ensures Legal(s, [a, Fetch(n), Commit]) <==> !Raises(Batch(s.stream, CursorAfter(s, a), n))
    ensures !Raises(Batch(s.stream, CursorAfter(s, a), n)) ==>
              Run(s, [a, Fetch(n), Commit]).rows == s.rows + RowsOf(Batch(s.stream, CursorAfter(s, a), n))
  {
    var b := Batch(s.stream, CursorAfter(s, a), n);
    var acts := [a, Fetch(n), Commit];
    var s1 := Apply(s, a);
    var s2 := Apply(s1, Fetch(n));
    assert s2.phase == Fetched(b);
    assert acts[1..] == [Fetch(n), Commit] && acts[1..][1..] == [Commit] && acts[1..][1..][1..] == [];
    assert Legal(s, acts) <==> Legal(s1, acts[1..]);
    assert Legal(s1, acts[1..]) <==> Legal(s2, [Commit]);
    if !Raises(b) {
      var s3 := Apply(s2, Commit);
      assert Legal(s3, []) && Legal(s2, [Commit]) && Legal(s1, acts[1..]);
      assert Run(s3, []) == s3 && Run(s2, [Commit]) == s3 && Run(s1, acts[1..]) == s3;
    }
  }

  lemma {:induction false} CalmHasNoDuplicate(acts: seq<Action>, s: State)
    requires Legal(Init, acts) && LegalCalm(Init, acts, true) && s == Run(Init, acts)
    ensures WellFormed(s) && !HasDuplicate(s.rows)
  {
    var w, lo := RunOnce(Init, acts, 0, 0, true);
    PrefixAscending(s.published, w);
  }

  lemma {:induction false} BatchDuplicatesIff(acts: seq<Action>, s: State, c: nat, n: nat)
    requires Legal(Init, acts) && LegalCalm(Init, acts, true) && s == Run(Init, acts)
    ensures HasDuplicate(s.rows + RowsOf(Batch(s.stream, c, n))) <==>
              exists e :: e in Batch(s.stream, c, n) && Classify(e).Emit? && e.id <= Watermark(s)
  {
    var b := Batch(s.stream, c, n);
    CalmHasNoDuplicate(acts, s);
    BatchFacts(s, c, n);
    AppendDuplicatesIff(s, b);
    forall e | e in b ensures Stored(s, e) <==> Classify(e).Emit? && e.id <= Watermark(s) {
      InStream(s, e);
      StoredIff(acts, s, e);
    }
    assert (exists i :: 0 <= i < |b| && Stored(s, b[i])) <==> exists e :: e in b && Stored(s, e);
  }

  /** What the next batch of any size does after an interruption: it commits unless an entry raises, and
      then repeats a row exactly when it reaches back to an entry with a row up to the watermark. */
  lemma {:induction false} ReplayDuplicatesIff(acts: seq<Action>, s: State, a: Action, n: nat)
    requires Legal(Init, acts) && LegalCalm(Init, acts, true) && s == Run(Init, acts)
    requires (a.Cancel? || a.Restart?) && n > 0 && Batch(s.stream, CursorAfter(s, a), n) != []
    ensures Legal(s, [a, Fetch(n), Commit]) <==> !Raises(Batch(s.stream, CursorAfter(s, a), n))
    ensures !Raises(Batch(s.stream, CursorAfter(s, a), n)) ==>
              (HasDuplicate(Run(s, [a, Fetch(n), Commit]).rows) <==>
               exists e :: e in Batch(s.stream, CursorAfter(s, a), n) && Classify(e).Emit? && e.id <= Watermark(s))
  {
    CalmHasNoDuplicate(acts, s);
    ReplayRun(s, a, n);
    BatchDuplicatesIff(acts, s, CursorAfter(s, a), n);
  }

  lemma {:induction false} FirstCommit(e: Entry)
    requires e.id > 0 && Classify(e).Emit?
    ensures var acts := [Publish(e, 0), Fetch(50), Commit];
            Legal(Init, acts) &&
            Run(Init, acts) == State([e], e.id, 0, Committed([e]), [Classify(e).row], [e], 0)
  {
    var acts := [Publish(e, 0), Fetch(50), Commit];
    var s1 := State([e], e.id, 0, Idle, [], [e], 0);
    assert Apply(Init, acts[0]) == s1 by { assert ([] + [e])[0..] == [e]; }
    assert RowsOf([e]) == [Classify(e).row] by { assert RowsOf([e][..0]) == []; }
    var s2 := Apply(s1, acts[1]);
    var s3 := Apply(s2, acts[2]);
    assert acts[2..][1..] == [] && Legal(s2, acts[2..]) && Run(s2, acts[2..]) == s3;
    assert acts[1..][1..] == acts[2..] && Legal(s1, acts[1..]) && Run(s1, acts[1..]) == s3;
  }

  /** A restart between commit and trim: the entry is committed a second time. */
  lemma {:induction false} RestartCommitsTwice(e: Entry)
    requires e.id > 0 && Classify(e).Emit?
    ensures var acts := [Publish(e, 0), Fetch(50), Commit] + [Restart, Fetch(50), Commit];
            Legal(Init, acts) && Run(Init, acts).rows == [Classify(e).row, Classify(e).row]
  {
    var s := State([e], e.id, 0, Committed([e]), [Classify(e).row], [e], 0);
    FirstCommit(e);
    assert WellFormed(s) by { assert BatchAt(s, [e], 0); }
    assert Batch(s.stream, 0, 50) == [e];
    assert RowsOf([e]) == [Classify(e).row] by { assert RowsOf([e][..0]) == []; }
    ReplayRun(s, Restart, 50);
    RunConcat(Init, [Publish(e, 0), Fetch(50), Commit], [Restart, Fetch(50), Commit]);
  }
}
