/** Time correlation of analysed events: the scan over pairs that stops early, against counting all
    pairs. */
module TimeCorrelation {
  import opened Basics
  import opened Strings

  /** An analysis record; an absent event id is "".  Times are microseconds. */
  datatype Analysis = Analysis(eventId: string, createdAt: Option<int>)

  const WINDOW := 5 * 60 * 1000000

  predicate Known(r: Analysis) { r.eventId != "" && r.eventId != "Unknown" }

  function Distance(a: int, b: int): int { if a <= b then b - a else a - b }

  /** The order of the query: ascending creation time, records without one last. */
  ghost predicate ByCreation(rs: seq<Analysis>) {
    forall i, j :: 0 <= i < j < |rs| && rs[j].createdAt.Some? ==>
      rs[i].createdAt.Some? && rs[i].createdAt.value <= rs[j].createdAt.value
  }

  type Pair = (string, string)

  function PairOf(a: string, b: string): Pair { if StringLe(a, b) then (a, b) else (b, a) }

  /** Records `i` and `j` are different known events at most five minutes apart. */
  predicate Together(rs: seq<Analysis>, i: nat, j: nat) {
    && i < j < |rs|
    && Known(rs[i]) && Known(rs[j]) && rs[i].eventId != rs[j].eventId
    && rs[i].createdAt.Some? && rs[j].createdAt.Some?
    && Distance(rs[i].createdAt.value, rs[j].createdAt.value) <= WINDOW
  }

  predicate Makes(rs: seq<Analysis>, i: nat, j: nat, p: Pair) {
    Together(rs, i, j) && PairOf(rs[i].eventId, rs[j].eventId) == p
  }

  /** The pairs of records that make up event pair `p`, among those before position (n, m) of the scan. */
  ghost function Found(rs: seq<Analysis>, p: Pair, n: nat, m: nat): set<(nat, nat)> {
    set i: nat, j: nat | i < |rs| && j < |rs| && (i < n || (i == n && j < m)) && Makes(rs, i, j, p) :: (i, j)
  }

  /** All pairs of records that make up event pair `p`. */
  ghost function AllFound(rs: seq<Analysis>, p: Pair): set<(nat, nat)> {
    set i: nat, j: nat | i < |rs| && j < |rs| && Makes(rs, i, j, p) :: (i, j)
  }

  function CountOf(counts: map<Pair, nat>, p: Pair): nat { if p in counts then counts[p] else 0 }

  lemma {:induction false} FoundNext(rs: seq<Analysis>, p: Pair, n: nat, m: nat)
    requires n < |rs| && m < |rs|
    ensures |Found(rs, p, n, m + 1)| == |Found(rs, p, n, m)| + if Makes(rs, n, m, p) then 1 else 0
  {
    var before, after := Found(rs, p, n, m), Found(rs, p, n, m + 1);
    if Makes(rs, n, m, p) {
      assert after == before + {(n, m)};
      assert (n, m) !in before;
    } else {
      assert after == before;
    }
  }

  /** Nothing is missed by leaving row `n` at `m` if the row makes no pair from there on. */
  lemma {:induction false} FoundRow(rs: seq<Analysis>, p: Pair, n: nat, m: nat)
    requires forall j: nat :: m <= j ==> !Together(rs, n, j)
    ensures Found(rs, p, n + 1, n + 2) == Found(rs, p, n, m)
  {
    forall i: nat, j: nat ensures (i, j) in Found(rs, p, n + 1, n + 2) <==> (i, j) in Found(rs, p, n, m) {
    }
  }

  /** Once a record is too far away or has no time, so are all later ones. */
  lemma {:induction false} StopIsFinal(rs: seq<Analysis>, i: nat, m: nat)
    requires ByCreation(rs) && i < m < |rs| && rs[i].createdAt.Some?
    requires rs[m].createdAt.None? || Distance(rs[i].createdAt.value, rs[m].createdAt.value) > WINDOW
    ensures forall j: nat :: m <= j ==> !Together(rs, i, j)
  {
    forall j: nat | m <= j ensures !Together(rs, i, j) {
      if m < j < |rs| && rs[j].createdAt.Some? {
        assert rs[m].createdAt.Some? && rs[m].createdAt.value <= rs[j].createdAt.value;
        assert rs[i].createdAt.value <= rs[m].createdAt.value;
      }
    }
  }

  ghost predicate Counted(counts: map<Pair, nat>, rs: seq<Analysis>, n: nat, m: nat) {
    forall p :: CountOf(counts, p) == |Found(rs, p, n, m)|
  }

  lemma {:induction false} CountNext(counts: map<Pair, nat>, rs: seq<Analysis>, n: nat, m: nat)
    requires n < |rs| && m < |rs| && Counted(counts, rs, n, m)
    ensures if Together(rs, n, m)
            then var p := PairOf(rs[n].eventId, rs[m].eventId); Counted(counts[p := CountOf(counts, p) + 1], rs, n, m
                + 1)
            else Counted(counts, rs, n, m + 1)
  {
    var q := PairOf(rs[n].eventId, rs[m].eventId);
    var after := if Together(rs, n, m) then counts[q := CountOf(counts, q) + 1] else counts;
    forall p ensures CountOf(after, p) == |Found(rs, p, n, m + 1)| {
      FoundNext(rs, p, n, m);
      assert CountOf(counts, p) == |Found(rs, p, n, m)|;
    }
  }

  lemma {:induction false} CountRow(counts: map<Pair, nat>, rs: seq<Analysis>, n: nat, m: nat)
    requires Counted(counts, rs, n, m) && forall j: nat :: m <= j ==> !Together(rs, n, j)
    ensures Counted(counts, rs, n + 1, n + 2)
  {
    forall p ensures Found(rs, p, n + 1, n + 2) == Found(rs, p, n, m) { FoundRow(rs, p, n, m); }
  }

  /** Two records with known event ids that differ, in the order of the names of the pair, both with a time,
      and these at most 300 seconds apart. */
  ghost predicate Close(rs: seq<Analysis>, i: nat, j: nat, p: Pair) {
    && i < j < |rs|
    && rs[i].eventId != "" && rs[i].eventId != "Unknown" && rs[j].eventId != "" && rs[j].eventId != "Unknown"
    && (p == (rs[i].eventId, rs[j].eventId) || p == (rs[j].eventId, rs[i].eventId))
    && p.0 != p.1 && StringLe(p.0, p.1)
    && rs[i].createdAt.Some? && rs[j].createdAt.Some?
    && -300000000 <= rs[j].createdAt.value - rs[i].createdAt.value <= 300000000
  }

  lemma {:induction false} CloseIff(rs: seq<Analysis>, i: nat, j: nat, p: Pair)
    ensures Makes(rs, i, j, p) <==> Close(rs, i, j, p)
  {
    if i < j < |rs| {
      LeTotal(rs[i].eventId, rs[j].eventId);
      if StringLe(rs[i].eventId, rs[j].eventId) && StringLe(rs[j].eventId, rs[i].eventId) {
        LeAntisymmetric(rs[i].eventId, rs[j].eventId);
      }
    }
  }

  /** The early exit costs nothing: on records in query order, each event pair is counted exactly as
      often as there are two records, however far apart in the list, that make it. */
  method TimePairs(rs: seq<Analysis>) returns (counts: map<Pair, nat>)
    requires ByCreation(rs)
    ensures forall p :: CountOf(counts, p) == |AllFound(rs, p)|
    ensures forall p :: (if p in counts then counts[p] else 0) == |ClosePairs(rs, p)|
  {
    counts := map[];
    var i := 0;
    assert Counted(counts, rs, 0, 1) by {
      forall p ensures Found(rs, p, 0, 1) == {} {}
    }
    while i < |rs|
      invariant i <= |rs|
      invariant Counted(counts, rs, i, i + 1)
    {
      var a := rs[i];
      var j := i + 1;
      if a.createdAt.Some? && Known(a) {
        while j < |rs|
          invariant i < j <= |rs|
          invariant Counted(counts, rs, i, j)
        {
          var b := rs[j];
          if b.createdAt.None? {
            StopIsFinal(rs, i, j);
            break;
          }
          if Distance(b.createdAt.value, a.createdAt.value) > WINDOW {
            StopIsFinal(rs, i, j);
            break;
          }
          CountNext(counts, rs, i, j);
          if Known(b) && b.eventId != a.eventId {
            var p := PairOf(a.eventId, b.eventId);
            counts := counts[p := CountOf(counts, p) + 1];
          }
          j := j + 1;
        }
      }
      assert forall k: nat :: j <= k ==> !Together(rs, i, k);
      CountRow(counts, rs, i, j);
      i := i + 1;
    }
    forall p ensures CountOf(counts, p) == |AllFound(rs, p)| && AllFound(rs, p) == ClosePairs(rs, p) {
      EndOfScan(rs, p);
      FoundAreClose(rs, p);
    }
  }

  ghost function ClosePairs(rs: seq<Analysis>, p: Pair): set<(nat, nat)> {
    set i: nat, j: nat | i < |rs| && j < |rs| && Close(rs, i, j, p) :: (i, j)
  }

  lemma {:induction false} FoundAreClose(rs: seq<Analysis>, p: Pair)
    ensures AllFound(rs, p) == ClosePairs(rs, p)
  {
    forall i: nat, j: nat ensures (i, j) in AllFound(rs, p) <==> (i, j) in ClosePairs(rs, p) {
      CloseIff(rs, i, j, p);
    }
  }

  lemma {:induction false} EndOfScan(rs: seq<Analysis>, p: Pair)
    ensures Found(rs, p, |rs|, |rs| + 1) == AllFound(rs, p)
  {
    forall i: nat, j: nat ensures (i, j) in Found(rs, p, |rs|, |rs| + 1) <==> (i, j) in AllFound(rs, p) {
    }
  }
}
