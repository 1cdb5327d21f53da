/** Partition of evidence records into operations, and the bounded windows around anchor lines. */
module OperationSegments {
  import opened Basics
  import opened Sorting
  import opened Strings
  import opened Evidence

  const MAX_LINE_GAP := 15
  const MAX_TIME_GAP := 300 * 1000000
  const DAY := 86400 * 1000000

  // ----- what a segment has seen so far -----

  datatype Seen = Seen(time: Option<int>, clock: Clock, sessions: map<string, string>, operation: Option<Operation>)

  const UNSEEN := Seen(None, NoClock, map[], None)

  /** The operation of a line that names exactly one. */
  function OnlyOperation(r: Record): Option<Operation> {
    if r.operations == {Revert} then Some(Revert)
    else if r.operations == {Create} then Some(Create)
    else if r.operations == {Delete} then Some(Delete)
    else if r.operations == {ManualMove} then Some(ManualMove)
    else None
  }

  function Extend(s: Seen, r: Record): Seen {
    Seen(if r.time.Some? then r.time else s.time,
         if r.time.Some? then r.clock else s.clock,
         s.sessions + r.sessions,
         if OnlyOperation(r).Some? then OnlyOperation(r) else s.operation)
  }

  function SeenIn(seg: seq<Record>): Seen {
    if seg == [] then UNSEEN else Extend(SeenIn(seg[..|seg| - 1]), seg[|seg| - 1])
  }

  function Abs(x: int): int { if x < 0 then -x else x }

  /** Does `r` close the segment that has seen `s` and ends with `previous`? */
  predicate Boundary(s: Seen, previous: Record, r: Record) {
    || r.file != previous.file
    || r.line - previous.line > MAX_LINE_GAP
    || (exists k :: k in r.sessions && k in s.sessions && s.sessions[k] != r.sessions[k])
    || (s.operation.Some? && OnlyOperation(r).Some? && s.operation != OnlyOperation(r))
    || (r.time.Some? && s.time.Some? &&
        (|| r.clock != s.clock
         || r.time.value / DAY != s.time.value / DAY
         || Abs(r.time.value - s.time.value) > MAX_TIME_GAP))
  }

  /** No member closes the segment before it. */
  ghost predicate Coherent(seg: seq<Record>) {
    forall i :: 0 < i < |seg| ==> !Boundary(SeenIn(seg[..i]), seg[i - 1], seg[i])
  }

  function Flatten<T>(ss: seq<seq<T>>): seq<T> {
    if ss == [] then [] else ss[0] + Flatten(ss[1..])
  }

  ghost predicate CutBefore(seg: seq<Record>, r: Record) {
    seg != [] && Boundary(SeenIn(seg), seg[|seg| - 1], r)
  }

  /** No segment should have been cut, and every cut is justified by what the segment before it had
      seen. */
  ghost predicate Justified(segs: seq<seq<Record>>) {
    && (forall i :: 0 <= i < |segs| ==> segs[i] != [] && Coherent(segs[i]))
    && (forall i :: 0 < i < |segs| ==> CutBefore(segs[i - 1], segs[i][0]))
  }

  /** The segments are the records in order, cut exactly where they must be. */
  ghost predicate IsPartition(segs: seq<seq<Record>>, rs: seq<Record>) {
    Flatten(segs) == rs && Justified(segs)
  }

  // ----- the partition is unique -----

  /** Where the segment that starts the records ends, given that it has at least `n` members. */
  ghost function FirstCut(rs: seq<Record>, n: nat): nat
    requires 0 < n <= |rs|
    decreases |rs| - n
  {
    if n == |rs| || Boundary(SeenIn(rs[..n]), rs[n - 1], rs[n]) then n else FirstCut(rs, n + 1)
  }

  lemma {:induction false} FirstCutIs(rs: seq<Record>, n: nat, m: nat)
    requires 0 < n <= m <= |rs|
    requires forall i :: n <= i < m ==> !Boundary(SeenIn(rs[..i]), rs[i - 1], rs[i])
    requires m == |rs| || Boundary(SeenIn(rs[..m]), rs[m - 1], rs[m])
    ensures FirstCut(rs, n) == m
    decreases m - n
  {
    if n < m {
      FirstCutIs(rs, n + 1, m);
    }
  }

  /** The first segment is as long as the records allow. */
  lemma {:induction false} FirstSegment(a: seq<seq<Record>>, rs: seq<Record>)
    requires IsPartition(a, rs) && rs != []
    ensures a != [] && |a[0]| == FirstCut(rs, 1)
  {
    assert rs == a[0] + Flatten(a[1..]);
    var m := |a[0]|;
    assert a[0] == rs[..m];
    forall i | 1 <= i < m ensures !Boundary(SeenIn(rs[..i]), rs[i - 1], rs[i]) {
      assert a[0][..i] == rs[..i];
    }
    if |a| > 1 {
      var next := a[1..];
      assert Flatten(next) == next[0] + Flatten(next[1..]);
      assert rs[m] == a[1][0];
      assert CutBefore(a[0], a[1][0]);
    } else {
      assert a[1..] == [];
    }
    FirstCutIs(rs, 1, m);
  }

  lemma {:induction false} TailPartition(a: seq<seq<Record>>, rs: seq<Record>)
    requires IsPartition(a, rs) && a != []
    ensures |a[0]| <= |rs| && a[0] == rs[..|a[0]|] && IsPartition(a[1..], rs[|a[0]|..])
  {
    var t := a[1..];
    assert rs == a[0] + Flatten(t);
    assert Flatten(t) == rs[|a[0]|..];
    forall i | 0 <= i < |t| ensures t[i] == a[i + 1] {}
  }

  /** There is only one such partition. */
  lemma {:induction false} PartitionUnique(a: seq<seq<Record>>, b: seq<seq<Record>>, rs: seq<Record>)
    requires IsPartition(a, rs) && IsPartition(b, rs)
    ensures a == b
    decreases |rs|
  {
    if rs == [] {
      NoSegments(a);
      NoSegments(b);
    } else {
      FirstSegment(a, rs);
      FirstSegment(b, rs);
      TailPartition(a, rs);
      TailPartition(b, rs);
      PartitionUnique(a[1..], b[1..], rs[|a[0]|..]);
      assert a == [a[0]] + a[1..] && b == [b[0]] + b[1..];
    }
  }

  lemma {:induction false} NoSegments(a: seq<seq<Record>>)
    requires IsPartition(a, [])
    ensures a == []
  {
    FlattenLength(a);
  }

  lemma {:induction false} FlattenLength(a: seq<seq<Record>>)
    requires forall i :: 0 <= i < |a| ==> a[i] != []
    ensures |Flatten(a)| >= |a|
  {
    if a != [] {
      FlattenLength(a[1..]);
    }
  }

  /** Records of different places give the same segments in whatever order they come. */
  lemma {:induction false} SegmentsIgnoreInput(a: seq<Record>, b: seq<Record>, x: seq<seq<Record>>, y: seq<seq<Record>>)
    requires multiset(a) == multiset(b) && DistinctPlaces(a)
    requires IsPartition(x, Sort(a, ByPlace)) && IsPartition(y, Sort(b, ByPlace))
    ensures x == y
  {
    ByPlaceOrder();
    PlacesDecide(a, ByPlace);
    SortIgnoresOrder(a, b, ByPlace);
    PartitionUnique(x, y, Sort(a, ByPlace));
  }

  // ----- what holds inside a segment -----

  /** `s` has taken note of the record. */
  ghost predicate Noted(s: Seen, r: Record) {
    && (r.time.Some? ==> s.time.Some? && s.clock == r.clock && s.time.value / DAY == r.time.value / DAY)
    && (forall k :: k in r.sessions ==> k in s.sessions && s.sessions[k] == r.sessions[k])
    && (OnlyOperation(r).Some? ==> s.operation == OnlyOperation(r))
  }

  lemma {:induction false} NotedStays(s: Seen, previous: Record, q: Record, r: Record)
    requires Noted(s, q) && !Boundary(s, previous, r)
    ensures Noted(Extend(s, r), q)
  {
    forall k | k in q.sessions ensures Extend(s, r).sessions[k] == q.sessions[k] {
      assert k in r.sessions ==> s.sessions[k] == r.sessions[k];
    }
  }

  lemma {:induction false} AllNoted(seg: seq<Record>, n: nat, i: nat)
    requires Coherent(seg) && i < n <= |seg|
    ensures Noted(SeenIn(seg[..n]), seg[i])
  {
    var init := seg[..n - 1];
    assert seg[..n][..n - 1] == init;
    if i < n - 1 {
      AllNoted(seg, n - 1, i);
      NotedStays(SeenIn(init), seg[n - 2], seg[i], seg[n - 1]);
    }
  }

  /** The last timestamp seen is that of the last timed record. */
  lemma {:induction false} LastTime(seg: seq<Record>, n: nat, i: nat)
    requires i < n <= |seg| && seg[i].time.Some?
    requires forall j :: i < j < n ==> seg[j].time.None?
    ensures SeenIn(seg[..n]).time == seg[i].time
  {
    assert seg[..n][..n - 1] == seg[..n - 1];
    if i < n - 1 {
      LastTime(seg, n - 1, i);
    }
  }

  /** Inside a segment: one file, line gaps of at most 15, one clock domain and one date, at most 300
      seconds between consecutive timed records, one value per session type, one operation. */
  lemma {:induction false} SegmentIsOneOperation(seg: seq<Record>, i: nat, j: nat)
    requires Coherent(seg) && i < j < |seg|
    ensures seg[i].file == seg[j].file
    ensures seg[j].line - seg[j - 1].line <= MAX_LINE_GAP
    ensures seg[i].time.Some? && seg[j].time.Some? ==>
              && seg[i].clock == seg[j].clock
              && seg[i].time.value / DAY == seg[j].time.value / DAY
              && ((forall k :: i < k < j ==> seg[k].time.None?) ==>
                  Abs(seg[j].time.value - seg[i].time.value) <= MAX_TIME_GAP)
    ensures forall k :: k in seg[i].sessions && k in seg[j].sessions ==> seg[i].sessions[k] == seg[j].sessions[k]
    ensures OnlyOperation(seg[i]).Some? && OnlyOperation(seg[j]).Some? ==>
        OnlyOperation(seg[i]) == OnlyOperation(seg[j])
  {
    var s := SeenIn(seg[..j]);
    AllNoted(seg, j, i);
    assert !Boundary(s, seg[j - 1], seg[j]);
    if i < j - 1 {
      SegmentIsOneOperation(seg, i, j - 1);
    }
    if seg[i].time.Some? && (forall k :: i < k < j ==> seg[k].time.None?) {
      LastTime(seg, j, i);
    }
  }

  // ----- when a record is cut off -----

  /** The last timed record of the segment, if it has one, is line `k`. */
  ghost predicate LastTimed(seg: seq<Record>, k: nat) {
    k < |seg| && seg[k].time.Some? && forall j :: k < j < |seg| ==> seg[j].time.None?
  }

  /** The next record is in another clock, on another day, or more than 300 seconds from the last time. */
  predicate TimeBreaks(a: Record, b: Record)
    requires a.time.Some? && b.time.Some?
  {
    || a.clock != b.clock
    || a.time.value / 86400000000 != b.time.value / 86400000000
    || a.time.value - b.time.value > 300000000 || b.time.value - a.time.value > 300000000
  }

  /** Another file, a gap of more than 15 lines, another value of a session, another operation where both
      name just one, or a break in time. */
  ghost predicate MustCut(seg: seq<Record>, r: Record)
    requires seg != []
  {
    || seg[|seg| - 1].file != r.file
    || r.line - seg[|seg| - 1].line > 15
    || (exists i, k :: 0 <= i < |seg| && k in seg[i].sessions && k in r.sessions && seg[i].sessions[k] != r.sessions[k])
    || (|r.operations| == 1
        && exists i :: 0 <= i < |seg| && |seg[i].operations| == 1 && seg[i].operations != r.operations)
    || (r.time.Some? && exists k: nat :: LastTimed(seg, k) && TimeBreaks(seg[k], r))
  }

  lemma {:induction false} OnlyOperationIff(r: Record)
    ensures OnlyOperation(r).Some? <==> |r.operations| == 1
    ensures OnlyOperation(r).Some? ==> r.operations == {OnlyOperation(r).value}
  {
    if |r.operations| == 1 {
      var o :| o in r.operations;
      assert |r.operations - {o}| == 0;
      assert r.operations == {o};
      assert o == Revert || o == Create || o == Delete || o == ManualMove;
    }
  }

  /** What a segment has seen comes from its members. */
  lemma {:induction false} SeenFrom(seg: seq<Record>)
    ensures var s := SeenIn(seg);
            && (forall k :: k in s.sessions ==>
                  exists i :: 0 <= i < |seg| && k in seg[i].sessions && seg[i].sessions[k] == s.sessions[k])
            && (s.operation.Some? ==> exists i :: 0 <= i < |seg| && OnlyOperation(seg[i]) == s.operation)
            && (s.time.Some? <==> exists k: nat :: LastTimed(seg, k))
            && (forall k: nat :: LastTimed(seg, k) ==> s.time == seg[k].time && s.clock == seg[k].clock)
  {
    if seg != [] {
      var init, last := seg[..|seg| - 1], seg[|seg| - 1];
      assert seg == init + [last];
      SeenFrom(init);
      SessionsFrom(init, last);
      OperationFrom(init, last);
      TimeFrom(init, last);
    }
  }

  lemma {:induction false} SessionsFrom(init: seq<Record>, last: Record)
    requires forall k :: k in SeenIn(init).sessions ==>
               exists i :: 0 <= i < |init| && k in init[i].sessions && init[i].sessions[k] == SeenIn(init).sessions[k]
    ensures var seg := init + [last];
            forall k :: k in SeenIn(seg).sessions ==>
              exists i :: 0 <= i < |seg| && k in seg[i].sessions && seg[i].sessions[k] == SeenIn(seg).sessions[k]
  {
    var seg := init + [last];
    SeenSnoc(init, last);
    forall k | k in SeenIn(seg).sessions
      ensures exists i :: 0 <= i < |seg| && k in seg[i].sessions && seg[i].sessions[k] == SeenIn(seg).sessions[k]
    {
      if k in last.sessions {
        assert seg[|init|] == last;
      } else {
        var i :| 0 <= i < |init| && k in init[i].sessions && init[i].sessions[k] == SeenIn(init).sessions[k];
        assert seg[i] == init[i];
      }
    }
  }

  lemma {:induction false} OperationFrom(init: seq<Record>, last: Record)
    requires SeenIn(init).operation.Some? ==>
               exists i :: 0 <= i < |init| && OnlyOperation(init[i]) == SeenIn(init).operation
    ensures var seg := init + [last];
            SeenIn(seg).operation.Some? ==>
              exists i :: 0 <= i < |seg| && OnlyOperation(seg[i]) == SeenIn(seg).operation
  {
    var seg := init + [last];
    SeenSnoc(init, last);
    if OnlyOperation(last).Some? {
      assert seg[|init|] == last;
    } else if SeenIn(seg).operation.Some? {
      var i :| 0 <= i < |init| && OnlyOperation(init[i]) == SeenIn(init).operation;
      assert seg[i] == init[i];
    }
  }

  lemma {:induction false} TimeFrom(init: seq<Record>, last: Record)
    requires SeenIn(init).time.Some? <==> exists k: nat :: LastTimed(init, k)
    requires forall k: nat :: LastTimed(init, k) ==>
               SeenIn(init).time == init[k].time && SeenIn(init).clock == init[k].clock
    ensures var seg := init + [last];
            && (SeenIn(seg).time.Some? <==> exists k: nat :: LastTimed(seg, k))
            && (forall k: nat :: LastTimed(seg, k) ==>
                  SeenIn(seg).time == seg[k].time && SeenIn(seg).clock == seg[k].clock)
  {
    var seg := init + [last];
    SeenSnoc(init, last);
    assert seg[|init|] == last;
    if last.time.Some? {
      assert LastTimed(seg, |init|);
    } else {
      forall k: nat ensures LastTimed(seg, k) <==> LastTimed(init, k) {
        assert k < |init| ==> seg[k] == init[k];
        assert forall j :: k < j < |init| ==> seg[j] == init[j];
      }
    }
  }

  /** A segment that no cut was missed in is closed by a record exactly under these conditions. */
  lemma {:induction false} CutIff(seg: seq<Record>, r: Record)
    requires seg != [] && Coherent(seg)
    ensures Boundary(SeenIn(seg), seg[|seg| - 1], r) <==> MustCut(seg, r)
  {
    SessionsCutIff(seg, r);
    OperationCutIff(seg, r);
    TimeCutIff(seg, r);
  }

  lemma {:induction false} SessionsCutIff(seg: seq<Record>, r: Record)
    requires seg != [] && Coherent(seg)
    ensures (exists k :: k in r.sessions && k in SeenIn(seg).sessions && SeenIn(seg).sessions[k] != r.sessions[k]) <==>
            exists i, k :: 0 <= i < |seg| && k in seg[i].sessions && k in r.sessions
                           && seg[i].sessions[k] != r.sessions[k]
  {
    SeenFrom(seg);
    AllSeen(seg);
  }

  lemma {:induction false} OperationCutIff(seg: seq<Record>, r: Record)
    requires seg != [] && Coherent(seg)
    ensures (SeenIn(seg).operation.Some? && OnlyOperation(r).Some? && SeenIn(seg).operation != OnlyOperation(r)) <==>
            |r.operations| == 1
            && exists i :: 0 <= i < |seg| && |seg[i].operations| == 1 && seg[i].operations != r.operations
  {
    SeenFrom(seg);
    AllSeen(seg);
    OnlyOperationIff(r);
    forall i | 0 <= i < |seg|
      ensures OnlyOperation(seg[i]).Some? <==> |seg[i].operations| == 1
      ensures OnlyOperation(seg[i]).Some? ==> seg[i].operations == {OnlyOperation(seg[i]).value}
    {
      OnlyOperationIff(seg[i]);
    }
  }

  lemma {:induction false} TimeCutIff(seg: seq<Record>, r: Record)
    requires seg != []
    ensures (r.time.Some? && SeenIn(seg).time.Some? &&
             (|| r.clock != SeenIn(seg).clock
              || r.time.value / DAY != SeenIn(seg).time.value / DAY
              || Abs(r.time.value - SeenIn(seg).time.value) > MAX_TIME_GAP)) <==>
            r.time.Some? && exists k: nat :: LastTimed(seg, k) && TimeBreaks(seg[k], r)
  {
    SeenFrom(seg);
  }

  lemma {:induction false} AllSeen(seg: seq<Record>)
    requires Coherent(seg)
    ensures forall i :: 0 <= i < |seg| ==> Noted(SeenIn(seg), seg[i])
  {
    forall i | 0 <= i < |seg| ensures Noted(SeenIn(seg), seg[i]) {
      AllNoted(seg, |seg|, i);
      assert seg[..|seg|] == seg;
    }
  }

  /** Every segment begins with a record that had to be cut off, and holds none that had to. */
  lemma {:induction false} PartitionMeans(segs: seq<seq<Record>>, rs: seq<Record>, i: nat)
    requires IsPartition(segs, rs) && i < |segs|
    ensures segs[i] != []
    ensures i > 0 ==> segs[i - 1] != [] && MustCut(segs[i - 1], segs[i][0])
    ensures forall j :: 0 < j < |segs[i]| ==> !MustCut(segs[i][..j], segs[i][j])
  {
    if i > 0 {
      CutIff(segs[i - 1], segs[i][0]);
    }
    var seg := segs[i];
    forall j | 0 < j < |seg| ensures !MustCut(seg[..j], seg[j]) {
      forall k | 0 < k < j ensures !Boundary(SeenIn(seg[..j][..k]), seg[..j][k - 1], seg[..j][k]) {
        assert seg[..j][..k] == seg[..k];
      }
      CutIff(seg[..j], seg[j]);
    }
  }

  // ----- the loop -----

  lemma {:induction false} FlattenSnoc<T>(ss: seq<seq<T>>, s: seq<T>)
    ensures Flatten(ss + [s]) == Flatten(ss) + s
  {
    if ss == [] {
      assert ([] + [s])[1..] == [];
    } else {
      FlattenSnoc(ss[1..], s);
      assert (ss + [s])[1..] == ss[1..] + [s];
    }
  }

  /** The state of the loop: closed segments, and the open one behind them. */
  ghost predicate Open(segs: seq<seq<Record>>, current: seq<Record>, rs: seq<Record>) {
    && Flatten(segs) + current == rs
    && Coherent(current)
    && Justified(segs)
    && (segs != [] ==> current != [] && CutBefore(segs[|segs| - 1], current[0]))
  }

  lemma {:induction false} JustifiedSnoc(segs: seq<seq<Record>>, current: seq<Record>)
    requires Justified(segs) && current != [] && Coherent(current)
    requires segs != [] ==> CutBefore(segs[|segs| - 1], current[0])
    ensures Justified(segs + [current])
  {
    var all := segs + [current];
    forall i | 0 <= i < |all| ensures all[i] != [] && Coherent(all[i]) {
      assert i < |segs| ==> all[i] == segs[i];
    }
    forall i | 0 < i < |all| ensures CutBefore(all[i - 1], all[i][0]) {
      assert i < |segs| ==> all[i] == segs[i] && all[i - 1] == segs[i - 1];
    }
  }

  lemma {:induction false} OpenCut(segs: seq<seq<Record>>, current: seq<Record>, rs: seq<Record>, r: Record)
    requires Open(segs, current, rs) && current != [] && Boundary(SeenIn(current), current[|current| - 1], r)
    ensures Open(segs + [current], [] + [r], rs + [r])
  {
    FlattenSnoc(segs, current);
    JustifiedSnoc(segs, current);
    assert [] + [r] == [r];
  }

  lemma {:induction false} OpenGrow(segs: seq<seq<Record>>, current: seq<Record>, rs: seq<Record>, r: Record)
    requires Open(segs, current, rs)
    requires current != [] ==> !Boundary(SeenIn(current), current[|current| - 1], r)
    ensures Open(segs, current + [r], rs + [r])
  {
    var c := current + [r];
    forall i | 0 < i < |c| ensures !Boundary(SeenIn(c[..i]), c[i - 1], c[i]) {
      if i < |current| {
        assert c[..i] == current[..i];
      } else {
        assert c[..i] == current;
      }
    }
    assert Flatten(segs) + c == rs + [r];
  }

  lemma {:induction false} SeenSnoc(seg: seq<Record>, r: Record)
    ensures SeenIn(seg + [r]) == Extend(SeenIn(seg), r)
  {
    assert (seg + [r])[..|seg|] == seg;
  }

  lemma {:induction false} LastTurn(segs: seq<seq<Record>>, current: seq<Record>, seen: Seen, rs: seq<Record>)
    requires Turn(segs, current, seen, rs)
    ensures IsPartition(if current == [] then segs else segs + [current], rs)
  {
    if current == [] {
      assert Flatten(segs) + current == Flatten(segs);
    } else {
      FlattenSnoc(segs, current);
      JustifiedSnoc(segs, current);
    }
  }

  /** The state of the loop with what the open segment has shown. */
  ghost predicate Turn(segs: seq<seq<Record>>, current: seq<Record>, seen: Seen, rs: seq<Record>) {
    Open(segs, current, rs) && seen == SeenIn(current)
  }

  predicate Cut(current: seq<Record>, seen: Seen, r: Record) {
    current != [] && Boundary(seen, current[|current| - 1], r)
  }

  lemma {:induction false} FirstTurn()
    ensures Turn([], [], UNSEEN, [])
  {
  }

  /** One turn of the loop. */
  lemma {:induction false} NextTurn(segs: seq<seq<Record>>, current: seq<Record>, seen: Seen, rs: seq<Record>,
      r: Record)
    requires Turn(segs, current, seen, rs)
    ensures if Cut(current, seen, r) then Turn(segs + [current], [] + [r], Extend(UNSEEN, r), rs + [r])
            else Turn(segs, current + [r], Extend(seen, r), rs + [r])
  {
    if Cut(current, seen, r) {
      OpenCut(segs, current, rs, r);
      SeenSnoc([], r);
    } else {
      OpenGrow(segs, current, rs, r);
      SeenSnoc(current, r);
    }
  }

  /** Partitions the records, sorted by place. */
  method OperationSegments(records: seq<Record>) returns (segments: seq<seq<Record>>)
    ensures IsPartition(segments, Sort(records, ByPlace))
  {
    hide Turn, IsPartition, Boundary, Extend, Sort;
    var sorted := Sort(records, ByPlace);
    var current: seq<Record>, seen := [], UNSEEN;
    FirstTurn();
    segments := [];
    for i := 0 to |sorted|
      invariant Turn(segments, current, seen, sorted[..i])
    {
      var r := sorted[i];
      NextTurn(segments, current, seen, sorted[..i], r);
      assert sorted[..i + 1] == sorted[..i] + [r];
      if Cut(current, seen, r) {
        segments, current, seen := segments + [current], [], UNSEEN;
      }
      current, seen := current + [r], Extend(seen, r);
    }
    assert sorted[..|sorted|] == sorted;
    LastTurn(segments, current, seen, sorted);
    if current != [] {
      segments := segments + [current];
    }
  }

  // ----- windows around anchor lines -----

  datatype Span = Span(from: nat, to: nat)

  predicate In(i: int, s: Span) { s.from <= i < s.to }

  /** The lines within `radius` of line `i` of `n`. */
  function SpanAround(i: nat, n: nat, radius: nat): (s: Span)
    requires i < n
    ensures forall j :: In(j, s) <==> 0 <= j < n && i - radius <= j <= i + radius
  {
    Span(if i > radius then i - radius else 0, if i + radius + 1 < n then i + radius + 1 else n)
  }

  ghost predicate Below(anchors: seq<nat>, n: nat) {
    forall k :: 0 <= k < |anchors| ==> anchors[k] < n
  }

  function SpanSet(anchors: seq<nat>, n: nat, radius: nat): set<Span>
    requires Below(anchors, n)
  {
    set k | 0 <= k < |anchors| :: SpanAround(anchors[k], n, radius)
  }

  /** The spans around all anchors, none of them twice, and no other. */
  ghost predicate Covers(spans: seq<Span>, anchors: seq<nat>, n: nat, radius: nat)
    requires Below(anchors, n)
  {
    && (set s | s in spans) == SpanSet(anchors, n, radius)
    && (forall i, j :: 0 <= i < j < |spans| ==> spans[i] != spans[j])
  }

  lemma {:induction false} SpanSetNext(anchors: seq<nat>, a: nat, n: nat, radius: nat)
    requires Below(anchors, n) && a < n
    ensures SpanSet(anchors + [a], n, radius) == SpanSet(anchors, n, radius) + {SpanAround(a, n, radius)}
  {
    var more := anchors + [a];
    assert more[|anchors|] == a;
    forall s ensures s in SpanSet(more, n, radius) <==>
        s in SpanSet(anchors, n, radius) || s == SpanAround(a, n, radius) {
      if s in SpanSet(anchors, n, radius) {
        var k :| 0 <= k < |anchors| && s == SpanAround(anchors[k], n, radius);
        assert more[k] == anchors[k];
      }
    }
  }

  lemma {:induction false} CoversNext(spans: seq<Span>, anchors: seq<nat>, a: nat, n: nat, radius: nat)
    requires Below(anchors, n) && a < n && Covers(spans, anchors, n, radius)
    ensures var s := SpanAround(a, n, radius);
            Covers(if s in spans then spans else spans + [s], anchors + [a], n, radius)
  {
    SpanSetNext(anchors, a, n, radius);
  }

  /** The spans in the order of their anchors, each at its first. */
  function Spans(anchors: seq<nat>, n: nat, radius: nat): seq<Span>
    requires Below(anchors, n)
  {
    if anchors == [] then []
    else
      var spans, s := Spans(anchors[..|anchors| - 1], n, radius), SpanAround(anchors[|anchors| - 1], n, radius);
      if s in spans then spans else spans + [s]
  }

  lemma {:induction false} SpansCover(anchors: seq<nat>, n: nat, radius: nat)
    requires Below(anchors, n)
    ensures Covers(Spans(anchors, n, radius), anchors, n, radius)
  {
    if anchors != [] {
      var init, last := anchors[..|anchors| - 1], anchors[|anchors| - 1];
      SpansCover(init, n, radius);
      CoversNext(Spans(init, n, radius), init, last, n, radius);
      assert anchors == init + [last];
    }
  }

  /** The windows of a text of `n` lines: overlapping anchors never grow a window. */
  method WindowSpans(n: nat, anchors: seq<nat>, radius: nat) returns (spans: seq<Span>)
    requires Below(anchors, n)
    ensures spans == Spans(anchors, n, radius)
    ensures Covers(spans, anchors, n, radius)
  {
    spans := [];
    for i := 0 to |anchors|
      invariant spans == Spans(anchors[..i], n, radius)
    {
      assert anchors[..i + 1][..i] == anchors[..i];
      var s := SpanAround(anchors[i], n, radius);
      if s !in spans {
        spans := spans + [s];
      }
    }
    assert anchors[..|anchors|] == anchors;
    SpansCover(anchors, n, radius);
  }

  // ----- the diagnostic context -----

  /** A window: the lines `span` of one segment. */
  datatype Window = Window(segment: seq<Record>, span: Span)

  /** The window shows exactly the lines of its segment that are at most `radius` away from line `k`. */
  ghost predicate Frames(w: Window, k: nat, radius: nat) {
    k < |w.segment| && forall j :: In(j, w.span) <==> 0 <= j < |w.segment| && k - radius <= j <= k + radius
  }

  ghost predicate FramesRecord(w: Window, r: Record, radius: nat) {
    exists k: nat :: Frames(w, k, radius) && w.segment[k] == r
  }

  /** One of the windows is around this record. */
  ghost predicate Framed(ws: seq<Window>, r: Record, radius: nat) {
    exists i :: 0 <= i < |ws| && FramesRecord(ws[i], r, radius)
  }

  /** Around an anchor of its segment. */
  ghost predicate IsWindow(w: Window, isAnchor: string -> bool, radius: nat) {
    exists k: nat :: Frames(w, k, radius) && isAnchor(w.segment[k].text)
  }

  function AnchorsOf(seg: seq<Record>, isAnchor: string -> bool): seq<nat> {
    if seg == [] then []
    else AnchorsOf(seg[..|seg| - 1], isAnchor) + if isAnchor(seg[|seg| - 1].text) then [|seg| - 1] else []
  }

  lemma {:induction false} AnchorsFacts(seg: seq<Record>, isAnchor: string -> bool)
    ensures Below(AnchorsOf(seg, isAnchor), |seg|)
    ensures forall i: nat :: i in AnchorsOf(seg, isAnchor) <==> i < |seg| && isAnchor(seg[i].text)
  {
    if seg != [] {
      AnchorsFacts(seg[..|seg| - 1], isAnchor);
    }
  }

  /** All windows of one segment: sound, complete and without repetition. */
  ghost predicate SegmentWindows(ws: seq<Window>, seg: seq<Record>, isAnchor: string -> bool, radius: nat) {
    && (forall i :: 0 <= i < |ws| ==> ws[i].segment == seg && IsWindow(ws[i], isAnchor, radius))
    && (forall r :: r in seg && isAnchor(r.text) ==> Framed(ws, r, radius))
    && (forall i, j :: 0 <= i < j < |ws| ==> ws[i].span != ws[j].span)
  }

  lemma {:induction false} SpanHasAnchor(s: Span, seg: seq<Record>, isAnchor: string -> bool, radius: nat)
    requires Below(AnchorsOf(seg, isAnchor), |seg|) && s in SpanSet(AnchorsOf(seg, isAnchor), |seg|, radius)
    ensures IsWindow(Window(seg, s), isAnchor, radius)
  {
    var anchors := AnchorsOf(seg, isAnchor);
    AnchorsFacts(seg, isAnchor);
    var k :| 0 <= k < |anchors| && s == SpanAround(anchors[k], |seg|, radius);
    assert anchors[k] in anchors;
    assert Frames(Window(seg, s), anchors[k], radius);
  }

  lemma {:induction false} AnchorHasSpan(p: nat, seg: seq<Record>, isAnchor: string -> bool, radius: nat)
    requires Below(AnchorsOf(seg, isAnchor), |seg|) && p < |seg| && isAnchor(seg[p].text)
    ensures SpanAround(p, |seg|, radius) in SpanSet(AnchorsOf(seg, isAnchor), |seg|, radius)
  {
    var anchors := AnchorsOf(seg, isAnchor);
    AnchorsFacts(seg, isAnchor);
    assert p in anchors;
    var k :| 0 <= k < |anchors| && anchors[k] == p;
  }

  lemma {:induction false} SpansMakeWindows(spans: seq<Span>, seg: seq<Record>, isAnchor: string -> bool, radius: nat,
      ws: seq<Window>)
    requires Below(AnchorsOf(seg, isAnchor), |seg|) && Covers(spans, AnchorsOf(seg, isAnchor), |seg|, radius)
    requires |ws| == |spans| && forall i :: 0 <= i < |ws| ==> ws[i] == Window(seg, spans[i])
    ensures SegmentWindows(ws, seg, isAnchor, radius)
  {
    var all := set s | s in spans;
    forall i | 0 <= i < |ws| ensures IsWindow(ws[i], isAnchor, radius) {
      assert spans[i] in all;
      SpanHasAnchor(spans[i], seg, isAnchor, radius);
    }
    forall r | r in seg && isAnchor(r.text) ensures Framed(ws, r, radius) {
      var p: nat :| p < |seg| && seg[p] == r;
      AnchorHasSpan(p, seg, isAnchor, radius);
      var s := SpanAround(p, |seg|, radius);
      assert s in all;
      var i :| 0 <= i < |spans| && spans[i] == s;
      assert Frames(ws[i], p, radius) && FramesRecord(ws[i], r, radius);
    }
  }

  /** The windows of one segment, in line order. */
  function SegmentContext(seg: seq<Record>, isAnchor: string -> bool, radius: nat): seq<Window> {
    AnchorsFacts(seg, isAnchor);
    var spans := Spans(AnchorsOf(seg, isAnchor), |seg|, radius);
    seq(|spans|, i requires 0 <= i < |spans| => Window(seg, spans[i]))
  }

  lemma {:induction false} SegmentContextFacts(seg: seq<Record>, isAnchor: string -> bool, radius: nat)
    ensures SegmentWindows(SegmentContext(seg, isAnchor, radius), seg, isAnchor, radius)
  {
    AnchorsFacts(seg, isAnchor);
    SpansCover(AnchorsOf(seg, isAnchor), |seg|, radius);
    SpansMakeWindows(Spans(AnchorsOf(seg, isAnchor), |seg|, radius), seg, isAnchor, radius,
        SegmentContext(seg, isAnchor, radius));
  }

  method ContextOfSegment(seg: seq<Record>, isAnchor: string -> bool, radius: nat) returns (ws: seq<Window>)
    ensures ws == SegmentContext(seg, isAnchor, radius)
    ensures SegmentWindows(ws, seg, isAnchor, radius)
  {
    var anchors := AnchorsOf(seg, isAnchor);
    AnchorsFacts(seg, isAnchor);
    var spans := WindowSpans(|seg|, anchors, radius);
    ws := [];
    for i := 0 to |spans|
      invariant |ws| == i && forall j :: 0 <= j < i ==> ws[j] == Window(seg, spans[j])
    {
      ws := ws + [Window(seg, spans[i])];
    }
    assert ws == SegmentContext(seg, isAnchor, radius);
    SegmentContextFacts(seg, isAnchor, radius);
  }

  predicate ByLine(a: Record, b: Record) { a.line <= b.line }

  function OfFile(rs: seq<Record>, f: string): seq<Record> {
    if rs == [] then []
    else OfFile(rs[..|rs| - 1], f) + if rs[|rs| - 1].file == f then [rs[|rs| - 1]] else []
  }

  lemma {:induction false} OfFileMembers(rs: seq<Record>, f: string)
    ensures forall r :: r in OfFile(rs, f) <==> r in rs && r.file == f
  {
    if rs != [] {
      var init, last := rs[..|rs| - 1], rs[|rs| - 1];
      OfFileMembers(init, f);
      assert rs == init + [last];
      assert forall r :: r in rs <==> r in init || r == last;
    }
  }

  /** The segment is one operation of one file of the bundle. */
  ghost predicate IsOperation(seg: seq<Record>, rs: seq<Record>) {
    exists f, segs :: IsPartition(segs, Sort(Sort(OfFile(rs, f), ByLine), ByPlace)) && seg in segs
  }

  lemma {:induction false} SegmentOfFile(seg: seq<Record>, segs: seq<seq<Record>>, rs: seq<Record>, f: string)
    requires IsPartition(segs, Sort(Sort(OfFile(rs, f), ByLine), ByPlace)) && seg in segs
    ensures IsOperation(seg, rs)
  {
  }

  lemma {:induction false} FlattenMembers(ss: seq<seq<Record>>, r: Record)
    requires r in Flatten(ss)
    ensures exists i :: 0 <= i < |ss| && r in ss[i]
  {
    if r in ss[0] {
    } else {
      FlattenMembers(ss[1..], r);
      var i :| 0 <= i < |ss[1..]| && r in ss[1..][i];
      assert ss[i + 1] == ss[1..][i];
    }
  }

  lemma {:induction false} SomeSegmentHolds(segs: seq<seq<Record>>, rs: seq<Record>, f: string, r: Record)
    requires IsPartition(segs, Sort(Sort(OfFile(rs, f), ByLine), ByPlace))
    requires r in rs && r.file == f
    ensures exists i :: 0 <= i < |segs| && r in segs[i]
  {
    OfFileMembers(rs, f);
    ByPlaceOrder();
    SortFacts(OfFile(rs, f), ByLine);
    SortFacts(Sort(OfFile(rs, f), ByLine), ByPlace);
    FlattenMembers(segs, r);
  }

  /** Locality and coverage of the context so far: of the files `fs`. */
  ghost predicate ContextOf(ws: seq<Window>, rs: seq<Record>, fs: set<string>, isAnchor: string -> bool, radius: nat) {
    && (forall i :: 0 <= i < |ws| ==> IsWindow(ws[i], isAnchor, radius))
    && (forall i :: 0 <= i < |ws| ==> IsOperation(ws[i].segment, rs))
    && (forall r :: r in rs && r.file in fs && isAnchor(r.text) ==> Framed(ws, r, radius))
  }

  /** The windows of several segments, one segment after the other. */
  function SegmentsContext(segs: seq<seq<Record>>, isAnchor: string -> bool, radius: nat): seq<Window> {
    if segs == [] then []
    else SegmentsContext(segs[..|segs| - 1], isAnchor, radius) + SegmentContext(segs[|segs| - 1], isAnchor, radius)
  }

  /** The windows of the operations of one file, in order. */
  ghost predicate IsFileContext(ws: seq<Window>, rs: seq<Record>, f: string, isAnchor: string -> bool, radius: nat) {
    exists segs :: IsPartition(segs, Sort(Sort(OfFile(rs, f), ByLine), ByPlace))
        && ws == SegmentsContext(segs, isAnchor, radius)
  }

  /** File after file. */
  ghost predicate IsContext(ws: seq<Window>, rs: seq<Record>, files: seq<string>, isAnchor: string -> bool, radius: nat)
    decreases |files|
  {
    if files == [] then ws == []
    else
      var f := files[|files| - 1];
      exists k :: 0 <= k <= |ws| && IsContext(ws[..k], rs, files[..|files| - 1], isAnchor, radius)
                  && IsFileContext(ws[k..], rs, f, isAnchor, radius)
  }

  lemma {:induction false} AddFile(ws: seq<Window>, more: seq<Window>, rs: seq<Record>, fs: set<string>, f: string,
                                   isAnchor: string -> bool, radius: nat)
    requires ContextOf(ws, rs, fs, isAnchor, radius) && ContextOf(more, rs, {f}, isAnchor, radius)
    ensures ContextOf(ws + more, rs, fs + {f}, isAnchor, radius)
  {
    var all := ws + more;
    forall r | r in rs && r.file in fs + {f} && isAnchor(r.text) ensures Framed(all, r, radius) {
      FramedStays(ws, more, r, radius);
    }
  }

  ghost function Members(files: seq<string>): set<string> { set f | f in files }

  /** The context of some files, exactly and by its properties. */
  ghost predicate ContextSoFar(ws: seq<Window>, rs: seq<Record>, files: seq<string>, isAnchor: string -> bool,
      radius: nat) {
    IsContext(ws, rs, files, isAnchor, radius) && ContextOf(ws, rs, Members(files), isAnchor, radius)
  }

  lemma {:induction false} ContextNext(ws: seq<Window>, more: seq<Window>, rs: seq<Record>, files: seq<string>,
      f: string, isAnchor: string -> bool, radius: nat)
    requires ContextSoFar(ws, rs, files, isAnchor, radius)
    requires IsFileContext(more, rs, f, isAnchor, radius) && ContextOf(more, rs, {f}, isAnchor, radius)
    ensures ContextSoFar(ws + more, rs, files + [f], isAnchor, radius)
  {
    var all, fs := ws + more, files + [f];
    assert all[..|ws|] == ws && all[|ws|..] == more && fs[..|fs| - 1] == files;
    AddFile(ws, more, rs, Members(files), f, isAnchor, radius);
    assert Members(fs) == Members(files) + {f};
  }

  /** The diagnostic context, file by file in name order and operation by operation: every window shows the
      lines of one operation of one file that are at most `radius` away from an anchor, all of them and no
      others; and there is such a window around every anchor line of the bundle. */
  method DiagnosticContext(records: seq<Record>, isAnchor: string -> bool, radius: nat) returns (ws: seq<Window>)
    ensures IsContext(ws, records, SortedSet(set r | r in records :: r.file), isAnchor, radius)
    ensures ContextOf(ws, records, set r | r in records :: r.file, isAnchor, radius)
  {
    ghost var names := set r | r in records :: r.file;
    var files := SortSet(set r | r in records :: r.file);
    ws := [];
    for n := 0 to |files|
      invariant ContextSoFar(ws, records, files[..n], isAnchor, radius)
    {
      var more := ContextOfFile(records, files[n], isAnchor, radius);
      ContextNext(ws, more, records, files[..n], files[n], isAnchor, radius);
      assert files[..n + 1] == files[..n] + [files[n]];
      ws := ws + more;
    }
    assert files[..|files|] == files;
    assert Members(files) == names;
  }

  /** The segments done so far have their windows. */
  ghost predicate SegmentsDone(ws: seq<Window>, segs: seq<seq<Record>>, n: nat, isAnchor: string -> bool, radius: nat)
    requires n <= |segs|
  {
    && (forall i :: 0 <= i < |ws| ==> IsWindow(ws[i], isAnchor, radius) && ws[i].segment in segs)
    && (forall k, r: Record :: 0 <= k < n && r in segs[k] && isAnchor(r.text) ==> Framed(ws, r, radius))
  }

  lemma {:induction false} SegmentDone(ws: seq<Window>, more: seq<Window>, segs: seq<seq<Record>>, n: nat,
                                       isAnchor: string -> bool, radius: nat)
    requires n < |segs| && SegmentsDone(ws, segs, n, isAnchor, radius)
    requires SegmentWindows(more, segs[n], isAnchor, radius)
    ensures SegmentsDone(ws + more, segs, n + 1, isAnchor, radius)
  {
    forall k, r: Record | 0 <= k < n + 1 && r in segs[k] && isAnchor(r.text) ensures Framed(ws + more, r, radius) {
      assert k == n ==> Framed(more, r, radius);
      FramedStays(ws, more, r, radius);
    }
  }

  lemma {:induction false} FileDone(ws: seq<Window>, segs: seq<seq<Record>>, rs: seq<Record>, f: string,
                                    isAnchor: string -> bool, radius: nat)
    requires SegmentsDone(ws, segs, |segs|, isAnchor, radius)
    requires IsPartition(segs, Sort(Sort(OfFile(rs, f), ByLine), ByPlace))
    ensures ContextOf(ws, rs, {f}, isAnchor, radius)
  {
    forall r | r in rs && r.file in {f} && isAnchor(r.text) ensures Framed(ws, r, radius) {
      SomeSegmentHolds(segs, rs, f, r);
    }
    forall i | 0 <= i < |ws| ensures IsWindow(ws[i], isAnchor, radius) && IsOperation(ws[i].segment, rs) {
      SegmentOfFile(ws[i].segment, segs, rs, f);
    }
  }

  /** The windows of one file, segment by segment. */
  method ContextOfFile(records: seq<Record>, f: string, isAnchor: string -> bool, radius: nat) returns (ws: seq<Window>)
    ensures IsFileContext(ws, records, f, isAnchor, radius)
    ensures ContextOf(ws, records, {f}, isAnchor, radius)
  {
    var segs := OperationSegments(Sort(OfFile(records, f), ByLine));
    ws := [];
    for n := 0 to |segs|
      invariant ws == SegmentsContext(segs[..n], isAnchor, radius)
      invariant SegmentsDone(ws, segs, n, isAnchor, radius)
    {
      assert segs[..n + 1][..n] == segs[..n];
      var more := ContextOfSegment(segs[n], isAnchor, radius);
      SegmentDone(ws, more, segs, n, isAnchor, radius);
      ws := ws + more;
    }
    assert segs[..|segs|] == segs;
    FileDone(ws, segs, records, f, isAnchor, radius);
  }

  lemma {:induction false} FramedStays(ws: seq<Window>, more: seq<Window>, r: Record, radius: nat)
    ensures Framed(ws, r, radius) || Framed(more, r, radius) ==> Framed(ws + more, r, radius)
  {
    var all := ws + more;
    if Framed(ws, r, radius) {
      var i :| 0 <= i < |ws| && FramesRecord(ws[i], r, radius);
      assert all[i] == ws[i];
    } else if Framed(more, r, radius) {
      var i :| 0 <= i < |more| && FramesRecord(more[i], r, radius);
      assert all[|ws| + i] == more[i];
    }
  }
}
