/** The failed-login counter of the telemetry worker: INCR on a key per source address, EXPIRE 60 s
    at the first failure, an alert and EXPIRE 300 s from the sixth on.  Times are milliseconds; a key is
    gone once its time to live has passed, and one that got none stays. */
module FailedLogins {
  import opened Basics

  const FIRST_TTL := 60000
  const ALERT_TTL := 300000
  const MAX_FAILURES: nat := 5

  /** A failure as it is counted; a pass can be cut off after the INCR and before the EXPIRE. */
  datatype Hit = Hit(time: int, cut: bool)

  /** Without `expiresAt` the key has no time to live. */
  datatype Counter = Absent | Live(count: nat, expiresAt: Option<int>)

  /** `now` comes before the end of a key. */
  predicate Within(now: int, end: Option<int>) { end.None? || now < end.value }

  /** The value INCR returns at time `now`. */
  function Count(c: Counter, now: int): nat {
    if c.Live? && Within(now, c.expiresAt) then c.count + 1 else 1
  }

  /** The key after INCR and the EXPIRE that its value calls for. */
  function Record(c: Counter, h: Hit): Counter {
    var n := Count(c, h.time);
    var kept := if c.Live? && Within(h.time, c.expiresAt) then c.expiresAt else None;
    Live(n, if h.cut then kept
            else if n == 1 then Some(h.time + FIRST_TTL)
            else if n > MAX_FAILURES then Some(h.time + ALERT_TTL)
            else kept)
  }

  /** The key after these failures, starting without one. */
  function KeyAfter(hits: seq<Hit>): Counter {
    if hits == [] then Absent else Record(KeyAfter(hits[..|hits| - 1]), hits[|hits| - 1])
  }

  function CountAt(hits: seq<Hit>, i: nat): nat
    requires i < |hits|
  {
    Count(KeyAfter(hits[..i]), hits[i].time)
  }

  /** The failure is counted beyond the limit. */
  predicate Over(hits: seq<Hit>, i: nat)
    requires i < |hits|
  {
    CountAt(hits, i) > MAX_FAILURES
  }

  /** Then it alerts, unless its pass is cut off there. */
  predicate Alerts(hits: seq<Hit>, i: nat)
    requires i < |hits|
  {
    Over(hits, i) && !hits[i].cut
  }

  ghost predicate Ordered(hits: seq<Hit>) {
    forall i, j :: 0 <= i < j < |hits| ==> hits[i].time <= hits[j].time
  }

  /** The end that a key gets from its first failure. */
  function FirstEnd(h: Hit): Option<int> { if h.cut then None else Some(h.time + FIRST_TTL) }

  /** When the key behind failure `i` ends. */
  function EndAt(hits: seq<Hit>, i: nat): Option<int>
    requires i < |hits|
  {
    var n := CountAt(hits, i);
    if n == 1 || i == 0 then FirstEnd(hits[i])
    else if n > MAX_FAILURES && !hits[i].cut then Some(hits[i].time + ALERT_TTL)
    else EndAt(hits, i - 1)
  }

  /** The key behind failure `i`: its count, its end, and the failure it began with. */
  lemma {:induction false} KeyAt(hits: seq<Hit>, i: nat)
    requires i < |hits|
    ensures var n := CountAt(hits, i);
            && 1 <= n <= i + 1
            && KeyAfter(hits[..i + 1]) == Live(n, EndAt(hits, i))
            && (n <= MAX_FAILURES ==> EndAt(hits, i) == FirstEnd(hits[i + 1 - n]))
            && (n > 1 ==> CountAt(hits, i - 1) == n - 1)
  {
    var n := CountAt(hits, i);
    assert hits[..i + 1][..i] == hits[..i];
    if i > 0 {
      KeyAt(hits, i - 1);
    } else {
      assert hits[..0] == [];
    }
  }

  /** A count goes on exactly while the key lives; otherwise it starts again at one. */
  lemma {:induction false} CountStep(hits: seq<Hit>, i: nat)
    requires i + 1 < |hits|
    ensures 1 <= CountAt(hits, i) <= i + 1
    ensures CountAt(hits, i + 1) == if Within(hits[i + 1].time, EndAt(hits, i)) then CountAt(hits, i) + 1 else 1
    ensures CountAt(hits, i) <= MAX_FAILURES ==> EndAt(hits, i) == FirstEnd(hits[i + 1 - CountAt(hits, i)])
  {
    KeyAt(hits, i);
  }

  /** The first five failures after the one that begins a key are counted on exactly up to the key's end. */
  lemma {:induction false} CountsOnIff(hits: seq<Hit>, r: nat, j: nat)
    requires Ordered(hits) && r + j < |hits| && j <= MAX_FAILURES && CountAt(hits, r) == 1
    ensures Within(hits[r + j].time, FirstEnd(hits[r])) ==> CountAt(hits, r + j) == j + 1
    ensures !Within(hits[r + j].time, FirstEnd(hits[r])) ==> CountAt(hits, r + j) <= j
  {
    if j > 0 {
      CountsOnIff(hits, r, j - 1);
      CountStep(hits, r + j - 1);
    }
  }

  /** The key behind failure `i` began, at count one, with the failure its count points back to. */
  lemma {:induction false} KeyStart(hits: seq<Hit>, i: nat)
    requires i < |hits|
    ensures 1 <= CountAt(hits, i) <= i + 1 && CountAt(hits, i + 1 - CountAt(hits, i)) == 1
  {
    KeyAt(hits, i);
    if CountAt(hits, i) > 1 {
      KeyStart(hits, i - 1);
    }
  }

  /** The alert of a key at count six, exactly: the key began five failures earlier, and either its first
      failure was cut off before the EXPIRE, or all six lie within 60 seconds. */
  lemma {:induction false} FirstAlertIff(hits: seq<Hit>, i: nat)
    requires Ordered(hits) && i < |hits|
    ensures CountAt(hits, i) == 6 <==>
              i >= 5 && CountAt(hits, i - 5) == 1 && (hits[i - 5].cut || hits[i].time - hits[i - 5].time < 60000)
  {
    KeyStart(hits, i);
    if i >= 5 && CountAt(hits, i - 5) == 1 {
      CountsOnIff(hits, i - 5, 5);
    }
  }

  /** After an alert the next failure goes over the limit again exactly within 300 seconds. */
  lemma {:induction false} NextAlertIff(hits: seq<Hit>, i: nat)
    requires i + 1 < |hits| && CountAt(hits, i) >= 6 && !hits[i].cut
    ensures hits[i + 1].time - hits[i].time < 300000 ==> CountAt(hits, i + 1) == CountAt(hits, i) + 1
    ensures hits[i + 1].time - hits[i].time >= 300000 ==> CountAt(hits, i + 1) == 1
  {
    KeyAt(hits, i);
    CountStep(hits, i);
  }

  /** Every later alert follows a failure over the limit on the same key, by less than 300 seconds
      unless that one was cut off. */
  lemma {:induction false} LaterAlertSound(hits: seq<Hit>, i: nat)
    requires i < |hits| && CountAt(hits, i) > 6
    ensures i > 0 && CountAt(hits, i - 1) >= 6
    ensures !hits[i - 1].cut ==> hits[i].time - hits[i - 1].time < 300000
  {
    KeyAt(hits, i);
    CountStep(hits, i - 1);
  }

  /** A key cut off at its first failure does not end before its sixth, whenever that comes. */
  lemma {:induction false} CutKeyRunsOn(hits: seq<Hit>, r: nat, j: nat)
    requires r + j < |hits| && j <= MAX_FAILURES && CountAt(hits, r) == 1 && hits[r].cut
    ensures CountAt(hits, r + j) == j + 1
  {
    if j > 0 {
      CutKeyRunsOn(hits, r, j - 1);
      CountStep(hits, r + j - 1);
    }
  }

  /** So six failures alert although years lie between them. */
  lemma {:induction false} CutKeyAlerts(gap: nat)
    ensures var hits := [Hit(0, true), Hit(gap, false), Hit(2 * gap, false), Hit(3 * gap, false),
                         Hit(4 * gap, false), Hit(5 * gap, false)];
            Ordered(hits) && Alerts(hits, 5)
  {
    var hits := [Hit(0, true), Hit(gap, false), Hit(2 * gap, false), Hit(3 * gap, false),
                 Hit(4 * gap, false), Hit(5 * gap, false)];
    assert hits[..0] == [];
    CutKeyRunsOn(hits, 0, 5);
  }

  /** Within 60 seconds of its first failure a key does not end. */
  lemma {:induction false} LivesOn(hits: seq<Hit>, r: nat, j: nat, now: int)
    requires r + j < |hits| && CountAt(hits, r) == 1 && CountAt(hits, r + j) == j + 1
    requires forall k :: r <= k <= r + j ==> hits[r].time <= hits[k].time
    requires now < hits[r].time + FIRST_TTL
    ensures Within(now, EndAt(hits, r + j))
  {
    if j > 0 {
      KeyAt(hits, r + j);
      LivesOn(hits, r, j - 1, now);
    }
  }

  /** So every failure within 60 seconds of the one that began a key is counted on. */
  lemma {:induction false} CountRunsOn(hits: seq<Hit>, r: nat, j: nat)
    requires r + j < |hits| && CountAt(hits, r) == 1
    requires forall k :: r <= k <= r + j ==> hits[r].time <= hits[k].time < hits[r].time + FIRST_TTL
    ensures CountAt(hits, r + j) == j + 1
  {
    if j > 0 {
      CountRunsOn(hits, r, j - 1);
      LivesOn(hits, r, j - 1, hits[r + j].time);
      CountStep(hits, r + j - 1);
    }
  }

  /** While nothing is over the limit the key that counts failure `i` ends within the next four failures,
      or it began with failure `i` itself. */
  lemma {:induction false} NextKey(hits: seq<Hit>, i: nat) returns (r: nat)
    requires i + 5 < |hits| && forall k :: i <= k <= i + 5 ==> !Over(hits, k)
    ensures i < r <= i + 5 && CountAt(hits, r) == 1
    ensures r == i + 5 ==> CountAt(hits, i) == 1
  {
    r := i + 1;
    CountStep(hits, i);
    while r < i + 5 && CountAt(hits, r) != 1
      invariant i < r <= i + 5
      invariant r > i + 1 ==> CountAt(hits, r - 1) == CountAt(hits, i) + (r - 1 - i)
      invariant CountAt(hits, r) == 1 || CountAt(hits, r) == CountAt(hits, i) + (r - i)
    {
      CountStep(hits, r);
      r := r + 1;
    }
    KeyAt(hits, i);
    KeyAt(hits, r);
    assert !Over(hits, r) && !Over(hits, r - 1);
  }

  /** Any ten failures spanning less than 60 seconds go over the limit, whatever came before; so they
      alert if none of them is cut off. */
  lemma {:induction false} TenFailuresAlert(hits: seq<Hit>, i: nat)
    requires Ordered(hits) && i + 9 < |hits| && hits[i + 9].time - hits[i].time < 60000
    ensures exists k :: i <= k <= i + 9 && Over(hits, k)
    ensures (forall k :: i <= k <= i + 9 ==> !hits[k].cut) ==> exists k :: i <= k <= i + 9 && Alerts(hits, k)
  {
    ghost var m := i + 5;
    if CountAt(hits, i) == 1 {
      CountRunsOn(hits, i, 5);
    } else if forall k :: i <= k <= i + 5 ==> !Over(hits, k) {
      var r := NextKey(hits, i);
      CountRunsOn(hits, r, 5);
      m := r + 5;
    } else {
      m :| i <= m <= i + 5 && Over(hits, m);
    }
    assert Over(hits, m) && (!hits[m].cut ==> Alerts(hits, m));
  }

  /** A key that ends before its sixth failure counts on up to there and starts again with the first
      failure `r` after its end. */
  lemma {:induction false} KeyEndsFirst(hits: seq<Hit>, i: nat, end: Option<int>) returns (r: nat)
    requires i + 5 < |hits| && 2 <= CountAt(hits, i) <= MAX_FAILURES && CountAt(hits, i) <= i + 1
    requires end == FirstEnd(hits[i + 1 - CountAt(hits, i)]) && !Within(hits[i + 6 - CountAt(hits, i)].time, end)
    ensures i < r <= i + 6 - CountAt(hits, i) && CountAt(hits, r) == 1
    ensures forall k :: i <= k < r ==> CountAt(hits, k) <= MAX_FAILURES
  {
    hide KeyAfter, Record, Count, CountAt;
    var n := CountAt(hits, i);
    r := i + 1;
    CountStep(hits, i);
    while Within(hits[r].time, end) && r < i + 6 - n
      decreases i + 6 - n - r
      invariant i < r <= i + 6 - n
      invariant forall k :: i <= k < r ==> CountAt(hits, k) == n + (k - i)
      invariant CountAt(hits, r) == if Within(hits[r].time, end) then n + (r - i) else 1
    {
      CountStep(hits, r);
      r := r + 1;
    }
  }

  /** Six failures within 60 seconds go over the limit if and only if the first of them begins a key, or
      is over it itself, or the sixth failure of the key it belongs to comes before the end which that key
      got from its first: all of it known from the key before the later failures come. */
  lemma {:induction false} SixFailuresAlertIff(hits: seq<Hit>, i: nat)
    requires Ordered(hits) && i + 5 < |hits| && hits[i + 5].time - hits[i].time < 60000
    ensures 1 <= CountAt(hits, i) <= i + 1
    ensures var n := CountAt(hits, i);
            (exists k :: i <= k <= i + 5 && Over(hits, k))
            <==> n == 1 || n > MAX_FAILURES || Within(hits[i + 6 - n].time, FirstEnd(hits[i + 1 - n]))
  {
    var n := CountAt(hits, i);
    KeyStart(hits, i);
    var start := i + 1 - n;
    if n > MAX_FAILURES {
      assert Over(hits, i);
    } else if n == 1 || Within(hits[start + 5].time, FirstEnd(hits[start])) {
      CountsOnIff(hits, start, 5);
      assert Over(hits, start + 5);
    } else {
      var r := KeyEndsFirst(hits, i, FirstEnd(hits[start]));
      forall k | i <= k <= i + 5 ensures !Over(hits, k) {
        if k >= r {
          CountRunsOn(hits, r, k - r);
        }
      }
    }
  }

  /** Nine do not suffice: they can straddle two keys.  The failures after the first one span a
      single second and none of them alerts. */
  lemma {:induction false} NineFailuresSilent()
    ensures var hits := [Hit(0, false), Hit(59000, false), Hit(59000, false), Hit(59000, false), Hit(59000, false),
                         Hit(60000, false), Hit(60000, false), Hit(60000, false), Hit(60000, false), Hit(60000, false)];
            Ordered(hits) && hits[9].time - hits[1].time == 1000 && forall i :: 0 <= i < 10 ==> !Over(hits, i)
  {
    var hits := [Hit(0, false), Hit(59000, false), Hit(59000, false), Hit(59000, false), Hit(59000, false),
                 Hit(60000, false), Hit(60000, false), Hit(60000, false), Hit(60000, false), Hit(60000, false)];
    StraddledCounts(hits);
  }

  lemma {:induction false} StraddledCounts(hits: seq<Hit>)
    requires |hits| == 10 && hits[0] == Hit(0, false)
    requires forall i :: 1 <= i < 5 ==> hits[i] == Hit(59000, false)
    requires forall i :: 5 <= i < 10 ==> hits[i] == Hit(60000, false)
    ensures forall i :: 0 <= i < 10 ==> CountAt(hits, i) <= MAX_FAILURES
  {
    assert hits[..0] == [];
    assert CountAt(hits, 0) == 1;
    for j := 0 to 9
      invariant forall i :: 0 <= i <= j ==> CountAt(hits, i) == if i < 5 then i + 1 else i - 4
    {
      CountStep(hits, j);
    }
  }

  /** Failures `d` milliseconds apart, none of them cut off. */
  ghost predicate Steady(hits: seq<Hit>, d: nat) {
    && (forall k :: 0 <= k < |hits| ==> !hits[k].cut)
    && (forall k :: 0 < k < |hits| ==> hits[k].time == hits[k - 1].time + d)
  }

  lemma {:induction false} SteadyApart(hits: seq<Hit>, d: nat, a: nat, j: nat)
    requires Steady(hits, d) && a + j < |hits| && j <= MAX_FAILURES
    ensures hits[a].time <= hits[a + j].time <= hits[a].time + 5 * d
    ensures j == MAX_FAILURES ==> hits[a + j].time == hits[a].time + 5 * d
  {
    assert j > 0 ==> hits[a + 1].time == hits[a].time + d;
    assert j > 1 ==> hits[a + 2].time == hits[a + 1].time + d;
    assert j > 2 ==> hits[a + 3].time == hits[a + 2].time + d;
    assert j > 3 ==> hits[a + 4].time == hits[a + 3].time + d;
    assert j > 4 ==> hits[a + 5].time == hits[a + 4].time + d;
  }

  /** Failures at a steady pace all count on, or none of them alerts: it depends on whether six of them
      fit into 60 seconds. */
  lemma {:induction false} SteadyCount(hits: seq<Hit>, d: nat, i: nat)
    requires Steady(hits, d) && i < |hits|
    ensures d < 12000 ==> CountAt(hits, i) == i + 1
    ensures d >= 12000 ==> CountAt(hits, i) <= 5
  {
    if i == 0 {
      assert hits[..0] == [];
    } else {
      hide CountAt;
      SteadyCount(hits, d, i - 1);
      CountStep(hits, i - 1);
      var n := CountAt(hits, i - 1);
      if n <= MAX_FAILURES {
        SteadyApart(hits, d, i - n, n);
      }
    }
  }

  // ----- many source addresses -----

  type Store = map<string, Counter>

  datatype Failure = Failure(ip: string, hit: Hit)

  function Lookup(store: Store, ip: string): Counter {
    if ip in store then store[ip] else Absent
  }

  function RecordFailure(store: Store, f: Failure): Store {
    store[f.ip := Record(Lookup(store, f.ip), f.hit)]
  }

  function RecordAll(store: Store, fs: seq<Failure>): Store {
    if fs == [] then store else RecordFailure(RecordAll(store, fs[..|fs| - 1]), fs[|fs| - 1])
  }

  /** The failures of one address. */
  function HitsOf(fs: seq<Failure>, ip: string): seq<Hit> {
    if fs == [] then []
    else
      var last := fs[|fs| - 1];
      HitsOf(fs[..|fs| - 1], ip) + if last.ip == ip then [last.hit] else []
  }

  /** Addresses do not interfere: each key is the key of its own failures alone, however the
      failures of several addresses interleave. */
  lemma {:induction false} AddressesIndependent(fs: seq<Failure>, ip: string)
    ensures Lookup(RecordAll(map[], fs), ip) == KeyAfter(HitsOf(fs, ip))
  {
    if fs != [] {
      AddressesIndependent(fs[..|fs| - 1], ip);
      var hits := HitsOf(fs, ip);
      var last := fs[|fs| - 1];
      if last.ip == ip {
        assert hits == HitsOf(fs[..|fs| - 1], ip) + [last.hit];
        assert hits[..|hits| - 1] == HitsOf(fs[..|fs| - 1], ip);
      } else {
        assert hits == HitsOf(fs[..|fs| - 1], ip);
      }
    }
  }
}
