/** Bounded compaction of a log, and the retention of original lines under the same budget. */
module Compaction {
  import opened PlainText

  const HEADER_CHARS: nat := 3000
  const TAIL_CHARS: nat := 8000
  const WINDOW_RADIUS: nat := 12
  const MAX_WINDOWS: nat := 40

  // ----- choosing windows -----

  /** The centres chosen among the first `m` lines: a signal line becomes a centre unless its window
      meets the one before or enough windows were chosen. */
  function Centres(lines: seq<string>, isSignal: string -> bool, m: nat): seq<nat>
    requires m <= |lines|
  {
    if m == 0 then []
    else
      var cs := Centres(lines, isSignal, m - 1);
      if |cs| < MAX_WINDOWS && isSignal(lines[m - 1]) && (cs == [] || m - 1 - cs[|cs| - 1] > 2 * WINDOW_RADIUS)
      then cs + [m - 1] else cs
  }

  function Low(c: nat): nat { if c > WINDOW_RADIUS then c - WINDOW_RADIUS else 0 }

  function High(c: nat, n: nat): nat { if c + WINDOW_RADIUS + 1 < n then c + WINDOW_RADIUS + 1 else n }

  predicate InWindow(i: nat, c: nat, n: nat) { Low(c) <= i < High(c, n) }

  function SpanOf(c: nat, n: nat): set<nat> { set i: nat | i < n && InWindow(i, c, n) }

  predicate InSome(i: nat, cs: seq<nat>, n: nat) { exists k :: 0 <= k < |cs| && InWindow(i, cs[k], n) }

  /** The lines inside the windows around `cs`. */
  function Covered(cs: seq<nat>, n: nat): set<nat> { set i: nat | i < n && InSome(i, cs, n) }

  /** Chosen windows are signal lines, far enough apart that their windows are disjoint and in order. */
  lemma {:induction false} CentresApart(lines: seq<string>, isSignal: string -> bool, m: nat)
    requires m <= |lines|
    ensures var cs := Centres(lines, isSignal, m);
            && |cs| <= MAX_WINDOWS
            && (forall k :: 0 <= k < |cs| ==> cs[k] < m && isSignal(lines[cs[k]]))
            && (forall j, k :: 0 <= j < k < |cs| ==> cs[k] - cs[j] > 2 * WINDOW_RADIUS)
  {
    if m > 0 {
      CentresApart(lines, isSignal, m - 1);
    }
  }

  lemma {:induction false} WindowsDisjoint(lines: seq<string>, isSignal: string -> bool, j: nat, k: nat)
    requires j < k < |Centres(lines, isSignal, |lines|)|
    ensures var cs := Centres(lines, isSignal, |lines|);
            High(cs[j], |lines|) <= Low(cs[k]) && SpanOf(cs[j], |lines|) !! SpanOf(cs[k], |lines|)
  {
    CentresApart(lines, isSignal, |lines|);
  }

  /** Unless all windows were used up, every signal line is within 24 lines of a chosen centre. */
  lemma {:induction false} SignalsCovered(lines: seq<string>, isSignal: string -> bool, m: nat, i: nat)
    requires i < m <= |lines| && isSignal(lines[i])
    requires |Centres(lines, isSignal, m)| < MAX_WINDOWS
    ensures exists k :: 0 <= k < |Centres(lines, isSignal, m)| &&
                        Centres(lines, isSignal, m)[k] <= i <= Centres(lines, isSignal, m)[k] + 2 * WINDOW_RADIUS
  {
    var before, cs := Centres(lines, isSignal, m - 1), Centres(lines, isSignal, m);
    if i < m - 1 {
      SignalsCovered(lines, isSignal, m - 1, i);
      var k :| 0 <= k < |before| && before[k] <= i <= before[k] + 2 * WINDOW_RADIUS;
      assert cs[k] == before[k];
    } else {
      CentresApart(lines, isSignal, m - 1);
      assert cs[|cs| - 1] <= i <= cs[|cs| - 1] + 2 * WINDOW_RADIUS;
    }
  }

  /** The window of a new hit meets the covered lines exactly when the last centre is near. */
  lemma {:induction false} MeetsLast(cs: seq<nat>, n: nat, i: nat)
    requires i < n && (forall k :: 0 <= k < |cs| ==> cs[k] < i)
    requires forall j, k :: 0 <= j < k < |cs| ==> cs[j] < cs[k]
    ensures SpanOf(i, n) * Covered(cs, n) != {} <==> cs != [] && i - cs[|cs| - 1] <= 2 * WINDOW_RADIUS
  {
    if cs != [] {
      var last := cs[|cs| - 1];
      if i - last <= 2 * WINDOW_RADIUS {
        assert InWindow(Low(i), i, n) && InWindow(Low(i), last, n);
        assert Low(i) in SpanOf(i, n) * Covered(cs, n);
      } else {
        forall x | x in SpanOf(i, n) ensures x !in Covered(cs, n) {
          forall k | 0 <= k < |cs| ensures !InWindow(x, cs[k], n) {
            assert cs[k] <= last;
          }
        }
      }
    }
  }

  lemma {:induction false} CoveredNext(cs: seq<nat>, n: nat, c: nat)
    ensures Covered(cs + [c], n) == Covered(cs, n) + SpanOf(c, n)
  {
    var more := cs + [c];
    assert more[|cs|] == c;
    forall x: nat ensures InSome(x, more, n) <==> InSome(x, cs, n) || InWindow(x, c, n) {
      if InSome(x, cs, n) {
        var k :| 0 <= k < |cs| && InWindow(x, cs[k], n);
        assert more[k] == cs[k];
      }
    }
  }

  /** What a further signal line does to the centres and to the covered lines. */
  lemma {:induction false} CentreStep(lines: seq<string>, isSignal: string -> bool, i: nat)
    requires i < |lines| && isSignal(lines[i]) && |Centres(lines, isSignal, i)| < MAX_WINDOWS
    ensures var cs, n := Centres(lines, isSignal, i), |lines|;
            if SpanOf(i, n) * Covered(cs, n) != {} then Centres(lines, isSignal, i + 1) == cs
            else Centres(lines, isSignal, i + 1) == cs + [i] && Covered(cs + [i], n) == Covered(cs, n) + SpanOf(i, n)
  {
    CentresApart(lines, isSignal, i);
    MeetsLast(Centres(lines, isSignal, i), |lines|, i);
    CoveredNext(Centres(lines, isSignal, i), |lines|, i);
  }

  /** Greedy choice of windows over the signal lines, keeping the set of covered lines. */
  method ChooseCentres(lines: seq<string>, isSignal: string -> bool) returns (centres: seq<nat>)
    ensures centres == Centres(lines, isSignal, |lines|)
  {
    var covered: set<nat> := {};
    centres := [];
    for i := 0 to |lines|
      invariant centres == Centres(lines, isSignal, i)
      invariant covered == Covered(centres, |lines|)
    {
      if !isSignal(lines[i]) || |centres| >= MAX_WINDOWS {
        continue;
      }
      CentreStep(lines, isSignal, i);
      if SpanOf(i, |lines|) * covered != {} {
        continue;
      }
      covered := covered + SpanOf(i, |lines|);
      centres := centres + [i];
    }
  }

  // ----- assembling the compacted text -----

  /** What the patterns and `str.strip` do with a line or window. */
  datatype Reader = Reader(isSignal: string -> bool, strip: string -> string)

  function Windows(lines: seq<string>, cs: seq<nat>): seq<string>
    requires forall k :: 0 <= k < |cs| ==> cs[k] < |lines|
  {
    seq(|cs|, k requires 0 <= k < |cs| => Join("\n", lines[Low(cs[k])..High(cs[k], |lines|)]))
  }

  /** The windows whose stripped text is new and not empty, in order. */
  function Distinct(ws: seq<string>, strip: string -> string): seq<string> {
    if ws == [] then []
    else
      var kept, w := Distinct(ws[..|ws| - 1], strip), ws[|ws| - 1];
      if strip(w) != "" && forall u :: u in kept ==> strip(u) != strip(w) then kept + [w] else kept
  }

  function Head(text: string, n: nat): string { if n <= |text| then text[..n] else text }

  function Tail(text: string, n: nat): string { if n <= |text| then text[|text| - n..] else text }

  const WINDOW_SEPARATOR := "\n\n[... signal window ...]\n\n"
  const HEADER_MARK := "\n\n[... header above ...]\n\n"
  const TAIL_MARK := "\n\n[... tail below ...]\n\n"
  const TRIM_MARK := "\n[... middle windows trimmed to fit bound ...]"
  const HARD_MARK := "\n[... hard bound ...]"

  function Note(kept: nat, chars: nat, lines: nat): string {
    "\n\n[... compacted: kept header (3000 chars) + " + Decimal(kept) + " signal windows + tail (8000 chars) out of "
    + Decimal(chars) + " chars / " + Decimal(lines) + " lines ...]"
  }

  function Assemble(text: string, body: string, note: string): string {
    Head(text, HEADER_CHARS) + HEADER_MARK + body + TAIL_MARK + Tail(text, TAIL_CHARS) + note
  }

  ghost function Kept(lines: seq<string>, rd: Reader): seq<string> {
    CentresApart(lines, rd.isSignal, |lines|);
    Distinct(Windows(lines, Centres(lines, rd.isSignal, |lines|)), rd.strip)
  }

  ghost function Body(lines: seq<string>, rd: Reader): string { Join(WINDOW_SEPARATOR, Kept(lines, rd)) }

  ghost function NoteOf(text: string, lines: seq<string>, rd: Reader): string {
    Note(|Kept(lines, rd)|, |text|, |lines|)
  }

  /** The assembled text before any bound is enforced. */
  ghost function Draft(text: string, lines: seq<string>, rd: Reader): string {
    Assemble(text, Body(lines, rd), NoteOf(text, lines, rd))
  }

  function Trimmed(body: string, overflow: nat): (r: string)
    requires |body| > overflow + 500
    ensures |r| == |body| - overflow - 500 + |TRIM_MARK|
  {
    body[..|body| - overflow - 500] + TRIM_MARK
  }

  /** What a draft that is too long is cut to: windows give way first. */
  ghost function CutDown(text: string, body: string, note: string, maxChars: nat): string
    requires |Assemble(text, body, note)| > maxChars
  {
    var overflow := |Assemble(text, body, note)| - maxChars;
    if |body| > overflow + 500
    then Assemble(text, Trimmed(body, overflow), note)
    else Assemble(text, body, note)[..maxChars] + HARD_MARK
  }

  ghost function Compact(text: string, lines: seq<string>, rd: Reader, maxChars: nat): string {
    if |text| <= maxChars then text
    else if |Draft(text, lines, rd)| <= maxChars then Draft(text, lines, rd)
    else CutDown(text, Body(lines, rd), NoteOf(text, lines, rd), maxChars)
  }

  /** Compacts `text`, whose lines are `lines`. */
  method CompactLogEvidence(text: string, lines: seq<string>, rd: Reader, maxChars: nat) returns (out: string)
    ensures out == Compact(text, lines, rd, maxChars)
  {
    if |text| <= maxChars {
      return text;
    }
    var centres := ChooseCentres(lines, rd.isSignal);
    CentresApart(lines, rd.isSignal, |lines|);
    var kept := DistinctWindows(Windows(lines, centres), rd.strip);
    var body := Join(WINDOW_SEPARATOR, kept);
    var note := Note(|kept|, |text|, |lines|);
    out := EnforceBound(text, body, note, maxChars);
  }

  // ----- the bound -----

  /** The middle windows cannot give way enough: header, tail, marks and note come close to the bound. */
  ghost predicate HardBound(text: string, lines: seq<string>, rd: Reader, maxChars: nat) {
    && |text| > maxChars
    && |Draft(text, lines, rd)| > maxChars
    && |Assemble(text, "", NoteOf(text, lines, rd))| + 500 >= maxChars
  }

  lemma {:induction false} CutDownHard(text: string, body: string, note: string, maxChars: nat)
    requires |Assemble(text, body, note)| > maxChars && |Assemble(text, "", note)| + 500 >= maxChars
    ensures |CutDown(text, body, note, maxChars)| == maxChars + |HARD_MARK|
  {
    AssembleShape(text, body, note);
  }

  lemma {:induction false} CutDownSoft(text: string, body: string, note: string, maxChars: nat)
    requires |Assemble(text, body, note)| > maxChars && |Assemble(text, "", note)| + 500 < maxChars
    ensures var out := CutDown(text, body, note, maxChars);
            && |out| == maxChars - 500 + |TRIM_MARK|
            && Head(text, HEADER_CHARS) + HEADER_MARK <= out
            && EndsWith(out, TAIL_MARK + Tail(text, TAIL_CHARS) + note)
  {
    AssembleShape(text, body, note);
    AssembleShape(text, Trimmed(body, |Assemble(text, body, note)| - maxChars), note);
  }

  /** A draft under its bound: it overruns the bound only where all of its windows together cannot give
      way enough, and then by the length of the mark; otherwise header, tail and note survive whole. */
  lemma {:induction false} Enforced(text: string, body: string, note: string, maxChars: nat, out: string)
    requires out == if |Assemble(text, body, note)| <= maxChars then Assemble(text, body, note)
                    else CutDown(text, body, note, maxChars)
    ensures |out| > maxChars <==>
              |Assemble(text, body, note)| > maxChars && |Assemble(text, "", note)| + 500 >= maxChars
    ensures |out| <= maxChars + |HARD_MARK|
    ensures |out| <= maxChars ==>
              && Head(text, HEADER_CHARS) + HEADER_MARK <= out
              && EndsWith(out, TAIL_MARK + Tail(text, TAIL_CHARS) + note)
  {
    AssembleShape(text, body, note);
    if |Assemble(text, body, note)| > maxChars {
      if |Assemble(text, "", note)| + 500 >= maxChars {
        CutDownHard(text, body, note, maxChars);
      } else {
        CutDownSoft(text, body, note, maxChars);
      }
    }
  }

  /** The result overruns the bound exactly when the hard bound is reached, and then by the length of
      its mark; otherwise header, tail and note survive whole. */
  lemma {:induction false} BoundExceededIff(text: string, lines: seq<string>, rd: Reader, maxChars: nat)
    ensures |Compact(text, lines, rd, maxChars)| > maxChars <==> HardBound(text, lines, rd, maxChars)
    ensures |Compact(text, lines, rd, maxChars)| <= maxChars + |HARD_MARK|
    ensures |text| > maxChars && !HardBound(text, lines, rd, maxChars) ==>
              && Head(text, HEADER_CHARS) + HEADER_MARK <= Compact(text, lines, rd, maxChars)
              && EndsWith(Compact(text, lines, rd, maxChars), TAIL_MARK + Tail(text, TAIL_CHARS)
                  + NoteOf(text, lines, rd))
  {
    if |text| > maxChars {
      Enforced(text, Body(lines, rd), NoteOf(text, lines, rd), maxChars, Compact(text, lines, rd, maxChars));
    }
  }

  function Pow10(k: nat): nat { if k == 0 then 1 else 10 * Pow10(k - 1) }

  lemma {:induction false} DecimalLength(n: nat, k: nat)
    requires k > 0 && n < Pow10(k)
    ensures 1 <= |Decimal(n)| <= k
  {
    if n >= 10 {
      assert k > 1 by {
        assert Pow10(1) == 10 * Pow10(0);
      }
      DecimalLength(n / 10, k - 1);
    }
  }

  /** With a bound of at least 12 000 characters, header, tail, marks and note leave room for any text
      shorter than 10^100 characters. */
  lemma {:induction false} RoomForWindows(text: string, lines: seq<string>, rd: Reader, maxChars: nat)
    requires maxChars >= 12000
    requires |lines| <= |text| < Pow10(100)
    ensures !HardBound(text, lines, rd, maxChars)
  {
    KeptBound(lines, rd);
    DecimalLength(|text|, 100);
    DecimalLength(|lines|, 100);
    assert Pow10(2) == 10 * Pow10(1) && Pow10(1) == 10 * Pow10(0);
    DecimalLength(|Kept(lines, rd)|, 2);
    NoteLength(|Kept(lines, rd)|, |text|, |lines|);
  }

  lemma {:induction false} NoteLength(kept: nat, chars: nat, lines: nat)
    ensures |Note(kept, chars, lines)| <= 120 + |Decimal(kept)| + |Decimal(chars)| + |Decimal(lines)|
  {
  }

  lemma {:induction false} DistinctLength(ws: seq<string>, strip: string -> string)
    ensures |Distinct(ws, strip)| <= |ws|
  {
    if ws != [] {
      DistinctLength(ws[..|ws| - 1], strip);
    }
  }

  lemma {:induction false} KeptBound(lines: seq<string>, rd: Reader)
    ensures |Kept(lines, rd)| <= MAX_WINDOWS
  {
    CentresApart(lines, rd.isSignal, |lines|);
    DistinctLength(Windows(lines, Centres(lines, rd.isSignal, |lines|)), rd.strip);
  }

  /** Under the default bound no text of a length that exists overruns it, and compacting the result
      again, whatever its lines, changes nothing. */
  lemma {:induction false} CompactionBoundedAndIdempotent(text: string, lines: seq<string>, rd: Reader,
      again: seq<string>)
    requires |lines| <= |text| < Pow10(100)
    ensures |Compact(text, lines, rd, 60000)| <= 60000
    ensures Compact(Compact(text, lines, rd, 60000), again, rd, 60000) == Compact(text, lines, rd, 60000)
  {
    RoomForWindows(text, lines, rd, 60000);
    BoundExceededIff(text, lines, rd, 60000);
  }

  predicate EndsWith(s: string, t: string) { |t| <= |s| && s[|s| - |t|..] == t }

  lemma {:induction false} AssembleShape(text: string, body: string, note: string)
    ensures |Assemble(text, body, note)| == |Assemble(text, "", note)| + |body|
    ensures Head(text, HEADER_CHARS) + HEADER_MARK <= Assemble(text, body, note)
    ensures EndsWith(Assemble(text, body, note), TAIL_MARK + Tail(text, TAIL_CHARS) + note)
  {
    var front, back := Head(text, HEADER_CHARS) + HEADER_MARK, TAIL_MARK + Tail(text, TAIL_CHARS) + note;
    assert Assemble(text, body, note) == front + body + back;
    assert Assemble(text, "", note) == front + back;
  }

  /** Puts the parts together; a result that is too long gives up windows first. */
  method EnforceBound(text: string, body: string, note: string, maxChars: nat) returns (out: string)
    ensures out == if |Assemble(text, body, note)| <= maxChars then Assemble(text, body, note)
                   else CutDown(text, body, note, maxChars)
    ensures |out| > maxChars <==>
              |Assemble(text, body, note)| > maxChars && |Assemble(text, "", note)| + 500 >= maxChars
    ensures |out| <= maxChars + |HARD_MARK|
    ensures |out| <= maxChars ==>
              && Head(text, HEADER_CHARS) + HEADER_MARK <= out
              && EndsWith(out, TAIL_MARK + Tail(text, TAIL_CHARS) + note)
  {
    hide Tail, Head, Trimmed, EndsWith;
    out := Assemble(text, body, note);
    if |out| > maxChars {
      var overflow := |out| - maxChars;
      if |body| > overflow + 500 {
        out := Assemble(text, Trimmed(body, overflow), note);
      } else {
        out := out[..maxChars] + HARD_MARK;
      }
    }
    Enforced(text, body, note, maxChars, out);
  }

  /** Drops repeated windows, keeping the first of each. */
  method DistinctWindows(ws: seq<string>, strip: string -> string) returns (kept: seq<string>)
    ensures kept == Distinct(ws, strip)
  {
    var seen: set<string> := {};
    kept := [];
    for i := 0 to |ws|
      invariant kept == Distinct(ws[..i], strip)
      invariant forall key :: key in seen <==> exists u :: u in kept && strip(u) == key
    {
      assert ws[..i + 1][..i] == ws[..i];
      var key := strip(ws[i]);
      if key != "" && key !in seen {
        seen := seen + {key};
        kept := kept + [ws[i]];
      }
    }
    assert ws[..|ws|] == ws;
  }

  // ----- retaining original lines -----

  /** Characters of the retained lines among the first `n`, each with its line break. */
  ghost function Cost(lines: seq<string>, sel: set<nat>, n: nat): nat
    requires n <= |lines|
  {
    if n == 0 then 0 else Cost(lines, sel, n - 1) + if n - 1 in sel then |lines[n - 1]| + 1 else 0
  }

  /** Characters of the first `n` lines. */
  function Chars(lines: seq<string>, from: nat, to: nat): nat
    requires from <= to <= |lines|
  {
    if from == to then 0 else Chars(lines, from, to - 1) + |lines[to - 1]| + 1
  }

  /** How many lines from the front it takes to reach the header budget. */
  ghost function HeaderCount(lines: seq<string>, k: nat := 0): nat
    requires k <= |lines|
    decreases |lines| - k
  {
    if k == |lines| || Chars(lines, 0, k) >= HEADER_CHARS then k else HeaderCount(lines, k + 1)
  }

  /** From which line on the rest reaches the tail budget. */
  ghost function TailStart(lines: seq<string>, k: nat): nat
    requires k <= |lines|
  {
    if k == 0 || Chars(lines, k, |lines|) >= TAIL_CHARS then k else TailStart(lines, k - 1)
  }

  predicate AtEnd(i: nat, header: nat, tail: nat) { i < header || i >= tail }

  function Ends(n: nat, header: nat, tail: nat): set<nat> { set i: nat | i < n && AtEnd(i, header, tail) }

  /** The windows, in order, are added as long as they fit. */
  ghost function AddWindows(lines: seq<string>, cs: seq<nat>, sel: set<nat>, maxChars: nat): set<nat> {
    if cs == [] then sel
    else
      var s := AddWindows(lines, cs[..|cs| - 1], sel, maxChars);
      var more := s + SpanOf(cs[|cs| - 1], |lines|);
      if Cost(lines, more, |lines|) <= maxChars then more else s
  }

  lemma {:induction false} CostSplit(lines: seq<string>, a: set<nat>, b: set<nat>, n: nat)
    requires n <= |lines| && a !! b
    ensures Cost(lines, a + b, n) == Cost(lines, a, n) + Cost(lines, b, n)
  {
    if n > 0 {
      CostSplit(lines, a, b, n - 1);
    }
  }

  lemma {:induction false} CharsFront(lines: seq<string>, from: nat, to: nat)
    requires from < to <= |lines|
    ensures Chars(lines, from, to) == |lines[from]| + 1 + Chars(lines, from + 1, to)
  {
    if from + 1 < to {
      CharsFront(lines, from, to - 1);
    }
  }

  /** The retained set keeps the ends, stays inside the log, and never costs more than the budget or
      the ends alone, whichever is larger; everything else in it lies in a window. */
  lemma {:induction false} WindowsWithinBudget(lines: seq<string>, cs: seq<nat>, sel: set<nat>, maxChars: nat)
    ensures sel <= AddWindows(lines, cs, sel, maxChars) <= sel + Covered(cs, |lines|)
    ensures var c := Cost(lines, AddWindows(lines, cs, sel, maxChars), |lines|);
            c <= maxChars || c <= Cost(lines, sel, |lines|)
  {
    if cs != [] {
      var init, last := cs[..|cs| - 1], cs[|cs| - 1];
      WindowsWithinBudget(lines, init, sel, maxChars);
      CoveredNext(init, |lines|, last);
      assert cs == init + [last];
    }
  }

  /** Header and tail are as short as their budgets allow. */
  lemma {:induction false} HeaderIsLeast(lines: seq<string>, k: nat)
    requires k <= |lines| && (k == 0 || Chars(lines, 0, k - 1) < HEADER_CHARS)
    ensures var h := HeaderCount(lines, k);
            && k <= h <= |lines|
            && (h == |lines| || Chars(lines, 0, h) >= HEADER_CHARS)
            && (h == 0 || Chars(lines, 0, h - 1) < HEADER_CHARS)
    decreases |lines| - k
  {
    if k < |lines| && Chars(lines, 0, k) < HEADER_CHARS {
      HeaderIsLeast(lines, k + 1);
    }
  }

  lemma {:induction false} TailIsLatest(lines: seq<string>, k: nat)
    requires k <= |lines| && (k == |lines| || Chars(lines, k + 1, |lines|) < TAIL_CHARS)
    ensures var t := TailStart(lines, k);
            && t <= k
            && (t == 0 || Chars(lines, t, |lines|) >= TAIL_CHARS)
            && (t == |lines| || Chars(lines, t + 1, |lines|) < TAIL_CHARS)
  {
    if k > 0 && Chars(lines, k, |lines|) < TAIL_CHARS {
      TailIsLatest(lines, k - 1);
    }
  }

  /** Header and tail lines, front and back. */
  method EndLines(lines: seq<string>) returns (selected: set<nat>)
    ensures selected == EndsOf(lines)
  {
    var used, header := 0, 0;
    while header < |lines| && used < HEADER_CHARS
      invariant header <= |lines| && used == Chars(lines, 0, header)
      invariant HeaderCount(lines, header) == HeaderCount(lines, 0)
    {
      used := used + |lines[header]| + 1;
      header := header + 1;
    }
    var tail: nat := |lines|;
    used := 0;
    while tail > 0 && used < TAIL_CHARS
      invariant tail <= |lines| && used == Chars(lines, tail, |lines|)
      invariant TailStart(lines, tail) == TailStart(lines, |lines|)
    {
      CharsFront(lines, tail - 1, |lines|);
      tail := tail - 1;
      used := used + |lines[tail]| + 1;
    }
    return Ends(|lines|, header, tail);
  }

  ghost function EndsOf(lines: seq<string>): set<nat> {
    Ends(|lines|, HeaderCount(lines, 0), TailStart(lines, |lines|))
  }

  /** The retained line indexes: the windows tried are exactly those that compaction chooses. */
  ghost function Retained(lines: seq<string>, isSignal: string -> bool, maxChars: nat): set<nat> {
    AddWindows(lines, Centres(lines, isSignal, |lines|), EndsOf(lines), maxChars)
  }

  method CostOf(lines: seq<string>, sel: set<nat>) returns (c: nat)
    ensures c == Cost(lines, sel, |lines|)
  {
    c := 0;
    for i := 0 to |lines|
      invariant c == Cost(lines, sel, i)
    {
      if i in sel {
        c := c + |lines[i]| + 1;
      }
    }
  }

  lemma {:induction false} WindowStep(lines: seq<string>, cs: seq<nat>, ends: set<nat>, maxChars: nat, c: nat)
    ensures var s := AddWindows(lines, cs, ends, maxChars);
            var additional := SpanOf(c, |lines|) - s;
            && Cost(lines, s + additional, |lines|) == Cost(lines, s, |lines|) + Cost(lines, additional, |lines|)
            && AddWindows(lines, cs + [c], ends, maxChars) ==
                 if Cost(lines, s, |lines|) + Cost(lines, additional, |lines|) <= maxChars then s + additional else s
  {
    var s := AddWindows(lines, cs, ends, maxChars);
    var additional := SpanOf(c, |lines|) - s;
    CostSplit(lines, s, additional, |lines|);
    assert s + additional == s + SpanOf(c, |lines|);
    assert (cs + [c])[..|cs|] == cs;
  }

  /** Retains header, tail and as many windows as fit, by original line index. */
  method RetainedSourceLines(lines: seq<string>, isSignal: string -> bool, maxChars: nat) returns (selected: set<nat>)
    ensures selected == Retained(lines, isSignal, maxChars)
  {
    var n := |lines|;
    selected := EndLines(lines);
    var used := CostOf(lines, selected);
    var covered: set<nat>, windows, i := {}, 0, 0;
    while i < n && windows < MAX_WINDOWS
      invariant i <= n
      invariant windows == |Centres(lines, isSignal, i)|
      invariant covered == Covered(Centres(lines, isSignal, i), n)
      invariant used == Cost(lines, selected, n)
      invariant selected == AddWindows(lines, Centres(lines, isSignal, i), EndsOf(lines), maxChars)
    {
      var idx := i;
      i := i + 1;
      if !isSignal(lines[idx]) {
        continue;
      }
      var span := SpanOf(idx, n);
      CentreStep(lines, isSignal, idx);
      if span * covered != {} {
        continue;
      }
      WindowStep(lines, Centres(lines, isSignal, idx), EndsOf(lines), maxChars, idx);
      covered := covered + span;
      windows := windows + 1;
      var additional := span - selected;
      var cost := CostOf(lines, additional);
      if used + cost <= maxChars {
        selected := selected + additional;
        used := used + cost;
      }
    }
    EnoughWindows(lines, isSignal, i, n);
  }

  /** Once all windows are used up no later line becomes a centre. */
  lemma {:induction false} EnoughWindows(lines: seq<string>, isSignal: string -> bool, i: nat, m: nat)
    requires i <= m <= |lines|
    requires i == m || |Centres(lines, isSignal, i)| >= MAX_WINDOWS
    ensures Centres(lines, isSignal, m) == Centres(lines, isSignal, i)
  {
    if i < m {
      EnoughWindows(lines, isSignal, i, m - 1);
    }
  }

  /** Budget and agreement with compaction: the retained lines keep every header and tail line, all
      others lie in a window that compaction chooses, and together they cost at most the budget, or
      no more than header and tail alone. */
  lemma {:induction false} RetentionWithinBudget(lines: seq<string>, isSignal: string -> bool, maxChars: nat)
    ensures var kept := Retained(lines, isSignal, maxChars);
            && EndsOf(lines) <= kept
            && (forall i :: i in kept ==> i in EndsOf(lines) || InSome(i, Centres(lines, isSignal, |lines|), |lines|))
            && (Cost(lines, kept, |lines|) <= maxChars
                || Cost(lines, kept, |lines|) == Cost(lines, EndsOf(lines), |lines|))
  {
    var ends := EndsOf(lines);
    WindowsWithinBudget(lines, Centres(lines, isSignal, |lines|), ends, maxChars);
    CostMonotone(lines, ends, Retained(lines, isSignal, maxChars), |lines|);
  }

  lemma {:induction false} CostMonotone(lines: seq<string>, a: set<nat>, b: set<nat>, n: nat)
    requires n <= |lines| && a <= b
    ensures Cost(lines, a, n) <= Cost(lines, b, n)
  {
    if n > 0 {
      CostMonotone(lines, a, b, n - 1);
    }
  }

  // ----- building the records -----

  datatype SourceFile = SourceFile(name: string, text: string, lines: seq<string>)

  /** A record of an original line; numbers start at 1. */
  datatype LineRecord = LineRecord(file: string, number: nat, text: string)

  /** The records of the first `m` lines that are not blank and not dropped. */
  function FileRecords(f: SourceFile, rd: Reader, keep: nat -> bool, m: nat): seq<LineRecord>
    requires m <= |f.lines|
  {
    if m == 0 then []
    else
      FileRecords(f, rd, keep, m - 1) +
      if keep(m - 1) && rd.strip(f.lines[m - 1]) != "" then [LineRecord(f.name, m, f.lines[m - 1])] else []
  }

  /** Keeps the records of the selected lines; their numbers stay. */
  function FilterRecords(rs: seq<LineRecord>, sel: set<nat>): seq<LineRecord> {
    if rs == [] then []
    else
      var last := rs[|rs| - 1];
      FilterRecords(rs[..|rs| - 1], sel) + if last.number > 0 && last.number - 1 in sel then [last] else []
  }

  lemma {:induction false} FilterConcat(a: seq<LineRecord>, b: seq<LineRecord>, sel: set<nat>)
    ensures FilterRecords(a + b, sel) == FilterRecords(a, sel) + FilterRecords(b, sel)
  {
    if b == [] {
      assert a + b == a;
    } else {
      FilterConcat(a, b[..|b| - 1], sel);
      assert (a + b)[..|a + b| - 1] == a + b[..|b| - 1];
    }
  }

  /** Building under a budget is filtering what is built without one: no record is renumbered. */
  lemma {:induction false} BoundedIsFiltered(f: SourceFile, rd: Reader, sel: set<nat>, m: nat)
    requires m <= |f.lines|
    ensures FileRecords(f, rd, i => i in sel, m) == FilterRecords(FileRecords(f, rd, i => true, m), sel)
  {
    if m > 0 {
      BoundedIsFiltered(f, rd, sel, m - 1);
      var all := FileRecords(f, rd, i => true, m - 1);
      if rd.strip(f.lines[m - 1]) != "" {
        var r := LineRecord(f.name, m, f.lines[m - 1]);
        FilterConcat(all, [r], sel);
        assert [r][..0] == [];
      } else {
        assert FileRecords(f, rd, i => true, m) == all;
      }
    }
  }

  /** Which lines of a file become records; a bound of 0 means none. */
  ghost function Keep(f: SourceFile, rd: Reader, maxChars: nat): nat -> bool {
    if maxChars > 0 && |f.text| > maxChars then var sel := Retained(f.lines, rd.isSignal, maxChars); i => i in sel
    else i => true
  }

  ghost function AllRecords(files: seq<SourceFile>, rd: Reader, maxChars: nat): seq<LineRecord> {
    if files == [] then []
    else
      var f := files[|files| - 1];
      AllRecords(files[..|files| - 1], rd, maxChars) + FileRecords(f, rd, Keep(f, rd, maxChars), |f.lines|)
  }

  /** Builds the records of all files in input order, under an optional budget per file. */
  method BuildEvidenceRecords(files: seq<SourceFile>, rd: Reader, maxChars: nat) returns (records: seq<LineRecord>)
    ensures records == AllRecords(files, rd, maxChars)
  {
    records := [];
    for n := 0 to |files|
      invariant records == AllRecords(files[..n], rd, maxChars)
    {
      assert files[..n + 1][..n] == files[..n];
      var f := files[n];
      var bounded := maxChars > 0 && |f.text| > maxChars;
      var selected: set<nat> := {};
      if bounded {
        selected := RetainedSourceLines(f.lines, rd.isSignal, maxChars);
      }
      ghost var keep := Keep(f, rd, maxChars);
      for m := 0 to |f.lines|
        invariant records == AllRecords(files[..n], rd, maxChars) + FileRecords(f, rd, keep, m)
      {
        if bounded && m !in selected {
          continue;
        }
        if rd.strip(f.lines[m]) == "" {
          continue;
        }
        records := records + [LineRecord(f.name, m + 1, f.lines[m])];
      }
    }
    assert files[..|files|] == files;
  }
}
