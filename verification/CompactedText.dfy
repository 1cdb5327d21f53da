/** What a compacted log consists of, and which lines are retained, said in line numbers and characters. */
module CompactedText {
  import opened PlainText
  import opened Compaction

  // ----- the centres -----

  ghost predicate Rising(cs: seq<nat>) { forall i, j :: 0 <= i < j < |cs| ==> cs[i] < cs[j] }

  /** The centres among the first `i` lines are the first of all centres. */
  lemma {:induction false} CentresBefore(lines: seq<string>, isSignal: string -> bool, i: nat, m: nat)
    requires i <= m <= |lines|
    ensures Rising(Centres(lines, isSignal, m))
    ensures |Centres(lines, isSignal, i)| <= |Centres(lines, isSignal, m)|
    ensures Centres(lines, isSignal, i) == Centres(lines, isSignal, m)[..|Centres(lines, isSignal, i)|]
    ensures forall c :: c in Centres(lines, isSignal, i) <==> c in Centres(lines, isSignal, m) && c < i
  {
    CentresApart(lines, isSignal, m);
    if i < m {
      CentresBefore(lines, isSignal, i, m - 1);
      CentresApart(lines, isSignal, m - 1);
      var before, now := Centres(lines, isSignal, m - 1), Centres(lines, isSignal, m);
      assert now == before || now == before + [m - 1];
      hide Centres;
      assert forall c :: c in now <==> c in before || (|now| > |before| && c == m - 1);
    } else {
      assert forall c :: c in Centres(lines, isSignal, m) ==> c < m;
    }
  }

  function MembersOf(cs: seq<nat>): set<nat> { set c | c in cs }

  lemma {:induction false} RisingCount(cs: seq<nat>)
    requires Rising(cs)
    ensures |MembersOf(cs)| == |cs|
  {
    if cs != [] {
      var init, last := cs[..|cs| - 1], cs[|cs| - 1];
      assert cs == init + [last];
      RisingCount(init);
      MembersSnoc(init, last);
    }
  }

  lemma {:induction false} MembersSnoc(init: seq<nat>, last: nat)
    ensures MembersOf(init + [last]) == MembersOf(init) + {last}
    ensures Rising(init + [last]) ==> last !in MembersOf(init)
  {
    var cs := init + [last];
    if Rising(cs) {
      forall k | 0 <= k < |init| ensures init[k] < last {
        assert cs[k] < cs[|init|];
      }
    }
  }

  lemma {:induction false} CountBefore(lines: seq<string>, isSignal: string -> bool, i: nat)
    requires i <= |lines|
    ensures |set c | c in Centres(lines, isSignal, |lines|) && c < i| == |Centres(lines, isSignal, i)|
  {
    CentresBefore(lines, isSignal, i, |lines|);
    CentresBefore(lines, isSignal, i, i);
    RisingCount(Centres(lines, isSignal, i));
    hide Centres;
    assert (set c | c in Centres(lines, isSignal, |lines|) && c < i) == MembersOf(Centres(lines, isSignal, i));
  }

  /** A line is a centre exactly if it is a signal, fewer than 40 centres come before it, and none of them
      within 24 lines. */
  lemma {:induction false} CentreIff(lines: seq<string>, isSignal: string -> bool, i: nat)
    ensures var cs := Centres(lines, isSignal, |lines|);
            i in cs <==>
              && i < |lines| && isSignal(lines[i]) && |set c | c in cs && c < i| < 40
              && forall c :: c in cs && c < i ==> i - c > 24
  {
    hide Centres;
    CentresApart(lines, isSignal, |lines|);
    if i < |lines| {
      CountBefore(lines, isSignal, i);
      CentresBefore(lines, isSignal, i, |lines|);
      CentresBefore(lines, isSignal, i + 1, |lines|);
      CentresBefore(lines, isSignal, i, i);
      CentreNext(lines, isSignal, i);
    }
  }

  lemma {:induction false} CentreNext(lines: seq<string>, isSignal: string -> bool, i: nat)
    requires i < |lines| && Rising(Centres(lines, isSignal, i))
    requires forall c :: c in Centres(lines, isSignal, i) ==> c < i
    ensures var before := Centres(lines, isSignal, i);
            i in Centres(lines, isSignal, i + 1) <==>
              isSignal(lines[i]) && |before| < 40 && forall c :: c in before ==> i - c > 24
  {
    var before := Centres(lines, isSignal, i);
    if before != [] {
      var last := before[|before| - 1];
      assert last in before;
      forall c | c in before ensures c <= last {
        var k :| 0 <= k < |before| && before[k] == c;
      }
    }
  }

  // ----- the windows -----

  /** The lines from twelve before to twelve after `c`, as far as there are any. */
  function WindowText(lines: seq<string>, c: nat): string
    requires c < |lines|
  {
    Join("\n", lines[(if c >= 12 then c - 12 else 0)..(if c + 13 <= |lines| then c + 13 else |lines|)])
  }

  /** `ws` are the windows around the centres `ks`: one for each stripped text that is not empty, around the
      first centre that has it. */
  ghost predicate Picks(ws: seq<string>, ks: seq<nat>, lines: seq<string>, rd: Reader) {
    && |ks| == |ws|
    && (forall i :: 0 <= i < |ks| ==> AtCentre(ws[i], ks[i], lines, rd))
    && (forall i, j :: 0 <= i < j < |ks| ==> ks[i] < ks[j] && rd.strip(ws[i]) != rd.strip(ws[j]))
    && (forall c :: c in Centres(lines, rd.isSignal, |lines|) && c < |lines| && rd.strip(WindowText(lines, c)) != ""
          ==> Stands(ws, ks, lines, rd, c))
  }

  ghost predicate AtCentre(w: string, c: nat, lines: seq<string>, rd: Reader) {
    && c in Centres(lines, rd.isSignal, |lines|) && c < |lines|
    && w == WindowText(lines, c) && rd.strip(w) != ""
  }

  /** The window around `c`, or an earlier one of the same stripped text, is among them. */
  ghost predicate Stands(ws: seq<string>, ks: seq<nat>, lines: seq<string>, rd: Reader, c: nat)
    requires |ks| == |ws| && c < |lines|
  {
    exists i :: 0 <= i < |ks| && ks[i] <= c && rd.strip(ws[i]) == rd.strip(WindowText(lines, c))
  }

  lemma {:induction false} WindowIs(lines: seq<string>, cs: seq<nat>, k: nat)
    requires k < |cs| && forall j :: 0 <= j < |cs| ==> cs[j] < |lines|
    ensures Windows(lines, cs)[k] == WindowText(lines, cs[k])
  {
  }

  /** `at` are the positions of the windows that are kept: the first of each stripped text. */
  ghost predicate Firsts(at: seq<nat>, kept: seq<string>, ws: seq<string>, strip: string -> string) {
    && |at| == |kept|
    && (forall i :: 0 <= i < |at| ==> at[i] < |ws| && kept[i] == ws[at[i]] && strip(kept[i]) != "")
    && (forall i, j :: 0 <= i < j < |at| ==> at[i] < at[j] && strip(kept[i]) != strip(kept[j]))
    && (forall j: nat :: j < |ws| && strip(ws[j]) != "" ==> Earlier(at, kept, strip, j, ws[j]))
  }

  ghost predicate Earlier(at: seq<nat>, kept: seq<string>, strip: string -> string, j: nat, w: string)
    requires |at| == |kept|
  {
    exists i :: 0 <= i < |at| && at[i] <= j && strip(kept[i]) == strip(w)
  }

  lemma {:induction false} EarlierStays(at: seq<nat>, kept: seq<string>, strip: string -> string, j: nat, w: string,
      k: nat, u: string)
    requires |at| == |kept| && Earlier(at, kept, strip, j, w)
    ensures Earlier(at + [k], kept + [u], strip, j, w)
  {
    var i :| 0 <= i < |at| && at[i] <= j && strip(kept[i]) == strip(w);
    assert (at + [k])[i] == at[i] && (kept + [u])[i] == kept[i];
  }

  lemma {:induction false} FirstsSkip(at: seq<nat>, kept: seq<string>, ws: seq<string>, strip: string -> string,
      last: string)
    requires Firsts(at, kept, ws, strip) && (strip(last) == "" || exists u :: u in kept && strip(u) == strip(last))
    ensures Firsts(at, kept, ws + [last], strip)
  {
    var all := ws + [last];
    assert all[|ws|] == last && forall j :: 0 <= j < |ws| ==> all[j] == ws[j];
    if strip(last) != "" {
      var u :| u in kept && strip(u) == strip(last);
      var i :| 0 <= i < |kept| && kept[i] == u;
      assert at[i] <= |ws|;
      assert Earlier(at, kept, strip, |ws|, last);
    }
    hide Earlier;
  }

  lemma {:induction false} KeptSnoc(at: seq<nat>, kept: seq<string>, ws: seq<string>, strip: string -> string,
      last: string)
    requires Firsts(at, kept, ws, strip) && forall u :: u in kept ==> strip(u) != strip(last)
    ensures var more, now := kept + [last], at + [|ws|];
            forall i, j :: 0 <= i < j < |now| ==> now[i] < now[j] && strip(more[i]) != strip(more[j])
  {
    hide Earlier;
    var more, now := kept + [last], at + [|ws|];
    forall i, j | 0 <= i < j < |now| ensures now[i] < now[j] && strip(more[i]) != strip(more[j]) {
      assert more[i] == kept[i] && kept[i] in kept && now[i] == at[i];
    }
  }

  lemma {:induction false} EarlierSnoc(at: seq<nat>, kept: seq<string>, ws: seq<string>, strip: string -> string,
      last: string, j: nat)
    requires Firsts(at, kept, ws, strip) && j <= |ws| && (j < |ws| ==> strip(ws[j]) != "")
    ensures Earlier(at + [|ws|], kept + [last], strip, j, (ws + [last])[j])
  {
    if j < |ws| {
      EarlierStays(at, kept, strip, j, ws[j], |ws|, last);
    } else {
      assert (at + [|ws|])[|at|] == |ws| && (kept + [last])[|kept|] == last;
    }
  }

  lemma {:induction false} FirstsTake(at: seq<nat>, kept: seq<string>, ws: seq<string>, strip: string -> string,
      last: string)
    requires Firsts(at, kept, ws, strip) && strip(last) != "" && forall u :: u in kept ==> strip(u) != strip(last)
    ensures Firsts(at + [|ws|], kept + [last], ws + [last], strip)
  {
    hide Earlier;
    var all, more, now := ws + [last], kept + [last], at + [|ws|];
    assert all[|ws|] == last && forall j :: 0 <= j < |ws| ==> all[j] == ws[j];
    forall j: nat | j < |all| && strip(all[j]) != "" ensures Earlier(now, more, strip, j, all[j]) {
      EarlierSnoc(at, kept, ws, strip, last, j);
    }
    KeptSnoc(at, kept, ws, strip, last);
  }

  lemma {:induction false} DistinctMeans(ws: seq<string>, strip: string -> string) returns (at: seq<nat>)
    ensures Firsts(at, Distinct(ws, strip), ws, strip)
  {
    if ws == [] {
      at := [];
    } else {
      var init, last := ws[..|ws| - 1], ws[|ws| - 1];
      assert ws == init + [last];
      at := DistinctMeans(init, strip);
      var kept := Distinct(init, strip);
      hide Firsts;
      if strip(last) != "" && forall u :: u in kept ==> strip(u) != strip(last) {
        FirstsTake(at, kept, init, strip, last);
        at := at + [|init|];
      } else {
        FirstsSkip(at, kept, init, strip, last);
      }
    }
  }

  lemma {:induction false} KeptPicks(lines: seq<string>, rd: Reader) returns (ks: seq<nat>)
    ensures Picks(Kept(lines, rd), ks, lines, rd)
  {
    var cs := Centres(lines, rd.isSignal, |lines|);
    CentresApart(lines, rd.isSignal, |lines|);
    forall k: nat | k < |cs| ensures Windows(lines, cs)[k] == WindowText(lines, cs[k]) { WindowIs(lines, cs, k); }
    var at := DistinctMeans(Windows(lines, cs), rd.strip);
    ks := PicksFrom(Kept(lines, rd), at, cs, Windows(lines, cs), lines, rd);
  }

  lemma {:induction false} StandsFrom(kept: seq<string>, at: seq<nat>, ks: seq<nat>, cs: seq<nat>, all: seq<string>,
      lines: seq<string>, rd: Reader, k: nat)
    requires Firsts(at, kept, all, rd.strip) && k < |cs| == |all| && cs[k] < |lines| && Rising(cs)
    requires all[k] == WindowText(lines, cs[k]) && rd.strip(all[k]) != ""
    requires |ks| == |at| && forall i :: 0 <= i < |at| ==> ks[i] == cs[at[i]]
    ensures Stands(kept, ks, lines, rd, cs[k])
  {
    hide WindowText;
    assert Earlier(at, kept, rd.strip, k, all[k]);
    var i :| 0 <= i < |at| && at[i] <= k && rd.strip(kept[i]) == rd.strip(all[k]);
    assert ks[i] <= cs[k];
  }

  lemma {:induction false} PicksFrom(kept: seq<string>, at: seq<nat>, cs: seq<nat>, all: seq<string>,
      lines: seq<string>, rd: Reader)
    returns (ks: seq<nat>)
    requires cs == Centres(lines, rd.isSignal, |lines|) && Firsts(at, kept, all, rd.strip) && |all| == |cs|
    requires Rising(cs) && forall k :: 0 <= k < |cs| ==> cs[k] < |lines| && all[k] == WindowText(lines, cs[k])
    ensures Picks(kept, ks, lines, rd)
  {
    hide WindowText, Centres, Stands, Earlier;
    ks := seq(|at|, i requires 0 <= i < |at| => cs[at[i]]);
    forall i | 0 <= i < |ks| ensures AtCentre(kept[i], ks[i], lines, rd) {
      assert cs[at[i]] in cs;
    }
    forall c | c in cs && c < |lines| && rd.strip(WindowText(lines, c)) != ""
      ensures Stands(kept, ks, lines, rd, c)
    {
      var k: nat :| k < |cs| && cs[k] == c;
      StandsFrom(kept, at, ks, cs, all, lines, rd, k);
    }
    hide AtCentre;
    PairsFrom(kept, at, ks, cs, rd.strip);
  }

  lemma {:induction false} PairsFrom(kept: seq<string>, at: seq<nat>, ks: seq<nat>, cs: seq<nat>,
      strip: string -> string)
    requires |at| == |kept| == |ks| && Rising(cs)
    requires forall i :: 0 <= i < |at| ==> at[i] < |cs| && ks[i] == cs[at[i]]
    requires forall i, j :: 0 <= i < j < |at| ==> at[i] < at[j] && strip(kept[i]) != strip(kept[j])
    ensures forall i, j :: 0 <= i < j < |ks| ==> ks[i] < ks[j] && strip(kept[i]) != strip(kept[j])
  {
  }

  // ----- the text -----

  function Front(text: string): string { text[..if |text| >= 3000 then 3000 else |text|] }

  function Back(text: string): string { text[if |text| >= 8000 then |text| - 8000 else 0..] }

  /** Beginning and end of the log around what stands between. */
  function Around(text: string, middle: string, note: string): string {
    Front(text) + "\n\n[... header above ...]\n\n" + middle + "\n\n[... tail below ...]\n\n" + Back(text) + note
  }

  /** What the note tells: how many windows were kept, and the size of the log. */
  function Remark(windows: nat, chars: nat, lines: nat): string {
    "\n\n[... compacted: kept header (3000 chars) + " + Decimal(windows)
    + " signal windows + tail (8000 chars) out of " + Decimal(chars) + " chars / " + Decimal(lines) + " lines ...]"
  }

  lemma {:induction false} RemarkIs(windows: nat, chars: nat, lines: nat)
    ensures Note(windows, chars, lines) == Remark(windows, chars, lines)
  {
    hide Decimal;
  }

  lemma {:induction false} AssembleIs(text: string, body: string, note: string)
    ensures Assemble(text, body, note) == Around(text, body, note)
  {
    assert Head(text, HEADER_CHARS) == Front(text);
    assert Tail(text, TAIL_CHARS) == Back(text);
  }

  /** A log within its bound stays.  Otherwise its first 3000 and last 8000 characters frame the windows;
      when that is too long the windows lose their end, and only when they cannot lose enough the whole. */
  lemma {:induction false} CompactMeans(text: string, lines: seq<string>, rd: Reader, maxChars: nat)
    returns (ws: seq<string>, ks: seq<nat>)
    ensures Picks(ws, ks, lines, rd)
    ensures var middle, note := Join("\n\n[... signal window ...]\n\n", ws), Remark(|ws|, |text|, |lines|);
            Compact(text, lines, rd, maxChars) ==
              if |text| <= maxChars then text else Bounded(text, middle, note, maxChars)
  {
    ws := Kept(lines, rd);
    ks := KeptPicks(lines, rd);
    hide Picks, Bounded, Assemble, Note, Remark, Join, Kept;
    RemarkIs(|ws|, |text|, |lines|);
    if |text| > maxChars {
      BoundedIs(text, Join(WINDOW_SEPARATOR, ws), Note(|ws|, |text|, |lines|), maxChars);
    }
  }

  /** The framed windows within the bound. */
  function Bounded(text: string, middle: string, note: string, maxChars: nat): string {
    var full := Around(text, middle, note);
    if |full| <= maxChars then full
    else if |middle| > |full| - maxChars + 500
    then Around(text, middle[..|middle| - (|full| - maxChars) - 500]
                      + "\n[... middle windows trimmed to fit bound ...]", note)
    else full[..maxChars] + "\n[... hard bound ...]"
  }

  lemma {:induction false} BoundedIs(text: string, body: string, note: string, maxChars: nat)
    ensures Bounded(text, body, note, maxChars) ==
            if |Assemble(text, body, note)| <= maxChars then Assemble(text, body, note)
            else CutDown(text, body, note, maxChars)
  {
    hide Assemble, Around;
    AssembleIs(text, body, note);
    var overflow := |Assemble(text, body, note)| - maxChars;
    if |Assemble(text, body, note)| > maxChars && |body| > overflow + 500 {
      AssembleIs(text, Trimmed(body, overflow), note);
    }
  }

  /** Under the default bound a longer log keeps its first 3000 and its last 8000 characters. */
  lemma {:induction false} EndsAreKept(text: string, lines: seq<string>, rd: Reader)
    requires 60000 < |text| < Pow10(100) && |lines| <= |text|
    ensures var out, note := Compact(text, lines, rd, 60000), NoteOf(text, lines, rd);
            && |out| >= 11000 + |note|
            && out[..3000] == text[..3000]
            && out[|out| - |note| - 8000..|out| - |note|] == text[|text| - 8000..]
            && out[|out| - |note|..] == note
  {
    RoomForWindows(text, lines, rd, 60000);
    BoundExceededIff(text, lines, rd, 60000);
    EndsOfText(Compact(text, lines, rd, 60000), text, NoteOf(text, lines, rd));
  }

  lemma {:induction false} EndsOfText(out: string, text: string, note: string)
    requires |text| > 11000
    requires Head(text, HEADER_CHARS) + HEADER_MARK <= out
    requires EndsWith(out, TAIL_MARK + Tail(text, TAIL_CHARS) + note)
    requires |out| >= 3000 + |HEADER_MARK| + |TAIL_MARK| + 8000 + |note|
    ensures out[..3000] == text[..3000]
    ensures out[|out| - |note| - 8000..|out| - |note|] == text[|text| - 8000..]
    ensures out[|out| - |note|..] == note
  {
  }

  // ----- retained lines -----

  lemma {:induction false} CharsGrows(lines: seq<string>, a: nat, b: nat, c: nat)
    requires a <= b <= c <= |lines|
    ensures Chars(lines, a, b) <= Chars(lines, a, c) && Chars(lines, b, c) <= Chars(lines, a, c)
  {
    if b < c {
      CharsGrows(lines, a, b, c - 1);
    }
  }

  /** Header and tail: the lines with fewer than 3000 characters before them or fewer than 8000 behind. */
  lemma {:induction false} EndsIff(lines: seq<string>, i: nat)
    requires i < |lines|
    ensures i in EndsOf(lines) <==> Chars(lines, 0, i) < 3000 || Chars(lines, i + 1, |lines|) < 8000
  {
    var n := |lines|;
    HeaderIsLeast(lines, 0);
    TailIsLatest(lines, n);
    var h, t := HeaderCount(lines, 0), TailStart(lines, n);
    if i < h {
      CharsGrows(lines, 0, i, h - 1);
    } else {
      CharsGrows(lines, 0, h, i);
    }
    if i >= t {
      CharsGrows(lines, t + 1, i + 1, n);
    } else {
      CharsGrows(lines, i + 1, t, n);
    }
  }

  /** A retained line costs its characters and its line break, and several lines the sum. */
  lemma {:induction false} CostMeans(lines: seq<string>, i: nat, sel: set<nat>, n: nat)
    requires i < n <= |lines| && i !in sel
    ensures Cost(lines, {}, n) == 0
    ensures Cost(lines, sel + {i}, n) == Cost(lines, sel, n) + |lines[i]| + 1
  {
    CostOfOne(lines, i, n);
    CostSplit(lines, sel, {i}, n);
  }

  lemma {:induction false} CostOfOne(lines: seq<string>, i: nat, n: nat)
    requires n <= |lines|
    ensures Cost(lines, {}, n) == 0
    ensures Cost(lines, {i}, n) == if i < n then |lines[i]| + 1 else 0
  {
    if n > 0 {
      CostOfOne(lines, i, n - 1);
    }
  }

  /** The lines of a window. */
  function Nearby(c: nat, n: nat): set<nat> { set i: nat | i < n && Near(i, c) }

  predicate Near(i: nat, c: nat) { c - 12 <= i <= c + 12 }

  lemma {:induction false} NearbyIs(c: nat, n: nat)
    ensures SpanOf(c, n) == Nearby(c, n)
  {
  }

  ghost predicate NearSome(i: nat, cs: seq<nat>) { exists k :: 0 <= k < |cs| && Near(i, cs[k]) }

  ghost predicate Apart(cs: seq<nat>) { forall i, j :: 0 <= i < j < |cs| ==> cs[i] + 24 < cs[j] }

  /** Adding further windows keeps what there is, and adds lines of theirs only. */
  lemma {:induction false} AddedBehind(lines: seq<string>, cs: seq<nat>, sel: set<nat>, maxChars: nat, k: nat)
    requires k <= |cs|
    ensures var before, kept := AddWindows(lines, cs[..k], sel, maxChars), AddWindows(lines, cs, sel, maxChars);
            before <= kept && forall i :: i in kept && i !in before ==> NearSome(i, cs[k..])
  {
    hide AddWindows;
    if k == |cs| {
      assert cs[..k] == cs;
    } else {
      var init, last := cs[..|cs| - 1], cs[|cs| - 1];
      assert init[..k] == cs[..k] && cs[k..] == init[k..] + [last];
      AddedBehind(lines, init, sel, maxChars, k);
      AddedLast(lines, cs, sel, maxChars);
      forall i | NearSome(i, init[k..]) || Near(i, last) ensures NearSome(i, cs[k..]) {
        NearSnoc(i, init[k..], last);
      }
    }
  }

  lemma {:induction false} NearSnoc(i: nat, cs: seq<nat>, c: nat)
    ensures NearSome(i, cs + [c]) <==> NearSome(i, cs) || Near(i, c)
  {
    var all := cs + [c];
    assert all[|cs|] == c;
    if k :| 0 <= k < |cs| && Near(i, cs[k]) {
      assert all[k] == cs[k];
    }
  }

  lemma {:induction false} AddedLast(lines: seq<string>, cs: seq<nat>, sel: set<nat>, maxChars: nat)
    requires cs != []
    ensures var before := AddWindows(lines, cs[..|cs| - 1], sel, maxChars);
            var more := before + Nearby(cs[|cs| - 1], |lines|);
            AddWindows(lines, cs, sel, maxChars) == if Cost(lines, more, |lines|) <= maxChars then more else before
  {
    NearbyIs(cs[|cs| - 1], |lines|);
    hide Nearby, SpanOf, Cost;
  }

  lemma {:induction false} AddedAround(lines: seq<string>, cs: seq<nat>, sel: set<nat>, maxChars: nat)
    ensures var kept := AddWindows(lines, cs, sel, maxChars);
            sel <= kept && forall i :: i in kept && i !in sel ==> NearSome(i, cs)
  {
    AddedBehind(lines, cs, sel, maxChars, 0);
    assert cs[..0] == [] && cs[0..] == cs;
  }

  /** What is kept of header and tail and of the windows before that of `c`. */
  function Ahead(kept: set<nat>, ends: set<nat>, c: nat): set<nat> { set i | i in kept && (i in ends || i + 12 < c) }

  lemma {:induction false} FirstFit(lines: seq<string>, cs: seq<nat>, ends: set<nat>, maxChars: nat, k: nat)
    requires k < |cs| && Apart(cs)
    ensures var kept, own := AddWindows(lines, cs, ends, maxChars), Nearby(cs[k], |lines|);
            && (own <= kept <==> own <= ends || Cost(lines, Ahead(kept, ends, cs[k]) + own, |lines|) <= maxChars)
            && forall i :: i in own && i in kept && i !in ends ==> own <= kept
  {
    var kept, before, own := AddWindows(lines, cs, ends, maxChars), AddWindows(lines, cs[..k], ends, maxChars),
      Nearby(cs[k], |lines|);
    AddedBehind(lines, cs, ends, maxChars, k);
    AddedBehind(lines, cs, ends, maxChars, k + 1);
    AddedAround(lines, cs[..k], ends, maxChars);
    AddedLast(lines, cs[..k + 1], ends, maxChars);
    assert cs[..k + 1][..k] == cs[..k];
    hide AddWindows, Cost, NearSome;
    var rest := cs[k + 1..];
    forall i | NearSome(i, cs[..k]) ensures i + 12 < cs[k] { NearAhead(i, cs, k); }
    forall i | NearSome(i, cs[k..]) ensures i + 12 >= cs[k] { NearBehind(i, cs, k); }
    forall i | NearSome(i, rest) ensures i > cs[k] + 12 { NearBehind(i, cs, k + 1); }
    assert Ahead(kept, ends, cs[k]) == before;
  }

  lemma {:induction false} NearAhead(i: nat, cs: seq<nat>, k: nat)
    requires k < |cs| && Apart(cs) && NearSome(i, cs[..k])
    ensures i + 12 < cs[k]
  {
  }

  lemma {:induction false} NearBehind(i: nat, cs: seq<nat>, k: nat)
    requires k <= |cs| && Apart(cs) && NearSome(i, cs[k..])
    ensures k < |cs| && i + 12 >= cs[k]
    ensures k > 0 ==> i > cs[k - 1] + 12
  {
    var j :| 0 <= j < |cs[k..]| && Near(i, cs[k..][j]);
    assert cs[k..][j] == cs[k + j];
  }

  /** A window is retained whole exactly if it lies in header and tail, or still fits beside them and what was
      retained of the windows before it; otherwise only what header and tail have of it. */
  lemma {:induction false} RetainedIff(lines: seq<string>, isSignal: string -> bool, maxChars: nat, c: nat)
    requires c in Centres(lines, isSignal, |lines|)
    ensures var kept, own, ends := Retained(lines, isSignal, maxChars), Nearby(c, |lines|), EndsOf(lines);
            && (own <= kept <==> own <= ends || Cost(lines, Ahead(kept, ends, c) + own, |lines|) <= maxChars)
            && forall i :: i in own && i in kept && i !in ends ==> own <= kept
  {
    var cs := Centres(lines, isSignal, |lines|);
    CentresApart(lines, isSignal, |lines|);
    var k :| 0 <= k < |cs| && cs[k] == c;
    FirstFit(lines, cs, EndsOf(lines), maxChars, k);
  }

  /** Where a retained line comes from. */
  lemma {:induction false} RetainedFrom(lines: seq<string>, isSignal: string -> bool, maxChars: nat, i: nat)
    requires i in Retained(lines, isSignal, maxChars)
    ensures i in EndsOf(lines) || exists c :: c in Centres(lines, isSignal, |lines|) && i in Nearby(c, |lines|)
  {
    RetentionWithinBudget(lines, isSignal, maxChars);
    if i !in EndsOf(lines) {
      var cs := Centres(lines, isSignal, |lines|);
      var k :| 0 <= k < |cs| && InWindow(i, cs[k], |lines|);
      NearbyIs(cs[k], |lines|);
      assert cs[k] in cs;
    }
  }

  // ----- the records -----

  /** Line `m` of the file becomes a record: it is not blank, and retained if the file has a budget. */
  ghost predicate Recorded(f: SourceFile, rd: Reader, maxChars: nat, m: nat) {
    && m < |f.lines| && rd.strip(f.lines[m]) != ""
    && (maxChars > 0 && |f.text| > maxChars ==> m in Retained(f.lines, rd.isSignal, maxChars))
  }

  /** The record of such a line. */
  ghost predicate IsRecord(f: SourceFile, rd: Reader, maxChars: nat, r: LineRecord) {
    && r.number > 0 && Recorded(f, rd, maxChars, r.number - 1)
    && r == LineRecord(f.name, r.number, f.lines[r.number - 1])
  }

  lemma {:induction false} FileRecordsStep(f: SourceFile, rd: Reader, maxChars: nat, n: nat)
    requires 0 < n <= |f.lines|
    ensures FileRecords(f, rd, Keep(f, rd, maxChars), n) ==
            FileRecords(f, rd, Keep(f, rd, maxChars), n - 1) +
            if Recorded(f, rd, maxChars, n - 1) then [LineRecord(f.name, n, f.lines[n - 1])] else []
  {
  }

  /** The records of a file, in the order of their numbers. */
  lemma {:induction false} FileRecordsMean(f: SourceFile, rd: Reader, maxChars: nat, n: nat)
    requires n <= |f.lines|
    ensures var rs := FileRecords(f, rd, Keep(f, rd, maxChars), n);
            && (forall r :: r in rs <==> IsRecord(f, rd, maxChars, r) && r.number <= n)
            && (forall i, j :: 0 <= i < j < |rs| ==> rs[i].number < rs[j].number)
  {
    hide *;
    if n == 0 {
      NoRecordsYet(f, rd, maxChars);
    } else {
      FileRecordsMean(f, rd, maxChars, n - 1);
      FileRecordsStep(f, rd, maxChars, n);
      var init, rs := FileRecords(f, rd, Keep(f, rd, maxChars), n - 1), FileRecords(f, rd, Keep(f, rd, maxChars), n);
      forall r ensures r in rs <==> IsRecord(f, rd, maxChars, r) && r.number <= n {
        RecordAt(f, rd, maxChars, r, n);
      }
      forall i, j | 0 <= i < j < |rs| ensures rs[i].number < rs[j].number {
        assert rs[i] == init[i] && init[i] in init;
      }
    }
  }

  lemma {:induction false} NoRecordsYet(f: SourceFile, rd: Reader, maxChars: nat)
    ensures FileRecords(f, rd, Keep(f, rd, maxChars), 0) == []
    ensures forall r :: IsRecord(f, rd, maxChars, r) ==> r.number > 0
  {
    hide Keep;
  }

  lemma {:induction false} RecordAt(f: SourceFile, rd: Reader, maxChars: nat, r: LineRecord, n: nat)
    requires 0 < n <= |f.lines|
    ensures IsRecord(f, rd, maxChars, r) && r.number == n <==>
              Recorded(f, rd, maxChars, n - 1) && r == LineRecord(f.name, n, f.lines[n - 1])
  {
  }

  /** The records of all files: each such line with its number in its file. */
  lemma {:induction false} RecordsMean(files: seq<SourceFile>, rd: Reader, maxChars: nat, r: LineRecord)
    ensures r in AllRecords(files, rd, maxChars) <==>
              exists k :: 0 <= k < |files| && IsRecord(files[k], rd, maxChars, r)
  {
    if files != [] {
      var init, last := files[..|files| - 1], files[|files| - 1];
      assert files == init + [last];
      RecordsMean(init, rd, maxChars, r);
      FileRecordsMean(last, rd, maxChars, |last.lines|);
      assert IsRecord(last, rd, maxChars, r) ==> r.number <= |last.lines|;
      hide FileRecords, IsRecord, Keep;
      if k :| 0 <= k < |init| && IsRecord(init[k], rd, maxChars, r) {
        assert files[k] == init[k];
      }
      if k :| 0 <= k < |files| && IsRecord(files[k], rd, maxChars, r) {
        assert k < |init| ==> files[k] == init[k];
      }
    }
  }
}
