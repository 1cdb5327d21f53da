/** Text as Python reads and writes it line by line: splitlines and join, split on a character, strip,
    and decimal numbers. */
module PlainText {

  // ----- characters -----

  /** White space as `strip` sees it, and the line boundaries of `splitlines`. */
  predicate Blank(c: char) {
    || c == ' ' || '\t' <= c <= '\r' || '\U{1c}' <= c <= '\U{1f}' || c == '\U{85}' || c == '\U{a0}' || c == '\U{1680}'
    || '\U{2000}' <= c <= '\U{200a}' || c == '\U{2028}' || c == '\U{2029}' || c == '\U{202f}' || c == '\U{205f}'
        || c == '\U{3000}'
  }

  predicate Break(c: char) {
    '\n' <= c <= '\r' || '\U{1c}' <= c <= '\U{1e}' || c == '\U{85}' || c == '\U{2028}' || c == '\U{2029}'
  }

  /** No line boundary inside. */
  predicate OneLine(s: string) { forall c :: c in s ==> !Break(c) }

  // ----- strip -----

  function StripLeft(s: string): string { if s != "" && Blank(s[0]) then StripLeft(s[1..]) else s }

  function StripRight(s: string): string { if s != "" && Blank(s[|s| - 1]) then StripRight(s[..|s| - 1]) else s }

  function Strip(s: string): string { StripRight(StripLeft(s)) }

  /** No outer blanks. */
  predicate Trim(s: string) { s == "" || (!Blank(s[0]) && !Blank(s[|s| - 1])) }

  lemma {:induction false} StripLeftFacts(s: string) returns (i: nat)
    ensures i <= |s| && StripLeft(s) == s[i..] && forall k :: 0 <= k < i ==> Blank(s[k])
    ensures StripLeft(s) == "" || !Blank(StripLeft(s)[0])
  {
    i := 0;
    if s != "" && Blank(s[0]) {
      var j := StripLeftFacts(s[1..]);
      i := j + 1;
      assert s[1..][j..] == s[i..] && forall k :: 0 < k < i ==> s[k] == s[1..][k - 1];
    }
  }

  lemma {:induction false} StripRightFacts(s: string) returns (j: nat)
    ensures j <= |s| && StripRight(s) == s[..j] && forall k :: j <= k < |s| ==> Blank(s[k])
    ensures StripRight(s) == "" || !Blank(StripRight(s)[|StripRight(s)| - 1])
  {
    j := |s|;
    if s != "" && Blank(s[|s| - 1]) {
      j := StripRightFacts(s[..|s| - 1]);
      assert s[..|s| - 1][..j] == s[..j];
    }
  }

  /** `t` is `s` without the blanks around it. */
  ghost predicate Strips(s: string, t: string) {
    exists i, j :: 0 <= i <= j <= |s| && t == s[i..j] && BlankOutside(s, i, j)
  }

  predicate BlankOutside(s: string, i: int, j: int) { forall k :: 0 <= k < |s| && (k < i || k >= j) ==> Blank(s[k]) }

  /** `strip` cuts off blanks at both ends and nothing else; so it keeps every other character. */
  lemma {:induction false} StripFacts(s: string)
    ensures Trim(Strip(s)) && Strips(s, Strip(s))
    ensures forall c :: c in Strip(s) ==> c in s
    ensures forall c :: c in s && !Blank(c) ==> c in Strip(s)
  {
    var i := StripLeftFacts(s);
    var j := StripRightFacts(s[i..]);
    assert Strip(s) == s[i..i + j];
    assert BlankOutside(s, i, i + j) by {
      forall k | i + j <= k < |s| ensures Blank(s[k]) {
        assert s[k] == s[i..][k - i];
      }
    }
    forall c | c in s && !Blank(c) ensures c in Strip(s) {
      var k :| 0 <= k < |s| && s[k] == c;
      assert Strip(s)[k - i] == c;
    }
  }

  lemma {:induction false} StripOfTrim(s: string)
    requires Trim(s)
    ensures Strip(s) == s && Strip(s + " ") == s && Strip(" " + s) == s && Strip(" " + s + " ") == s
  {
    assert (" " + s)[1..] == s && (" " + s + " ")[1..] == s + " " && (s + " ")[..|s|] == s;
    if s == "" {
      assert " " + "" == " " && " " + "" + " " == "  " && "  "[1..] == " " && " "[1..] == "";
      assert StripLeft(" ") == "" && StripLeft("  ") == StripLeft(" ");
    } else {
      assert StripLeft(s) == s && StripLeft(s + " ") == s + " ";
      assert StripRight(s) == s && StripRight(s + " ") == s;
      assert StripLeft(" " + s) == s && StripLeft(" " + s + " ") == s + " ";
    }
  }

  // ----- split -----

  function IndexOf(s: string, c: char): (k: nat)
    ensures k <= |s| && (k < |s| ==> s[k] == c) && forall i :: 0 <= i < k ==> s[i] != c
  {
    if s == "" || s[0] == c then 0 else 1 + IndexOf(s[1..], c)
  }

  function Split(s: string, c: char): (parts: seq<string>)
    ensures parts != []
    ensures forall p :: p in parts ==> c !in p && forall d :: d in p ==> d in s
    decreases |s|
  {
    var k := IndexOf(s, c);
    if k == |s| then [s] else [s[..k]] + Split(s[k + 1..], c)
  }

  lemma {:induction false} SplitFirst(part: string, rest: string, c: char)
    requires c !in part
    ensures Split(part, c) == [part]
    ensures Split(part + [c] + rest, c) == [part] + Split(rest, c)
  {
    var s := part + [c] + rest;
    var k := IndexOf(s, c);
    assert s[|part|] == c;
    forall i | 0 <= i < |part| ensures s[i] != c {
      assert s[i] == part[i] && part[i] in part;
    }
    assert s[..k] == part && s[k + 1..] == rest;
  }

  /** `s[i..j]` lies between two separators or ends of the text, and holds none itself. */
  predicate PartAt(s: string, c: char, i: nat, j: nat) {
    && i <= j <= |s| && (i == 0 || s[i - 1] == c) && (j == |s| || s[j] == c) && c !in s[i..j]
  }

  ghost predicate IsPart(s: string, c: char, p: string) { exists i: nat, j: nat :: PartAt(s, c, i, j) && p == s[i..j] }

  /** Splitting gives exactly the stretches between the separators. */
  lemma {:induction false} SplitMeans(s: string, c: char, p: string)
    ensures p in Split(s, c) <==> IsPart(s, c, p)
    decreases |s|
  {
    hide IsPart;
    var k := IndexOf(s, c);
    assert c !in s[..k];
    if k == |s| {
      OnePart(s, c, p);
    } else {
      SplitMeans(s[k + 1..], c, p);
      FirstPart(s, c, k, p);
    }
  }

  lemma {:induction false} OnePart(s: string, c: char, p: string)
    requires c !in s[..|s|]
    ensures IsPart(s, c, p) <==> p == s
  {
    assert s[..|s|] == s && s[0..|s|] == s;
    assert PartAt(s, c, 0, |s|);
    Absent(s, c, 0, |s|);
    assert forall i: nat, j: nat :: PartAt(s, c, i, j) ==> i == 0 && j == |s|;
  }

  lemma {:induction false} FirstPart(s: string, c: char, k: nat, p: string)
    requires k < |s| && s[k] == c && c !in s[..k]
    ensures IsPart(s, c, p) <==> p == s[..k] || IsPart(s[k + 1..], c, p)
  {
    var rest := s[k + 1..];
    if i: nat, j: nat :| PartAt(s, c, i, j) && p == s[i..j] {
      PartBehind(s, c, k, i, j);
      if i > k {
        assert PartAt(rest, c, i - k - 1, j - k - 1);
      }
    }
    if p == s[..k] {
      assert PartAt(s, c, 0, k) && s[0..k] == s[..k];
    }
    if i: nat, j: nat :| PartAt(rest, c, i, j) && p == rest[i..j] {
      PartAhead(s, c, k, i, j);
    }
  }

  lemma {:induction false} PartBehind(s: string, c: char, k: nat, i: nat, j: nat)
    requires k < |s| && s[k] == c && c !in s[..k] && PartAt(s, c, i, j)
    ensures (i == 0 && j == k)
            || (i > k && PartAt(s[k + 1..], c, i - k - 1, j - k - 1) && s[k + 1..][i - k - 1..j - k - 1] == s[i..j])
  {
    Absent(s, c, 0, k);
    Absent(s, c, i, j);
    if i > k {
      assert s[k + 1..][i - k - 1..j - k - 1] == s[i..j];
    }
  }

  lemma {:induction false} PartAhead(s: string, c: char, k: nat, i: nat, j: nat)
    requires k < |s| && s[k] == c && PartAt(s[k + 1..], c, i, j)
    ensures PartAt(s, c, i + k + 1, j + k + 1) && s[i + k + 1..j + k + 1] == s[k + 1..][i..j]
  {
    assert s[k + 1..][i..j] == s[i + k + 1..j + k + 1];
  }

  lemma {:induction false} Absent(s: string, c: char, i: nat, j: nat)
    requires i <= j <= |s| && c !in s[i..j]
    ensures forall q :: i <= q < j ==> s[q] != c
  {
    forall q | i <= q < j ensures s[q] != c {
      assert s[i..j][q - i] == s[q];
    }
  }

  // ----- lines -----

  function BreakAt(s: string): (k: nat)
    ensures k <= |s| && (k < |s| ==> Break(s[k])) && forall i :: 0 <= i < k ==> !Break(s[i])
  {
    if s == "" || Break(s[0]) then 0 else 1 + BreakAt(s[1..])
  }

  /** `splitlines`: "\r\n" is one boundary, and a final boundary does not start another line. */
  function Lines(s: string): (r: seq<string>)
    ensures forall l :: l in r ==> OneLine(l)
    decreases |s|
  {
    if s == "" then []
    else
      var k := BreakAt(s);
      if k == |s| then [s]
      else
        var next := if s[k] == '\r' && k + 1 < |s| && s[k + 1] == '\n' then k + 2 else k + 1;
        [s[..k]] + Lines(s[next..])
  }

  /** Each line followed by a line feed. */
  function Unlines(lines: seq<string>): string { if lines == [] then "" else lines[0] + "\n" + Unlines(lines[1..]) }

  /** A boundary: one that stands alone, or "\r\n" together. */
  predicate EndsLine(end: string, rest: string) {
    || end == "\r\n"
    || (|end| == 1 && Break(end[0]) && !(end == "\r" && rest != "" && rest[0] == '\n'))
  }

  lemma {:induction false} BreakBehind(l: string, more: string)
    requires OneLine(l) && (more == "" || Break(more[0]))
    ensures BreakAt(l + more) == |l|
  {
    var s := l + more;
    forall i | 0 <= i < |l| ensures !Break(s[i]) {
      assert s[i] == l[i] && l[i] in l;
    }
    assert more != "" ==> s[|l|] == more[0];
  }

  /** The first line ends at the first boundary, and the others follow. */
  lemma {:induction false} FirstLine(l: string, end: string, rest: string)
    requires OneLine(l) && EndsLine(end, rest)
    ensures Lines(l + end + rest) == [l] + Lines(rest)
  {
    hide OneLine;
    var s := l + end + rest;
    assert s == l + (end + rest);
    BreakBehind(l, end + rest);
    assert s[|l|] == end[0] && (|l| + 1 < |s| ==> s[|l| + 1] == (end + rest)[1]);
    assert s[..|l|] == l && s[|l| + |end|..] == rest;
  }

  /** A last line needs none. */
  lemma {:induction false} LastLine(l: string)
    requires OneLine(l)
    ensures Lines(l) == if l == "" then [] else [l]
  {
    BreakBehind(l, "");
    assert l + "" == l;
  }

  /** The blanks and the boundaries by number; every boundary is blank. */
  lemma {:induction false} BlanksAndBreaks(c: char)
    ensures var n := c as int;
            Blank(c) <==>
              || 9 <= n <= 13 || 28 <= n <= 32 || 8192 <= n <= 8202
              || n in {133, 160, 5760, 8232, 8233, 8239, 8287, 12288}
    ensures Break(c) <==> c as int in {10, 11, 12, 13, 28, 29, 30, 133, 8232, 8233}
    ensures Break(c) ==> Blank(c)
  {
  }

  lemma {:induction false} LinesOfUnlines(lines: seq<string>)
    requires forall l :: l in lines ==> OneLine(l)
    ensures Lines(Unlines(lines)) == lines
  {
    if lines != [] {
      assert forall l :: l in lines[1..] ==> l in lines;
      LinesOfUnlines(lines[1..]);
      FirstLine(lines[0], "\n", Unlines(lines[1..]));
      assert lines == [lines[0]] + lines[1..];
    }
  }

  /** Python's `sep.join(parts)`. */
  function Join(sep: string, parts: seq<string>): string {
    if parts == [] then "" else if |parts| == 1 then parts[0] else parts[0] + sep + Join(sep, parts[1..])
  }

  lemma {:induction false} JoinIsUnlines(lines: seq<string>)
    requires lines != []
    ensures Join("\n", lines) + "\n" == Unlines(lines)
  {
    if |lines| > 1 {
      JoinIsUnlines(lines[1..]);
    } else {
      assert Unlines(lines[1..]) == "";
    }
  }

  // ----- decimal numbers -----

  function Digit(d: nat): (c: char)
    requires d < 10
    ensures '0' <= c <= '9'
  {
    "0123456789"[d]
  }

  predicate Digits(s: string) { s == "" || ('0' <= s[|s| - 1] <= '9' && Digits(s[..|s| - 1])) }

  lemma {:induction false} DigitsMeans(s: string)
    requires Digits(s)
    ensures forall c :: c in s ==> '0' <= c <= '9'
  {
    if s != "" {
      DigitsMeans(s[..|s| - 1]);
      assert s == s[..|s| - 1] + [s[|s| - 1]];
    }
  }

  function Decimal(n: nat): (s: string)
    ensures s != "" && Digits(s)
  {
    if n < 10 then [Digit(n)]
    else
      var s := Decimal(n / 10) + [Digit(n % 10)];
      assert s[..|s| - 1] == Decimal(n / 10);
      s
  }

  function Value(s: string): nat
    requires Digits(s)
  {
    if s == "" then 0 else 10 * Value(s[..|s| - 1]) + (s[|s| - 1] as int - '0' as int)
  }

  /** A number is written without leading zeros. */
  lemma {:induction false} DecimalPlain(n: nat)
    ensures n > 0 ==> Decimal(n)[0] != '0'
    ensures n == 0 ==> Decimal(n) == "0"
  {
    if n >= 10 {
      DecimalPlain(n / 10);
      assert Decimal(n)[0] == Decimal(n / 10)[0];
    }
  }

  lemma {:induction false} DigitValue(d: nat)
    requires d < 10
    ensures Digit(d) as int - '0' as int == d
  {
  }

  lemma {:induction false} ValueOfDecimal(n: nat)
    ensures Value(Decimal(n)) == n
  {
    DigitValue(n % 10);
    var s := Decimal(n);
    if n >= 10 {
      ValueOfDecimal(n / 10);
      assert s[..|s| - 1] == Decimal(n / 10);
    } else {
      assert s[..0] == "" && Value("") == 0;
    }
  }
}
