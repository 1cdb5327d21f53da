/** The manifest of the portable auditor package: built from the shipped files, written as text, parsed
    back, and used to check a package.  Files are bytes under relative paths. */
module Manifest {
  import opened Basics
  import opened PlainText
  import opened Strings

  type Bytes = seq<bv8>

  const MANIFEST := "MANIFEST.txt"
  const MARKER := "--- files ---"
  const PRODUCT := "EIMS Portable USB Auditor"
  const COLUMNS := "relative path | size | sha256"
  const SCRIPT := "tools/build_usb_package.py"
  const TITLE := "# " + (PRODUCT + (" manifest (" + (COLUMNS + ")")))
  const ADVICE := "# Rebuild this file with: " + ("python " + (SCRIPT + " --build"))
  const HEADER := [TITLE, ADVICE, MARKER]

  /** What the check requires, exempts and forbids. */
  datatype Policy = Policy(required: seq<string>, generated: seq<string>, markers: seq<string>)

  const PACKAGE_POLICY := Policy(
    ["main.py", "Run-EIMS-Audit.bat", "VERSION.txt", MANIFEST, "config/settings.py", "scanner/security.py",
     "sync/eims_sync.py", "runtime/python/python.exe"],
    ["reports", "logs", "Summary.xlsx"],
    ["recovery_password", "recoverypassword", "recovery_key", ".env", "id_rsa", "id_ed25519", "ssh_private",
     ".pem", ".pfx", ".p12", "credential"])

  datatype Record = Record(rel: string, size: nat, sha: string)
  datatype Entry = Entry(size: int, sha: string)

  /** A result, or an exception that the caller sees. */
  datatype Outcome<T> = Fine(value: T) | Raised

  /** What comes from outside: the digest, the text encoding, lower-casing, and `int` on text that is
      not plain decimal digits. */
  datatype Tools = Tools(hash: Bytes -> string, encode: string -> Bytes, decode: Bytes -> Option<string>,
                         lower: string -> string, otherInt: string -> Option<int>)

  predicate HexText(s: string) { forall c :: c in s ==> '0' <= c <= '9' || 'a' <= c <= 'f' }

  /** Digests are hexadecimal, and text without carriage returns survives being written and read. */
  ghost predicate Sound(tools: Tools) {
    && (forall b :: HexText(tools.hash(b)))
    && (forall t :: '\r' !in t ==> tools.decode(tools.encode(t)) == Some(t))
  }

  ghost predicate CollisionFree(tools: Tools) {
    forall a, b :: tools.hash(a) == tools.hash(b) ==> a == b
  }

  // ----- the text -----

  function Row(r: Record): string { r.rel + " | " + Decimal(r.size) + " | " + r.sha }

  function Rows(records: seq<Record>): seq<string> {
    if records == [] then [] else Rows(records[..|records| - 1]) + [Row(records[|records| - 1])]
  }

  function Text(records: seq<Record>): string { Join("\n", HEADER + Rows(records)) + "\n" }

  /** The reader's state after some lines. */
  datatype Scan = Reading(inFiles: bool, records: map<string, Entry>) | Failed

  function DropReturns(s: string): string { if s != "" && s[|s| - 1] == '\r' then DropReturns(s[..|s| - 1]) else s }

  function StripAll(parts: seq<string>): (r: seq<string>)
    ensures |r| == |parts|
  {
    seq(|parts|, i requires 0 <= i < |parts| => Strip(parts[i]))
  }

  function ToInt(tools: Tools, s: string): Option<int> {
    if s != "" && Digits(s) then Some(Value(s)) else tools.otherInt(s)
  }

  function Step(tools: Tools, st: Scan, raw: string): Scan {
    var line := DropReturns(raw);
    if st.Failed? then Failed
    else if Strip(line) == MARKER then st.(inFiles := true)
    else if !st.inFiles || Strip(line) == "" || line[0] == '#' then st
    else
      var parts := StripAll(Split(line, '|'));
      if |parts| != 3 then st
      else if ToInt(tools, parts[1]).None? then Failed
      else st.(records := st.records[parts[0] := Entry(ToInt(tools, parts[1]).value, parts[2])])
  }

  function Scanned(tools: Tools, lines: seq<string>): Scan {
    if lines == [] then Reading(false, map[]) else Step(tools, Scanned(tools, lines[..|lines| - 1]), lines[|lines| - 1])
  }

  function Parsed(tools: Tools, text: string): Outcome<map<string, Entry>> {
    var st := Scanned(tools, Lines(text));
    if st.Failed? then Raised else Fine(st.records)
  }

  // ----- round trip -----

  predicate Comment(rel: string) { rel != "" && rel[0] == '#' }

  predicate Tidy(rel: string) { Trim(rel) && '|' !in rel && OneLine(rel) }

  predicate Plain(rel: string) { Tidy(rel) && !Comment(rel) }

  predicate AllHex(records: seq<Record>) { forall r :: r in records ==> HexText(r.sha) }

  predicate AllTidy(records: seq<Record>) { forall r :: r in records ==> Tidy(r.rel) }

  /** The records as a table; a later record of the same path wins. */
  function Table(records: seq<Record>): map<string, Entry> {
    if records == [] then map[]
    else
      var r := records[|records| - 1];
      Table(records[..|records| - 1])[r.rel := Entry(r.size, r.sha)]
  }

  /** The records whose line does not look like a comment. */
  function Kept(records: seq<Record>): seq<Record> {
    if records == [] then []
    else
      var r := records[|records| - 1];
      Kept(records[..|records| - 1]) + if Comment(r.rel) then [] else [r]
  }

  lemma {:induction false} KeptFacts(records: seq<Record>)
    ensures forall r :: r in Kept(records) ==> r in records && !Comment(r.rel)
    ensures (forall r :: r in records ==> !Comment(r.rel)) ==> Kept(records) == records
  {
    if records != [] {
      var init, last := records[..|records| - 1], records[|records| - 1];
      assert records == init + [last];
      assert forall r :: r in records <==> r in init || r == last;
      KeptFacts(init);
    }
  }

  lemma {:induction false} TableKeys(records: seq<Record>)
    ensures forall rel :: rel in Table(records) ==> exists r :: r in records && r.rel == rel
    ensures forall r :: r in records ==> r.rel in Table(records)
  {
    if records != [] {
      var init, last := records[..|records| - 1], records[|records| - 1];
      assert records == init + [last];
      TableKeys(init);
      forall rel | rel in Table(records) ensures exists r :: r in records && r.rel == rel {
        if rel == last.rel {
          assert last in records;
        } else {
          assert rel in Table(init);
          var r :| r in init && r.rel == rel;
          assert r in records;
        }
      }
    }
  }

  lemma {:induction false} HexFacts(s: string)
    requires HexText(s)
    ensures Trim(s) && '|' !in s && OneLine(s)
  {
    assert s != "" ==> s[0] in s && s[|s| - 1] in s;
  }

  lemma {:induction false} DecimalFacts(n: nat)
    ensures Trim(Decimal(n)) && '|' !in Decimal(n) && OneLine(Decimal(n))
  {
    var s := Decimal(n);
    DigitsMeans(s);
    assert s[0] in s && s[|s| - 1] in s;
  }

  lemma {:induction false} SplitThree(a: string, b: string, c: string)
    requires '|' !in a && '|' !in b && '|' !in c
    ensures Split(a + ['|'] + (b + ['|'] + c), '|') == [a, b, c]
  {
    SplitFirst(a, b + ['|'] + c, '|');
    SplitFirst(b, c, '|');
    SplitFirst(c, "", '|');
  }

  lemma {:induction false} StripThree(a: string, b: string, c: string)
    requires Trim(a) && Trim(b) && Trim(c)
    ensures StripAll([a + " ", " " + b + " ", " " + c]) == [a, b, c]
  {
    StripOfTrim(a);
    StripOfTrim(b);
    StripOfTrim(c);
  }

  lemma {:induction false} RowShape(a: string, b: string, c: string)
    ensures a + " | " + b + " | " + c == (a + " ") + ['|'] + ((" " + b + " ") + ['|'] + (" " + c))
  {
    assert " | " == " " + ['|'] + " ";
  }

  /** Splitting the line of a record gives back its three fields. */
  lemma {:induction false} FieldsOfRow(r: Record)
    requires HexText(r.sha) && Trim(r.rel) && '|' !in r.rel
    ensures StripAll(Split(Row(r), '|')) == [r.rel, Decimal(r.size), r.sha]
  {
    HexFacts(r.sha);
    DecimalFacts(r.size);
    RowShape(r.rel, Decimal(r.size), r.sha);
    SplitThree(r.rel + " ", " " + Decimal(r.size) + " ", " " + r.sha);
    StripThree(r.rel, Decimal(r.size), r.sha);
  }

  /** A line with a `|` is neither blank nor the marker. */
  lemma {:induction false} BarIsNoMarker(line: string)
    requires '|' in line || '#' in line
    ensures Strip(line) != MARKER && Strip(line) != ""
  {
    StripFacts(line);
    assert '|' in Strip(line) || '#' in Strip(line);
    assert '|' !in MARKER && '#' !in MARKER;
  }

  lemma {:induction false} RowEnds(a: string, b: string, c: string)
    requires HexText(c)
    ensures var line := a + " | " + b + " | " + c;
            '|' in line && DropReturns(line) == line && (line[0] == '#') == Comment(a)
  {
    var line := a + " | " + b + " | " + c;
    assert line[|a| + 1] == '|';
    if c != "" {
      assert line[|line| - 1] == c[|c| - 1] && c[|c| - 1] in c;
    }
    if a != "" {
      assert line[0] == a[0];
    }
  }

  /** One record line, read in the files section. */
  lemma {:induction false} StepOverRow(tools: Tools, st: Scan, r: Record)
    requires st.Reading? && st.inFiles && HexText(r.sha) && Trim(r.rel) && '|' !in r.rel
    ensures Step(tools, st, Row(r)) ==
              if Comment(r.rel) then st else st.(records := st.records[r.rel := Entry(r.size, r.sha)])
  {
    RowEnds(r.rel, Decimal(r.size), r.sha);
    BarIsNoMarker(Row(r));
    FieldsOfRow(r);
    ValueOfDecimal(r.size);
  }

  lemma {:induction false} ScannedNext(tools: Tools, lines: seq<string>, line: string)
    ensures Scanned(tools, lines + [line]) == Step(tools, Scanned(tools, lines), line)
  {
    assert (lines + [line])[..|lines|] == lines;
  }

  lemma {:induction false} ScannedRow(tools: Tools, lines: seq<string>, r: Record)
    requires Scanned(tools, lines).Reading? && Scanned(tools, lines).inFiles
    requires HexText(r.sha) && Trim(r.rel) && '|' !in r.rel
    ensures Scanned(tools, lines + [Row(r)]) ==
              var m := Scanned(tools, lines).records;
              Reading(true, if Comment(r.rel) then m else m[r.rel := Entry(r.size, r.sha)])
  {
    ScannedNext(tools, lines, Row(r));
    StepOverRow(tools, Scanned(tools, lines), r);
  }

  lemma {:induction false} TableNext(init: seq<Record>, last: Record)
    ensures Table(Kept(init + [last])) ==
              if Comment(last.rel) then Table(Kept(init)) else Table(Kept(init))[last.rel := Entry(last.size, last.sha)]
  {
    assert (init + [last])[..|init|] == init;
    if Comment(last.rel) {
      assert Kept(init + [last]) == Kept(init);
    } else {
      assert (Kept(init) + [last])[..|Kept(init)|] == Kept(init);
    }
  }

  lemma {:induction false} HeadScanned(tools: Tools, a: string, b: string)
    requires a != "" && a[0] == '#' && a[|a| - 1] != '\r'
    requires b != "" && b[0] == '#' && b[|b| - 1] != '\r'
    ensures Scanned(tools, [a, b, MARKER]) == Reading(true, map[])
  {
    ScannedNext(tools, [], a);
    BarIsNoMarker(a);
    assert DropReturns(a) == a;
    assert [] + [a] == [a] && [a] + [b] == [a, b] && [a, b] + [MARKER] == [a, b, MARKER];
    ScannedNext(tools, [a], b);
    BarIsNoMarker(b);
    assert DropReturns(b) == b;
    ScannedNext(tools, [a, b], MARKER);
    StripOfTrim(MARKER);
    assert DropReturns(MARKER) == MARKER;
  }

  lemma {:induction false} RowsScanned(tools: Tools, head: seq<string>, records: seq<Record>)
    requires Scanned(tools, head) == Reading(true, map[])
    requires AllHex(records) && forall r :: r in records ==> Trim(r.rel) && '|' !in r.rel
    ensures Scanned(tools, head + Rows(records)) == Reading(true, Table(Kept(records)))
  {
    if records == [] {
      assert head + Rows(records) == head;
    } else {
      var init, last := records[..|records| - 1], records[|records| - 1];
      assert records == init + [last];
      RowsScanned(tools, head, init);
      assert head + Rows(records) == head + Rows(init) + [Row(last)];
      ScannedRow(tools, head + Rows(init), last);
      TableNext(init, last);
    }
  }

  lemma {:induction false} OneLineConcat(a: string, b: string)
    requires OneLine(a) && OneLine(b)
    ensures OneLine(a + b)
  {
  }

  lemma {:induction false} ProductOneLine()
    ensures OneLine(PRODUCT)
  {
    assert OneLine("EIMS Portable USB Auditor");
  }

  lemma {:induction false} ColumnsOneLine()
    ensures OneLine(COLUMNS)
  {
    assert OneLine("relative path | size | sha256");
  }

  lemma {:induction false} ScriptOneLine()
    ensures OneLine(SCRIPT)
  {
    assert OneLine("tools/build_usb_package.py");
  }

  lemma {:induction false} TitleOneLine()
    ensures OneLine(TITLE)
  {
    ProductOneLine();
    ColumnsOneLine();
    OneLineConcat(COLUMNS, ")");
    OneLineConcat(" manifest (", COLUMNS + ")");
    OneLineConcat(PRODUCT, " manifest (" + (COLUMNS + ")"));
    OneLineConcat("# ", PRODUCT + (" manifest (" + (COLUMNS + ")")));
  }

  lemma {:induction false} AdviceOneLine()
    ensures OneLine(ADVICE)
  {
    ScriptOneLine();
    OneLineConcat(SCRIPT, " --build");
    OneLineConcat("python ", SCRIPT + " --build");
    OneLineConcat("# Rebuild this file with: ", "python " + (SCRIPT + " --build"));
  }

  lemma {:induction false} HeaderFacts(tools: Tools)
    ensures forall l :: l in HEADER ==> OneLine(l)
    ensures Scanned(tools, HEADER) == Reading(true, map[])
  {
    TitleOneLine();
    AdviceOneLine();
    assert OneLine(MARKER);
    HeadScanned(tools, TITLE, ADVICE);
  }

  lemma {:induction false} RowsOneLine(records: seq<Record>)
    requires AllHex(records) && AllTidy(records)
    ensures forall l :: l in Rows(records) ==> OneLine(l)
  {
    if records != [] {
      var init, last := records[..|records| - 1], records[|records| - 1];
      assert records == init + [last];
      RowsOneLine(init);
      HexFacts(last.sha);
      DecimalFacts(last.size);
    }
  }

  lemma {:induction false} NoReturns(lines: seq<string>)
    requires forall l :: l in lines ==> OneLine(l)
    ensures '\r' !in Unlines(lines)
  {
    if lines != [] {
      assert lines[0] in lines && forall l :: l in lines[1..] ==> l in lines;
      NoReturns(lines[1..]);
    }
  }

  lemma {:induction false} LinesOfText(head: seq<string>, records: seq<Record>)
    requires head != [] && forall l :: l in head ==> OneLine(l)
    requires AllHex(records) && AllTidy(records)
    ensures Lines(Join("\n", head + Rows(records)) + "\n") == head + Rows(records)
    ensures '\r' !in Join("\n", head + Rows(records)) + "\n"
  {
    RowsOneLine(records);
    JoinIsUnlines(head + Rows(records));
    LinesOfUnlines(head + Rows(records));
    NoReturns(head + Rows(records));
  }

  /** For tidy paths the reader gets exactly the records that do not look like comments. */
  lemma {:induction false} ParsedText(tools: Tools, records: seq<Record>)
    requires AllHex(records) && AllTidy(records)
    ensures Parsed(tools, Text(records)) == Fine(Table(Kept(records)))
  {
    HeaderFacts(tools);
    LinesOfText(HEADER, records);
    RowsScanned(tools, HEADER, records);
  }

  lemma {:induction false} FieldsAreTidy(line: string)
    requires OneLine(line)
    ensures forall p :: p in StripAll(Split(line, '|')) ==> Tidy(p)
  {
    var parts := Split(line, '|');
    forall i | 0 <= i < |parts| ensures Tidy(Strip(parts[i])) {
      assert parts[i] in parts;
      StripFacts(parts[i]);
    }
  }

  lemma {:induction false} DropReturnsFacts(s: string)
    ensures forall c :: c in DropReturns(s) ==> c in s
  {
    if s != "" && s[|s| - 1] == '\r' {
      DropReturnsFacts(s[..|s| - 1]);
    }
  }

  /** Whatever the text, the paths that come out of it are tidy. */
  lemma {:induction false} ScannedTidy(tools: Tools, lines: seq<string>)
    requires forall l :: l in lines ==> OneLine(l)
    ensures Scanned(tools, lines).Reading? ==> forall rel :: rel in Scanned(tools, lines).records ==> Tidy(rel)
  {
    if lines != [] {
      var init, last := lines[..|lines| - 1], lines[|lines| - 1];
      assert forall l :: l in init ==> l in lines;
      ScannedTidy(tools, init);
      assert last in lines;
      DropReturnsFacts(last);
      FieldsAreTidy(DropReturns(last));
    }
  }

  /** Round trip, with its exact condition: the written manifest reads back as the records that were
      written if and only if every path is free of `|`, line boundaries, outer blanks and a leading
      `#`. */
  lemma {:induction false} RoundTripIff(tools: Tools, records: seq<Record>)
    requires AllHex(records)
    ensures Parsed(tools, Text(records)) == Fine(Table(records)) <==> forall r :: r in records ==> Plain(r.rel)
  {
    TableKeys(records);
    KeptFacts(records);
    if forall r :: r in records ==> Plain(r.rel) {
      ParsedText(tools, records);
    }
    if Parsed(tools, Text(records)) == Fine(Table(records)) {
      ScannedTidy(tools, Lines(Text(records)));
      assert AllTidy(records);
      ParsedText(tools, records);
      TableKeys(Kept(records));
      forall r | r in records ensures Plain(r.rel) {
        assert r.rel in Table(Kept(records));
        var k :| k in Kept(records) && k.rel == r.rel;
      }
    }
  }

  // ----- the package -----

  /** A listing of the package directory: every file once, possibly among directories. */
  ghost predicate IsListing(listing: seq<string>, files: map<string, Bytes>) {
    && (forall rel :: rel in files ==> rel in listing)
    && (forall i, j :: 0 <= i < j < |listing| ==> listing[i] != listing[j])
  }

  function RecordOf(tools: Tools, files: map<string, Bytes>, rel: string): Record
    requires rel in files
  {
    Record(rel, |files[rel]|, tools.hash(files[rel]))
  }

  function Built(tools: Tools, files: map<string, Bytes>, listing: seq<string>): seq<Record> {
    if listing == [] then []
    else
      var rel := listing[|listing| - 1];
      Built(tools, files, listing[..|listing| - 1]) +
      if rel in files && rel != MANIFEST then [RecordOf(tools, files, rel)] else []
  }

  /** What the manifest stands for: size and digest of every file but itself. */
  function Covered(tools: Tools, files: map<string, Bytes>): map<string, Entry> {
    map rel | rel in files && rel != MANIFEST :: Entry(|files[rel]|, tools.hash(files[rel]))
  }

  lemma {:induction false} BuiltFrom(tools: Tools, files: map<string, Bytes>, listing: seq<string>)
    ensures forall r :: r in Built(tools, files, listing) ==>
        r.rel in files && r.rel != MANIFEST && HexOf(tools, files, r)
  {
    if listing != [] {
      BuiltFrom(tools, files, listing[..|listing| - 1]);
    }
  }

  predicate HexOf(tools: Tools, files: map<string, Bytes>, r: Record)
    requires r.rel in files
  {
    r.sha == tools.hash(files[r.rel])
  }

  /** The covered files that a listing names. */
  function CoveredIn(tools: Tools, files: map<string, Bytes>, listing: seq<string>): map<string, Entry> {
    map rel | rel in files && rel != MANIFEST && rel in listing :: Entry(|files[rel]|, tools.hash(files[rel]))
  }

  lemma {:induction false} BuiltSnoc(tools: Tools, files: map<string, Bytes>, listing: seq<string>, last: string)
    ensures Table(Built(tools, files, listing + [last])) ==
              if last in files && last != MANIFEST
              then Table(Built(tools, files, listing))[last := Entry(|files[last]|, tools.hash(files[last]))]
              else Table(Built(tools, files, listing))
  {
    assert (listing + [last])[..|listing|] == listing;
    var before, all := Built(tools, files, listing), Built(tools, files, listing + [last]);
    if last in files && last != MANIFEST {
      assert all[..|before|] == before && all[|before|] == RecordOf(tools, files, last);
    } else {
      assert all == before;
    }
  }

  lemma {:induction false} CoveredSnoc(tools: Tools, files: map<string, Bytes>, listing: seq<string>, last: string)
    ensures CoveredIn(tools, files, listing + [last]) ==
              if last in files && last != MANIFEST
              then CoveredIn(tools, files, listing)[last := Entry(|files[last]|, tools.hash(files[last]))]
              else CoveredIn(tools, files, listing)
  {
    assert forall rel :: rel in listing + [last] <==> rel in listing || rel == last;
  }

  /** The built records are the covered files of the listing. */
  lemma {:induction false} BuiltCovers(tools: Tools, files: map<string, Bytes>, listing: seq<string>)
    ensures Table(Built(tools, files, listing)) == CoveredIn(tools, files, listing)
  {
    if listing != [] {
      var init, last := listing[..|listing| - 1], listing[|listing| - 1];
      assert listing == init + [last];
      BuiltCovers(tools, files, init);
      BuiltSnoc(tools, files, init, last);
      CoveredSnoc(tools, files, init, last);
    }
  }

  /** The built records are the covered files, whatever the order of the listing. */
  lemma {:induction false} BuiltIsCovered(tools: Tools, files: map<string, Bytes>, listing: seq<string>)
    requires IsListing(listing, files)
    ensures Table(Built(tools, files, listing)) == Covered(tools, files)
  {
    BuiltCovers(tools, files, listing);
    assert CoveredIn(tools, files, listing) == Covered(tools, files);
  }

  /** The package right after its manifest was written. */
  function Written(tools: Tools, files: map<string, Bytes>, listing: seq<string>): map<string, Bytes> {
    files[MANIFEST := tools.encode(Text(Built(tools, files, listing)))]
  }

  /** The manifest in a package directory: no file gives no records, and undecodable text raises. */
  function Manifested(tools: Tools, files: map<string, Bytes>): Outcome<map<string, Entry>> {
    if MANIFEST !in files then Fine(map[])
    else if tools.decode(files[MANIFEST]).None? then Raised
    else Parsed(tools, tools.decode(files[MANIFEST]).value)
  }

  /** A manifest written over plain paths stands for the covered files as long as it is left alone. */
  lemma {:induction false} ManifestStands(tools: Tools, files: map<string, Bytes>, listing: seq<string>,
      later: map<string, Bytes>)
    requires Sound(tools) && IsListing(listing, files)
    requires forall rel :: rel in files && rel != MANIFEST ==> Plain(rel)
    requires MANIFEST in later && later[MANIFEST] == Written(tools, files, listing)[MANIFEST]
    ensures Manifested(tools, later) == Fine(Covered(tools, files))
  {
    var records := Built(tools, files, listing);
    BuiltFrom(tools, files, listing);
    BuiltIsCovered(tools, files, listing);
    assert AllHex(records) && AllTidy(records);
    RoundTripIff(tools, records);
    HeaderFacts(tools);
    LinesOfText(HEADER, records);
  }

  // ----- the check -----

  datatype Problem =
    | MissingManifest
    | NoRecords
    | MissingRequired(rel: string)
    | MissingEntry(rel: string)
    | SizeMismatch(rel: string)
    | HashMismatch(rel: string)
    | Unexpected(rel: string)
    | ForbiddenMarker(rel: string)

  predicate GeneratedOutput(policy: Policy, rel: string) {
    exists name :: name in policy.generated && (rel == name || name + "/" <= rel)
  }

  predicate Bytecode(rel: string) {
    "__pycache__" in Split(rel, '/') || (|rel| >= 4 && rel[|rel| - 4..] == ".pyc")
  }

  predicate Contains(s: string, part: string) { exists i :: 0 <= i <= |s| && part <= s[i..] }

  predicate Forbidden(policy: Policy, tools: Tools, rel: string) {
    exists m :: m in policy.markers && Contains(tools.lower(rel), m)
  }

  type Judge = string -> Option<Problem>

  function RequiredJudge(files: map<string, Bytes>): Judge {
    rel => if rel in files then None else Some(MissingRequired(rel))
  }

  function EntryJudge(tools: Tools, files: map<string, Bytes>, records: map<string, Entry>): Judge {
    rel =>
      if rel !in records then None
      else if rel !in files then Some(MissingEntry(rel))
      else if |files[rel]| != records[rel].size then Some(SizeMismatch(rel))
      else if tools.hash(files[rel]) != records[rel].sha then Some(HashMismatch(rel))
      else None
  }

  function ShippedJudge(policy: Policy, files: map<string, Bytes>, records: map<string, Entry>): Judge {
    rel =>
      if rel !in files || rel == MANIFEST || GeneratedOutput(policy, rel) || Bytecode(rel) || rel in records then None
      else Some(Unexpected(rel))
  }

  function MarkerJudge(policy: Policy, tools: Tools): Judge {
    rel => if Forbidden(policy, tools, rel) then Some(ForbiddenMarker(rel)) else None
  }

  function Collect(rels: seq<string>, judge: Judge): seq<Problem> {
    if rels == [] then []
    else
      var p := judge(rels[|rels| - 1]);
      Collect(rels[..|rels| - 1], judge) + if p.Some? then [p.value] else []
  }

  ghost function Problems(policy: Policy, tools: Tools, files: map<string, Bytes>,
      listing: seq<string>): Outcome<seq<Problem>> {
    if MANIFEST !in files then Fine([MissingManifest])
    else if Manifested(tools, files).Raised? then Raised
    else
      var records := Manifested(tools, files).value;
      Fine((if records == map[] then [NoRecords] else [])
           + Collect(policy.required, RequiredJudge(files))
           + Collect(SortedSet(records.Keys), EntryJudge(tools, files, records))
           + Collect(listing, ShippedJudge(policy, files, records))
           + Collect(SortedSet(records.Keys), MarkerJudge(policy, tools)))
  }

  /** A missing manifest is the only problem reported; and the check raises exactly when the manifest cannot
      be decoded or parsed. */
  lemma {:induction false} MissingOrRaised(policy: Policy, tools: Tools, files: map<string, Bytes>,
      listing: seq<string>)
    ensures "MANIFEST.txt" !in files ==> Problems(policy, tools, files, listing) == Fine([MissingManifest])
    ensures "MANIFEST.txt" in files ==>
              var text := tools.decode(files["MANIFEST.txt"]);
              Problems(policy, tools, files, listing).Raised? <==> text.None? || Parsed(tools, text.value).Raised?
  {
  }

  lemma {:induction false} Collects(rels: seq<string>, judge: Judge, rel: string)
    requires rel in rels && judge(rel).Some?
    ensures judge(rel).value in Collect(rels, judge)
  {
    var init, last := rels[..|rels| - 1], rels[|rels| - 1];
    assert rels == init + [last];
    if rel in init {
      Collects(init, judge, rel);
    }
  }

  lemma {:induction false} CollectedFrom(rels: seq<string>, judge: Judge, p: Problem) returns (rel: string)
    requires p in Collect(rels, judge)
    ensures rel in rels && judge(rel) == Some(p)
  {
    var init, last := rels[..|rels| - 1], rels[|rels| - 1];
    assert rels == init + [last];
    if judge(last) == Some(p) {
      rel := last;
    } else {
      rel := CollectedFrom(init, judge, p);
    }
  }

  /** Exactly when each problem is reported, given the records of the manifest. */
  ghost predicate Justified(policy: Policy, tools: Tools, files: map<string, Bytes>, records: map<string, Entry>,
      p: Problem) {
    match p
    case MissingManifest => false
    case NoRecords => records == map[]
    case MissingRequired(rel) => rel in policy.required && rel !in files
    case MissingEntry(rel) => rel in records && rel !in files
    case SizeMismatch(rel) => rel in records && rel in files && |files[rel]| != records[rel].size
    case HashMismatch(rel) =>
      rel in records && rel in files && |files[rel]| == records[rel].size && tools.hash(files[rel]) != records[rel].sha
    case Unexpected(rel) => rel in files && rel !in records && rel != MANIFEST && !GeneratedOutput(policy, rel)
        && !Bytecode(rel)
    case ForbiddenMarker(rel) => rel in records && Forbidden(policy, tools, rel)
  }

  lemma {:induction false} JustifiedByList(policy: Policy, tools: Tools, files: map<string, Bytes>,
      records: map<string, Entry>, listing: seq<string>, p: Problem)
    requires p in Collect(policy.required, RequiredJudge(files))
        || p in Collect(listing, ShippedJudge(policy, files, records))
    ensures Justified(policy, tools, files, records, p)
  {
    if p in Collect(policy.required, RequiredJudge(files)) {
      var rel := CollectedFrom(policy.required, RequiredJudge(files), p);
    } else {
      var rel := CollectedFrom(listing, ShippedJudge(policy, files, records), p);
    }
  }

  lemma {:induction false} JustifiedByRecord(policy: Policy, tools: Tools, files: map<string, Bytes>,
                                             records: map<string, Entry>, p: Problem)
    requires
      || p in Collect(SortedSet(records.Keys), EntryJudge(tools, files, records))
      || p in Collect(SortedSet(records.Keys), MarkerJudge(policy, tools))
    ensures Justified(policy, tools, files, records, p)
  {
    var keys := SortedSet(records.Keys);
    if p in Collect(keys, EntryJudge(tools, files, records)) {
      var rel := CollectedFrom(keys, EntryJudge(tools, files, records), p);
    } else {
      var rel := CollectedFrom(keys, MarkerJudge(policy, tools), p);
    }
  }

  lemma {:induction false} ReportedIsJustified(policy: Policy, tools: Tools, files: map<string, Bytes>,
      listing: seq<string>, p: Problem)
    requires MANIFEST in files && Manifested(tools, files).Fine? && p in Problems(policy, tools, files, listing).value
    ensures Justified(policy, tools, files, Manifested(tools, files).value, p)
  {
    var records := Manifested(tools, files).value;
    if p == NoRecords && records == map[] {
    } else if p in Collect(policy.required, RequiredJudge(files))
        || p in Collect(listing, ShippedJudge(policy, files, records)) {
      JustifiedByList(policy, tools, files, records, listing, p);
    } else {
      JustifiedByRecord(policy, tools, files, records, p);
    }
  }

  lemma {:induction false} JustifiedIsReported(policy: Policy, tools: Tools, files: map<string, Bytes>,
      listing: seq<string>, p: Problem)
    requires MANIFEST in files && Manifested(tools, files).Fine? && IsListing(listing, files)
    requires Justified(policy, tools, files, Manifested(tools, files).value, p)
    ensures p in Problems(policy, tools, files, listing).value
  {
    var records := Manifested(tools, files).value;
    var keys := SortedSet(records.Keys);
    match p
    case NoRecords =>
    case MissingRequired(rel) => Collects(policy.required, RequiredJudge(files), rel);
    case MissingEntry(rel) => Collects(keys, EntryJudge(tools, files, records), rel);
    case SizeMismatch(rel) => Collects(keys, EntryJudge(tools, files, records), rel);
    case HashMismatch(rel) => Collects(keys, EntryJudge(tools, files, records), rel);
    case Unexpected(rel) => Collects(listing, ShippedJudge(policy, files, records), rel);
    case ForbiddenMarker(rel) => Collects(keys, MarkerJudge(policy, tools), rel);
  }

  predicate Integrity(p: Problem) { p.MissingEntry? || p.SizeMismatch? || p.HashMismatch? || p.Unexpected? }

  /** The covered files are unchanged, and nothing but generated output and bytecode was added. */
  ghost predicate Intact(policy: Policy, files: map<string, Bytes>, later: map<string, Bytes>) {
    && (forall rel :: rel in files && rel != MANIFEST ==> rel in later && later[rel] == files[rel])
    && (forall rel :: rel in later && rel !in files && rel != MANIFEST ==>
        GeneratedOutput(policy, rel) || Bytecode(rel))
  }

  /** Tamper detection: with a collision-free digest, a package whose manifest is left alone reports an
      integrity problem if and only if a covered file was changed or removed, or one was added that is
      neither generated output nor bytecode. */
  lemma {:induction false} TamperingIsReportedIff(policy: Policy, tools: Tools, files: map<string, Bytes>,
      listing: seq<string>, later: map<string, Bytes>, laterListing: seq<string>)
    requires Sound(tools) && CollisionFree(tools) && IsListing(listing, files) && IsListing(laterListing, later)
    requires forall rel :: rel in files && rel != MANIFEST ==> Plain(rel)
    requires MANIFEST in later && later[MANIFEST] == Written(tools, files, listing)[MANIFEST]
    ensures Problems(policy, tools, later, laterListing).Fine?
    ensures (forall p :: p in Problems(policy, tools, later, laterListing).value ==> !Integrity(p)) <==>
        Intact(policy, files, later)
  {
    ManifestStands(tools, files, listing, later);
    var records := Covered(tools, files);
    var problems := Problems(policy, tools, later, laterListing).value;
    if Intact(policy, files, later) {
      forall p | p in problems ensures !Integrity(p) {
        ReportedIsJustified(policy, tools, later, laterListing, p);
      }
    } else {
      var p := SomeProblem(policy, tools, files, later);
      JustifiedIsReported(policy, tools, later, laterListing, p);
    }
  }

  lemma {:induction false} SomeProblem(policy: Policy, tools: Tools, files: map<string, Bytes>,
      later: map<string, Bytes>) returns (p: Problem)
    requires CollisionFree(tools) && !Intact(policy, files, later)
    ensures Integrity(p) && Justified(policy, tools, later, Covered(tools, files), p)
  {
    if rel :| rel in files && rel != MANIFEST && !(rel in later && later[rel] == files[rel]) {
      p := if rel !in later then MissingEntry(rel)
           else if |later[rel]| != |files[rel]| then SizeMismatch(rel)
           else HashMismatch(rel);
    } else {
      var rel :| rel in later && rel !in files && rel != MANIFEST && !GeneratedOutput(policy, rel) && !Bytecode(rel);
      p := Unexpected(rel);
    }
  }

  /** Which changes are reported under which name. */
  lemma {:induction false} ReportsByKind(policy: Policy, tools: Tools, files: map<string, Bytes>, listing: seq<string>,
                                         later: map<string, Bytes>, laterListing: seq<string>, p: Problem)
    requires Sound(tools) && IsListing(listing, files) && IsListing(laterListing, later)
    requires forall rel :: rel in files && rel != MANIFEST ==> Plain(rel)
    requires MANIFEST in later && later[MANIFEST] == Written(tools, files, listing)[MANIFEST]
    ensures Problems(policy, tools, later, laterListing).Fine?
    ensures p in Problems(policy, tools, later, laterListing).value <==>
        Justified(policy, tools, later, Covered(tools, files), p)
  {
    ManifestStands(tools, files, listing, later);
    if p in Problems(policy, tools, later, laterListing).value {
      ReportedIsJustified(policy, tools, later, laterListing, p);
    }
    if Justified(policy, tools, later, Covered(tools, files), p) {
      JustifiedIsReported(policy, tools, later, laterListing, p);
    }
  }

  /** The required files are there, and no covered path is forbidden. */
  ghost predicate Complete(policy: Policy, tools: Tools, files: map<string, Bytes>) {
    && (forall rel :: rel in policy.required && rel != MANIFEST ==> rel in files)
    && (forall rel :: rel in files && rel != MANIFEST ==> !Forbidden(policy, tools, rel))
  }

  lemma {:induction false} FreshProblems(policy: Policy, tools: Tools, files: map<string, Bytes>,
      now: map<string, Bytes>, p: Problem)
    requires MANIFEST in now && now == files[MANIFEST := now[MANIFEST]]
    requires Justified(policy, tools, now, Covered(tools, files), p)
    ensures !Integrity(p) && (p == NoRecords || !Complete(policy, tools, files))
  {
  }

  /** A freshly written package has no integrity problem, and no problem at all exactly when it covers
      something, holds the required files and no forbidden path. */
  lemma {:induction false} FreshPackageCleanIff(policy: Policy, tools: Tools, files: map<string, Bytes>,
      listing: seq<string>, laterListing: seq<string>)
    requires Sound(tools) && IsListing(listing, files)
    requires IsListing(laterListing, Written(tools, files, listing))
    requires forall rel :: rel in files && rel != MANIFEST ==> Plain(rel)
    ensures Problems(policy, tools, Written(tools, files, listing), laterListing).Fine?
    ensures forall p :: p in Problems(policy, tools, Written(tools, files, listing), laterListing).value ==>
        !Integrity(p)
    ensures Problems(policy, tools, Written(tools, files, listing), laterListing).value == [] <==>
              Covered(tools, files) != map[] && Complete(policy, tools, files)
  {
    var now := Written(tools, files, listing);
    var problems := Problems(policy, tools, now, laterListing);
    ManifestStands(tools, files, listing, now);
    forall p | p in problems.value
      ensures !Integrity(p) && (p == NoRecords || !Complete(policy, tools, files))
      ensures p == NoRecords ==> Covered(tools, files) == map[]
    {
      ReportedIsJustified(policy, tools, now, laterListing, p);
      FreshProblems(policy, tools, files, now, p);
    }
    if problems.value != [] {
      assert problems.value[0] in problems.value;
    } else {
      NothingReported(policy, tools, files, now, laterListing);
    }
  }

  lemma {:induction false} NothingReported(policy: Policy, tools: Tools, files: map<string, Bytes>,
      now: map<string, Bytes>, listing: seq<string>)
    requires MANIFEST in now && now == files[MANIFEST := now[MANIFEST]] && IsListing(listing, now)
    requires Manifested(tools, now) == Fine(Covered(tools, files))
    requires Problems(policy, tools, now, listing).value == []
    ensures Covered(tools, files) != map[] && Complete(policy, tools, files)
  {
    forall rel | rel in policy.required && rel != MANIFEST ensures rel in files {
      if rel !in files {
        JustifiedIsReported(policy, tools, now, listing, MissingRequired(rel));
      }
    }
    forall rel | rel in files && rel != MANIFEST ensures !Forbidden(policy, tools, rel) {
      if Forbidden(policy, tools, rel) {
        JustifiedIsReported(policy, tools, now, listing, ForbiddenMarker(rel));
      }
    }
  }

  // ----- which paths are exempt and which forbidden -----

  /** The name itself or a path below it. */
  predicate AtOrBelow(rel: string, name: string) {
    rel == name || (|rel| > |name| && rel[..|name|] == name && rel[|name|] == '/')
  }

  lemma {:induction false} GeneratedMeans(policy: Policy, rel: string)
    ensures GeneratedOutput(policy, rel) <==> exists name :: name in policy.generated && AtOrBelow(rel, name)
  {
    forall name ensures rel == name || name + "/" <= rel <==> AtOrBelow(rel, name) { BelowIff(rel, name); }
    hide AtOrBelow;
  }

  lemma {:induction false} BelowIff(rel: string, name: string)
    ensures rel == name || name + "/" <= rel <==> AtOrBelow(rel, name)
  {
    if |rel| > |name| {
      assert rel[..|name| + 1] == rel[..|name|] + [rel[|name|]];
      assert (name + "/")[..|name|] == name;
    }
  }

  /** A directory named `__pycache__` on the path, or a name that ends in `.pyc`. */
  lemma {:induction false} BytecodeMeans(rel: string)
    ensures Bytecode(rel) <==>
              || IsPart(rel, '/', "__pycache__")
              || (|rel| >= 4 && rel[|rel| - 4..] == ".pyc")
  {
    SplitMeans(rel, '/', "__pycache__");
  }

  predicate StandsAt(s: string, part: string, i: nat) { i + |part| <= |s| && s[i..i + |part|] == part }

  lemma {:induction false} ForbiddenMeans(policy: Policy, tools: Tools, rel: string)
    ensures Forbidden(policy, tools, rel) <==>
              exists m, i: nat :: m in policy.markers && StandsAt(tools.lower(rel), m, i)
  {
    var s := tools.lower(rel);
    forall m, i: nat ensures i <= |s| && m <= s[i..] <==> StandsAt(s, m, i) { PrefixIff(s, m, i); }
    hide StandsAt;
    if m :| m in policy.markers && Contains(s, m) {
      var i: nat :| i <= |s| && m <= s[i..];
      assert StandsAt(s, m, i);
    }
    if m, i: nat :| m in policy.markers && StandsAt(s, m, i) {
      assert Contains(s, m);
    }
  }

  lemma {:induction false} PrefixIff(s: string, part: string, i: nat)
    ensures i <= |s| && part <= s[i..] <==> StandsAt(s, part, i)
  {
    if i + |part| <= |s| {
      assert s[i..][..|part|] == s[i..i + |part|];
    }
  }

  /** The written text, line by line: three head lines, then one line per record with its fields. */
  lemma {:induction false} WrittenLines(tools: Tools, records: seq<Record>, i: nat)
    requires AllHex(records) && AllTidy(records) && i < |records|
    ensures |Lines(Text(records))| == 3 + |records| && Lines(Text(records))[2] == "--- files ---"
    ensures Lines(Text(records))[3 + i] ==
            records[i].rel + " | " + Decimal(records[i].size) + " | " + records[i].sha
  {
    HeaderFacts(tools);
    LinesOfText(HEADER, records);
    RowAt(records, i);
  }

  lemma {:induction false} RowAt(records: seq<Record>, i: nat)
    ensures |Rows(records)| == |records|
    ensures i < |records| ==>
              Rows(records)[i] == records[i].rel + " | " + Decimal(records[i].size) + " | " + records[i].sha
  {
    if records != [] {
      RowAt(records[..|records| - 1], i);
    }
  }

  // ----- the tool -----

  class Package {
    var files: map<string, Bytes>

    constructor (files: map<string, Bytes>)
      ensures this.files == files
    {
      this.files := files;
    }

    /** `listing` is the sorted directory listing at the time of the call. */
    method BuildManifest(tools: Tools, listing: seq<string>) returns (records: seq<Record>)
      ensures records == Built(tools, files, listing)
      ensures IsListing(listing, files) ==> Table(records) == Covered(tools, files)
    {
      records := [];
      for i := 0 to |listing|
        invariant records == Built(tools, files, listing[..i])
      {
        assert listing[..i + 1][..i] == listing[..i];
        var rel := listing[i];
        if rel !in files {
          continue;
        }
        if rel == MANIFEST {
          continue;
        }
        records := records + [RecordOf(tools, files, rel)];
      }
      assert listing[..|listing|] == listing;
      if IsListing(listing, files) {
        BuiltIsCovered(tools, files, listing);
      }
    }

    method WriteManifest(tools: Tools, listing: seq<string>)
      modifies this
      ensures files == Written(tools, old(files), listing)
    {
      var records := BuildManifest(tools, listing);
      var lines := HEADER;
      for i := 0 to |records|
        invariant lines == HEADER + Rows(records[..i])
      {
        assert records[..i + 1][..i] == records[..i];
        lines := lines + [Row(records[i])];
      }
      assert records[..|records|] == records;
      files := files[MANIFEST := tools.encode(Join("\n", lines) + "\n")];
    }

    method ParseManifest(tools: Tools) returns (records: Outcome<map<string, Entry>>)
      ensures records == Manifested(tools, files)
    {
      if MANIFEST !in files {
        return Fine(map[]);
      }
      var text := tools.decode(files[MANIFEST]);
      if text.None? {
        return Raised;
      }
      records := ReadLines(tools, Lines(text.value));
    }

    /** The problems in the order they are reported: each loop appends what its own check finds. */
    method FindProblems(tools: Tools, listing: seq<string>) returns (problems: Outcome<seq<Problem>>)
      ensures problems == Problems(PACKAGE_POLICY, tools, files, listing)
    {
      if MANIFEST !in files {
        return Fine([MissingManifest]);
      }
      var parsed := ParseManifest(tools);
      if parsed.Raised? {
        return Raised;
      }
      var policy := PACKAGE_POLICY;
      var records := parsed.value;
      var list: seq<Problem> := if records == map[] then [NoRecords] else [];
      list := AppendJudged(list, policy.required, RequiredJudge(files));
      var keys := SortSet(records.Keys);
      list := AppendJudged(list, keys, EntryJudge(tools, files, records));
      list := AppendJudged(list, listing, ShippedJudge(policy, files, records));
      list := AppendJudged(list, keys, MarkerJudge(policy, tools));
      problems := Fine(list);
    }
  }

  lemma {:induction false} FailureLasts(tools: Tools, lines: seq<string>, n: nat)
    requires n <= |lines| && Scanned(tools, lines[..n]).Failed?
    ensures Scanned(tools, lines).Failed?
  {
    if n < |lines| {
      assert lines[..|lines| - 1][..n] == lines[..n];
      FailureLasts(tools, lines[..|lines| - 1], n);
    } else {
      assert lines[..n] == lines;
    }
  }

  method ReadLines(tools: Tools, lines: seq<string>) returns (records: Outcome<map<string, Entry>>)
    ensures records == var st := Scanned(tools, lines); if st.Failed? then Raised else Fine(st.records)
  {
    hide DropReturns, ToInt, StripAll, Split;
    var found: map<string, Entry> := map[];
    var inFiles := false;
    for i := 0 to |lines|
      invariant Scanned(tools, lines[..i]) == Reading(inFiles, found)
    {
      assert lines[..i + 1] == lines[..i] + [lines[i]];
      ScannedNext(tools, lines[..i], lines[i]);
      var line := DropReturns(lines[i]);
      if Strip(line) == MARKER {
        inFiles := true;
        continue;
      }
      if !inFiles || Strip(line) == "" || line[0] == '#' {
        continue;
      }
      var parts := StripAll(Split(line, '|'));
      if |parts| == 3 {
        var size := ToInt(tools, parts[1]);
        if size.None? {
          FailureLasts(tools, lines, i + 1);
          return Raised;
        }
        found := found[parts[0] := Entry(size.value, parts[2])];
      }
    }
    assert lines[..|lines|] == lines;
    records := Fine(found);
  }

  method AppendJudged(before: seq<Problem>, rels: seq<string>, judge: Judge) returns (problems: seq<Problem>)
    ensures problems == before + Collect(rels, judge)
  {
    problems := before;
    for i := 0 to |rels|
      invariant problems == before + Collect(rels[..i], judge)
    {
      assert rels[..i + 1][..i] == rels[..i];
      var p := judge(rels[i]);
      if p.Some? {
        problems := problems + [p.value];
      }
    }
    assert rels[..|rels|] == rels;
  }
}
