/**
 * The microphone calibration text file: the two-column frequency/gain table read by
 * `_parse_frequency_response` and the "Sens Factor" header read by `get_sensitivity_values`.
 * The file system is a parameter: a file is either missing or the list of its lines.
 */
module CalibrationFile {
  import opened Wrappers
  import opened Text

  /** What opening the file gives: no such file, or its lines as `readlines` returns them. */
  datatype FileContents = Missing | Lines(lines: seq<string>)

  /** How the table reader sees one line. */
  datatype LineKind =
    | Blank                        // only whitespace
    | Row(freq: real, gainDb: real) // at least two words, the first two numeric
    | NonNumeric                   // at least two words, not both numeric
    | Short                        // exactly one word

  function Classify(line: string): LineKind {
    var s := Strip(line);
    if s == [] then Blank else ClassifyWords(Words(s))
  }

  function ClassifyWords(parts: seq<string>): LineKind {
    if |parts| >= 2 then
      match (ParseFloat(parts[0]), ParseFloat(parts[1]))
      case (Some(f), Some(g)) => Row(f, g)
      case _ => NonNumeric
    else Short
  }

  predicate InTable(k: LineKind) {
    k.Row? || k.Blank?
  }

  predicate EndsTable(k: LineKind) {
    k.NonNumeric? || k.Short?
  }

  /** The lines as the reader classifies them, one kind per line. */
  function Kinds(lines: seq<string>): (ks: seq<LineKind>)
    ensures |ks| == |lines| && forall i :: 0 <= i < |lines| ==> ks[i] == Classify(lines[i])
  {
    seq(|lines|, i requires 0 <= i < |lines| => Classify(lines[i]))
  }

  datatype Point = Point(freq: real, gainDb: real)

  /** The frequencies and gains (dB) of the table, in file order. */
  datatype Curve = Curve(freqs: seq<real>, gainsDb: seq<real>)

  /** Both failures end the program with exit status 1. */
  datatype ParseError = FileNotFound | NoValidRows

  /**
   * The reading loop: blank lines are skipped everywhere; before the first row any other
   * line is skipped as a header, after it the first such line ends the table.
   */
  function ScanRows(ks: seq<LineKind>, started: bool): seq<Point>
    decreases |ks|
  {
    if ks == [] then []
    else match ks[0]
      case Blank => ScanRows(ks[1..], started)
      case Row(f, g) => [Point(f, g)] + ScanRows(ks[1..], true)
      case _ => if started then [] else ScanRows(ks[1..], false)
  }

  /** The rows among `ks`, in order (reference definition). */
  function RowsOf(ks: seq<LineKind>): seq<Point>
    decreases |ks|
  {
    if ks == [] then []
    else
      (match ks[0]
       case Row(f, g) => [Point(f, g)]
       case _ => []) + RowsOf(ks[1..])
  }

  function CurveOf(pts: seq<Point>): (c: Curve)
    ensures |c.freqs| == |c.gainsDb| == |pts|
    ensures forall i :: 0 <= i < |pts| ==> c.freqs[i] == pts[i].freq && c.gainsDb[i] == pts[i].gainDb
  {
    Curve(seq(|pts|, i requires 0 <= i < |pts| => pts[i].freq),
          seq(|pts|, i requires 0 <= i < |pts| => pts[i].gainDb))
  }

  /** `_parse_frequency_response`. */
  function ParseFrequencyResponse(file: FileContents): (r: Result<Curve, ParseError>)
    ensures r.Success? ==> |r.value.freqs| == |r.value.gainsDb| > 0
    ensures file.Missing? ==> r == Failure(FileNotFound)
  {
    match file
    case Missing => Failure(FileNotFound)
    case Lines(ls) =>
      var pts := ScanRows(Kinds(ls), false);
      if pts == [] then Failure(NoValidRows) else Success(CurveOf(pts))
  }

  // ---------------------------------------------------------------- what a line is

  lemma StripOfColumns(a: string, sep: string, b: string, rest: string)
    requires a != [] && NoSpace(a) && b != [] && NoSpace(b)
    ensures Strip(a + sep + b + rest) == a + sep + b + RStrip(rest)
  {
    var head := a + sep + b;
    assert head[0] == a[0] && head[|head| - 1] == b[|b| - 1];
    StripAfterHead(head, rest);
  }

  /** The kind of a line whose first two words are `a` and `b`. */
  function ColumnsKind(a: string, b: string): LineKind {
    match (ParseFloat(a), ParseFloat(b))
    case (Some(f), Some(g)) => Row(f, g)
    case _ => NonNumeric
  }

  lemma ClassifyFirstTwo(a: string, b: string, more: seq<string>)
    ensures ClassifyWords([a] + ([b] + more)) == ColumnsKind(a, b)
  {
    var parts := [a] + ([b] + more);
    assert parts[0] == a && parts[1] == b;
  }

  /** The stripped line is the two columns followed by the stripped rest. */
  lemma StripColumnsLine(a: string, sep: string, b: string, rest: string)
    requires a != [] && NoSpace(a) && b != [] && NoSpace(b)
    ensures Strip(a + sep + b + rest) == a + (sep + (b + RStrip(rest)))
  {
    StripOfColumns(a, sep, b, rest);
    Regroup(a, sep, b, RStrip(rest));
  }

  lemma Regroup(a: string, b: string, c: string, d: string)
    ensures a + b + c + d == a + (b + (c + d))
  {
  }

  lemma WordsColumnsLine(a: string, sep: string, b: string, rest: string)
    requires a != [] && NoSpace(a) && b != [] && NoSpace(b)
    requires sep != [] && forall i :: 0 <= i < |sep| ==> IsSpace(sep[i])
    requires rest == [] || IsSpace(rest[0])
    ensures Words(a + (sep + (b + RStrip(rest)))) == [a] + ([b] + Words(RStrip(rest)))
  {
    var tail := RStrip(rest);
    assert tail == [] || tail[0] == rest[0];
    WordsOfTwoColumns(a, sep, b, tail);
  }

  /** `Classify` is `ClassifyWords` of the words of the stripped line. */
  lemma ClassifyStripped(line: string, s: string)
    requires Strip(line) == s && s != []
    ensures Classify(line) == ClassifyWords(Words(s))
  {
  }

  /**
   * Only the first two words decide a line: two words separated by whitespace, then
   * anything that starts with whitespace.
   */
  lemma ClassifyColumns(a: string, sep: string, b: string, rest: string)
    requires a != [] && NoSpace(a) && b != [] && NoSpace(b)
    requires sep != [] && forall i :: 0 <= i < |sep| ==> IsSpace(sep[i])
    requires rest == [] || IsSpace(rest[0])
    ensures Classify(a + sep + b + rest) == ColumnsKind(a, b)
  {
    var tail := RStrip(rest);
    var s := a + (sep + (b + tail));
    StripColumnsLine(a, sep, b, rest);
    ClassifyStripped(a + sep + b + rest, s);
    WordsColumnsLine(a, sep, b, rest);
    ClassifyFirstTwo(a, b, Words(tail));
  }

  lemma KindsAppend(xs: seq<string>, ys: seq<string>)
    ensures Kinds(xs + ys) == Kinds(xs) + Kinds(ys)
  {
    var l, r := Kinds(xs + ys), Kinds(xs) + Kinds(ys);
    assert |l| == |r|;
    forall i | 0 <= i < |l|
      ensures l[i] == r[i]
    {
      if i < |xs| {
        assert (xs + ys)[i] == xs[i];
      } else {
        assert (xs + ys)[i] == ys[i - |xs|];
      }
    }
  }

  // ---------------------------------------------------------------- the table layout

  /** Before the first row, every non-row line is skipped. */
  lemma {:induction false} SkipHeader(header: seq<LineKind>, rest: seq<LineKind>)
    requires forall i :: 0 <= i < |header| ==> !header[i].Row?
    ensures ScanRows(header + rest, false) == ScanRows(rest, false)
    decreases |header|
  {
    if header != [] {
      var ks := header + rest;
      assert ks[0] == header[0] && ks[1..] == header[1..] + rest;
      SkipHeader(header[1..], rest);
    } else {
      assert header + rest == rest;
    }
  }

  /** Once a row has been read, rows and blank lines are collected until the table ends. */
  lemma {:induction false} ReadBody(body: seq<LineKind>, tail: seq<LineKind>)
    requires forall i :: 0 <= i < |body| ==> InTable(body[i])
    requires tail == [] || EndsTable(tail[0])
    ensures ScanRows(body + tail, true) == RowsOf(body)
    decreases |body|
  {
    if body == [] {
      assert body + tail == tail;
    } else {
      var ks := body + tail;
      assert ks[0] == body[0] && ks[1..] == body[1..] + tail;
      ReadBody(body[1..], tail);
    }
  }

  lemma LayoutOfKinds(hk: seq<LineKind>, bk: seq<LineKind>, tk: seq<LineKind>)
    requires forall i :: 0 <= i < |hk| ==> !hk[i].Row?
    requires bk != [] && bk[0].Row?
    requires forall i :: 0 <= i < |bk| ==> InTable(bk[i])
    requires tk == [] || EndsTable(tk[0])
    ensures ScanRows(hk + bk + tk, false) == RowsOf(bk) != []
  {
    assert hk + bk + tk == hk + (bk + tk);
    SkipHeader(hk, bk + tk);
    FirstRowStartsBody(bk, tk);
  }

  /** The table starts at its first row, and that row is read. */
  lemma FirstRowStartsBody(bk: seq<LineKind>, tk: seq<LineKind>)
    requires bk != [] && bk[0].Row?
    requires forall i :: 0 <= i < |bk| ==> InTable(bk[i])
    requires tk == [] || EndsTable(tk[0])
    ensures ScanRows(bk + tk, false) == RowsOf(bk) != []
  {
    var ks, rest := bk + tk, bk[1..];
    var p := Point(bk[0].freq, bk[0].gainDb);
    assert ks[0] == bk[0] && ks[1..] == rest + tk;
    assert ScanRows(ks, false) == [p] + ScanRows(rest + tk, true);
    assert forall i :: 0 <= i < |rest| ==> InTable(rest[i]) by {
      assert forall i :: 0 <= i < |rest| ==> rest[i] == bk[i + 1];
    }
    ReadBody(rest, tk);
    assert RowsOf(bk) == [p] + RowsOf(rest);
  }

  /**
   * Every file with a row has this layout: a header without rows, a body of rows and blank
   * lines that starts with a row, then either the end of the file or a line that ends the
   * table. The curve holds the body's rows in order; nothing after the body is read.
   */
  lemma TableLayout(header: seq<string>, body: seq<string>, tail: seq<string>)
    requires forall i :: 0 <= i < |header| ==> !Classify(header[i]).Row?
    requires body != [] && Classify(body[0]).Row?
    requires forall i :: 0 <= i < |body| ==> InTable(Classify(body[i]))
    requires tail == [] || EndsTable(Classify(tail[0]))
    ensures ParseFrequencyResponse(Lines(header + body + tail)) == Success(CurveOf(RowsOf(Kinds(body))))
    ensures RowsOf(Kinds(body)) != []
  {
    var hk, bk, tk := Kinds(header), Kinds(body), Kinds(tail);
    KindsOfLayout(header, body, tail);
    HeaderKinds(header);
    FirstKind(body);
    BodyKinds(body);
    TailKinds(tail);
    LayoutOfKinds(hk, bk, tk);
    ParseOfRows(header + body + tail, RowsOf(bk));
  }

  lemma KindsOfLayout(header: seq<string>, body: seq<string>, tail: seq<string>)
    ensures Kinds(header + body + tail) == Kinds(header) + Kinds(body) + Kinds(tail)
  {
    KindsAppend(header + body, tail);
    KindsAppend(header, body);
  }

  // The layout of the lines, stated on their kinds: one lemma per part, each on its own.

  lemma HeaderKinds(header: seq<string>)
    requires forall i :: 0 <= i < |header| ==> !Classify(header[i]).Row?
    ensures forall i :: 0 <= i < |Kinds(header)| ==> !Kinds(header)[i].Row?
  {
  }

  lemma FirstKind(body: seq<string>)
    requires body != [] && Classify(body[0]).Row?
    ensures Kinds(body) != [] && Kinds(body)[0].Row?
  {
  }

  lemma BodyKinds(body: seq<string>)
    requires forall i :: 0 <= i < |body| ==> InTable(Classify(body[i]))
    ensures forall i :: 0 <= i < |Kinds(body)| ==> InTable(Kinds(body)[i])
  {
  }

  lemma TailKinds(tail: seq<string>)
    requires tail == [] || EndsTable(Classify(tail[0]))
    ensures Kinds(tail) == [] || EndsTable(Kinds(tail)[0])
  {
  }

  lemma ParseOfRows(ls: seq<string>, pts: seq<Point>)
    requires ScanRows(Kinds(ls), false) == pts != []
    ensures ParseFrequencyResponse(Lines(ls)) == Success(CurveOf(pts))
  {
  }

  /** A file without a single row is fatal. */
  lemma NoRowsIsFatal(lines: seq<string>)
    requires forall i :: 0 <= i < |lines| ==> !Classify(lines[i]).Row?
    ensures ParseFrequencyResponse(Lines(lines)) == Failure(NoValidRows)
  {
    var ks := Kinds(lines);
    SkipHeader(ks, []);
    assert ks + [] == ks;
  }

  // ---------------------------------------------------------------- the test fixture

  /** A row line `w.f<sep>[-]w'.f'` followed by a newline. */
  lemma RowLine(wa: string, fa: string, sep: string, neg: bool, wb: string, fb: string)
    requires AllDigits(wa) && AllDigits(fa) && wa != []
    requires AllDigits(wb) && AllDigits(fb) && wb != []
    requires sep != [] && forall i :: 0 <= i < |sep| ==> IsSpace(sep[i])
    ensures Classify(DecimalText(false, wa, fa) + sep + DecimalText(neg, wb, fb) + "\n")
         == Row(DecimalValue(false, wa, fa), DecimalValue(neg, wb, fb))
  {
    var a, b := DecimalText(false, wa, fa), DecimalText(neg, wb, fb);
    DecimalTextChars(false, wa, fa);
    DecimalTextChars(neg, wb, fb);
    assert NoSpace(a) && NoSpace(b);
    ParseDecimalText(false, wa, fa);
    ParseDecimalText(neg, wb, fb);
    ClassifyColumns(a, sep, b, "\n");
  }

  lemma ClassifyLeadWord(w: string, more: seq<string>)
    requires ParseFloat(w) == None
    ensures !ClassifyWords([w] + more).Row?
  {
    assert ([w] + more)[0] == w;
  }

  /**
   * A line whose first word does not start like a number (a digit, a sign or '.') is never
   * a row, so before the table it is skipped as a header: this covers the "Sens Factor"
   * line, quoted or not.
   */
  lemma HeaderWordIsNotRow(w: string, rest: string)
    requires w != [] && NoSpace(w)
    requires !IsDigit(w[0]) && w[0] != '.' && w[0] != '-' && w[0] != '+'
    requires rest == [] || IsSpace(rest[0])
    ensures !Classify(w + rest).Row?
  {
    StripAfterHead(w, rest);
    var tail := RStrip(rest);
    assert tail == [] || tail[0] == rest[0];
    WordsCons(w, tail);
    NotNumber(w);
    ClassifyLeadWord(w, Words(tail));
  }

  // ---------------------------------------------------------------- the sensitivity header

  /** Why `get_sensitivity_values` fails: the file is missing (re-raised) or a ValueError. */
  datatype SensitivityError = SensFileNotFound | SensLineNotFound | SensLineMalformed

  /** The UMIK-1's nominal sensitivity, to which the file's factor is added. */
  const NominalSensitivityDbfs: real := -18.0

  /** The sound pressure level of the calibration reference tone. */
  const ReferenceDbspl: real := 94.0

  const SensLabel: string := "Sens Factor"

  /** Whether the stripped line contains the label. */
  predicate HasSensLabel(line: string) {
    Contains(Strip(line), SensLabel)
  }

  /** The position of the first line satisfying `p`. */
  function FirstWith(lines: seq<string>, p: string -> bool): (r: Option<nat>)
    ensures r.Some? ==> r.value < |lines| && p(lines[r.value])
    ensures r.Some? ==> forall j :: 0 <= j < r.value ==> !p(lines[j])
    ensures r.None? ==> forall j :: 0 <= j < |lines| ==> !p(lines[j])
    decreases |lines|
  {
    if lines == [] then None
    else if p(lines[0]) then Some(0)
    else
      var r := FirstWith(lines[1..], p);
      assert forall j :: 1 <= j < |lines| ==> lines[j] == lines[1..][j - 1];
      match r
      case Some(k) => Some(k + 1)
      case None => None
  }

  function SensitivityLine(lines: seq<string>): Option<nat> {
    FirstWith(lines, HasSensLabel)
  }

  /** The factor text: after the first '=', up to the next '=', cut at "dB", stripped. */
  function FactorField(line: string): Option<string> {
    match SecondField(line, "=")
    case Some(x) => Some(Strip(Before(x, "dB")))
    case None => None
  }

  /** The sensitivity pair for a factor read from the file: (nominal + factor, reference). */
  function SensitivityOf(factorDb: real): (real, real) {
    (NominalSensitivityDbfs + factorDb, ReferenceDbspl)
  }

  /** `float` of the factor text; None when the text is missing or not a number. */
  function FactorValue(line: string): Option<real> {
    match FactorField(line)
    case None => None
    case Some(t) => ParseFloat(t)
  }

  /** `get_sensitivity_values`: (nominal + factor, reference) from the first labelled line. */
  function GetSensitivityValues(file: FileContents): (r: Result<(real, real), SensitivityError>)
    ensures file.Missing? <==> r == Failure(SensFileNotFound)
    ensures r.Success? ==> r.value.1 == ReferenceDbspl
  {
    match file
    case Missing => Failure(SensFileNotFound)
    case Lines(ls) =>
      match SensitivityLine(ls)
      case None => Failure(SensLineNotFound)
      case Some(k) =>
        match FactorValue(Strip(ls[k]))
        case None => Failure(SensLineMalformed)
        case Some(v) => Success(SensitivityOf(v))
  }

  /** The first line satisfying `p` is found after any number of lines that do not. */
  lemma FirstWithAfter(before: seq<string>, line: string, after: seq<string>, p: string -> bool)
    requires forall j :: 0 <= j < |before| ==> !p(before[j])
    requires p(line)
    ensures FirstWith(before + [line] + after, p) == Some(|before|)
  {
    var ls := before + [line] + after;
    assert forall j :: 0 <= j < |before| ==> ls[j] == before[j];
    assert ls[|before|] == line;
  }

  /** The text between the first '=' and "dB" of `lead=<d>dB<rest>`, when `d` has no 'd' or '='. */
  lemma FactorOfLine(lead: string, d: string, rest: string)
    requires forall i :: 0 <= i < |lead| ==> lead[i] != '='
    requires forall i :: 0 <= i < |d| ==> d[i] != '=' && d[i] != 'd'
    ensures FactorField(lead + "=" + d + "dB" + rest) == Some(Strip(d))
  {
    var s := lead + "=" + d + "dB" + rest;
    assert s[|lead|] == '=';
    OccursAtChar(s, '=', |lead|);
    forall j | 0 <= j < |lead|
      ensures !OccursAt(s, "=", j)
    {
      OccursAtChar(s, '=', j);
      assert s[j] == lead[j];
    }
    FirstOccurrence(s, "=", |lead|);
    var x := s[|lead| + 1..];
    assert x == d + "dB" + rest;
    forall i | 0 <= i < |d| + 2
      ensures !OccursAt(x, "=", i)
    {
      OccursAtChar(x, '=', i);
      if i < |d| {
        assert x[i] == d[i];
      } else {
        assert x[i] == "dB"[i - |d|];
      }
    }
    var y := Before(x, "=");
    assert |y| >= |d| + 2;
    assert y == x[..|y|];
    assert y[..|d|] == d && y[|d|..|d| + 2] == "dB";
    forall j | 0 <= j < |d|
      ensures !OccursAt(y, "dB", j)
    {
      assert y[j] == d[j];
      if j + 2 <= |y| {
        assert y[j..j + 2][0] == y[j];
      }
    }
    FirstOccurrence(y, "dB", |d|);
  }

  lemma StripOfFactorLine(lead: string, d: string, rest: string)
    requires lead != [] && !IsSpace(lead[0])
    ensures Strip(lead + "=" + d + "dB" + rest) == lead + "=" + d + "dB" + RStrip(rest)
  {
    var head := lead + "=" + d + "dB";
    assert head[0] == lead[0] && head[|head| - 1] == 'B';
    StripAfterHead(head, rest);
  }

  lemma ContainsLead(lead: string, d: string, rest: string, pat: string)
    requires Contains(lead, pat)
    ensures Contains(lead + "=" + d + "dB" + rest, pat)
  {
    var t := "=" + d + "dB" + rest;
    assert lead + "=" + d + "dB" + rest == lead + t;
    ContainsInLonger(lead, t, pat);
  }

  /** A line that starts with a labelled lead carries the label. */
  lemma LabelledFactorLine(lead: string, d: string, rest: string)
    requires Contains(lead, SensLabel) && !IsSpace(lead[0])
    ensures HasSensLabel(lead + "=" + d + "dB" + rest)
  {
    StripOfFactorLine(lead, d, rest);
    ContainsLead(lead, d, RStrip(rest), SensLabel);
  }

  /** The factor read from a labelled line `<lead>=<decimal>dB<anything>`. */
  lemma FactorOfDecimal(lead: string, neg: bool, w: string, f: string, rest: string)
    requires lead != [] && !IsSpace(lead[0])
    requires forall i :: 0 <= i < |lead| ==> lead[i] != '='
    requires AllDigits(w) && AllDigits(f) && w != []
    ensures FactorValue(Strip(lead + "=" + DecimalText(neg, w, f) + "dB" + rest)) == Some(DecimalValue(neg, w, f))
  {
    var d := DecimalText(neg, w, f);
    var line := lead + "=" + d + "dB" + RStrip(rest);
    StripOfFactorLine(lead, d, rest);
    DecimalTextUnmarked(neg, w, f);
    FactorOfLine(lead, d, RStrip(rest));
    ParseDecimalText(neg, w, f);
    assert FactorField(line) == Some(d);
  }

  /** Decimal text holds neither the '=' before a factor nor the 'd' of the "dB" after it. */
  lemma DecimalTextUnmarked(neg: bool, w: string, f: string)
    requires AllDigits(w) && AllDigits(f)
    ensures forall i :: 0 <= i < |DecimalText(neg, w, f)| ==>
              DecimalText(neg, w, f)[i] != '=' && DecimalText(neg, w, f)[i] != 'd'
  {
    DecimalTextChars(neg, w, f);
  }

  /**
   * The round trip of the header: a first labelled line `<lead>=<decimal>dB<anything>`,
   * with no '=' before the decimal, yields (-18 + decimal, 94).
   */
  lemma SensitivityOfFactorLine(before: seq<string>, lead: string, neg: bool, w: string, f: string,
                                rest: string, after: seq<string>)
    requires forall j :: 0 <= j < |before| ==> !HasSensLabel(before[j])
    requires Contains(lead, SensLabel) && !IsSpace(lead[0])
    requires forall i :: 0 <= i < |lead| ==> lead[i] != '='
    requires AllDigits(w) && AllDigits(f) && w != []
    ensures GetSensitivityValues(Lines(before + [lead + "=" + DecimalText(neg, w, f) + "dB" + rest] + after))
         == Success(SensitivityOf(DecimalValue(neg, w, f)))
  {
    var d := DecimalText(neg, w, f);
    var line := lead + "=" + d + "dB" + rest;
    LabelledFactorLine(lead, d, rest);
    FirstWithAfter(before, line, after, HasSensLabel);
    FactorOfDecimal(lead, neg, w, f, rest);
    var ls := before + [line] + after;
    assert ls[|before|] == line;
    SensitivityFromLine(ls, |before|, DecimalValue(neg, w, f));
  }

  lemma SensitivityFromLine(ls: seq<string>, k: nat, v: real)
    requires SensitivityLine(ls) == Some(k) && k < |ls|
    requires FactorValue(Strip(ls[k])) == Some(v)
    ensures GetSensitivityValues(Lines(ls)) == Success(SensitivityOf(v))
  {
  }

  /**
   * The header lines of the unit tests: `Sens Factor =-12.5dB, ...` gives -30.5 dBFS and the
   * quoted `"Sens Factor" =-1.23dB, ...` gives -19.23 dBFS, both against 94 dBSPL.
   */
  lemma SensitivityExamples()
    ensures DecimalText(true, "12", "5") == "-12.5" && DecimalText(true, "1", "23") == "-1.23"
    ensures SensitivityOf(DecimalValue(true, "12", "5")) == (-30.5, 94.0)
    ensures SensitivityOf(DecimalValue(true, "1", "23")) == (-19.23, 94.0)
  {
    assert DigitsValue("12") == 12 && DigitsValue("5") == 5;
    assert DigitsValue("1") == 1 && DigitsValue("23") == 23;
    assert Pow10(1) == 10.0 && Pow10(2) == 100.0;
  }

  /** A file none of whose lines carries the label fails with "not found". */
  lemma SensitivityNotFound(ls: seq<string>)
    requires forall j :: 0 <= j < |ls| ==> !HasSensLabel(ls[j])
    ensures GetSensitivityValues(Lines(ls)) == Failure(SensLineNotFound)
  {
  }

  /** A labelled first line without '=' is malformed. */
  lemma SensitivityWithoutEquals(before: seq<string>, line: string, after: seq<string>)
    requires forall j :: 0 <= j < |before| ==> !HasSensLabel(before[j])
    requires HasSensLabel(line)
    requires forall i :: 0 <= i < |line| ==> line[i] != '='
    ensures GetSensitivityValues(Lines(before + [line] + after)) == Failure(SensLineMalformed)
  {
    FirstWithAfter(before, line, after, HasSensLabel);
    var ls := before + [line] + after;
    assert ls[|before|] == line;
    StripKeepsAbsence(line, '=');
    AbsentWithoutChar(Strip(line), "=", 0);
  }
}
