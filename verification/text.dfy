/**
 * Python `str` operations used by the parsers and name builders of the model:
 * `strip`, whitespace `split`, substring search, `float(...)` on decimal text and
 * `f"{n}"` / `f"{n:03d}"` on integers.
 */
module Text {
  import opened Wrappers

  /**
   * `str.isspace` for an ASCII character: tab, line feed, vertical tab, form feed,
   * carriage return, the four separators 0x1C-0x1F and the space.
   */
  predicate IsSpace(c: char) {
    9 <= c as int <= 13 || 0x1C <= c as int <= 0x20
  }

  /** Python truthiness of an optional string: `None` and `""` are false. */
  predicate Truthy(s: Option<string>) {
    s.Some? && s.value != ""
  }

  predicate IsDigit(c: char) {
    '0' <= c <= '9'
  }

  predicate AllDigits(s: string) {
    forall i :: 0 <= i < |s| ==> IsDigit(s[i])
  }

  predicate NoSpace(s: string) {
    forall i :: 0 <= i < |s| ==> !IsSpace(s[i])
  }

  function LStrip(s: string): (r: string)
    ensures |r| <= |s| && r == s[|s| - |r|..]
    ensures r == [] || !IsSpace(r[0])
    ensures forall i :: 0 <= i < |s| - |r| ==> IsSpace(s[i])
  {
    if s == [] || !IsSpace(s[0]) then s else LStrip(s[1..])
  }

  function RStrip(s: string): (r: string)
    ensures |r| <= |s| && r == s[..|r|]
    ensures r == [] || !IsSpace(r[|r| - 1])
    ensures forall i :: |r| <= i < |s| ==> IsSpace(s[i])
  {
    if s == [] || !IsSpace(s[|s| - 1]) then s else RStrip(s[..|s| - 1])
  }

  /** `s.strip()`: `s` without its leading and trailing whitespace. */
  function Strip(s: string): (r: string)
    ensures r == [] || (!IsSpace(r[0]) && !IsSpace(r[|r| - 1]))
  {
    RStrip(LStrip(s))
  }

  lemma {:induction false} StripOfUnpadded(s: string)
    requires s == [] || (!IsSpace(s[0]) && !IsSpace(s[|s| - 1]))
    ensures Strip(s) == s
  {
  }

  /** Length of the leading run of non-whitespace characters. */
  function TokenLength(s: string): (n: nat)
    ensures n <= |s|
    ensures forall i :: 0 <= i < n ==> !IsSpace(s[i])
    ensures n < |s| ==> IsSpace(s[n])
  {
    if s == [] || IsSpace(s[0]) then 0 else 1 + TokenLength(s[1..])
  }

  /** `s.split()`: the maximal runs of non-whitespace characters, in order. */
  function Words(s: string): seq<string>
    decreases |s|
  {
    var t := LStrip(s);
    if t == [] then []
    else
      var n := TokenLength(t);
      assert n > 0;
      [t[..n]] + Words(t[n..])
  }

  /** Whether `pat` occurs in `s` at position `i`. */
  predicate OccursAt(s: string, pat: string, i: nat) {
    i + |pat| <= |s| && s[i..i + |pat|] == pat
  }

  /** `s.find(pat)`: the first position at which `pat` occurs in `s`. */
  function IndexOf(s: string, pat: string): (r: Option<nat>)
    ensures r.Some? ==> OccursAt(s, pat, r.value)
    ensures r.Some? ==> forall j :: 0 <= j < r.value ==> !OccursAt(s, pat, j)
    ensures r.None? ==> forall j :: 0 <= j <= |s| ==> !OccursAt(s, pat, j)
  {
    IndexFrom(s, pat, 0)
  }

  function IndexFrom(s: string, pat: string, from: nat): (r: Option<nat>)
    requires from <= |s| + 1
    ensures r.Some? ==> from <= r.value && OccursAt(s, pat, r.value)
    ensures r.Some? ==> forall j :: from <= j < r.value ==> !OccursAt(s, pat, j)
    ensures r.None? ==> forall j :: from <= j <= |s| ==> !OccursAt(s, pat, j)
    decreases |s| + 1 - from
  {
    if from + |pat| > |s| then None
    else if s[from..from + |pat|] == pat then Some(from)
    else IndexFrom(s, pat, from + 1)
  }

  /** The substring `pat in s` test. */
  predicate Contains(s: string, pat: string) {
    IndexOf(s, pat).Some?
  }

  /** `s.split(sep)[0]`: the text before the first `sep` (all of `s` when absent). */
  function Before(s: string, sep: string): (r: string)
    ensures |r| <= |s| && r == s[..|r|]
  {
    match IndexOf(s, sep)
    case Some(i) => s[..i]
    case None => s
  }

  /** `s.split(sep)[1]`: the text between the first and second `sep`; None when `sep` is absent. */
  function SecondField(s: string, sep: string): Option<string>
    requires sep != []
  {
    match IndexOf(s, sep)
    case Some(i) => Some(Before(s[i + |sep|..], sep))
    case None => None
  }

  // ---------------------------------------------------------------- integers as text

  function DigitChar(d: nat): char
    requires d < 10
  {
    "0123456789"[d]
  }

  function DigitValue(c: char): nat
    requires IsDigit(c)
  {
    (c as int - '0' as int) as nat
  }

  /** `f"{n}"` for a non-negative integer. */
  function NatToString(n: nat): (s: string)
    ensures s != [] && AllDigits(s)
    decreases n
  {
    if n < 10 then [DigitChar(n)] else NatToString(n / 10) + [DigitChar(n % 10)]
  }

  /** `f"{i}"` for any integer. */
  function IntToString(i: int): (s: string)
    ensures s != []
    ensures forall k :: 0 <= k < |s| ==> IsDigit(s[k]) || s[k] == '-'
  {
    if i >= 0 then NatToString(i) else "-" + NatToString(-i)
  }

  /** The value of a string of decimal digits (0 for the empty string). */
  function DigitsValue(s: string): (n: nat)
    requires AllDigits(s)
  {
    if s == [] then 0 else 10 * DigitsValue(s[..|s| - 1]) + DigitValue(s[|s| - 1])
  }

  lemma {:induction false} NatToStringRoundTrip(n: nat)
    ensures DigitsValue(NatToString(n)) == n
    decreases n
  {
    if n >= 10 {
      var s := NatToString(n);
      assert s[..|s| - 1] == NatToString(n / 10);
      NatToStringRoundTrip(n / 10);
    }
  }

  lemma NatToStringInjective(a: nat, b: nat)
    requires NatToString(a) == NatToString(b)
    ensures a == b
  {
    NatToStringRoundTrip(a);
    NatToStringRoundTrip(b);
  }

  lemma IntToStringInjective(a: int, b: int)
    requires IntToString(a) == IntToString(b)
    ensures a == b
  {
    var s := IntToString(a);
    assert (s[0] == '-') <==> a < 0;
    assert (s[0] == '-') <==> b < 0;
    if a >= 0 {
      NatToStringInjective(a, b);
    } else {
      assert NatToString(-a) == s[1..] == NatToString(-b);
      NatToStringInjective(-a, -b);
    }
  }

  /** `f"{n:0Wd}"`: the decimal digits of `n`, zero-filled on the left to at least `w` characters. */
  function ZeroPad(n: nat, w: nat): (s: string)
    ensures AllDigits(s)
    ensures |s| == if |NatToString(n)| >= w then |NatToString(n)| else w
  {
    var d := NatToString(n);
    if |d| >= w then d else seq(w - |d|, _ => '0') + d
  }

  lemma ZeroPadValue(n: nat, w: nat)
    ensures DigitsValue(ZeroPad(n, w)) == n
  {
    var d := NatToString(n);
    NatToStringRoundTrip(n);
    if |d| < w {
      var z := seq(w - |d|, _ => '0');
      assert ZeroPad(n, w) == z + d;
      LeadingZerosValue(w - |d|, d);
    } else {
      assert ZeroPad(n, w) == d;
    }
  }

  lemma ZeroPadInjective(m: nat, n: nat, w: nat)
    requires ZeroPad(m, w) == ZeroPad(n, w)
    ensures m == n
  {
    ZeroPadValue(m, w);
    ZeroPadValue(n, w);
  }

  lemma {:induction false} LeadingZerosValue(k: nat, d: string)
    requires AllDigits(d)
    ensures AllDigits(seq(k, _ => '0') + d)
    ensures DigitsValue(seq(k, _ => '0') + d) == DigitsValue(d)
    decreases |d|
  {
    var z := seq(k, _ => '0');
    if d == [] {
      assert z + d == z;
      AllZerosValue(k);
    } else {
      var s := z + d;
      assert s[..|s| - 1] == z + d[..|d| - 1];
      LeadingZerosValue(k, d[..|d| - 1]);
    }
  }

  lemma {:induction false} AllZerosValue(k: nat)
    ensures AllDigits(seq(k, _ => '0'))
    ensures DigitsValue(seq(k, _ => '0')) == 0
  {
    if k > 0 {
      var z := seq(k, _ => '0');
      assert z[..k - 1] == seq(k - 1, _ => '0');
      AllZerosValue(k - 1);
    }
  }

  function Pow10Nat(e: nat): (r: nat)
    ensures r >= 1
  {
    if e == 0 then 1 else 10 * Pow10Nat(e - 1)
  }

  /** A number below `10^w` has at most `w` digits, and one of at least `10^(w-1)` at least `w`. */
  lemma {:induction false} NatToStringLength(n: nat, w: nat)
    requires w >= 1
    ensures n < Pow10Nat(w) ==> |NatToString(n)| <= w
    ensures Pow10Nat(w - 1) <= n ==> |NatToString(n)| >= w
    decreases w
  {
    if n >= 10 && w >= 2 {
      NatToStringLength(n / 10, w - 1);
      assert Pow10Nat(w) == 10 * Pow10Nat(w - 1);
      assert Pow10Nat(w - 1) == 10 * Pow10Nat(w - 2);
      assert n < Pow10Nat(w) ==> n / 10 < Pow10Nat(w - 1);
      assert Pow10Nat(w - 1) <= n ==> Pow10Nat(w - 2) <= n / 10;
    } else if n >= 10 {
      assert Pow10Nat(1) == 10;
    } else if w >= 2 {
      assert Pow10Nat(w - 1) >= 10 by {
        Pow10Grows(w - 1);
      }
    }
  }

  lemma {:induction false} Pow10Grows(e: nat)
    requires e >= 1
    ensures Pow10Nat(e) >= 10
    decreases e
  {
    if e > 1 {
      Pow10Grows(e - 1);
    }
  }

  /** `f"{n:0Wd}"` is exactly `w` characters long when `n` has at most `w` digits. */
  lemma ZeroPadWidth(n: nat, w: nat)
    requires w >= 1 && n < Pow10Nat(w)
    ensures |ZeroPad(n, w)| == w
  {
    NatToStringLength(n, w);
  }

  // ---------------------------------------------------------------- decimal numbers

  function Pow10(e: nat): (r: real)
    ensures r >= 1.0
  {
    if e == 0 then 1.0 else 10.0 * Pow10(e - 1)
  }

  /** `10 ** e` for an integer exponent. */
  function Scale10(e: int): real {
    if e >= 0 then Pow10(e) else 1.0 / Pow10(-e)
  }

  /** The first position of `c` in `s`. */
  function CharIndex(s: string, c: char): (r: Option<nat>)
    ensures r.Some? ==> r.value < |s| && s[r.value] == c
    ensures r.Some? ==> forall j :: 0 <= j < r.value ==> s[j] != c
    ensures r.None? ==> forall j :: 0 <= j < |s| ==> s[j] != c
  {
    if s == [] then None
    else if s[0] == c then Some(0)
    else match CharIndex(s[1..], c)
      case Some(i) => Some(i + 1)
      case None => None
  }

  /** The unsigned decimal `ddd[.ddd]` or `.ddd`; at least one digit. */
  function ParseMantissa(m: string): Option<real> {
    match CharIndex(m, '.')
    case None =>
      if m != [] && AllDigits(m) then Some(DigitsValue(m) as real) else None
    case Some(p) =>
      var whole := m[..p];
      var frac := m[p + 1..];
      if AllDigits(whole) && AllDigits(frac) && |whole| + |frac| > 0 then
        Some(DigitsValue(whole) as real + DigitsValue(frac) as real / Pow10(|frac|))
      else None
  }

  /** An optionally signed, non-empty run of digits. */
  function ParseExponent(x: string): Option<int> {
    var neg := x != [] && x[0] == '-';
    var digits := if x != [] && (x[0] == '-' || x[0] == '+') then x[1..] else x;
    if digits != [] && AllDigits(digits) then
      var v: int := DigitsValue(digits);
      Some(if neg then -v else v)
    else None
  }

  predicate IsExponentMarker(c: char) {
    c == 'e' || c == 'E'
  }

  function ExponentIndex(s: string): (r: Option<nat>)
    ensures r.Some? ==> r.value < |s| && IsExponentMarker(s[r.value])
    ensures r.Some? ==> forall j :: 0 <= j < r.value ==> !IsExponentMarker(s[j])
    ensures r.None? ==> forall j :: 0 <= j < |s| ==> !IsExponentMarker(s[j])
  {
    if s == [] then None
    else if IsExponentMarker(s[0]) then Some(0)
    else match ExponentIndex(s[1..])
      case Some(i) => Some(i + 1)
      case None => None
  }

  /** An unsigned mantissa with an optional exponent. */
  function ParseUnsigned(body: string): Option<real> {
    match ExponentIndex(body)
    case None => ParseMantissa(body)
    case Some(e) =>
      match (ParseMantissa(body[..e]), ParseExponent(body[e + 1..]))
      case (Some(m), Some(x)) => Some(m * Scale10(x))
      case _ => None
  }

  function Negate(v: Option<real>): Option<real> {
    match v
    case Some(x) => Some(-x)
    case None => None
  }

  function ParseSigned(t: string): Option<real> {
    if t != [] && t[0] == '-' then Negate(ParseUnsigned(t[1..]))
    else if t != [] && t[0] == '+' then ParseUnsigned(t[1..])
    else ParseUnsigned(t)
  }

  /**
   * `float(s)` on decimal text: surrounding whitespace, an optional sign, a mantissa
   * and an optional exponent. None stands for the ValueError Python raises.
   */
  function ParseFloat(s: string): Option<real> {
    ParseSigned(Strip(s))
  }

  /** The text `[-]w.f` for digit strings `w` and `f`. */
  function DecimalText(negative: bool, w: string, f: string): string {
    (if negative then "-" else "") + w + "." + f
  }

  function DecimalValue(negative: bool, w: string, f: string): real
    requires AllDigits(w) && AllDigits(f)
  {
    var v := DigitsValue(w) as real + DigitsValue(f) as real / Pow10(|f|);
    if negative then -v else v
  }

  lemma NoExponentMarker(w: string, f: string)
    requires AllDigits(w) && AllDigits(f)
    ensures ExponentIndex(w + "." + f) == None
  {
    var body := w + "." + f;
    forall j | 0 <= j < |body|
      ensures !IsExponentMarker(body[j])
    {
      if j < |w| { assert body[j] == w[j]; }
      else if j > |w| { assert body[j] == f[j - |w| - 1]; }
    }
  }

  lemma DotAfterWhole(w: string, f: string)
    requires AllDigits(w)
    ensures CharIndex(w + "." + f, '.') == Some(|w|)
  {
    var body := w + "." + f;
    assert body[|w|] == '.';
    forall j | 0 <= j < |w|
      ensures body[j] != '.'
    {
      assert body[j] == w[j];
    }
  }

  lemma ParseUnsignedDecimal(w: string, f: string)
    requires AllDigits(w) && AllDigits(f) && w != []
    ensures ParseUnsigned(w + "." + f) == Some(DecimalValue(false, w, f))
  {
    var body := w + "." + f;
    NoExponentMarker(w, f);
    DotAfterWhole(w, f);
    assert body[..|w|] == w;
    assert body[|w| + 1..] == f;
  }

  /** `float` reads back the value written as `[-]w.f`. */
  lemma ParseDecimalText(negative: bool, w: string, f: string)
    requires AllDigits(w) && AllDigits(f) && w != []
    ensures ParseFloat(DecimalText(negative, w, f)) == Some(DecimalValue(negative, w, f))
    ensures Strip(DecimalText(negative, w, f)) == DecimalText(negative, w, f)
  {
    StripDecimalText(negative, w, f);
    ParseSignedDecimal(negative, w, f);
  }

  lemma ParseSignedDecimal(negative: bool, w: string, f: string)
    requires AllDigits(w) && AllDigits(f) && w != []
    ensures ParseSigned(DecimalText(negative, w, f)) == Some(DecimalValue(negative, w, f))
  {
    var body := w + "." + f;
    var t := DecimalText(negative, w, f);
    ParseUnsignedDecimal(w, f);
    if negative {
      assert t == "-" + body && t[1..] == body;
    } else {
      assert t == body;
      assert t[0] == w[0];
    }
  }

  /** Decimal text has no surrounding whitespace. */
  lemma StripDecimalText(negative: bool, w: string, f: string)
    requires AllDigits(w) && AllDigits(f) && w != []
    ensures Strip(DecimalText(negative, w, f)) == DecimalText(negative, w, f)
  {
    var body := w + "." + f;
    var t := DecimalText(negative, w, f);
    if negative {
      assert t == "-" + body;
      assert t[|t| - 1] == body[|body| - 1];
    } else {
      assert t == body;
      assert t[0] == w[0];
    }
    assert !IsSpace(t[0]) && !IsSpace(t[|t| - 1]);
    StripOfUnpadded(t);
  }

  /** Decimal text is made of digits, '-' and '.' only, and is never empty. */
  lemma DecimalTextChars(negative: bool, w: string, f: string)
    requires AllDigits(w) && AllDigits(f)
    ensures DecimalText(negative, w, f) != []
    ensures forall i :: 0 <= i < |DecimalText(negative, w, f)| ==>
      var c := DecimalText(negative, w, f)[i]; IsDigit(c) || c == '-' || c == '.'
  {
    var t := DecimalText(negative, w, f);
    var sign := if negative then "-" else "";
    assert t == sign + w + "." + f;
    forall i | 0 <= i < |t|
      ensures IsDigit(t[i]) || t[i] == '-' || t[i] == '.'
    {
      if i < |sign| {
        assert t[i] == sign[i];
      } else if i < |sign| + |w| {
        assert t[i] == w[i - |sign|];
      } else if i > |sign| + |w| {
        assert t[i] == f[i - |sign| - |w| - 1];
      }
    }
  }

  // ---------------------------------------------------------------- splitting lemmas

  lemma LStripOfUnpadded(s: string)
    requires s != [] && !IsSpace(s[0])
    ensures LStrip(s) == s
  {
  }

  lemma {:induction false} LStripSpaces(sp: string, s: string)
    requires forall i :: 0 <= i < |sp| ==> IsSpace(sp[i])
    ensures LStrip(sp + s) == LStrip(s)
    decreases |sp|
  {
    if sp != [] {
      assert (sp + s)[0] == sp[0];
      assert (sp + s)[1..] == sp[1..] + s;
      LStripSpaces(sp[1..], s);
    } else {
      assert sp + s == s;
    }
  }

  lemma {:induction false} TokenLengthOf(w: string, rest: string)
    requires NoSpace(w)
    requires rest == [] || IsSpace(rest[0])
    ensures TokenLength(w + rest) == |w|
    decreases |w|
  {
    if w != [] {
      assert (w + rest)[1..] == w[1..] + rest;
      TokenLengthOf(w[1..], rest);
    }
  }

  /** A word followed by whitespace (or the end) is the first word of `split()`. */
  lemma WordsCons(w: string, rest: string)
    requires w != [] && NoSpace(w)
    requires rest == [] || IsSpace(rest[0])
    ensures Words(w + rest) == [w] + Words(rest)
  {
    var s := w + rest;
    LStripOfUnpadded(s);
    TokenLengthOf(w, rest);
    assert s[..|w|] == w;
    assert s[|w|..] == rest;
  }

  /** Leading whitespace does not change `split()`. */
  lemma WordsAfterSpaces(sp: string, s: string)
    requires forall i :: 0 <= i < |sp| ==> IsSpace(sp[i])
    ensures Words(sp + s) == Words(s)
  {
    LStripSpaces(sp, s);
  }

  lemma WordsOfSpaces(sp: string)
    requires forall i :: 0 <= i < |sp| ==> IsSpace(sp[i])
    ensures Words(sp) == []
  {
    LStripSpaces(sp, []);
    assert sp + [] == sp;
  }

  lemma WordsAfterSeparator(sep: string, b: string, rest: string)
    requires b != [] && NoSpace(b)
    requires forall i :: 0 <= i < |sep| ==> IsSpace(sep[i])
    requires rest == [] || IsSpace(rest[0])
    ensures Words(sep + (b + rest)) == [b] + Words(rest)
  {
    WordsAfterSpaces(sep, b + rest);
    WordsCons(b, rest);
  }

  lemma WordsOfColumnAndRest(a: string, sep: string, b: string, rest: string)
    requires a != [] && NoSpace(a)
    requires sep != [] && forall i :: 0 <= i < |sep| ==> IsSpace(sep[i])
    ensures Words(a + (sep + (b + rest))) == [a] + Words(sep + (b + rest))
  {
    var mid := sep + (b + rest);
    assert mid[0] == sep[0];
    WordsCons(a, mid);
  }

  /** Only whitespace boundaries matter: `split()` of `a sep b rest` starts with `a`, `b`. */
  lemma WordsOfTwoColumns(a: string, sep: string, b: string, rest: string)
    requires a != [] && NoSpace(a) && b != [] && NoSpace(b)
    requires sep != [] && forall i :: 0 <= i < |sep| ==> IsSpace(sep[i])
    requires rest == [] || IsSpace(rest[0])
    ensures Words(a + (sep + (b + rest))) == [a] + ([b] + Words(rest))
  {
    WordsOfColumnAndRest(a, sep, b, rest);
    WordsAfterSeparator(sep, b, rest);
  }

  /** `strip` of text whose last non-space character is inside `a`. */
  lemma {:induction false} RStripAppend(a: string, b: string)
    requires a != [] && !IsSpace(a[|a| - 1])
    ensures RStrip(a + b) == a + RStrip(b)
    decreases |b|
  {
    if b == [] {
      assert a + b == a;
    } else if !IsSpace(b[|b| - 1]) {
    } else {
      assert (a + b)[..|a + b| - 1] == a + b[..|b| - 1];
      RStripAppend(a, b[..|b| - 1]);
    }
  }

  lemma OccursInLonger(s: string, t: string, pat: string, i: nat)
    requires OccursAt(s, pat, i)
    ensures OccursAt(s + t, pat, i)
  {
    assert (s + t)[i..i + |pat|] == s[i..i + |pat|];
  }

  lemma ContainsInLonger(s: string, t: string, pat: string)
    requires Contains(s, pat)
    ensures Contains(s + t, pat)
  {
    OccursInLonger(s, t, pat, IndexOf(s, pat).value);
  }

  /** `pat` cannot occur in a text that lacks one of its characters. */
  lemma AbsentWithoutChar(s: string, pat: string, k: nat)
    requires k < |pat| && forall i :: 0 <= i < |s| ==> s[i] != pat[k]
    ensures IndexOf(s, pat) == None
  {
    forall j | 0 <= j <= |s|
      ensures !OccursAt(s, pat, j)
    {
      if j + |pat| <= |s| {
        assert s[j..j + |pat|][k] == s[j + k];
      }
    }
  }

  /** `find` returns the position of an occurrence with none before it. */
  lemma FirstOccurrence(s: string, pat: string, k: nat)
    requires OccursAt(s, pat, k)
    requires forall j :: 0 <= j < k ==> !OccursAt(s, pat, j)
    ensures IndexOf(s, pat) == Some(k)
  {
  }

  /** A one-character pattern occurs exactly where that character is. */
  lemma OccursAtChar(s: string, c: char, j: nat)
    ensures OccursAt(s, [c], j) <==> j < |s| && s[j] == c
  {
    if j < |s| {
      assert s[j..j + 1] == [s[j]];
    }
  }

  /** Stripping removes characters but adds none. */
  lemma StripKeepsAbsence(s: string, c: char)
    requires forall i :: 0 <= i < |s| ==> s[i] != c
    ensures forall i :: 0 <= i < |Strip(s)| ==> Strip(s)[i] != c
  {
    var t := LStrip(s);
    var r := RStrip(t);
    forall i | 0 <= i < |r|
      ensures r[i] != c
    {
      assert r[i] == t[i] == s[|s| - |t| + i];
    }
  }

  /** A mantissa that starts with neither a digit nor '.' is rejected. */
  lemma MantissaBadStart(m: string)
    requires m != [] && !IsDigit(m[0]) && m[0] != '.'
    ensures ParseMantissa(m) == None
  {
    match CharIndex(m, '.')
    case None =>
    case Some(p) =>
      assert p > 0;
      assert m[..p][0] == m[0];
  }

  /** A word that starts with neither a digit, a sign nor '.' is not a number. */
  lemma NotNumber(t: string)
    requires t != [] && NoSpace(t)
    requires !IsDigit(t[0]) && t[0] != '.' && t[0] != '-' && t[0] != '+'
    ensures ParseFloat(t) == None
  {
    StripOfUnpadded(t);
    match ExponentIndex(t)
    case None =>
      MantissaBadStart(t);
    case Some(e) =>
      if e > 0 {
        assert t[..e][0] == t[0];
        MantissaBadStart(t[..e]);
      }
  }

  /** `strip` of a line whose leading text has no whitespace at either end. */
  lemma StripAfterHead(head: string, rest: string)
    requires head != [] && !IsSpace(head[0]) && !IsSpace(head[|head| - 1])
    ensures Strip(head + rest) == head + RStrip(rest)
  {
    assert (head + rest)[0] == head[0];
    LStripOfUnpadded(head + rest);
    RStripAppend(head, rest);
  }
}
