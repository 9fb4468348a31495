/**
 * `DatetimeStamp.get`: the wall-clock time formatted with "%Y-%m-%d %H:%M:%S". The
 * clock reading is an input; the model is the formatter and the field parser that
 * reads such a stamp back (`datetime.strptime` with the same format).
 */
module DatetimeStamp {
  import opened Wrappers
  import Text

  datatype DateTime = DateTime(year: nat, month: nat, day: nat, hour: nat, minute: nat, second: nat)

  predicate IsLeapYear(y: nat) {
    y % 4 == 0 && (y % 100 != 0 || y % 400 == 0)
  }

  function DaysInMonth(y: nat, m: nat): nat
    requires 1 <= m <= 12
  {
    if m == 2 then (if IsLeapYear(y) then 29 else 28)
    else if m == 4 || m == 6 || m == 9 || m == 11 then 30
    else 31
  }

  /** The values `datetime` accepts. */
  predicate Valid(dt: DateTime) {
    1 <= dt.year <= 9999 && 1 <= dt.month <= 12 && 1 <= dt.day <= DaysInMonth(dt.year, dt.month) &&
    dt.hour < 24 && dt.minute < 60 && dt.second < 60
  }

  function Two(n: nat): string {
    Text.ZeroPad(n, 2)
  }

  /** The stamp's six fields with their separators. */
  function Layout(y: string, mo: string, d: string, h: string, mi: string, sec: string): string {
    y + ("-" + (mo + ("-" + (d + (" " + (h + (":" + (mi + (":" + sec)))))))))
  }

  /** `strftime("%Y-%m-%d %H:%M:%S")`; `%Y` is the year's decimal digits. */
  function Format(dt: DateTime): string {
    Layout(Text.NatToString(dt.year), Two(dt.month), Two(dt.day), Two(dt.hour), Two(dt.minute), Two(dt.second))
  }

  /** The character positions holding digits in a stamp of a four-digit year. */
  predicate IsDigitPosition(k: int) {
    0 <= k < 19 && k != 4 && k != 7 && k != 10 && k != 13 && k != 16
  }

  lemma TwoDigits(n: nat)
    requires n < 100
    ensures |Two(n)| == 2 && Text.AllDigits(Two(n)) && Text.DigitsValue(Two(n)) == n
  {
    assert Text.Pow10Nat(2) == 100 by {
      assert Text.Pow10Nat(1) == 10;
    }
    Text.ZeroPadWidth(n, 2);
    Text.ZeroPadValue(n, 2);
  }

  lemma YearDigits(y: nat)
    requires 1000 <= y <= 9999
    ensures |Text.NatToString(y)| == 4 && Text.DigitsValue(Text.NatToString(y)) == y
  {
    assert Text.Pow10Nat(3) == 1000 && Text.Pow10Nat(4) == 10000 by {
      assert Text.Pow10Nat(1) == 10;
      assert Text.Pow10Nat(2) == 100;
    }
    Text.NatToStringLength(y, 4);
    Text.NatToStringRoundTrip(y);
  }

  lemma SplitConcat(a: string, b: string)
    ensures (a + b)[..|a|] == a && (a + b)[|a|..] == b
  {
  }

  /** Where each field of a layout with a four-character year sits. */
  lemma LayoutPieces(y: string, mo: string, d: string, h: string, mi: string, sec: string)
    requires |y| == 4 && |mo| == 2 && |d| == 2 && |h| == 2 && |mi| == 2 && |sec| == 2
    ensures var s := Layout(y, mo, d, h, mi, sec);
            |s| == 19 &&
            s[..4] == y && s[4] == '-' && s[5..7] == mo && s[7] == '-' &&
            s[8..10] == d && s[10] == ' ' && s[11..13] == h && s[13] == ':' &&
            s[14..16] == mi && s[16] == ':' && s[17..] == sec
  {
    var t8 := ":" + sec;
    var t7 := mi + t8;
    var t6 := ":" + t7;
    var t5 := h + t6;
    var t4 := " " + t5;
    var t3 := d + t4;
    var t2 := "-" + t3;
    var t1 := mo + t2;
    var t0 := "-" + t1;
    var s := y + t0;
    SplitConcat(y, t0);
    SplitConcat("-", t1);
    SplitConcat(mo, t2);
    SplitConcat("-", t3);
    SplitConcat(d, t4);
    SplitConcat(" ", t5);
    SplitConcat(h, t6);
    SplitConcat(":", t7);
    SplitConcat(mi, t8);
    SplitConcat(":", sec);
    assert s[5..7] == t1[..2];
    assert s[8..10] == t3[..2];
    assert s[11..13] == t5[..2];
    assert s[14..16] == t7[..2];
    assert s[17..] == t8[1..];
  }

  /** Every piece of a stamp, with where it starts. */
  lemma StampPieces(dt: DateTime)
    requires Valid(dt) && dt.year >= 1000
    ensures var s := Format(dt);
            |s| == 19 &&
            s[..4] == Text.NatToString(dt.year) && s[4] == '-' &&
            s[5..7] == Two(dt.month) && s[7] == '-' &&
            s[8..10] == Two(dt.day) && s[10] == ' ' &&
            s[11..13] == Two(dt.hour) && s[13] == ':' &&
            s[14..16] == Two(dt.minute) && s[16] == ':' &&
            s[17..] == Two(dt.second)
  {
    YearDigits(dt.year);
    TwoDigits(dt.month);
    TwoDigits(dt.day);
    TwoDigits(dt.hour);
    TwoDigits(dt.minute);
    TwoDigits(dt.second);
    LayoutPieces(Text.NatToString(dt.year), Two(dt.month), Two(dt.day), Two(dt.hour), Two(dt.minute), Two(dt.second));
  }

  /**
   * For four-digit years the stamp is 19 characters: '-' at 4 and 7, ' ' at 10, ':' at
   * 13 and 16, and a digit everywhere else.
   */
  lemma StampLayout(dt: DateTime)
    requires Valid(dt) && dt.year >= 1000
    ensures |Format(dt)| == 19
    ensures Format(dt)[4] == '-' && Format(dt)[7] == '-' && Format(dt)[10] == ' '
    ensures Format(dt)[13] == ':' && Format(dt)[16] == ':'
    ensures forall k :: IsDigitPosition(k) ==> Text.IsDigit(Format(dt)[k])
  {
    StampPieces(dt);
    var s := Format(dt);
    TwoDigits(dt.month);
    TwoDigits(dt.day);
    TwoDigits(dt.hour);
    TwoDigits(dt.minute);
    TwoDigits(dt.second);
    forall k | IsDigitPosition(k)
      ensures Text.IsDigit(s[k])
    {
      if k < 4 {
        assert s[k] == s[..4][k];
      } else if k < 7 {
        assert s[k] == s[5..7][k - 5];
      } else if k < 10 {
        assert s[k] == s[8..10][k - 8];
      } else if k < 13 {
        assert s[k] == s[11..13][k - 11];
      } else if k < 16 {
        assert s[k] == s[14..16][k - 14];
      } else {
        assert s[k] == s[17..][k - 17];
      }
    }
  }

  /** A stamp of a four-digit year holds neither '/' nor '.', so it fits inside a file name. */
  lemma StampCharacters(dt: DateTime)
    requires Valid(dt) && dt.year >= 1000
    ensures forall k :: 0 <= k < |Format(dt)| ==> Format(dt)[k] != '/' && Format(dt)[k] != '.'
  {
    StampLayout(dt);
    var s := Format(dt);
    forall k | 0 <= k < |s|
      ensures s[k] != '/' && s[k] != '.'
    {
      if IsDigitPosition(k) {
        assert Text.IsDigit(s[k]);
      }
    }
  }

  /** The digits of `t[lo..hi]` as a number (0 when some character is not a digit). */
  function FieldValue(t: string, lo: nat, hi: nat): nat
    requires lo <= hi <= |t|
  {
    if Text.AllDigits(t[lo..hi]) then Text.DigitsValue(t[lo..hi]) else 0
  }

  /** The text has the stamp's shape: digits and separators in the stamp's positions. */
  predicate StampShaped(t: string) {
    |t| == 19 && (forall k :: 0 <= k < |t| && IsDigitPosition(k) ==> Text.IsDigit(t[k])) &&
    t[4] == '-' && t[7] == '-' && Text.IsSpace(t[10]) && t[13] == ':' && t[16] == ':'
  }

  /**
   * `datetime.strptime(t, "%Y-%m-%d %H:%M:%S")` on stamp-shaped text: the fields are read
   * as numbers and the result exists when they form a real date and time.
   */
  function ParseStamp(t: string): (r: Option<DateTime>)
    ensures r.Some? ==> Valid(r.value) && StampShaped(t)
  {
    if StampShaped(t) then
      var dt := DateTime(FieldValue(t, 0, 4), FieldValue(t, 5, 7), FieldValue(t, 8, 10),
                         FieldValue(t, 11, 13), FieldValue(t, 14, 16), FieldValue(t, 17, 19));
      if Valid(dt) then Some(dt) else None
    else
      None
  }

  /** Reading a stamp back gives the time it was made from. */
  lemma ParseFormat(dt: DateTime)
    requires Valid(dt) && dt.year >= 1000
    ensures ParseStamp(Format(dt)) == Some(dt)
  {
    StampLayout(dt);
    StampPieces(dt);
    YearDigits(dt.year);
    TwoDigits(dt.month);
    TwoDigits(dt.day);
    TwoDigits(dt.hour);
    TwoDigits(dt.minute);
    TwoDigits(dt.second);
    var s := Format(dt);
    assert Text.IsSpace(s[10]);
    assert s[17..19] == s[17..];
  }

  /** Distinct times give distinct stamps. */
  lemma FormatInjective(a: DateTime, b: DateTime)
    requires Valid(a) && a.year >= 1000 && Valid(b) && b.year >= 1000
    requires Format(a) == Format(b)
    ensures a == b
  {
    ParseFormat(a);
    ParseFormat(b);
  }

  /** New Year 2025 at noon. */
  lemma NoonExample()
    ensures Format(DateTime(2025, 1, 1, 12, 0, 0)) == "2025-01-01 12:00:00"
  {
    NoonFields();
    NoonLayout();
  }

  lemma NoonFields()
    ensures Text.NatToString(2025) == "2025"
    ensures Two(1) == "01" && Two(12) == "12" && Two(0) == "00"
  {
    YearText();
    assert Text.NatToString(1) == "1";
    assert Text.NatToString(0) == "0";
    assert Text.NatToString(12) == "12";
  }

  lemma YearText()
    ensures Text.NatToString(2025) == "2025"
  {
    assert Text.NatToString(2) == "2";
    assert Text.NatToString(20) == "20";
    assert Text.NatToString(202) == "202";
  }

  lemma NoonLayout()
    ensures Layout("2025", "01", "01", "12", "00", "00") == "2025-01-01 12:00:00"
  {
    assert "00" + (":" + "00") == "00:00";
    assert "12" + (":" + "00:00") == "12:00:00";
    assert "01" + (" " + "12:00:00") == "01 12:00:00";
    assert "01" + ("-" + "01 12:00:00") == "01-01 12:00:00";
    assert "2025" + ("-" + "01-01 12:00:00") == "2025-01-01 12:00:00";
  }
}
