/** Restricted stand-ins for the two pandas parsers the caster relies on:
    `pd.to_numeric` on text (export_to_s3.py:81) and `pd.to_datetime` on text
    (export_to_s3.py:83, 85), both with `errors="coerce"`. */
module Parsing {
  import opened Wrappers
  import opened Values

  /** What numeric parsing makes of a text value. `Whole` covers integral
      values written with or without a zero fraction ("42", "-7", "3.0");
      `Fractional` is a number with a non-zero fraction, which the later
      `astype("Int64")` refuses; `NotNumeric` is coerced to a missing value. */
  datatype Numeric = Whole(value: int) | Fractional | NotNumeric

  predicate AllZeros(s: string) {
    forall i :: 0 <= i < |s| ==> s[i] == '0'
  }

  /** Index of the first '.', if any. */
  function DotIndex(s: string): (r: Option<nat>)
    ensures r.Some? ==> r.value < |s| && s[r.value] == '.' && '.' !in s[..r.value]
    ensures r.None? ==> '.' !in s
  {
    if s == [] then None
    else if s[0] == '.' then Some(0)
    else match DotIndex(s[1..])
      case None => None
      case Some(k) => Some(k + 1)
  }

  /** Decimal text: an optional sign, digits, and an optional fraction
      introduced by '.', with at least one digit in all. Plain digits are
      read as their decimal value, and the empty text is not a number. */
  function ParseNumeric(s: string): (r: Numeric)
    ensures |s| > 0 && AllDigits(s) ==> r == Whole(DigitsValue(s))
    ensures s == [] ==> r == NotNumeric
  {
    var negative := |s| > 0 && s[0] == '-';
    var body := if |s| > 0 && (s[0] == '-' || s[0] == '+') then s[1..] else s;
    var dot := DotIndex(body);
    var whole := if dot.Some? then body[..dot.value] else body;
    var fraction := if dot.Some? then body[dot.value + 1..] else [];
    if !AllDigits(whole) || !AllDigits(fraction) || |whole| + |fraction| == 0 then NotNumeric
    else if !AllZeros(fraction) then Fractional
    else Whole(if negative then -(DigitsValue(whole) as int) else DigitsValue(whole))
  }

  /** Python's text of an integer is read back as that integer. */
  lemma ParseNumericIntText(i: int)
    ensures ParseNumeric(IntText(i)) == Whole(i)
  {
    var s := IntText(i);
    var n: nat := if i < 0 then -i else i;
    NatTextDigits(n);
    var digits := NatText(n);
    var body := if |s| > 0 && (s[0] == '-' || s[0] == '+') then s[1..] else s;
    if i < 0 {
      assert s[0] == '-' && s[1..] == digits;
    } else {
      assert IsDigit(s[0]);
    }
    assert body == digits;
    assert forall k :: 0 <= k < |body| ==> body[k] != '.';
  }

  /** A character other than a digit, `.`, `-` or `+` makes the decimal
      reader reject the text: "None", "True", "abc" are not numeric to it. */
  lemma ParseNumericForeignChar(s: string, k: nat)
    requires k < |s| && !IsDigit(s[k]) && s[k] != '.' && s[k] != '-' && s[k] != '+'
    ensures ParseNumeric(s) == NotNumeric
  {
    var body := if |s| > 0 && (s[0] == '-' || s[0] == '+') then s[1..] else s;
    var j := if |s| > 0 && (s[0] == '-' || s[0] == '+') then k - 1 else k;
    assert 0 <= j < |body| && body[j] == s[k];
    var dot := DotIndex(body);
    if dot.Some? {
      if j < dot.value {
        assert body[..dot.value][j] == s[k];
      } else {
        assert j > dot.value;
        assert body[dot.value + 1..][j - dot.value - 1] == s[k];
      }
    } else {
      assert body[j] == s[k];
    }
  }

  // ---------------------------------------------------------------- date-times

  /** Text that starts with `YYYY-MM-DD`. */
  predicate StartsWithDate(s: string) {
    |s| >= 10 && s[4] == '-' && s[7] == '-' &&
    AllDigits(s[0..4]) && AllDigits(s[5..7]) && AllDigits(s[8..10])
  }

  /** Text that starts with a space or `T` and then `HH:MM:SS`. */
  predicate StartsWithClock(s: string) {
    |s| >= 9 && (s[0] == ' ' || s[0] == 'T') && s[3] == ':' && s[6] == ':' &&
    AllDigits(s[1..3]) && AllDigits(s[4..6]) && AllDigits(s[7..9])
  }

  /** Number of leading decimal digits. */
  function LeadingDigits(s: string): (n: nat)
    ensures n <= |s| && AllDigits(s[..n]) && (n < |s| ==> !IsDigit(s[n]))
  {
    if s == [] || !IsDigit(s[0]) then 0 else 1 + LeadingDigits(s[1..])
  }

  /** A UTC offset suffix: nothing, `Z`, `+HH`, `+HHMM` or `+HH:MM` (or `-`). */
  predicate IsZoneSuffix(s: string) {
    s == [] || s == "Z" ||
    ((|s| == 3 || |s| == 5 || |s| == 6) && (s[0] == '+' || s[0] == '-') &&
     AllDigits(s[1..3]) &&
     (|s| == 5 ==> AllDigits(s[3..5])) &&
     (|s| == 6 ==> s[3] == ':' && AllDigits(s[4..6])))
  }

  /** What may follow the seconds: an optional fraction `.ddd` and an
      optional zone suffix. Both are dropped by the later formatting. */
  predicate IsClockTrailer(s: string) {
    IsZoneSuffix(s) ||
    (|s| >= 2 && s[0] == '.' && LeadingDigits(s[1..]) >= 1 &&
     IsZoneSuffix(s[1 + LeadingDigits(s[1..])..]))
  }

  /** The time of day after the date part: nothing (midnight), or a space or
      `T` followed by `HH:MM:SS` and a trailer. */
  function ParseClock(s: string): Option<(nat, nat, nat)> {
    if s == [] then Some((0, 0, 0))
    else if StartsWithClock(s) && IsClockTrailer(s[9..]) then
      Some((DigitsValue(s[1..3]), DigitsValue(s[4..6]), DigitsValue(s[7..9])))
    else None
  }

  /** `pd.to_datetime(..., errors="coerce")` on one text value, restricted to
      ISO-style input: a value that is not of that form, is not a real
      calendar date or time, or lies outside the pandas timestamp range is
      `None` (NaT). */
  function ParseTimestamp(s: string): (r: Option<Timestamp>)
    ensures r.Some? ==> ValidTimestamp(r.value)
  {
    if !StartsWithDate(s) then None
    else
      var d := CalendarDate(DigitsValue(s[0..4]), DigitsValue(s[5..7]), DigitsValue(s[8..10]));
      match ParseClock(s[10..])
      case None => None
      case Some(hms) =>
        var t := Timestamp(d, hms.0, hms.1, hms.2);
        if ValidTimestamp(t) then Some(t) else None
  }

  /** The date-time text the timestamp cast writes is read back as the same
      date-time. */
  lemma ParseTimestampText(t: Timestamp)
    requires ValidTimestamp(t)
    ensures ParseTimestamp(TimestampText(t)) == Some(t)
  {
    var s := TimestampText(t);
    TimestampTextShape(t);
    DateTextShape(t.date);
    assert s[..10][0..4] == s[0..4] && s[..10][5..7] == s[5..7] && s[..10][8..10] == s[8..10];
    var rest := s[10..];
    assert rest[1..3] == s[11..13] && rest[4..6] == s[14..16] && rest[7..9] == s[17..19];
    assert rest[9..] == [];
  }

  /** The date text the date cast writes is read back as midnight of that
      date, provided midnight itself is a representable timestamp. */
  lemma ParseDateText(d: CalendarDate)
    requires ValidTimestamp(Midnight(d))
    ensures ParseTimestamp(DateText(d)) == Some(Midnight(d))
  {
    var s := DateText(d);
    DateTextShape(d);
    assert s[10..] == [];
  }

  /** Midnight of the first representable day is too early: the one date on
      which re-reading a formatted date loses it. */
  lemma FirstDayMidnightUnrepresentable()
    ensures !ValidTimestamp(Midnight(EarliestTimestamp.date))
  {
  }

  /** A date text stays representable at midnight unless it is the first
      representable day. */
  lemma MidnightValid(t: Timestamp)
    requires ValidTimestamp(t) && t.date != EarliestTimestamp.date
    ensures ValidTimestamp(Midnight(t.date))
  {
  }
}
