/** The per-value casts of `cast_types` (export_to_s3.py:80-87): what each
    declared type makes of one cell. */
module Casts {
  import opened Wrappers
  import opened Values
  import opened Parsing
  import opened Epoch
  import Sanitize

  /** The branches of `cast_types`: the declared type names it tests for, and
      the `else` branch every other name falls into. */
  datatype CastKind = ToInt | ToDate | ToTimestamp | ToText

  function KindOf(typ: string): (k: CastKind)
    ensures k == ToInt <==> typ == "int"
    ensures k == ToDate <==> typ == "date"
    ensures k == ToTimestamp <==> typ == "timestamp"
  {
    if typ == "int" then ToInt
    else if typ == "date" then ToDate
    else if typ == "timestamp" then ToTimestamp
    else ToText
  }

  /** A type name outside "int", "date" and "timestamp" (the "string" of the
      schemas, a misspelling, anything) takes the text branch. */
  lemma OtherTypesCastToText(typ: string)
    requires typ != "int" && typ != "date" && typ != "timestamp"
    ensures KindOf(typ) == ToText
  {
  }

  // ---------------------------------------------------------------- int

  const Int64Min: int := -0x8000_0000_0000_0000
  const Int64Max: int := 0x7FFF_FFFF_FFFF_FFFF

  predicate InInt64(i: int) {
    Int64Min <= i <= Int64Max
  }

  const FractionRefused := "cannot safely cast non-equivalent float64 to int64"
  const OverflowRefused := "value out of range for Int64"

  /** One value through `pd.to_numeric(errors="coerce")` and then
      `astype("Int64")`: whole numbers stay or become integers, what is not
      numeric becomes a missing value, and a number with a fraction or
      outside 64 bits makes the conversion raise. */
  function CastIntCell(c: Cell): (r: Result<Cell>)
    ensures r.Ok? ==> r.value.Int? || r.value.Null?
    ensures r.Ok? && r.value.Int? ==> InInt64(r.value.i)
  {
    match c
    case Int(i) => if InInt64(i) then Ok(Int(i)) else Err(OverflowRefused)
    case Bool(b) => Ok(Int(if b then 1 else 0))
    case Text(s) =>
      (match ParseNumeric(s)
       case Whole(v) => if InInt64(v) then Ok(Int(v)) else Err(OverflowRefused)
       case Fractional => Err(FractionRefused)
       case NotNumeric => Ok(Null))
    case Date(_) => Ok(Null)
    case DateTime(_) => Ok(Null)
    case Null => Ok(Null)
    case NaN => Ok(Null)
  }

  /** Text holding a whole number in 64-bit range becomes that integer. */
  lemma CastIntOfWholeText(i: int)
    requires InInt64(i)
    ensures CastIntCell(Text(IntText(i))) == Ok(Int(i))
  {
    ParseNumericIntText(i);
  }

  /** Text that the decimal reader rejects, because it holds a character
      other than a digit, `.`, `-` or `+`, becomes a missing value, never an
      error and never zero. */
  lemma CastIntOfNonNumericText(s: string, k: nat)
    requires k < |s| && !IsDigit(s[k]) && s[k] != '.' && s[k] != '-' && s[k] != '+'
    ensures CastIntCell(Text(s)) == Ok(Null)
  {
    ParseNumericForeignChar(s, k);
  }

  /** The text "None" that cleaning writes for a missing object value is
      cast to a missing integer, which is distinct from 0. */
  lemma CastIntOfNoneText()
    ensures CastIntCell(Text("None")) == Ok(Null)
    ensures CastIntCell(Text("None")) != Ok(Int(0))
  {
    CastIntOfNonNumericText("None", 0);
  }

  /** Casting an already cast integer column again changes nothing. */
  lemma CastIntIdempotent(c: Cell)
    requires CastIntCell(c).Ok?
    ensures CastIntCell(CastIntCell(c).value) == CastIntCell(c)
  {
  }

  // ---------------------------------------------------------------- date, timestamp

  /** `pd.to_datetime(errors="coerce")` of one integer: a count of
      nanoseconds since the epoch. The smallest 64-bit integer is the code of
      NaT itself, and a count outside 64 bits, or one whose second lies outside
      what `ValidTimestamp` admits, is NaT. */
  function IntTimestamp(i: int): (r: Option<Timestamp>)
    ensures r.Some? ==> ValidTimestamp(r.value) && Int64Min < i <= Int64Max
    ensures r.Some? ==> EpochSeconds(r.value) == i / NanosPerSecond
  {
    if InInt64(i) && i != Int64Min then
      var t := NanosTimestamp(i);
      EpochRoundTrip(i / NanosPerSecond);
      if ValidTimestamp(t) then Some(t) else None
    else None
  }

  /** Every 64-bit nanosecond count that falls within a representable
      second reads back as that second. */
  lemma IntTimestampOfEpoch(t: Timestamp, i: int)
    requires ValidTimestamp(t) && Int64Min < i <= Int64Max
    requires i / NanosPerSecond == EpochSeconds(t)
    ensures IntTimestamp(i) == Some(t)
  {
    TimestampRoundTrip(t);
  }

  /** The integer 64-bit code of NaT and counts beyond 64 bits are NaT. */
  lemma IntTimestampOutOfRange(i: int)
    requires i == Int64Min || !InInt64(i)
    ensures IntTimestamp(i) == None
  {
  }

  /** `pd.to_datetime(errors="coerce")` of one value: text is parsed, an
      integer counts nanoseconds since the epoch, and `None`, `pd.NA`, `NaT`
      and NaN are NaT. A boolean cannot be converted, so the coercion makes it
      NaT as well. */
  function AsTimestamp(c: Cell): (r: Option<Timestamp>)
    ensures r.Some? ==> ValidTimestamp(r.value)
    ensures c.Bool? || c.Null? || c.NaN? ==> r == None
  {
    match c
    case Text(s) => ParseTimestamp(s)
    case Int(i) => IntTimestamp(i)
    case Date(d) => if ValidTimestamp(Midnight(d)) then Some(Midnight(d)) else None
    case DateTime(t) => if ValidTimestamp(t) then Some(t) else None
    case _ => None
  }

  /** `pd.to_datetime(..., errors="coerce").dt.strftime("%Y-%m-%d")` of one
      value: a `YYYY-MM-DD` text exactly when the value parses, else missing. */
  function CastDateCell(c: Cell): (r: Cell)
    ensures r.NaN? <==> AsTimestamp(c).None?
    ensures r.Text? ==> IsDateShape(r.s)
    ensures r.Text? || r.NaN?
  {
    match AsTimestamp(c)
    case None => NaN
    case Some(t) =>
      DateTextShape(t.date);
      Text(DateText(t.date))
  }

  /** `... .dt.strftime("%Y-%m-%d %H:%M:%S")` of one value: a nineteen
      character date-time without zone exactly when the value parses. */
  function CastTimestampCell(c: Cell): (r: Cell)
    ensures r.NaN? <==> AsTimestamp(c).None?
    ensures r.Text? ==> IsTimestampShape(r.s)
    ensures r.Text? || r.NaN?
  {
    match AsTimestamp(c)
    case None => NaN
    case Some(t) =>
      TimestampTextShape(t);
      Text(TimestampText(t))
  }

  /** The timestamp cast loses nothing: its text reads back as the parsed
      date-time, so casting a second time changes nothing. */
  lemma CastTimestampLossless(c: Cell)
    ensures CastTimestampCell(c).Text? ==> AsTimestamp(CastTimestampCell(c)) == AsTimestamp(c)
    ensures CastTimestampCell(CastTimestampCell(c)) == CastTimestampCell(c)
  {
    if AsTimestamp(c).Some? {
      ParseTimestampText(AsTimestamp(c).value);
    }
  }

  /** The date cast keeps the calendar date: its text reads back as midnight
      of the parsed date, so a second date cast changes nothing, except on
      1677-09-21, whose midnight lies before the first representable instant.
      A value that does not parse gives NaN both times. */
  lemma CastDateLossless(c: Cell)
    requires AsTimestamp(c).Some? ==> AsTimestamp(c).value.date != EarliestTimestamp.date
    ensures CastDateCell(c).Text? ==> AsTimestamp(CastDateCell(c)) == Some(Midnight(AsTimestamp(c).value.date))
    ensures CastDateCell(CastDateCell(c)) == CastDateCell(c)
  {
    if AsTimestamp(c).Some? {
      var t := AsTimestamp(c).value;
      MidnightValid(t);
      ParseDateText(t.date);
    }
  }

  /** On 1677-09-21 the date cast is not idempotent: the first cast yields the
      date text, the second reads it as an out-of-range midnight and yields
      NaN. */
  lemma CastDateFirstDay()
    ensures CastDateCell(DateTime(Timestamp(CalendarDate(1677, 9, 21), 1, 0, 0))) == Text("1677-09-21")
    ensures CastDateCell(Text("1677-09-21")) == NaN
  {
    var d := CalendarDate(1677, 9, 21);
    var t := Timestamp(d, 1, 0, 0);
    assert ValidTimestamp(t);
    FirstDayText();
    FirstDayMidnightUnrepresentable();
    ParseDateShapeOnly("1677-09-21", d);
  }

  /** An integer column declared "date" or "timestamp" is read as
      nanoseconds since the epoch: 5 is a moment of 1970-01-01, -1 the last
      second of 1969, and the smallest 64-bit integer is NaT. */
  lemma IntegerDates()
    ensures CastDateCell(Int(5)) == Text("1970-01-01")
    ensures CastTimestampCell(Int(-1)) == Text("1969-12-31 23:59:59")
    ensures CastDateCell(Int(Int64Min)) == NaN
  {
    EpochDay();
    LastSecondOf1969();
  }

  const EpochStart := Timestamp(CalendarDate(1970, 1, 1), 0, 0, 0)
  const LastOf1969 := Timestamp(CalendarDate(1969, 12, 31), 23, 59, 59)

  lemma EpochDay()
    ensures IntTimestamp(5) == Some(EpochStart)
    ensures DateText(EpochStart.date) == "1970-01-01"
  {
    assert YearOf(0) == 1970;
    assert CivilFromDays(0) == CalendarDate(1970, 1, 1);
    assert EpochTimestamp(0) == EpochStart;
    assert ValidTimestamp(EpochStart);
    IntTimestampOfEpoch(EpochStart, 5);
    EpochStartText();
  }

  lemma EpochStartText()
    ensures DateText(CalendarDate(1970, 1, 1)) == "1970-01-01"
  {
    assert PadDigits(1970, 4) == "1970";
    assert PadDigits(1, 2) == "01";
  }

  lemma LastDayOf1969()
    ensures CivilFromDays(-1) == CalendarDate(1969, 12, 31)
  {
    assert YearOf(-1) == 1969;
    assert DaysBeforeYear(1969) == -365;
    MonthsOfYear(1969);
    var d := MonthDay(1969, 1, 364);
    MonthDayUnique(1969, d.month, d.day, 12, 31);
  }

  lemma LastSecondOf1969()
    ensures IntTimestamp(-1) == Some(LastOf1969)
    ensures TimestampText(LastOf1969) == "1969-12-31 23:59:59"
  {
    LastDayOf1969();
    assert -1 / NanosPerSecond == -1;
    assert EpochTimestamp(-1) == LastOf1969;
    assert ValidTimestamp(LastOf1969);
    IntTimestampOfEpoch(LastOf1969, -1);
    LastDateOf1969Text();
    LastClockOf1969Text();
  }

  lemma LastDateOf1969Text()
    ensures DateText(CalendarDate(1969, 12, 31)) == "1969-12-31"
  {
    assert PadDigits(1969, 4) == "1969";
    assert PadDigits(12, 2) == "12";
    assert PadDigits(31, 2) == "31";
  }

  lemma LastClockOf1969Text()
    ensures ClockText(Timestamp(CalendarDate(1969, 12, 31), 23, 59, 59)) == "23:59:59"
  {
    assert PadDigits(23, 2) == "23";
    assert PadDigits(59, 2) == "59";
  }

  lemma FirstDayText()
    ensures DateText(CalendarDate(1677, 9, 21)) == "1677-09-21"
  {
    assert PadDigits(1677, 4) == "1677";
    assert PadDigits(9, 2) == "09";
    assert PadDigits(21, 2) == "21";
  }

  /** A bare date text parses to midnight of that date when it is
      representable and to nothing otherwise. */
  lemma ParseDateShapeOnly(s: string, d: CalendarDate)
    requires s == DateText(d) && ValidDate(d)
    ensures ParseTimestamp(s) == if ValidTimestamp(Midnight(d)) then Some(Midnight(d)) else None
  {
    DateTextShape(d);
    assert s[10..] == [];
  }

  // ---------------------------------------------------------------- text

  /** What `astype(str)` writes for the missing value of a column: `pd.NA`
      prints as `<NA>`, `NaT` as `NaT` and `None` as `None`. */
  function MissingText(dtype: DType): string {
    match dtype
    case NullableInt64DType => "<NA>"
    case DateTimeDType => "NaT"
    case _ => "None"
  }

  /** `astype(str)` of one value of a column with storage type `dtype`. */
  function CastTextCell(dtype: DType, c: Cell): (r: Cell)
    ensures r.Text?
    ensures c.Text? ==> r == c
  {
    if c.Null? then Text(MissingText(dtype)) else Text(TextOf(c))
  }

  /** A date-time whose clock reads 00:00:00. */
  predicate IsMidnight(t: Timestamp) {
    t.hour == 0 && t.minute == 0 && t.second == 0
  }

  /** `astype(str)` prints a `datetime64` column as dates alone when every
      value in it that is not NaT falls at midnight. */
  predicate DatesOnly(dtype: DType, cells: seq<Cell>) {
    dtype == DateTimeDType && forall i :: 0 <= i < |cells| && cells[i].DateTime? ==> IsMidnight(cells[i].t)
  }

  /** `astype(str)` of one value of a column, where `datesOnly` says whether
      the column prints as dates alone: a date-time then loses its clock part,
      and every other value is written as `CastTextCell` writes it. */
  function CastColumnTextCell(dtype: DType, datesOnly: bool, c: Cell): (r: Cell)
    ensures r.Text?
    ensures !(datesOnly && c.DateTime?) ==> r == CastTextCell(dtype, c)
    ensures datesOnly && c.DateTime? && IsMidnight(c.t) ==> TimestampText(c.t) == r.s + " 00:00:00"
    ensures datesOnly && c.DateTime? && ValidDate(c.t.date) ==> IsDateShape(r.s)
  {
    if datesOnly && c.DateTime? then
      MidnightText(c.t);
      Text(DateText(c.t.date))
    else CastTextCell(dtype, c)
  }

  /** The text of a midnight is its date text followed by ` 00:00:00`, and
      that date text has the `YYYY-MM-DD` shape when the date is valid. */
  lemma MidnightText(t: Timestamp)
    ensures IsMidnight(t) ==> TimestampText(t) == DateText(t.date) + " 00:00:00"
    ensures ValidDate(t.date) ==> IsDateShape(DateText(t.date))
  {
    if ValidDate(t.date) {
      DateTextShape(t.date);
    }
    if IsMidnight(t) {
      assert PadDigits(0, 2) == "00";
      assert ClockText(t) == "00:00:00";
    }
  }

  /** Booleans become the Python spellings "True" and "False", not JSON
      booleans. */
  lemma CastTextOfBool(dtype: DType, b: bool)
    ensures CastTextCell(dtype, Bool(b)) == Text(if b then "True" else "False")
  {
  }

  /** A missing value is written the way its column prints it, so the same
      missing value gives different texts in different columns. */
  lemma CastTextOfMissing()
    ensures CastTextCell(NullableInt64DType, Null) == Text("<NA>")
    ensures CastTextCell(DateTimeDType, Null) == Text("NaT")
    ensures CastTextCell(ObjectDType, Null) == Text("None")
    ensures CastTextCell(ObjectDType, NaN) == Text("nan")
  {
  }

  lemma {:induction false} PadDigitsPrintable(n: nat, width: nat)
    ensures Sanitize.AllPrintable(PadDigits(n, width))
  {
    if width > 0 {
      PadDigitsPrintable(n / 10, width - 1);
    }
  }

  lemma {:induction false} NatTextPrintable(n: nat)
    ensures Sanitize.AllPrintable(NatText(n))
    decreases n
  {
    if n >= 10 {
      NatTextPrintable(n / 10);
    }
  }

  lemma JoinPrintable(a: string, b: string, c: string)
    requires Sanitize.AllPrintable(a) && Sanitize.AllPrintable(b) && Sanitize.AllPrintable(c)
    ensures Sanitize.AllPrintable(a + b + c)
  {
  }

  lemma DateTextPrintable(d: CalendarDate)
    ensures Sanitize.AllPrintable(DateText(d))
  {
    PadDigitsPrintable(d.year, 4);
    PadDigitsPrintable(d.month, 2);
    PadDigitsPrintable(d.day, 2);
    JoinPrintable(PadDigits(d.year, 4), "-", PadDigits(d.month, 2));
    JoinPrintable(PadDigits(d.year, 4) + "-" + PadDigits(d.month, 2), "-", PadDigits(d.day, 2));
  }

  lemma TimestampTextPrintable(t: Timestamp)
    ensures Sanitize.AllPrintable(TimestampText(t))
  {
    DateTextPrintable(t.date);
    PadDigitsPrintable(t.hour, 2);
    PadDigitsPrintable(t.minute, 2);
    PadDigitsPrintable(t.second, 2);
    JoinPrintable(PadDigits(t.hour, 2), ":", PadDigits(t.minute, 2));
    JoinPrintable(PadDigits(t.hour, 2) + ":" + PadDigits(t.minute, 2), ":", PadDigits(t.second, 2));
    JoinPrintable(DateText(t.date), " ", ClockText(t));
  }

  /** The text form of every value that is not already text is printable
      ASCII. */
  lemma TextOfPrintable(c: Cell)
    requires !c.Text?
    ensures Sanitize.AllPrintable(TextOf(c))
  {
    match c
    case Int(i) =>
      NatTextPrintable(if i < 0 then -i else i);
    case Date(d) =>
      DateTextPrintable(d);
    case DateTime(t) =>
      TimestampTextPrintable(t);
    case _ =>
  }

  /** The text cast of a value that is not already text is printable ASCII,
      whatever the column. */
  lemma CastTextPrintable(dtype: DType, c: Cell)
    requires !c.Text?
    ensures Sanitize.AllPrintable(CastTextCell(dtype, c).s)
  {
    if !c.Null? {
      TextOfPrintable(c);
    }
  }
}
