/** Scalar values of a table cell and their text forms: what `astype(str)` and
    `strftime` produce for them (export_to_s3.py:67, 83, 85, 87). */
module Values {

  datatype CalendarDate = CalendarDate(year: nat, month: nat, day: nat)

  /** A naive date-time at whole-second resolution. */
  datatype Timestamp = Timestamp(date: CalendarDate, hour: nat, minute: nat, second: nat)

  /** One cell of a table: the dynamically typed value a row carries.
      `Null` is the missing value of its column (`None` in an object column,
      `pd.NA` in an `Int64` column, `NaT` in a `datetime64` column); `NaN`
      is the float NaN that `strftime` leaves for a `NaT`. */
  datatype Cell =
    | Int(i: int)
    | Text(s: string)
    | Bool(b: bool)
    | Date(d: CalendarDate)
    | DateTime(t: Timestamp)
    | Null
    | NaN

  /** The storage type of a column, as far as the passes look at it. */
  datatype DType = ObjectDType | BoolDType | Int64DType | NullableInt64DType | DateTimeDType

  // ---------------------------------------------------------------- digits

  predicate IsDigit(c: char) {
    '0' <= c <= '9'
  }

  predicate AllDigits(s: string) {
    forall i :: 0 <= i < |s| ==> IsDigit(s[i])
  }

  function DigitChar(d: nat): (c: char)
    requires d < 10
    ensures IsDigit(c)
  {
    ('0' as int + d) as char
  }

  function DigitValue(c: char): (d: nat)
    requires IsDigit(c)
    ensures d < 10 && DigitChar(d) == c
  {
    c as int - '0' as int
  }

  /** The number a string of decimal digits denotes (most significant first). */
  function DigitsValue(s: string): nat
    requires AllDigits(s)
  {
    if s == [] then 0 else DigitsValue(s[..|s| - 1]) * 10 + DigitValue(s[|s| - 1])
  }

  function Pow10(n: nat): (p: nat)
    ensures p >= 1
  {
    if n == 0 then 1 else 10 * Pow10(n - 1)
  }

  /** Shortest decimal text of a natural number, as Python's `str` writes it. */
  function NatText(n: nat): string
    decreases n
  {
    if n < 10 then [DigitChar(n)] else NatText(n / 10) + [DigitChar(n % 10)]
  }

  /** Python's `str` of an integer. */
  function IntText(i: int): string {
    if i < 0 then "-" + NatText(-i) else NatText(i)
  }

  /** The low `width` decimal digits of `n`, zero-padded: `%04d`, `%02d`. */
  function PadDigits(n: nat, width: nat): string {
    if width == 0 then [] else PadDigits(n / 10, width - 1) + [DigitChar(n % 10)]
  }

  lemma {:induction false} NatTextDigits(n: nat)
    ensures AllDigits(NatText(n)) && |NatText(n)| >= 1
    ensures DigitsValue(NatText(n)) == n
    ensures NatText(n)[0] != '0' || n == 0
    decreases n
  {
    if n >= 10 {
      NatTextDigits(n / 10);
      var s := NatText(n);
      assert s[..|s| - 1] == NatText(n / 10);
    }
  }

  /** Zero-padded digits of a number below 10^width read back as that number. */
  lemma {:induction false} PadDigitsValue(n: nat, width: nat)
    requires n < Pow10(width)
    ensures |PadDigits(n, width)| == width && AllDigits(PadDigits(n, width))
    ensures DigitsValue(PadDigits(n, width)) == n
  {
    if width > 0 {
      PadDigitsValue(n / 10, width - 1);
      var s := PadDigits(n, width);
      assert s[..|s| - 1] == PadDigits(n / 10, width - 1);
    }
  }

  // ---------------------------------------------------------------- calendar

  predicate IsLeapYear(y: nat) {
    y % 4 == 0 && (y % 100 != 0 || y % 400 == 0)
  }

  function DaysInMonth(y: nat, m: nat): nat
    requires 1 <= m <= 12
  {
    if m == 2 then (if IsLeapYear(y) then 29 else 28)
    else if m == 4 || m == 6 || m == 9 || m == 11 then 30
    else 31
  }

  /** A date Python's `datetime.date` can hold. */
  predicate ValidDate(d: CalendarDate) {
    1 <= d.year <= 9999 && 1 <= d.month <= 12 && 1 <= d.day <= DaysInMonth(d.year, d.month)
  }

  predicate ValidClock(t: Timestamp) {
    ValidDate(t.date) && t.hour < 24 && t.minute < 60 && t.second < 60
  }

  /** Position of a well-formed timestamp on the time line, for comparisons. */
  function Ordinal(t: Timestamp): int {
    ((((t.date.year * 13 + t.date.month) * 32 + t.date.day) * 24 + t.hour) * 60 + t.minute) * 60 + t.second
  }

  /** First and last whole seconds a pandas nanosecond timestamp can hold
      (1677-09-21 00:12:43.145224193 to 2262-04-11 23:47:16.854775807). */
  const EarliestTimestamp := Timestamp(CalendarDate(1677, 9, 21), 0, 12, 44)
  const LatestTimestamp := Timestamp(CalendarDate(2262, 4, 11), 23, 47, 16)

  /** A date-time pandas can represent; anything else parses to NaT. */
  predicate ValidTimestamp(t: Timestamp) {
    ValidClock(t) && Ordinal(EarliestTimestamp) <= Ordinal(t) <= Ordinal(LatestTimestamp)
  }

  lemma ValidTimestampYear(t: Timestamp)
    requires ValidTimestamp(t)
    ensures 1677 <= t.date.year <= 2262
  {
  }

  function Midnight(d: CalendarDate): Timestamp {
    Timestamp(d, 0, 0, 0)
  }

  // ---------------------------------------------------------------- text forms

  /** `%Y-%m-%d`, which is also Python's `str` of a date. */
  function DateText(d: CalendarDate): string {
    PadDigits(d.year, 4) + "-" + PadDigits(d.month, 2) + "-" + PadDigits(d.day, 2)
  }

  /** `%H:%M:%S`. */
  function ClockText(t: Timestamp): string {
    PadDigits(t.hour, 2) + ":" + PadDigits(t.minute, 2) + ":" + PadDigits(t.second, 2)
  }

  /** `%Y-%m-%d %H:%M:%S`, which is also `str` of a timestamp without fraction. */
  function TimestampText(t: Timestamp): string {
    DateText(t.date) + " " + ClockText(t)
  }

  /** The shape `YYYY-MM-DD`: ten characters, dashes at 4 and 7, digits elsewhere. */
  predicate IsDateShape(s: string) {
    |s| == 10 && s[4] == '-' && s[7] == '-' &&
    AllDigits(s[0..4]) && AllDigits(s[5..7]) && AllDigits(s[8..10])
  }

  /** The shape `YYYY-MM-DD HH:MM:SS`: nineteen characters, no zone suffix. */
  predicate IsTimestampShape(s: string) {
    |s| == 19 && IsDateShape(s[..10]) && s[10] == ' ' && s[13] == ':' && s[16] == ':' &&
    AllDigits(s[11..13]) && AllDigits(s[14..16]) && AllDigits(s[17..19])
  }

  /** Where the three fields of `x-y-z` (any one-character separator) sit. */
  lemma ThreeFields(x: string, y: string, z: string, sep: string)
    requires |sep| == 1
    ensures |x + sep + y + sep + z| == |x| + |y| + |z| + 2
    ensures (x + sep + y + sep + z)[0..|x|] == x
    ensures (x + sep + y + sep + z)[|x|] == sep[0]
    ensures (x + sep + y + sep + z)[|x| + 1..|x| + 1 + |y|] == y
    ensures (x + sep + y + sep + z)[|x| + 1 + |y|] == sep[0]
    ensures (x + sep + y + sep + z)[|x| + |y| + 2..] == z
  {
    var s := x + sep + y + sep + z;
    assert s == x + (sep + (y + (sep + z)));
  }

  /** A slice of the right operand of a concatenation. */
  lemma SliceOfRight(a: string, b: string, i: nat, j: nat)
    requires i <= j <= |b|
    ensures (a + b)[|a| + i..|a| + j] == b[i..j]
  {
  }

  lemma DateTextShape(d: CalendarDate)
    requires ValidDate(d)
    ensures IsDateShape(DateText(d))
    ensures DigitsValue(DateText(d)[0..4]) == d.year
    ensures DigitsValue(DateText(d)[5..7]) == d.month
    ensures DigitsValue(DateText(d)[8..10]) == d.day
  {
    PadDigitsValue(d.year, 4);
    PadDigitsValue(d.month, 2);
    PadDigitsValue(d.day, 2);
    ThreeFields(PadDigits(d.year, 4), PadDigits(d.month, 2), PadDigits(d.day, 2), "-");
  }

  lemma ClockTextShape(t: Timestamp)
    requires ValidClock(t)
    ensures |ClockText(t)| == 8 && ClockText(t)[2] == ':' && ClockText(t)[5] == ':'
    ensures AllDigits(ClockText(t)[0..2]) && DigitsValue(ClockText(t)[0..2]) == t.hour
    ensures AllDigits(ClockText(t)[3..5]) && DigitsValue(ClockText(t)[3..5]) == t.minute
    ensures AllDigits(ClockText(t)[6..8]) && DigitsValue(ClockText(t)[6..8]) == t.second
  {
    PadDigitsValue(t.hour, 2);
    PadDigitsValue(t.minute, 2);
    PadDigitsValue(t.second, 2);
    ThreeFields(PadDigits(t.hour, 2), PadDigits(t.minute, 2), PadDigits(t.second, 2), ":");
  }

  lemma TimestampTextShape(t: Timestamp)
    requires ValidClock(t)
    ensures IsTimestampShape(TimestampText(t))
    ensures TimestampText(t)[..10] == DateText(t.date)
    ensures DigitsValue(TimestampText(t)[11..13]) == t.hour
    ensures DigitsValue(TimestampText(t)[14..16]) == t.minute
    ensures DigitsValue(TimestampText(t)[17..19]) == t.second
  {
    var d := DateText(t.date);
    var c := ClockText(t);
    DateTextShape(t.date);
    ClockTextShape(t);
    var a := d + " ";
    assert TimestampText(t) == a + c;
    assert (a + c)[..10] == d;
    SliceOfRight(a, c, 0, 2);
    SliceOfRight(a, c, 3, 5);
    SliceOfRight(a, c, 6, 8);
  }

  /** Python's `str` of the object the cell holds, as `astype(str)` writes it
      in an object or bool column, where a missing value is `None`. */
  function TextOf(c: Cell): (r: string)
    ensures c.Text? ==> r == c.s
    ensures c.Int? ==> |r| >= 1 && (r[0] == '-' <==> c.i < 0)
    ensures c.Int? && c.i >= 0 ==> AllDigits(r) && DigitsValue(r) == c.i
    ensures c.Date? && ValidDate(c.d) ==> IsDateShape(r)
    ensures c.DateTime? && ValidClock(c.t) ==> IsTimestampShape(r)
  {
    match c
    case Int(i) =>
      NatTextDigits(if i < 0 then -i else i);
      IntText(i)
    case Text(s) => s
    case Bool(b) => if b then "True" else "False"
    case Date(d) =>
      if ValidDate(d) then DateTextShape(d); DateText(d) else DateText(d)
    case DateTime(t) =>
      if ValidClock(t) then TimestampTextShape(t); TimestampText(t) else TimestampText(t)
    case Null => "None"
    case NaN => "nan"
  }

  predicate ValidCell(c: Cell) {
    match c
    case Date(d) => ValidDate(d)
    case DateTime(t) => ValidTimestamp(t)
    case _ => true
  }
}
