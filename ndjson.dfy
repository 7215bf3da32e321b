/** `export_to_ndjson` (export_to_s3.py:91-95): one JSON object per row, one
    row per line. The writer follows `json.dumps(..., ensure_ascii=False)`
    for the values a normalised table holds; the reader below accepts exactly
    what the writer emits and is there to state what a line means. */
module Ndjson {
  import opened Wrappers
  import opened Values
  import opened Frames
  import Parsing

  /** The JSON values the cells of a row are written as. `JNaN` is the bare
      token `NaN` that `json.dumps` writes for a float NaN. */
  datatype Json = JNull | JBool(b: bool) | JInt(i: int) | JString(s: string) | JNaN

  /** One entry of `row.to_dict()`: a column name and its value. */
  type Member = (string, Json)

  // ---------------------------------------------------------------- writer

  const HexDigits := "0123456789abcdef"

  /** How `json.dumps` writes one character of a string when non-ASCII text
      is kept as it is: quote, backslash and the control characters below
      0x20 are escaped, everything else is copied. */
  function EscapeChar(c: char): string {
    if c == '"' then "\\\""
    else if c == '\\' then "\\\\"
    else if c == '\n' then "\\n"
    else if c == '\r' then "\\r"
    else if c == '\t' then "\\t"
    else if c as int == 0x08 then "\\b"
    else if c as int == 0x0C then "\\f"
    else if c < ' ' then "\\u00" + [HexDigits[c as int / 16], HexDigits[c as int % 16]]
    else [c]
  }

  function Escape(s: string): string {
    if s == [] then [] else EscapeChar(s[0]) + Escape(s[1..])
  }

  function Quote(s: string): string {
    "\"" + Escape(s) + "\""
  }

  function RenderValue(v: Json): string {
    match v
    case JNull => "null"
    case JBool(b) => if b then "true" else "false"
    case JInt(i) => IntText(i)
    case JString(s) => Quote(s)
    case JNaN => "NaN"
  }

  /** A member with the default separators of `json.dumps`: `"key": value`. */
  function RenderMember(m: Member): string {
    Quote(m.0) + ": " + RenderValue(m.1)
  }

  /** Members joined by `, `. */
  function RenderMembers(ms: seq<Member>): string {
    if ms == [] then []
    else if |ms| == 1 then RenderMember(ms[0])
    else RenderMember(ms[0]) + ", " + RenderMembers(ms[1..])
  }

  function RenderObject(ms: seq<Member>): string {
    "{" + RenderMembers(ms) + "}"
  }

  /** One line of the file: the object and the line terminator. It opens
      with `{`, and its last two characters are `}` and the line feed. */
  function RenderLine(ms: seq<Member>): (line: string)
    ensures |line| >= 3 && line[0] == '{' && line[|line| - 2] == '}' && line[|line| - 1] == '\n'
  {
    RenderObject(ms) + "\n"
  }

  // ---------------------------------------------------------------- reader

  predicate IsHexDigit(c: char) {
    '0' <= c <= '9' || 'a' <= c <= 'f' || 'A' <= c <= 'F'
  }

  function HexValue(c: char): nat
    requires IsHexDigit(c)
  {
    if '0' <= c <= '9' then c as int - '0' as int
    else if 'a' <= c <= 'f' then c as int - 'a' as int + 10
    else c as int - 'A' as int + 10
  }

  /** The character an escape sequence stands for (`s` follows the backslash)
      and how many characters of `s` the sequence takes. */
  function DecodeEscape(s: string): (r: Option<(char, nat)>)
    ensures r.Some? ==> 1 <= r.value.1 <= |s|
  {
    if s == [] then None
    else if s[0] == '"' || s[0] == '\\' || s[0] == '/' then Some((s[0], 1))
    else if s[0] == 'b' then Some((0x08 as char, 1))
    else if s[0] == 'f' then Some((0x0C as char, 1))
    else if s[0] == 'n' then Some(('\n', 1))
    else if s[0] == 'r' then Some(('\r', 1))
    else if s[0] == 't' then Some(('\t', 1))
    else if s[0] == 'u' && |s| >= 5 && IsHexDigit(s[1]) && IsHexDigit(s[2]) && IsHexDigit(s[3]) && IsHexDigit(s[4]) then
      var code := HexValue(s[1]) * 4096 + HexValue(s[2]) * 256 + HexValue(s[3]) * 16 + HexValue(s[4]);
      if 0xD800 <= code < 0xE000 then None else Some((code as char, 5))
    else None
  }

  /** The contents of a string literal whose opening quote has been read, and
      the text after its closing quote. */
  function ParseStringBody(s: string): (r: Option<(string, string)>)
    ensures r.Some? ==> |r.value.1| < |s|
    decreases |s|
  {
    if s == [] then None
    else if s[0] == '"' then Some(([], s[1..]))
    else if s[0] == '\\' then
      match DecodeEscape(s[1..])
      case None => None
      case Some(e) =>
        match ParseStringBody(s[1 + e.1..])
        case None => None
        case Some(p) => Some(([e.0] + p.0, p.1))
    else if s[0] < ' ' then None
    else
      match ParseStringBody(s[1..])
      case None => None
      case Some(p) => Some(([s[0]] + p.0, p.1))
  }

  function ParseInteger(s: string): (r: Option<(Json, string)>)
    ensures r.Some? ==> |r.value.1| < |s|
  {
    var negative := |s| > 0 && s[0] == '-';
    var body := if negative then s[1..] else s;
    var n := Parsing.LeadingDigits(body);
    if n == 0 then None
    else Some((JInt(if negative then -(DigitsValue(body[..n]) as int) else DigitsValue(body[..n])), body[n..]))
  }

  function ParseValue(s: string): (r: Option<(Json, string)>)
    ensures r.Some? ==> |r.value.1| < |s|
  {
    if s == [] then None
    else if s[0] == '"' then
      match ParseStringBody(s[1..])
      case None => None
      case Some(p) => Some((JString(p.0), p.1))
    else if s[0] == 'n' then (if |s| >= 4 && s[..4] == "null" then Some((JNull, s[4..])) else None)
    else if s[0] == 't' then (if |s| >= 4 && s[..4] == "true" then Some((JBool(true), s[4..])) else None)
    else if s[0] == 'f' then (if |s| >= 5 && s[..5] == "false" then Some((JBool(false), s[5..])) else None)
    else if s[0] == 'N' then (if |s| >= 3 && s[..3] == "NaN" then Some((JNaN, s[3..])) else None)
    else ParseInteger(s)
  }

  /** One `"key": value` member. */
  function ParseMember(s: string): (r: Option<(Member, string)>)
    ensures r.Some? ==> |r.value.1| < |s|
  {
    if s == [] || s[0] != '"' then None
    else match ParseStringBody(s[1..])
      case None => None
      case Some(key) =>
        var afterKey := key.1;
        if |afterKey| < 2 || afterKey[0] != ':' || afterKey[1] != ' ' then None
        else match ParseValue(afterKey[2..])
          case None => None
          case Some(value) => Some(((key.0, value.0), value.1))
  }

  /** Members up to and including the closing brace of a non-empty object
      whose opening brace has been read. */
  function ParseMembers(s: string): (r: Option<(seq<Member>, string)>)
    ensures r.Some? ==> |r.value.1| < |s|
    decreases |s|
  {
    match ParseMember(s)
    case None => None
    case Some(first) =>
      var after := first.1;
      if |after| >= 2 && after[0] == ',' && after[1] == ' ' then
        match ParseMembers(after[2..])
        case None => None
        case Some(more) => Some(([first.0] + more.0, more.1))
      else if |after| >= 1 && after[0] == '}' then Some(([first.0], after[1..]))
      else None
  }

  function ParseObject(s: string): Option<(seq<Member>, string)> {
    if |s| >= 2 && s[0] == '{' && s[1] == '}' then Some(([], s[2..]))
    else if |s| >= 1 && s[0] == '{' then ParseMembers(s[1..])
    else None
  }

  /** The members of a line holding one object and its terminator. */
  function DecodeLine(line: string): Option<seq<Member>> {
    match ParseObject(line)
    case None => None
    case Some(p) => if p.1 == "\n" then Some(p.0) else None
  }

  // ---------------------------------------------------------------- round trip

  lemma {:induction false} HexDigitValue(n: nat)
    requires n < 16
    ensures IsHexDigit(HexDigits[n]) && HexValue(HexDigits[n]) == n
  {
  }

  lemma ShortEscapeStep(c: char, tail: string)
    requires c == '"' || c == '\\' || c == '\n' || c == '\r' || c == '\t' || c as int == 0x08 || c as int == 0x0C
    ensures ParseStringBody(EscapeChar(c) + tail) ==
      match ParseStringBody(tail)
      case None => None
      case Some(p) => Some(([c] + p.0, p.1))
  {
    var s := EscapeChar(c) + tail;
    assert s[0] == '\\' && DecodeEscape(s[1..]) == Some((c, 1));
    assert s[1 + 1..] == tail;
  }

  lemma UnicodeEscapeStep(c: char, tail: string)
    requires c < ' ' && !(c == '\n' || c == '\r' || c == '\t' || c as int == 0x08 || c as int == 0x0C)
    ensures ParseStringBody(EscapeChar(c) + tail) ==
      match ParseStringBody(tail)
      case None => None
      case Some(p) => Some(([c] + p.0, p.1))
  {
    var s := EscapeChar(c) + tail;
    var n := c as int;
    HexDigitValue(n / 16);
    HexDigitValue(n % 16);
    assert s[1..][1] == '0' && s[1..][2] == '0';
    assert s[1..][3] == HexDigits[n / 16] && s[1..][4] == HexDigits[n % 16];
    assert DecodeEscape(s[1..]) == Some((c, 5));
    assert s[1 + 5..] == tail;
  }

  /** Reading one escaped character in front of more text gives that
      character in front of what the text reads as. */
  lemma EscapeCharStep(c: char, tail: string)
    ensures ParseStringBody(EscapeChar(c) + tail) ==
      match ParseStringBody(tail)
      case None => None
      case Some(p) => Some(([c] + p.0, p.1))
  {
    if c == '"' || c == '\\' || c == '\n' || c == '\r' || c == '\t' || c as int == 0x08 || c as int == 0x0C {
      ShortEscapeStep(c, tail);
    } else if c < ' ' {
      UnicodeEscapeStep(c, tail);
    } else {
      var s := EscapeChar(c) + tail;
      assert s[1..] == tail;
    }
  }

  /** A quoted string is read back as the string that was written, leaving
      the text after it. */
  lemma {:induction false} EscapeRoundTrip(x: string, rest: string)
    ensures ParseStringBody(Escape(x) + "\"" + rest) == Some((x, rest))
  {
    if x == [] {
      assert Escape(x) + "\"" + rest == "\"" + rest;
    } else {
      var tail := Escape(x[1..]) + "\"" + rest;
      assert Escape(x) + "\"" + rest == EscapeChar(x[0]) + tail;
      EscapeCharStep(x[0], tail);
      EscapeRoundTrip(x[1..], rest);
      assert [x[0]] + x[1..] == x;
    }
  }

  /** A character `json.dumps` copies as it is. */
  predicate IsPlain(c: char) {
    c != '"' && c != '\\' && c >= ' '
  }

  /** Text without quotes, backslashes or control characters is written
      between the quotes exactly as it is. */
  lemma {:induction false} EscapePlain(s: string)
    requires forall i :: 0 <= i < |s| ==> IsPlain(s[i])
    ensures Escape(s) == s
  {
    if s != [] {
      EscapePlain(s[1..]);
      assert [s[0]] + s[1..] == s;
    }
  }

  lemma {:induction false} LeadingDigitsOf(d: string, rest: string)
    requires AllDigits(d)
    requires rest == [] || !IsDigit(rest[0])
    ensures Parsing.LeadingDigits(d + rest) == |d|
  {
    if d != [] {
      assert (d + rest)[1..] == d[1..] + rest;
      LeadingDigitsOf(d[1..], rest);
    } else {
      assert d + rest == rest;
    }
  }

  lemma {:induction false} DigitsThen(d: string, rest: string)
    requires AllDigits(d) && d != []
    requires rest == [] || !IsDigit(rest[0])
    ensures Parsing.LeadingDigits(d + rest) == |d|
    ensures (d + rest)[..|d|] == d && (d + rest)[|d|..] == rest
    ensures IsDigit((d + rest)[0])
  {
    LeadingDigitsOf(d, rest);
    Split(d, rest);
  }

  lemma {:induction false} ParseUnsigned(s: string, k: nat, value: nat, rest: string)
    requires s != [] && IsDigit(s[0])
    requires 0 < k <= |s| && Parsing.LeadingDigits(s) == k
    requires DigitsValue(s[..k]) == value && s[k..] == rest
    ensures ParseInteger(s) == Some((JInt(value), rest))
  {
  }

  lemma {:induction false} ParseSigned(s: string, k: nat, value: nat, rest: string)
    requires s != [] && s[0] == '-'
    requires 0 < k <= |s[1..]| && Parsing.LeadingDigits(s[1..]) == k
    requires DigitsValue(s[1..][..k]) == value && s[1..][k..] == rest
    ensures ParseInteger(s) == Some((JInt(-(value as int)), rest))
  {
  }

  lemma {:induction false} IntRoundTrip(i: int, rest: string)
    requires rest == [] || !IsDigit(rest[0])
    ensures ParseInteger(IntText(i) + rest) == Some((JInt(i), rest))
  {
    var n: nat := if i < 0 then -i else i;
    NatTextDigits(n);
    var d := NatText(n);
    DigitsThen(d, rest);
    if i < 0 {
      var s := "-" + d + rest;
      Regroup3("-", d, rest);
      Split("-", d + rest);
      ParseSigned(s, |d|, n, rest);
    } else {
      ParseUnsigned(d + rest, |d|, n, rest);
    }
  }

  lemma {:induction false} NullRoundTrip(rest: string)
    ensures ParseValue("null" + rest) == Some((JNull, rest))
  {
    var s := "null" + rest;
    assert s[..4] == "null" && s[4..] == rest;
  }

  lemma {:induction false} BoolRoundTrip(b: bool, rest: string)
    ensures ParseValue((if b then "true" else "false") + rest) == Some((JBool(b), rest))
  {
    if b {
      var s := "true" + rest;
      assert s[..4] == "true" && s[4..] == rest;
    } else {
      var s := "false" + rest;
      assert s[..5] == "false" && s[5..] == rest;
    }
  }

  lemma {:induction false} NaNRoundTrip(rest: string)
    ensures ParseValue("NaN" + rest) == Some((JNaN, rest))
  {
    var s := "NaN" + rest;
    assert s[..3] == "NaN" && s[3..] == rest;
  }

  lemma {:induction false} StringRoundTrip(t: string, rest: string)
    ensures ParseValue(Quote(t) + rest) == Some((JString(t), rest))
  {
    KeyLayout(t, rest);
    EscapeRoundTrip(t, rest);
  }

  lemma IntTextStart(i: int)
    ensures IntText(i) != [] && (IntText(i)[0] == '-' || IsDigit(IntText(i)[0]))
  {
    NatTextDigits(if i < 0 then -i else i);
  }

  lemma NumberDispatch(s: string)
    requires s != [] && (s[0] == '-' || IsDigit(s[0]))
    ensures ParseValue(s) == ParseInteger(s)
  {
  }

  lemma {:induction false} NumberRoundTrip(i: int, rest: string)
    requires rest == [] || !IsDigit(rest[0])
    ensures ParseValue(IntText(i) + rest) == Some((JInt(i), rest))
  {
    IntRoundTrip(i, rest);
    IntTextStart(i);
    NumberDispatch(IntText(i) + rest);
  }

  /** A value is read back as itself when what follows it cannot continue a
      number. */
  lemma {:induction false} ValueRoundTrip(v: Json, rest: string)
    requires rest == [] || !IsDigit(rest[0])
    ensures ParseValue(RenderValue(v) + rest) == Some((v, rest))
  {
    match v
    case JNull => NullRoundTrip(rest);
    case JBool(b) => BoolRoundTrip(b, rest);
    case JString(t) => StringRoundTrip(t, rest);
    case JInt(i) => NumberRoundTrip(i, rest);
    case JNaN => NaNRoundTrip(rest);
  }

  lemma {:induction false} ParseMemberParts(s: string, key: string, afterKey: string, v: Json, after: string)
    requires s != [] && s[0] == '"' && ParseStringBody(s[1..]) == Some((key, afterKey))
    requires |afterKey| >= 2 && afterKey[0] == ':' && afterKey[1] == ' ' && ParseValue(afterKey[2..]) == Some((v, after))
    ensures ParseMember(s) == Some(((key, v), after))
  {
  }

  /** A quoted key, the separator and a value text that reads back as `v`
      form one member. */
  lemma {:induction false} KeyLayout(key: string, afterKey: string)
    ensures (Quote(key) + afterKey)[0] == '"'
    ensures (Quote(key) + afterKey)[1..] == Escape(key) + "\"" + afterKey
  {
    var e := Escape(key);
    assert Quote(key) + afterKey == "\"" + (e + "\"" + afterKey);
  }

  lemma Split(prefix: string, rest: string)
    ensures (prefix + rest)[..|prefix|] == prefix && (prefix + rest)[|prefix|..] == rest
  {
  }

  lemma Regroup3(a: string, b: string, c: string)
    ensures a + b + c == a + (b + c)
  {
  }

  lemma Regroup(a: string, b: string, c: string, d: string)
    ensures a + b + c + d == a + (b + (c + d))
  {
  }

  lemma {:induction false} KeyRoundTrip(key: string, text: string, v: Json, after: string)
    requires ParseValue(text + after) == Some((v, after))
    ensures ParseMember(Quote(key) + ": " + text + after) == Some(((key, v), after))
  {
    var afterKey := ": " + (text + after);
    var s := Quote(key) + ": " + text + after;
    Regroup(Quote(key), ": ", text, after);
    KeyLayout(key, afterKey);
    EscapeRoundTrip(key, afterKey);
    Split(": ", text + after);
    ParseMemberParts(s, key, afterKey, v, after);
  }

  lemma {:induction false} MemberRoundTrip(m: Member, after: string)
    requires after == [] || !IsDigit(after[0])
    ensures ParseMember(RenderMember(m) + after) == Some((m, after))
  {
    ValueRoundTrip(m.1, after);
    KeyRoundTrip(m.0, RenderValue(m.1), m.1, after);
  }

  lemma {:induction false} ParseMembersLast(s: string, m: Member, after: string)
    requires ParseMember(s) == Some((m, after)) && after != [] && after[0] == '}'
    ensures ParseMembers(s) == Some(([m], after[1..]))
  {
  }

  lemma {:induction false} ParseMembersMore(s: string, m: Member, after: string, ms: seq<Member>, rest: string)
    requires ParseMember(s) == Some((m, after)) && |after| >= 2 && after[0] == ',' && after[1] == ' '
    requires ParseMembers(after[2..]) == Some((ms, rest))
    ensures ParseMembers(s) == Some(([m] + ms, rest))
  {
  }

  /** A one-member list followed by the closing brace and more text. */
  lemma {:induction false} LastMemberLayout(ms: seq<Member>, rest: string)
    requires |ms| == 1
    ensures RenderMembers(ms) + "}" + rest == RenderMember(ms[0]) + ("}" + rest)
  {
    assert RenderMembers(ms) == RenderMember(ms[0]);
    Regroup3(RenderMember(ms[0]), "}", rest);
  }

  /** A longer list: its first member, the separator, then the other members. */
  lemma {:induction false} MoreMembersLayout(ms: seq<Member>, rest: string)
    requires |ms| > 1
    ensures RenderMembers(ms) + "}" + rest == RenderMember(ms[0]) + (", " + (RenderMembers(ms[1..]) + "}" + rest))
  {
    var head := RenderMember(ms[0]);
    var tail := RenderMembers(ms[1..]);
    assert RenderMembers(ms) == head + ", " + tail;
    Regroup3(head + ", " + tail, "}", rest);
    Regroup(head, ", ", tail, "}" + rest);
    Regroup3(tail, "}", rest);
  }

  lemma {:induction false} LastMemberRoundTrip(ms: seq<Member>, rest: string)
    requires |ms| == 1
    ensures ParseMembers(RenderMembers(ms) + "}" + rest) == Some((ms, rest))
  {
    var m := ms[0];
    var after := "}" + rest;
    LastMemberLayout(ms, rest);
    MemberRoundTrip(m, after);
    Split("}", rest);
    ParseMembersLast(RenderMember(m) + after, m, after);
    assert [m] == ms;
  }

  /** A member, the separator and a text that reads as further members. */
  lemma {:induction false} ConsMemberRoundTrip(m: Member, tail: string, more: seq<Member>, rest: string)
    requires ParseMembers(tail) == Some((more, rest))
    ensures ParseMembers(RenderMember(m) + (", " + tail)) == Some(([m] + more, rest))
  {
    var after := ", " + tail;
    MemberRoundTrip(m, after);
    Split(", ", tail);
    ParseMembersMore(RenderMember(m) + after, m, after, more, rest);
  }

  lemma {:induction false} MoreMembersRoundTrip(ms: seq<Member>, rest: string)
    requires |ms| > 1
    requires ParseMembers(RenderMembers(ms[1..]) + "}" + rest) == Some((ms[1..], rest))
    ensures ParseMembers(RenderMembers(ms) + "}" + rest) == Some((ms, rest))
  {
    MoreMembersLayout(ms, rest);
    ConsMemberRoundTrip(ms[0], RenderMembers(ms[1..]) + "}" + rest, ms[1..], rest);
    assert [ms[0]] + ms[1..] == ms;
  }

  /** A non-empty member list followed by the closing brace is read back as
      itself. */
  lemma {:induction false} MembersRoundTrip(ms: seq<Member>, rest: string)
    requires ms != []
    ensures ParseMembers(RenderMembers(ms) + "}" + rest) == Some((ms, rest))
    decreases |ms|
  {
    if |ms| == 1 {
      LastMemberRoundTrip(ms, rest);
    } else {
      MembersRoundTrip(ms[1..], rest);
      MoreMembersRoundTrip(ms, rest);
    }
  }

  /** Every line the writer emits reads back as exactly the members, keys and
      values in order, it was written from. */
  lemma {:induction false} LineRoundTrip(ms: seq<Member>)
    ensures DecodeLine(RenderLine(ms)) == Some(ms)
  {
    var s := RenderLine(ms);
    if ms == [] {
      assert s == "{}\n";
      assert s[0] == '{' && s[1] == '}' && s[2..] == "\n";
    } else {
      assert s == "{" + (RenderMembers(ms) + "}" + "\n");
      assert s[1..] == RenderMembers(ms) + "}" + "\n";
      assert RenderMembers(ms)[0] == '"';
      assert s[1] == '"';
      MembersRoundTrip(ms, "\n");
    }
  }

  // ---------------------------------------------------------------- one line per row

  lemma EscapeCharHasNoLineFeed(c: char)
    ensures '\n' !in EscapeChar(c)
  {
    if c < ' ' && !(c == '\n' || c == '\r' || c == '\t' || c as int == 0x08 || c as int == 0x0C) {
      var e := EscapeChar(c);
      assert e == "\\u00" + [HexDigits[c as int / 16], HexDigits[c as int % 16]];
      assert forall k :: 0 <= k < |e| ==> e[k] != '\n';
    }
  }

  lemma {:induction false} EscapeHasNoLineFeed(s: string)
    ensures '\n' !in Escape(s)
  {
    if s != [] {
      EscapeHasNoLineFeed(s[1..]);
      EscapeCharHasNoLineFeed(s[0]);
      assert Escape(s) == EscapeChar(s[0]) + Escape(s[1..]);
    }
  }

  lemma {:induction false} ValueHasNoLineFeed(v: Json)
    ensures '\n' !in RenderValue(v)
  {
    match v
    case JString(t) =>
      EscapeHasNoLineFeed(t);
    case JInt(i) =>
      var n: nat := if i < 0 then -i else i;
      NatTextDigits(n);
      assert forall k :: 0 <= k < |NatText(n)| ==> NatText(n)[k] != '\n';
    case _ =>
  }

  lemma {:induction false} MembersHaveNoLineFeed(ms: seq<Member>)
    ensures '\n' !in RenderMembers(ms)
  {
    if ms != [] {
      EscapeHasNoLineFeed(ms[0].0);
      ValueHasNoLineFeed(ms[0].1);
      if |ms| > 1 {
        MembersHaveNoLineFeed(ms[1..]);
      }
    }
  }

  /** A line is an object followed by a single line feed, and the object
      itself contains none: each row occupies exactly one line. */
  lemma {:induction false} LineIsOneLine(ms: seq<Member>)
    ensures |RenderLine(ms)| >= 3
    ensures RenderLine(ms)[0] == '{'
    ensures RenderLine(ms)[|RenderLine(ms)| - 1] == '\n'
    ensures '\n' !in RenderLine(ms)[..|RenderLine(ms)| - 1]
  {
    MembersHaveNoLineFeed(ms);
    assert RenderLine(ms)[..|RenderLine(ms)| - 1] == RenderObject(ms);
  }

  // ---------------------------------------------------------------- rows to lines

  /** The values `json.dumps` refuses: date and timestamp objects, and the
      missing value of an `Int64` column (`pd.NA`) or of a `datetime64`
      column (`NaT`). */
  predicate Unserializable(dtype: DType, c: Cell) {
    c.Date? || c.DateTime? || (c.Null? && (dtype == NullableInt64DType || dtype == DateTimeDType))
  }

  /** `json.dumps` of one value of a column with storage type `dtype`:
      numbers, text and booleans are written, `None` becomes `null`, a float
      NaN the token `NaN`, and every other value raises `TypeError`. */
  function CellJson(dtype: DType, c: Cell): (r: Result<Json>)
    ensures r.Err? <==> Unserializable(dtype, c)
    ensures c.Text? ==> r == Ok(JString(c.s))
    ensures c.Int? ==> r == Ok(JInt(c.i))
  {
    match c
    case Int(i) => Ok(JInt(i))
    case Text(s) => Ok(JString(s))
    case Bool(b) => Ok(JBool(b))
    case NaN => Ok(JNaN)
    case Null =>
      (match dtype
       case NullableInt64DType => Err("Object of type NAType is not JSON serializable")
       case DateTimeDType => Err("Object of type NaTType is not JSON serializable")
       case _ => Ok(JNull))
    case Date(_) => Err("Object of type date is not JSON serializable")
    case DateTime(_) => Err("Object of type Timestamp is not JSON serializable")
  }


  /** The first `n` members of row `r`, or the error serialising stops at. */
  function RowPrefix(cols: seq<Column>, rows: nat, r: nat, n: nat): (res: Result<seq<Member>>)
    requires n <= |cols| && Rectangular(cols, rows) && r < rows
    ensures res.Ok? ==>
      (|res.value| == n &&
       forall k :: 0 <= k < n ==> res.value[k].0 == cols[k].name && CellJson(cols[k].dtype, cols[k].cells[r]) == Ok(res.value[k].1))
  {
    if n == 0 then Ok([])
    else match RowPrefix(cols, rows, r, n - 1)
      case Err(e) => Err(e)
      case Ok(ms) =>
        match CellJson(cols[n - 1].dtype, cols[n - 1].cells[r])
        case Err(e) => Err(e)
        case Ok(v) => Ok(ms + [(cols[n - 1].name, v)])
  }

  /** `row.to_dict()` of row `r`, serialised value by value. */
  function RowMembers(cols: seq<Column>, rows: nat, r: nat): Result<seq<Member>>
    requires Rectangular(cols, rows) && r < rows
  {
    RowPrefix(cols, rows, r, |cols|)
  }

  /** The line written for row `r`, or the error serialising it stops at. */
  function RowLine(cols: seq<Column>, rows: nat, r: nat): Result<string>
    requires Rectangular(cols, rows) && r < rows
  {
    match RowMembers(cols, rows, r)
    case Err(e) => Err(e)
    case Ok(ms) => Ok(RenderLine(ms))
  }

  /** The first `n` lines of the file, or the error writing stops at. */
  function LinesPrefix(cols: seq<Column>, rows: nat, n: nat): (res: Result<seq<string>>)
    requires Rectangular(cols, rows) && n <= rows
    ensures res.Ok? ==> |res.value| == n && forall r :: 0 <= r < n ==> RowLine(cols, rows, r) == Ok(res.value[r])
  {
    if n == 0 then Ok([])
    else match LinesPrefix(cols, rows, n - 1)
      case Err(e) => Err(e)
      case Ok(ls) =>
        match RowLine(cols, rows, n - 1)
        case Err(e) => Err(e)
        case Ok(l) => Ok(ls + [l])
  }

  /** The lines `export_to_ndjson` writes for a table. */
  function NdjsonLines(cols: seq<Column>, rows: nat): (r: Result<seq<string>>)
    requires Rectangular(cols, rows)
    ensures r.Ok? ==> |r.value| == rows && forall i :: 0 <= i < rows ==> RowLine(cols, rows, i) == Ok(r.value[i])
  {
    LinesPrefix(cols, rows, rows)
  }

  /** A row fails to serialise exactly when one of its first `n` values is
      one `json.dumps` refuses. */
  lemma {:induction false} RowPrefixFails(cols: seq<Column>, rows: nat, r: nat, n: nat)
    requires n <= |cols| && Rectangular(cols, rows) && r < rows
    ensures RowPrefix(cols, rows, r, n).Err? <==> exists k :: 0 <= k < n && CellJson(cols[k].dtype, cols[k].cells[r]).Err?
  {
    if n > 0 {
      RowPrefixFails(cols, rows, r, n - 1);
    }
  }

  /** Writing the first `n` lines fails exactly when one of those rows fails. */
  lemma {:induction false} LinesPrefixFails(cols: seq<Column>, rows: nat, n: nat)
    requires Rectangular(cols, rows) && n <= rows
    ensures LinesPrefix(cols, rows, n).Err? <==> exists r :: 0 <= r < n && RowLine(cols, rows, r).Err?
  {
    if n > 0 {
      LinesPrefixFails(cols, rows, n - 1);
    }
  }

  lemma {:induction false} RowPrefixErrStays(cols: seq<Column>, rows: nat, r: nat, n: nat, m: nat)
    requires n <= m <= |cols| && Rectangular(cols, rows) && r < rows && RowPrefix(cols, rows, r, n).Err?
    ensures RowPrefix(cols, rows, r, m) == RowPrefix(cols, rows, r, n)
    decreases m - n
  {
    if n < m {
      assert RowPrefix(cols, rows, r, n + 1) == RowPrefix(cols, rows, r, n);
      RowPrefixErrStays(cols, rows, r, n + 1, m);
    }
  }

  lemma {:induction false} LinesPrefixErrStays(cols: seq<Column>, rows: nat, n: nat, m: nat)
    requires Rectangular(cols, rows) && n <= m <= rows && LinesPrefix(cols, rows, n).Err?
    ensures LinesPrefix(cols, rows, m) == LinesPrefix(cols, rows, n)
    decreases m - n
  {
    if n < m {
      assert LinesPrefix(cols, rows, n + 1) == LinesPrefix(cols, rows, n);
      LinesPrefixErrStays(cols, rows, n + 1, m);
    }
  }

  lemma RowPrefixNext(cols: seq<Column>, rows: nat, r: nat, k: nat, ms: seq<Member>, v: Json)
    requires k < |cols| && Rectangular(cols, rows) && r < rows
    requires RowPrefix(cols, rows, r, k) == Ok(ms) && CellJson(cols[k].dtype, cols[k].cells[r]) == Ok(v)
    ensures RowPrefix(cols, rows, r, k + 1) == Ok(ms + [(cols[k].name, v)])
  {
  }

  lemma LinesPrefixNext(cols: seq<Column>, rows: nat, r: nat, ls: seq<string>, ms: seq<Member>)
    requires Rectangular(cols, rows) && r < rows
    requires LinesPrefix(cols, rows, r) == Ok(ls) && RowMembers(cols, rows, r) == Ok(ms)
    ensures LinesPrefix(cols, rows, r + 1) == Ok(ls + [RenderLine(ms)])
  {
  }

  /** A value that cannot be serialised ends the whole file with its error. */
  lemma {:induction false} LinesStopAt(cols: seq<Column>, rows: nat, r: nat, k: nat, ls: seq<string>, ms: seq<Member>, e: string)
    requires k < |cols| && Rectangular(cols, rows) && r < rows
    requires LinesPrefix(cols, rows, r) == Ok(ls) && RowPrefix(cols, rows, r, k) == Ok(ms)
    requires CellJson(cols[k].dtype, cols[k].cells[r]) == Err(e)
    ensures NdjsonLines(cols, rows) == Err(e)
  {
    assert RowPrefix(cols, rows, r, k + 1) == Err(e);
    RowPrefixErrStays(cols, rows, r, k + 1, |cols|);
    assert LinesPrefix(cols, rows, r + 1) == Err(e);
    LinesPrefixErrStays(cols, rows, r + 1, rows);
  }

  /** Writing fails exactly when some value of the table is one `json.dumps`
      refuses. */
  lemma NdjsonLinesFail(cols: seq<Column>, rows: nat)
    requires Rectangular(cols, rows)
    ensures NdjsonLines(cols, rows).Err? <==>
      exists r, k :: 0 <= r < rows && 0 <= k < |cols| && Unserializable(cols[k].dtype, cols[k].cells[r])
  {
    LinesPrefixFails(cols, rows, rows);
    if NdjsonLines(cols, rows).Err? {
      var r :| 0 <= r < rows && RowLine(cols, rows, r).Err?;
      RowPrefixFails(cols, rows, r, |cols|);
      var k :| 0 <= k < |cols| && CellJson(cols[k].dtype, cols[k].cells[r]).Err?;
      assert Unserializable(cols[k].dtype, cols[k].cells[r]);
    }
    if exists r, k :: 0 <= r < rows && 0 <= k < |cols| && Unserializable(cols[k].dtype, cols[k].cells[r]) {
      var r, k :| 0 <= r < rows && 0 <= k < |cols| && Unserializable(cols[k].dtype, cols[k].cells[r]);
      RowPrefixFails(cols, rows, r, |cols|);
      assert RowLine(cols, rows, r).Err?;
    }
  }

  /** What a written file means: one line per row in row order, each a
      single line that reads back as the row's column names, in column
      order, with its values. */
  lemma NdjsonLinesRead(cols: seq<Column>, rows: nat)
    requires Rectangular(cols, rows) && NdjsonLines(cols, rows).Ok?
    ensures
      var lines := NdjsonLines(cols, rows).value;
      |lines| == rows &&
      forall r :: 0 <= r < rows ==>
        lines[r][|lines[r]| - 1] == '\n' && '\n' !in lines[r][..|lines[r]| - 1] &&
        DecodeLine(lines[r]).Some? && |DecodeLine(lines[r]).value| == |cols| &&
        forall k :: 0 <= k < |cols| ==>
          DecodeLine(lines[r]).value[k].0 == cols[k].name &&
          CellJson(cols[k].dtype, cols[k].cells[r]) == Ok(DecodeLine(lines[r]).value[k].1)
  {
    var lines := NdjsonLines(cols, rows).value;
    forall r | 0 <= r < rows
      ensures lines[r][|lines[r]| - 1] == '\n' && '\n' !in lines[r][..|lines[r]| - 1]
      ensures DecodeLine(lines[r]) == Some(RowMembers(cols, rows, r).value)
    {
      LineIsOneLine(RowMembers(cols, rows, r).value);
      LineRoundTrip(RowMembers(cols, rows, r).value);
    }
  }

  /** `export_to_ndjson`: walks the rows in order and writes one line each;
      the first value that cannot be serialised ends it with that error. */
  method ExportToNdjson(df: DataFrame) returns (out: Result<seq<string>>)
    requires df.Valid()
    ensures out == NdjsonLines(df.columns[..], df.rows)
  {
    ghost var cols := df.columns[..];
    ghost var rows := df.rows;
    assert Rectangular(cols, rows);
    var lines: seq<string> := [];
    for r := 0 to df.rows
      invariant LinesPrefix(cols, rows, r) == Ok(lines)
    {
      var members: seq<Member> := [];
      for k := 0 to df.columns.Length
        invariant RowPrefix(cols, rows, r, k) == Ok(members)
      {
        var column := df.columns[k];
        var v := CellJson(column.dtype, column.cells[r]);
        if v.Err? {
          LinesStopAt(cols, rows, r, k, lines, members, v.reason);
          return Err(v.reason);
        }
        RowPrefixNext(cols, rows, r, k, members, v.value);
        members := members + [(column.name, v.value)];
      }
      LinesPrefixNext(cols, rows, r, lines, members);
      lines := lines + [RenderLine(members)];
    }
    out := Ok(lines);
  }
}
