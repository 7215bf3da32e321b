/** The text clean-up of `clean_dataframe`: two regular-expression replacements
    applied, in this order, to the string form of every value of a text-like or
    boolean column (export_to_s3.py:68-69). */
module Sanitize {

  /** A character in the printable ASCII range 0x20..0x7E. */
  predicate IsPrintable(c: char) {
    ' ' <= c <= '~'
  }

  /** The character class `[\r\n\t]` of the first replacement. */
  predicate IsBreakOrTab(c: char) {
    c == '\r' || c == '\n' || c == '\t'
  }

  predicate AllPrintable(s: string) {
    forall i :: 0 <= i < |s| ==> IsPrintable(s[i])
  }

  /** First pass: every carriage return, line feed or tab becomes one space. */
  function ReplaceBreaks(s: string): (r: string)
    ensures |r| == |s|
  {
    if s == [] then []
    else [if IsBreakOrTab(s[0]) then ' ' else s[0]] + ReplaceBreaks(s[1..])
  }

  /** Second pass: every character outside 0x20..0x7E is deleted. */
  function DropUnprintable(s: string): (r: string)
    ensures AllPrintable(r) && |r| <= |s|
  {
    if s == [] then []
    else (if IsPrintable(s[0]) then [s[0]] else []) + DropUnprintable(s[1..])
  }

  /** The two passes, in the order the source applies them. Sanitised text
      holds only printable ASCII (so no carriage return, line feed, tab or
      non-ASCII character) and is never longer than its input. */
  function Sanitize(s: string): (r: string)
    ensures AllPrintable(r) && |r| <= |s|
  {
    DropUnprintable(ReplaceBreaks(s))
  }

  /** Reference definition, one input character at a time: what a single
      character contributes to the sanitised text. */
  function CharImage(c: char): (r: string)
    ensures |r| <= 1
    ensures AllPrintable(r)
  {
    if IsBreakOrTab(c) then " " else if IsPrintable(c) then [c] else []
  }

  function SanitizeByChar(s: string): string {
    if s == [] then [] else CharImage(s[0]) + SanitizeByChar(s[1..])
  }

  /** The two-pass sanitiser agrees with the character-by-character reference:
      each break or tab becomes exactly one space, each printable character is
      kept in place, every other character is deleted. */
  lemma {:induction false} SanitizeIsCharwise(s: string)
    ensures Sanitize(s) == SanitizeByChar(s)
  {
    if s != [] {
      var c := if IsBreakOrTab(s[0]) then ' ' else s[0];
      var t := ReplaceBreaks(s[1..]);
      assert ReplaceBreaks(s) == [c] + t;
      assert ([c] + t)[1..] == t;
      assert DropUnprintable([c] + t) == (if IsPrintable(c) then [c] else []) + DropUnprintable(t);
      SanitizeIsCharwise(s[1..]);
    }
  }

  lemma {:induction false} SanitizeByCharConcat(a: string, b: string)
    ensures SanitizeByChar(a + b) == SanitizeByChar(a) + SanitizeByChar(b)
  {
    if a != [] {
      assert (a + b)[1..] == a[1..] + b;
      SanitizeByCharConcat(a[1..], b);
    } else {
      assert a + b == b;
    }
  }

  /** Sanitising works character by character, so it distributes over
      concatenation. */
  lemma SanitizeConcat(a: string, b: string)
    ensures Sanitize(a + b) == Sanitize(a) + Sanitize(b)
  {
    SanitizeIsCharwise(a + b);
    SanitizeIsCharwise(a);
    SanitizeIsCharwise(b);
    SanitizeByCharConcat(a, b);
  }

  lemma {:induction false} SanitizeByCharKeepsPrintable(s: string)
    requires AllPrintable(s)
    ensures SanitizeByChar(s) == s
  {
    if s != [] {
      SanitizeByCharKeepsPrintable(s[1..]);
      assert [s[0]] + s[1..] == s;
    }
  }

  /** A string is returned unchanged exactly when it is already made only of
      printable ASCII. */
  lemma SanitizeFixedPoints(s: string)
    ensures Sanitize(s) == s <==> AllPrintable(s)
  {
    SanitizeIsCharwise(s);
    if AllPrintable(s) {
      SanitizeByCharKeepsPrintable(s);
    }
  }

  /** Cleaning an already cleaned value changes nothing. */
  lemma SanitizeIdempotent(s: string)
    ensures Sanitize(Sanitize(s)) == Sanitize(s)
  {
    SanitizeFixedPoints(Sanitize(s));
  }

  /** Examples from the behaviour of the two replacements: a line feed becomes a
      space, a tab at the end becomes a trailing space, and a non-ASCII letter
      is dropped rather than transliterated. */
  lemma SanitizeExamples()
    ensures Sanitize("a\nb") == "a b"
    ensures Sanitize("x\r\n") == "x  "
    ensures Sanitize("café\t") == "caf "
  {
    LineFeedExample();
    TrailingBreaksExample();
    NonAsciiExample();
  }

  lemma LineFeedExample()
    ensures Sanitize("a\nb") == "a b"
  {
    SanitizeIsCharwise("a\nb");
  }

  lemma TrailingBreaksExample()
    ensures Sanitize("x\r\n") == "x  "
  {
    SanitizeIsCharwise("x\r\n");
  }

  lemma NonAsciiExample()
    ensures Sanitize("café\t") == "caf "
  {
    SanitizeIsCharwise("café\t");
  }
}
