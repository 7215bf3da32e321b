/** One row through the whole pipeline: a table with an integer id, a boolean
    flag and a date-time held as text, declared `int`, `string` and
    `timestamp`, is cleaned, cast and written as one exact line. */
module Example {
  import opened Wrappers
  import opened Values
  import opened Casts
  import opened Frames
  import opened Ndjson
  import Sanitize
  import Parsing

  const Stamp := "2023-05-01 12:00:00"
  const FlagName := "is_active"
  const TrueText := "True"
  const StampName := "created_at"

  /** The table as read: `id` is an int64 column, `is_active` a bool column,
      `created_at` an object column holding text. */
  const Table: seq<Column> := [
    Column("id", Int64DType, [Int(1)]),
    Column(FlagName, BoolDType, [Bool(true)]),
    Column(StampName, ObjectDType, [Text(Stamp)])
  ]

  const Schema: seq<ColumnSpec> := [
    ColumnSpec("id", "int"),
    ColumnSpec(FlagName, "string"),
    ColumnSpec(StampName, "timestamp")
  ]

  /** The table after cleaning and casting. */
  const Normalized: seq<Column> := [
    Column("id", NullableInt64DType, [Int(1)]),
    Column(FlagName, ObjectDType, [Text(TrueText)]),
    Column(StampName, ObjectDType, [Text(Stamp)])
  ]

  /** The sample result: cleaning turns the flag into the text "True"
      before the string cast sees it, the id stays an integer, and the
      date-time text is rewritten to itself; the row is written as exactly
      this line. */
  lemma SampleRow()
    ensures Normalize(Table, Schema) == Ok(Normalized)
    ensures Rectangular(Normalized, 1)
    ensures NdjsonLines(Normalized, 1) ==
      Ok(["{" + "\"id\": 1" + ", " + "\"is_active\": \"True\"" + ", " + "\"created_at\": \"2023-05-01 12:00:00\"" + "}\n"])
  {
    CleanTable();
    CastTable();
    var ms := [("id", JInt(1)), (FlagName, JString(TrueText)), (StampName, JString(Stamp))];
    assert Normalized == [Normalized[0], Normalized[1], Normalized[2]];
    RowOfThree(Normalized[0], Normalized[1], Normalized[2], JInt(1), JString(TrueText), JString(Stamp));
    RenderThree(ms[0], ms[1], ms[2]);
    SampleLine();
  }

  // ---------------------------------------------------------------- cleaning

  lemma FlagClean()
    ensures CleanCell(Bool(true)) == Text(TrueText)
  {
    assert Sanitize.AllPrintable(TrueText);
    Sanitize.SanitizeFixedPoints(TrueText);
  }

  lemma StampClean()
    ensures CleanCell(Text(Stamp)) == Text(Stamp)
  {
    assert Sanitize.AllPrintable(Stamp);
    Sanitize.SanitizeFixedPoints(Stamp);
  }

  lemma CleanThree(a: Column, b: Column, c: Column)
    ensures CleanColumns([a, b, c]) == [CleanColumn(a), CleanColumn(b), CleanColumn(c)]
  {
  }

  lemma CleanSingle(name: string, dtype: DType, c: Cell)
    requires IsTextLike(dtype)
    ensures CleanColumn(Column(name, dtype, [c])) == Column(name, ObjectDType, [CleanCell(c)])
  {
    assert CleanColumn(Column(name, dtype, [c])).cells[0] == CleanCell(c);
  }

  /** Cleaning rewrites the bool column as text and leaves the others. */
  lemma CleanTable()
    ensures CleanColumns(Table) == [Table[0], Column(FlagName, ObjectDType, [Text(TrueText)]), Table[2]]
  {
    CleanThree(Table[0], Table[1], Table[2]);
    FlagClean();
    StampClean();
    CleanSingle(FlagName, BoolDType, Bool(true));
    CleanSingle(StampName, ObjectDType, Text(Stamp));
    assert Table == [Table[0], Table[1], Table[2]];
  }

  // ---------------------------------------------------------------- casting

  lemma StampText()
    ensures TimestampText(Timestamp(CalendarDate(2023, 5, 1), 12, 0, 0)) == Stamp
  {
    StampDate();
    StampClock();
  }

  lemma StampDate()
    ensures DateText(CalendarDate(2023, 5, 1)) == "2023-05-01"
  {
  }

  lemma StampClock()
    ensures ClockText(Timestamp(CalendarDate(2023, 5, 1), 12, 0, 0)) == "12:00:00"
  {
  }

  lemma StampCast()
    ensures CastTimestampCell(Text(Stamp)) == Text(Stamp)
  {
    StampText();
    Parsing.ParseTimestampText(Timestamp(CalendarDate(2023, 5, 1), 12, 0, 0));
  }

  lemma FindInThree(a: Column, b: Column, c: Column)
    requires a.name != b.name && a.name != c.name && b.name != c.name
    ensures FindColumn([a, b, c], a.name) == Some(0)
    ensures FindColumn([a, b, c], b.name) == Some(1)
    ensures FindColumn([a, b, c], c.name) == Some(2)
  {
    assert [a, b, c][..2] == [a, b] && [a, b][..1] == [a];
    assert FindColumn([a], a.name) == Some(0);
    assert FindColumn([a, b], a.name) == Some(0);
  }

  /** Three declarations naming three distinct columns, in column order,
      replace each column by its cast. */
  lemma CastThree(a: Column, b: Column, c: Column, sa: ColumnSpec, sb: ColumnSpec, sc: ColumnSpec,
                  a2: Column, b2: Column, c2: Column)
    requires a.name == sa.name && b.name == sb.name && c.name == sc.name
    requires a.name != b.name && a.name != c.name && b.name != c.name
    requires a2.name == a.name && b2.name == b.name
    requires CastColumn(a, KindOf(sa.typ)) == Ok(a2)
    requires CastColumn(b, KindOf(sb.typ)) == Ok(b2)
    requires CastColumn(c, KindOf(sc.typ)) == Ok(c2)
    ensures CastAll([a, b, c], [sa, sb, sc]) == Ok([a2, b2, c2])
  {
    var s := [sa, sb, sc];
    FindInThree(a, b, c);
    FindInThree(a2, b, c);
    FindInThree(a2, b2, c);
    assert [a, b, c][0 := a2] == [a2, b, c];
    assert [a2, b, c][1 := b2] == [a2, b2, c];
    assert [a2, b2, c][2 := c2] == [a2, b2, c2];
    assert s[1..] == [sb, sc] && s[1..][1..] == [sc] && s[1..][1..][1..] == [];
    assert CastAll([a2, b2, c], [sc]) == Ok([a2, b2, c2]);
    assert CastAll([a2, b, c], [sb, sc]) == Ok([a2, b2, c2]);
  }

  lemma CastOneInt(name: string, dtype: DType, i: int)
    requires InInt64(i)
    ensures CastColumn(Column(name, dtype, [Int(i)]), ToInt) == Ok(Column(name, NullableInt64DType, [Int(i)]))
  {
    assert [Int(i)][1..] == [] && [Int(i)] + [] == [Int(i)];
    assert CastIntCell(Int(i)) == Ok(Int(i));
    assert CastIntCells([]) == Ok([]);
    assert CastIntCells([Int(i)]) == Ok([Int(i)]);
  }

  lemma CastOneText(name: string, dtype: DType, c: Cell)
    requires !c.DateTime?
    ensures CastColumn(Column(name, dtype, [c]), ToText) == Ok(Column(name, ObjectDType, [CastTextCell(dtype, c)]))
  {
    var cells := CastColumn(Column(name, dtype, [c]), ToText).value.cells;
    assert |cells| == 1 && cells[0] == CastTextCell(dtype, c);
    assert cells == [CastTextCell(dtype, c)];
  }

  lemma CastOneTimestamp(name: string, dtype: DType, c: Cell)
    ensures CastColumn(Column(name, dtype, [c]), ToTimestamp) == Ok(Column(name, ObjectDType, [CastTimestampCell(c)]))
  {
    var cells := CastColumn(Column(name, dtype, [c]), ToTimestamp).value.cells;
    assert |cells| == 1 && cells[0] == CastTimestampCell(c);
    assert cells == [CastTimestampCell(c)];
  }

  /** Casting the cleaned table gives the normalised one. */
  lemma CastTable()
    ensures CastAll([Table[0], Column(FlagName, ObjectDType, [Text(TrueText)]), Table[2]], Schema) == Ok(Normalized)
  {
    StampCast();
    var flag := Column(FlagName, ObjectDType, [Text(TrueText)]);
    CastOneInt("id", Int64DType, 1);
    CastOneText(FlagName, ObjectDType, Text(TrueText));
    CastOneTimestamp(StampName, ObjectDType, Text(Stamp));
    CastThree(Table[0], flag, Table[2], Schema[0], Schema[1], Schema[2], Normalized[0], Normalized[1], Normalized[2]);
    assert Schema == [Schema[0], Schema[1], Schema[2]];
    assert Normalized == [Normalized[0], Normalized[1], Normalized[2]];
  }

  // ---------------------------------------------------------------- writing

  /** A one-row table of three columns is written as the line of its three
      members. */
  lemma RowOfThree(a: Column, b: Column, c: Column, va: Json, vb: Json, vc: Json)
    requires |a.cells| == 1 && |b.cells| == 1 && |c.cells| == 1
    requires CellJson(a.dtype, a.cells[0]) == Ok(va) && CellJson(b.dtype, b.cells[0]) == Ok(vb) && CellJson(c.dtype, c.cells[0]) == Ok(vc)
    ensures Rectangular([a, b, c], 1)
    ensures NdjsonLines([a, b, c], 1) == Ok([RenderLine([(a.name, va), (b.name, vb), (c.name, vc)])])
  {
    var cols := [a, b, c];
    assert Rectangular(cols, 1);
    var ms := [(a.name, va), (b.name, vb), (c.name, vc)];
    assert RowPrefix(cols, 1, 0, 0) == Ok([]);
    RowPrefixNext(cols, 1, 0, 0, [], va);
    assert [] + [(a.name, va)] == ms[..1];
    RowPrefixNext(cols, 1, 0, 1, ms[..1], vb);
    assert ms[..1] + [(b.name, vb)] == ms[..2];
    RowPrefixNext(cols, 1, 0, 2, ms[..2], vc);
    assert ms[..2] + [(c.name, vc)] == ms;
    assert LinesPrefix(cols, 1, 0) == Ok([]);
    LinesPrefixNext(cols, 1, 0, [], ms);
    assert [] + [RenderLine(ms)] == [RenderLine(ms)];
  }

  lemma RenderThree(m1: Member, m2: Member, m3: Member)
    ensures RenderLine([m1, m2, m3]) ==
      "{" + (RenderMember(m1) + ", " + (RenderMember(m2) + ", " + RenderMember(m3))) + "}" + "\n"
  {
    var ms := [m1, m2, m3];
    assert ms[1..] == [m2, m3] && ms[1..][1..] == [m3];
    assert RenderMembers([m2, m3]) == RenderMember(m2) + ", " + RenderMember(m3);
  }

  lemma StringMember(key: string, text: string)
    requires Escape(key) == key && Escape(text) == text
    ensures RenderMember((key, JString(text))) == "\"" + key + "\": \"" + text + "\""
  {
  }

  lemma IntMember(key: string, i: int)
    requires Escape(key) == key
    ensures RenderMember((key, JInt(i))) == "\"" + key + "\": " + IntText(i)
  {
  }

  lemma IdPlain()
    ensures Escape("id") == "id"
  {
    EscapePlain("id");
  }

  lemma FlagNamePlain()
    ensures Escape(FlagName) == FlagName
  {
    EscapePlain(FlagName);
  }

  lemma TrueTextPlain()
    ensures Escape(TrueText) == TrueText
  {
    EscapePlain(TrueText);
  }

  lemma StampNamePlain()
    ensures Escape(StampName) == StampName
  {
    EscapePlain(StampName);
  }

  lemma StampPlain()
    ensures Escape(Stamp) == Stamp
  {
    EscapePlain(Stamp);
  }

  lemma IdMember()
    ensures RenderMember(("id", JInt(1))) == "\"id\": 1"
  {
    IdPlain();
    IntMember("id", 1);
    assert IntText(1) == "1";
  }

  lemma FlagMemberText()
    ensures "\"" + FlagName + "\": \"" + TrueText + "\"" == "\"is_active\": \"True\""
  {
  }

  lemma StampMemberText()
    ensures "\"" + StampName + "\": \"" + Stamp + "\"" == "\"created_at\": \"2023-05-01 12:00:00\""
  {
  }

  lemma Joined(a: string, b: string, c: string)
    ensures "{" + (a + ", " + (b + ", " + c)) + "}" + "\n" == "{" + a + ", " + b + ", " + c + "}\n"
  {
    assert "}" + "\n" == "}\n";
  }

  lemma SampleLine()
    ensures RenderLine([("id", JInt(1)), (FlagName, JString(TrueText)), (StampName, JString(Stamp))]) ==
      "{" + "\"id\": 1" + ", " + "\"is_active\": \"True\"" + ", " + "\"created_at\": \"2023-05-01 12:00:00\"" + "}\n"
  {
    var m1, m2, m3 := ("id", JInt(1)), (FlagName, JString(TrueText)), (StampName, JString(Stamp));
    RenderThree(m1, m2, m3);
    IdMember();
    FlagNamePlain();
    TrueTextPlain();
    StringMember(FlagName, TrueText);
    FlagMemberText();
    StampNamePlain();
    StampPlain();
    StringMember(StampName, Stamp);
    StampMemberText();
    Joined(RenderMember(m1), RenderMember(m2), RenderMember(m3));
  }
}
