/** The table the pipeline works on and the two in-place passes over it:
    `clean_dataframe` (export_to_s3.py:62-71) and `cast_types`
    (export_to_s3.py:74-88). */
module Frames {
  import opened Wrappers
  import opened Values
  import opened Casts
  import Sanitize

  datatype Column = Column(name: string, dtype: DType, cells: seq<Cell>)

  /** One `{"Name": ..., "Type": ...}` declaration of a schema. */
  datatype ColumnSpec = ColumnSpec(name: string, typ: string)

  /** What a column of each storage type can hold. */
  predicate Fits(dtype: DType, c: Cell) {
    ValidCell(c) &&
    match dtype
    case ObjectDType => true
    case BoolDType => c.Bool?
    case Int64DType => c.Int? && InInt64(c.i)
    case NullableInt64DType => (c.Int? && InInt64(c.i)) || c.Null?
    case DateTimeDType => c.DateTime? || c.Null?
  }

  /** Every column has one cell per row. */
  predicate Rectangular(cols: seq<Column>, rows: nat) {
    forall k :: 0 <= k < |cols| ==> |cols[k].cells| == rows
  }

  /** Every column has one cell per row and no two columns share a name. */
  predicate Shaped(cols: seq<Column>, rows: nat) {
    Rectangular(cols, rows) &&
    (forall k, l :: 0 <= k < l < |cols| ==> cols[k].name != cols[l].name)
  }

  /** Every cell fits the storage type of its column. */
  predicate WellTyped(cols: seq<Column>) {
    forall k, r :: 0 <= k < |cols| && 0 <= r < |cols[k].cells| ==> Fits(cols[k].dtype, cols[k].cells[r])
  }

  function Names(cols: seq<Column>): (ns: seq<string>)
    ensures |ns| == |cols| && forall k :: 0 <= k < |cols| ==> ns[k] == cols[k].name
  {
    seq(|cols|, k requires 0 <= k < |cols| => cols[k].name)
  }

  /** A table: a fixed array of columns whose values the passes replace in
      place, over a fixed number of rows. */
  class DataFrame {
    const columns: array<Column>
    const rows: nat

    ghost predicate Valid()
      reads columns
    {
      Shaped(columns[..], rows)
    }

    constructor (cols: seq<Column>, rows: nat)
      requires Shaped(cols, rows)
      ensures Valid() && fresh(columns)
      ensures columns[..] == cols && this.rows == rows
    {
      columns := new Column[|cols|](k requires 0 <= k < |cols| => cols[k]);
      this.rows := rows;
    }
  }

  // ---------------------------------------------------------------- clean_dataframe

  /** `select_dtypes(include=["object", "bool"])`. */
  predicate IsTextLike(dtype: DType) {
    dtype == ObjectDType || dtype == BoolDType
  }

  /** One value of a cleaned column: its text form, sanitised. */
  function CleanCell(c: Cell): (r: Cell)
    ensures r.Text? && Sanitize.AllPrintable(r.s)
  {
    Text(Sanitize.Sanitize(TextOf(c)))
  }

  /** A text-like column becomes an object column of sanitised texts; every
      other column is returned as it is. */
  function CleanColumn(col: Column): (r: Column)
    ensures r.name == col.name && |r.cells| == |col.cells|
    ensures !IsTextLike(col.dtype) ==> r == col
    ensures IsTextLike(col.dtype) ==>
      (r.dtype == ObjectDType && forall i :: 0 <= i < |col.cells| ==> r.cells[i] == CleanCell(col.cells[i]))
  {
    if IsTextLike(col.dtype) then
      Column(col.name, ObjectDType, seq(|col.cells|, i requires 0 <= i < |col.cells| => CleanCell(col.cells[i])))
    else col
  }

  function CleanColumns(cols: seq<Column>): (r: seq<Column>)
    ensures |r| == |cols| && forall k :: 0 <= k < |cols| ==> r[k] == CleanColumn(cols[k])
  {
    seq(|cols|, k requires 0 <= k < |cols| => CleanColumn(cols[k]))
  }

  /** `clean_dataframe`: rewrites every text-like column in place. */
  method CleanDataFrame(df: DataFrame)
    requires df.Valid()
    modifies df.columns
    ensures df.Valid()
    ensures df.columns[..] == CleanColumns(old(df.columns[..]))
  {
    var n := df.columns.Length;
    for k := 0 to n
      invariant forall j :: 0 <= j < k ==> df.columns[j] == CleanColumn(old(df.columns[j]))
      invariant forall j :: k <= j < n ==> df.columns[j] == old(df.columns[j])
    {
      var col := df.columns[k];
      if IsTextLike(col.dtype) {
        df.columns[k] := CleanColumn(col);
      }
    }
  }

  /** Cleaning keeps the column names, their order and the row count, leaves
      every column that is not text-like as it was, and afterwards every text
      value is printable ASCII. */
  lemma CleanColumnsShape(cols: seq<Column>, rows: nat)
    requires Shaped(cols, rows)
    ensures Shaped(CleanColumns(cols), rows)
    ensures Names(CleanColumns(cols)) == Names(cols)
    ensures forall k :: 0 <= k < |cols| && !IsTextLike(cols[k].dtype) ==> CleanColumns(cols)[k] == cols[k]
  {
    assert Names(CleanColumns(cols)) == Names(cols);
  }

  // ---------------------------------------------------------------- cast_types

  /** The cast of a whole integer column: fails as soon as one value does. */
  function CastIntCells(cells: seq<Cell>): (r: Result<seq<Cell>>)
    ensures r.Ok? ==>
      (|r.value| == |cells| && forall i :: 0 <= i < |cells| ==> CastIntCell(cells[i]) == Ok(r.value[i]))
    ensures r.Err? <==> exists i :: 0 <= i < |cells| && CastIntCell(cells[i]).Err?
  {
    if cells == [] then Ok([])
    else match CastIntCell(cells[0])
      case Err(e) => Err(e)
      case Ok(c) =>
        match CastIntCells(cells[1..])
        case Err(e) =>
          Err(e)
        case Ok(rest) =>
          assert forall i :: 1 <= i < |cells| ==> cells[i] == cells[1..][i - 1];
          Ok([c] + rest)
  }

  /** `df[name] = ...` for one declaration: the new column, under the same
      name and with one value per row, or the exception the cast raises. */
  function CastColumn(col: Column, kind: CastKind): (r: Result<Column>)
    ensures r.Ok? ==> r.value.name == col.name && |r.value.cells| == |col.cells|
    ensures r.Err? ==> kind == ToInt
  {
    match kind
    case ToInt =>
      (match CastIntCells(col.cells)
       case Err(e) => Err(e)
       case Ok(cs) => Ok(Column(col.name, NullableInt64DType, cs)))
    case ToDate =>
      Ok(Column(col.name, ObjectDType, seq(|col.cells|, i requires 0 <= i < |col.cells| => CastDateCell(col.cells[i]))))
    case ToTimestamp =>
      Ok(Column(col.name, ObjectDType, seq(|col.cells|, i requires 0 <= i < |col.cells| => CastTimestampCell(col.cells[i]))))
    case ToText =>
      var datesOnly := DatesOnly(col.dtype, col.cells);
      Ok(Column(col.name, ObjectDType, seq(|col.cells|, i requires 0 <= i < |col.cells| =>
        CastColumnTextCell(col.dtype, datesOnly, col.cells[i]))))
  }

  /** The text cast of a `datetime64` column: when every value falls at
      midnight, each date-time is written as its date alone, which is its
      timestamp text without ` 00:00:00`; otherwise every value is written as
      `CastTextCell` writes it. */
  lemma CastColumnText(col: Column, i: nat)
    requires i < |col.cells|
    ensures DatesOnly(col.dtype, col.cells) && col.cells[i].DateTime? ==>
      TimestampText(col.cells[i].t) == CastColumn(col, ToText).value.cells[i].s + " 00:00:00"
    ensures !DatesOnly(col.dtype, col.cells) ==> CastColumn(col, ToText).value.cells[i] == CastTextCell(col.dtype, col.cells[i])
  {
  }

  /** A midnight and a NaT in a `datetime64` column print as `2023-05-01` and
      `NaT`; with a second value at noon the same midnight keeps its clock. */
  lemma MidnightColumnText()
    ensures CastColumn(Column("d", DateTimeDType, [DateTime(Timestamp(CalendarDate(2023, 5, 1), 0, 0, 0)), Null]), ToText)
      == Ok(Column("d", ObjectDType, [Text("2023-05-01"), Text("NaT")]))
    ensures CastColumn(Column("d", DateTimeDType, [DateTime(Timestamp(CalendarDate(2023, 5, 1), 0, 0, 0)),
                                                   DateTime(Timestamp(CalendarDate(2023, 5, 1), 12, 0, 0))]), ToText).value.cells[0]
      == Text("2023-05-01 00:00:00")
  {
    MayDayText();
    DatesOnlyColumn(CalendarDate(2023, 5, 1));
    MixedColumn(CalendarDate(2023, 5, 1));
  }

  lemma MayDayText()
    ensures DateText(CalendarDate(2023, 5, 1)) == "2023-05-01"
    ensures TimestampText(Timestamp(CalendarDate(2023, 5, 1), 0, 0, 0)) == "2023-05-01 00:00:00"
  {
    MidnightText(Timestamp(CalendarDate(2023, 5, 1), 0, 0, 0));
  }

  lemma DatesOnlyColumn(day: CalendarDate)
    ensures CastColumn(Column("d", DateTimeDType, [DateTime(Timestamp(day, 0, 0, 0)), Null]), ToText)
      == Ok(Column("d", ObjectDType, [Text(DateText(day)), Text("NaT")]))
  {
    var col := Column("d", DateTimeDType, [DateTime(Timestamp(day, 0, 0, 0)), Null]);
    assert DatesOnly(col.dtype, col.cells);
    var out := CastColumn(col, ToText).value;
    assert out.cells[0] == Text(DateText(day));
    assert out.cells[1] == CastTextCell(DateTimeDType, Null);
    assert out.cells == [Text(DateText(day)), Text("NaT")];
  }

  lemma MixedColumn(day: CalendarDate)
    ensures CastColumn(Column("d", DateTimeDType, [DateTime(Timestamp(day, 0, 0, 0)), DateTime(Timestamp(day, 12, 0, 0))]), ToText)
      .value.cells[0] == Text(TimestampText(Timestamp(day, 0, 0, 0)))
  {
    var col := Column("d", DateTimeDType, [DateTime(Timestamp(day, 0, 0, 0)), DateTime(Timestamp(day, 12, 0, 0))]);
    assert !IsMidnight(col.cells[1].t);
    assert !DatesOnly(col.dtype, col.cells);
  }

  /** `name in df.columns`, and where. */
  function FindColumn(cols: seq<Column>, name: string): (r: Option<nat>)
    ensures r.None? ==> forall k :: 0 <= k < |cols| ==> cols[k].name != name
    ensures r.Some? ==> r.value < |cols| && cols[r.value].name == name
  {
    if cols == [] then None
    else if cols[|cols| - 1].name == name then Some(|cols| - 1)
    else FindColumn(cols[..|cols| - 1], name)
  }

  /** One turn of the loop of `cast_types`. */
  function CastEntry(cols: seq<Column>, spec: ColumnSpec): (r: Result<seq<Column>>)
    ensures FindColumn(cols, spec.name).None? ==> r == Ok(cols)
    ensures r.Ok? ==> |r.value| == |cols|
  {
    match FindColumn(cols, spec.name)
    case None => Ok(cols)
    case Some(k) =>
      match CastColumn(cols[k], KindOf(spec.typ))
      case Err(e) => Err(e)
      case Ok(col) => Ok(cols[k := col])
  }

  /** `cast_types`: the declarations applied in order; the first cast that
      raises ends it. The result has one column per column of the table, and a
      schema that names none of the table's columns leaves the table as it is. */
  function CastAll(cols: seq<Column>, schema: seq<ColumnSpec>): (r: Result<seq<Column>>)
    ensures r.Ok? ==> |r.value| == |cols|
    ensures (forall j :: 0 <= j < |schema| ==> FindColumn(cols, schema[j].name).None?) ==> r == Ok(cols)
    decreases |schema|
  {
    if schema == [] then Ok(cols)
    else match CastEntry(cols, schema[0])
      case Err(e) => Err(e)
      case Ok(next) => CastAll(next, schema[1..])
  }

  /** `name not in df.columns` and the position of the column otherwise. */
  method ColumnIndex(df: DataFrame, name: string) returns (r: Option<nat>)
    ensures r == FindColumn(df.columns[..], name)
  {
    var k := df.columns.Length;
    assert df.columns[..k] == df.columns[..];
    while k > 0 && df.columns[k - 1].name != name
      invariant 0 <= k <= df.columns.Length
      invariant FindColumn(df.columns[..], name) == FindColumn(df.columns[..k], name)
    {
      assert df.columns[..k][..k - 1] == df.columns[..k - 1];
      k := k - 1;
    }
    if k == 0 {
      r := None;
    } else {
      assert df.columns[..k][..k - 1] == df.columns[..k - 1];
      r := Some(k - 1);
    }
  }

  /** `cast_types`: walks the schema and replaces each declared column that
      the table has by its cast. A cast that raises leaves the columns already
      replaced as they are and reports the exception. */
  method CastTypes(df: DataFrame, schema: seq<ColumnSpec>) returns (outcome: Outcome)
    requires df.Valid()
    modifies df.columns
    ensures df.Valid()
    ensures outcome.Pass? <==> CastAll(old(df.columns[..]), schema).Ok?
    ensures outcome.Pass? ==> df.columns[..] == CastAll(old(df.columns[..]), schema).value
  {
    for i := 0 to |schema|
      invariant df.Valid()
      invariant CastAll(old(df.columns[..]), schema) == CastAll(df.columns[..], schema[i..])
    {
      assert schema[i..][0] == schema[i] && schema[i..][1..] == schema[i + 1..];
      var spec := schema[i];
      var found := ColumnIndex(df, spec.name);
      if found.Some? {
        var k := found.value;
        var cast := CastColumn(df.columns[k], KindOf(spec.typ));
        if cast.Err? {
          return Fail(cast.reason);
        }
        ghost var before := df.columns[..];
        df.columns[k] := cast.value;
        assert df.columns[..] == before[k := cast.value];
      }
    }
    assert schema[|schema|..] == [];
    outcome := Pass;
  }

  // ---------------------------------------------------------------- what cast_types promises

  function SchemaNames(schema: seq<ColumnSpec>): set<string> {
    set spec | spec in schema :: spec.name
  }

  /** No name is declared twice, as in every schema of the configuration. */
  predicate DistinctNames(schema: seq<ColumnSpec>) {
    forall i, j :: 0 <= i < j < |schema| ==> schema[i].name != schema[j].name
  }

  /** Casting keeps the columns, their names, their order and their lengths,
      and never touches a column the schema does not name. */
  lemma {:induction false} CastAllKeepsOthers(cols: seq<Column>, schema: seq<ColumnSpec>)
    requires CastAll(cols, schema).Ok?
    ensures |CastAll(cols, schema).value| == |cols|
    ensures Names(CastAll(cols, schema).value) == Names(cols)
    ensures forall k :: 0 <= k < |cols| ==> |CastAll(cols, schema).value[k].cells| == |cols[k].cells|
    ensures forall k :: 0 <= k < |cols| && cols[k].name !in SchemaNames(schema) ==>
      CastAll(cols, schema).value[k] == cols[k]
    decreases |schema|
  {
    if schema != [] {
      var next := CastEntry(cols, schema[0]).value;
      assert forall k :: 0 <= k < |cols| ==> next[k].name == cols[k].name && |next[k].cells| == |cols[k].cells|;
      assert forall k :: 0 <= k < |cols| && cols[k].name != schema[0].name ==> next[k] == cols[k];
      CastAllKeepsOthers(next, schema[1..]);
      assert Names(next) == Names(cols);
      assert forall n :: n in SchemaNames(schema[1..]) ==> n in SchemaNames(schema) by {
        forall n | n in SchemaNames(schema[1..]) ensures n in SchemaNames(schema) {
          var spec :| spec in schema[1..] && spec.name == n;
          assert spec in schema;
        }
      }
      assert schema[0] in schema;
    }
  }

  /** The first declaration of a schema that names each column at most once:
      its column is cast, and no later declaration touches it again. */
  lemma CastAllDeclaredFirst(cols: seq<Column>, rows: nat, schema: seq<ColumnSpec>, k: nat)
    requires Shaped(cols, rows) && DistinctNames(schema)
    requires |schema| > 0 && k < |cols| && cols[k].name == schema[0].name
    requires CastAll(cols, schema).Ok?
    ensures k < |CastAll(cols, schema).value|
    ensures CastColumn(cols[k], KindOf(schema[0].typ)) == Ok(CastAll(cols, schema).value[k])
  {
    var next := CastEntry(cols, schema[0]).value;
    assert CastAll(cols, schema) == CastAll(next, schema[1..]);
    assert FindColumn(cols, schema[0].name) == Some(k);
    assert next[k] == CastColumn(cols[k], KindOf(schema[0].typ)).value;
    CastAllKeepsOthers(next, schema[1..]);
    forall spec | spec in schema[1..] ensures spec.name != next[k].name {
      var i :| 0 <= i < |schema[1..]| && schema[1..][i] == spec;
      assert schema[i + 1] == spec;
    }
  }

  /** A declared column that the table has ends up as its own cast, for the
      type the schema gives it. */
  lemma {:induction false} CastAllDeclared(cols: seq<Column>, rows: nat, schema: seq<ColumnSpec>, j: nat, k: nat)
    requires Shaped(cols, rows) && DistinctNames(schema)
    requires j < |schema| && k < |cols| && cols[k].name == schema[j].name
    requires CastAll(cols, schema).Ok?
    ensures k < |CastAll(cols, schema).value|
    ensures CastColumn(cols[k], KindOf(schema[j].typ)) == Ok(CastAll(cols, schema).value[k])
    decreases j
  {
    var next := CastEntry(cols, schema[0]).value;
    assert CastAll(cols, schema) == CastAll(next, schema[1..]);
    if j == 0 {
      CastAllDeclaredFirst(cols, rows, schema, k);
    } else {
      assert forall m :: 0 <= m < |cols| ==> next[m].name == cols[m].name && |next[m].cells| == |cols[m].cells|;
      assert Shaped(next, rows);
      assert schema[0].name != cols[k].name;
      assert next[k] == cols[k];
      DistinctTail(schema);
      assert schema[1..][j - 1] == schema[j];
      CastAllDeclared(next, rows, schema[1..], j - 1, k);
    }
  }

  /** The declaration of `spec` names a column of the table whose cast raises. */
  predicate Raises(cols: seq<Column>, spec: ColumnSpec) {
    FindColumn(cols, spec.name).Some? &&
    CastColumn(cols[FindColumn(cols, spec.name).value], KindOf(spec.typ)).Err?
  }

  lemma DistinctTail(schema: seq<ColumnSpec>)
    requires schema != [] && DistinctNames(schema)
    ensures DistinctNames(schema[1..])
  {
    forall a, b | 0 <= a < b < |schema[1..]| ensures schema[1..][a].name != schema[1..][b].name {
      assert schema[1..][a] == schema[a + 1] && schema[1..][b] == schema[b + 1];
    }
  }

  /** A declaration that casts leaves the table shaped as before, and whether
      a later declaration (naming another column) raises does not change. */
  lemma EntryKeepsRaises(cols: seq<Column>, rows: nat, schema: seq<ColumnSpec>)
    requires Shaped(cols, rows) && schema != [] && DistinctNames(schema) && !Raises(cols, schema[0])
    ensures CastEntry(cols, schema[0]).Ok?
    ensures Shaped(CastEntry(cols, schema[0]).value, rows)
    ensures forall j :: 1 <= j < |schema| ==>
      Raises(CastEntry(cols, schema[0]).value, schema[j]) == Raises(cols, schema[j])
  {
    var next := CastEntry(cols, schema[0]).value;
    assert forall m :: 0 <= m < |cols| ==> next[m].name == cols[m].name && |next[m].cells| == |cols[m].cells|;
    assert Shaped(next, rows);
    forall j | 1 <= j < |schema|
      ensures Raises(next, schema[j]) == Raises(cols, schema[j])
    {
      var f := FindColumn(cols, schema[j].name);
      assert FindColumn(next, schema[j].name) == f by {
        if f.Some? {
          assert next[f.value].name == schema[j].name;
        }
      }
      if f.Some? {
        assert cols[f.value].name != schema[0].name;
        assert next[f.value] == cols[f.value];
      }
    }
  }

  /** `cast_types` raises exactly when one of the declarations, applied to the
      column as the table had it, raises; every other schema casts. */
  lemma {:induction false} CastAllRaises(cols: seq<Column>, rows: nat, schema: seq<ColumnSpec>)
    requires Shaped(cols, rows) && DistinctNames(schema)
    ensures CastAll(cols, schema).Err? <==> exists j :: 0 <= j < |schema| && Raises(cols, schema[j])
    decreases |schema|
  {
    if schema != [] {
      DistinctTail(schema);
      if Raises(cols, schema[0]) {
        assert CastAll(cols, schema).Err?;
      } else {
        EntryKeepsRaises(cols, rows, schema);
        var next := CastEntry(cols, schema[0]).value;
        CastAllRaises(next, rows, schema[1..]);
        if exists j :: 0 <= j < |schema[1..]| && Raises(next, schema[1..][j]) {
          var j :| 0 <= j < |schema[1..]| && Raises(next, schema[1..][j]);
          assert schema[1..][j] == schema[j + 1];
        }
        if exists j :: 0 <= j < |schema| && Raises(cols, schema[j]) {
          var j :| 0 <= j < |schema| && Raises(cols, schema[j]);
          assert schema[1..][j - 1] == schema[j];
        }
      }
    }
  }

  // ---------------------------------------------------------------- clean, then cast

  /** The normalisation `main` applies to each table: clean first, then cast.
      It keeps the column names, in order. */
  function Normalize(cols: seq<Column>, schema: seq<ColumnSpec>): (r: Result<seq<Column>>)
    ensures r.Ok? ==> Names(r.value) == Names(cols)
  {
    var cleaned := CleanColumns(cols);
    assert Names(cleaned) == Names(cols);
    var out := CastAll(cleaned, schema);
    if out.Ok? then CastAllKeepsOthers(cleaned, schema); out else out
  }

  /** Normalising keeps the table's shape. */
  lemma NormalizeShape(cols: seq<Column>, rows: nat, schema: seq<ColumnSpec>)
    requires Shaped(cols, rows) && Normalize(cols, schema).Ok?
    ensures Shaped(Normalize(cols, schema).value, rows)
  {
    CleanColumnsShape(cols, rows);
    CastAllKeepsOthers(CleanColumns(cols), schema);
    var out := Normalize(cols, schema).value;
    assert forall k :: 0 <= k < |out| ==> out[k].name == Names(out)[k] == Names(cols)[k] == cols[k].name;
  }

  /** Every text value in the table is printable ASCII. */
  predicate TextPrintable(cols: seq<Column>) {
    forall k, r :: 0 <= k < |cols| && 0 <= r < |cols[k].cells| && cols[k].cells[r].Text? ==>
      Sanitize.AllPrintable(cols[k].cells[r].s)
  }

  lemma DateShapePrintable(s: string)
    requires IsDateShape(s)
    ensures Sanitize.AllPrintable(s)
  {
    forall i | 0 <= i < 10 ensures Sanitize.IsPrintable(s[i]) {
      if i < 4 { assert s[0..4][i] == s[i]; }
      else if 4 < i < 7 { assert s[5..7][i - 5] == s[i]; }
      else if 7 < i { assert s[8..10][i - 8] == s[i]; }
    }
  }

  lemma TimestampShapePrintable(s: string)
    requires IsTimestampShape(s)
    ensures Sanitize.AllPrintable(s)
  {
    DateShapePrintable(s[..10]);
    forall i | 0 <= i < 19 ensures Sanitize.IsPrintable(s[i]) {
      if i < 10 { assert s[..10][i] == s[i]; }
      else if 10 < i < 13 { assert s[11..13][i - 11] == s[i]; }
      else if 13 < i < 16 { assert s[14..16][i - 14] == s[i]; }
      else if 16 < i { assert s[17..19][i - 17] == s[i]; }
    }
  }

  lemma CastColumnTextPrintable(col: Column, kind: CastKind)
    requires CastColumn(col, kind).Ok?
    requires forall r :: 0 <= r < |col.cells| && col.cells[r].Text? ==> Sanitize.AllPrintable(col.cells[r].s)
    ensures forall r :: 0 <= r < |col.cells| && CastColumn(col, kind).value.cells[r].Text? ==>
      Sanitize.AllPrintable(CastColumn(col, kind).value.cells[r].s)
  {
    var out := CastColumn(col, kind).value;
    if kind == ToInt {
      forall r | 0 <= r < |col.cells| ensures !out.cells[r].Text? {
        assert CastIntCell(col.cells[r]) == Ok(out.cells[r]);
      }
    } else {
      forall r | 0 <= r < |col.cells| && out.cells[r].Text? ensures Sanitize.AllPrintable(out.cells[r].s) {
        if kind == ToDate {
          DateShapePrintable(out.cells[r].s);
        } else if kind == ToTimestamp {
          TimestampShapePrintable(out.cells[r].s);
        } else if DatesOnly(col.dtype, col.cells) && col.cells[r].DateTime? {
          DateTextPrintable(col.cells[r].t.date);
        } else if !col.cells[r].Text? {
          CastTextPrintable(col.dtype, col.cells[r]);
        }
      }
    }
  }

  lemma {:induction false} CastAllTextPrintable(cols: seq<Column>, schema: seq<ColumnSpec>)
    requires TextPrintable(cols) && CastAll(cols, schema).Ok?
    ensures TextPrintable(CastAll(cols, schema).value)
    decreases |schema|
  {
    if schema != [] {
      var next := CastEntry(cols, schema[0]).value;
      var f := FindColumn(cols, schema[0].name);
      if f.Some? {
        CastColumnTextPrintable(cols[f.value], KindOf(schema[0].typ));
        assert TextPrintable(next);
      }
      CastAllTextPrintable(next, schema[1..]);
    }
  }

  /** After cleaning and casting, every text value of every column is
      printable ASCII, so no value can carry a line break into the output. */
  lemma NormalizedTextPrintable(cols: seq<Column>, schema: seq<ColumnSpec>)
    requires WellTyped(cols) && Normalize(cols, schema).Ok?
    ensures TextPrintable(Normalize(cols, schema).value)
  {
    var cleaned := CleanColumns(cols);
    forall k, r | 0 <= k < |cleaned| && 0 <= r < |cleaned[k].cells| && cleaned[k].cells[r].Text?
      ensures Sanitize.AllPrintable(cleaned[k].cells[r].s)
    {
      assert Fits(cols[k].dtype, cols[k].cells[r]);
    }
    CastAllTextPrintable(cleaned, schema);
  }

  /** Cleaning comes first, so the int cast sees the text "True"/"False" of a
      boolean column and yields missing values, where casting the raw
      booleans would have yielded 1 and 0. */
  lemma CleanBeforeIntCast(b: bool)
    ensures CastIntCell(CleanCell(Bool(b))) == Ok(Null)
    ensures CastIntCell(Bool(b)) == Ok(Int(if b then 1 else 0))
  {
    var t := if b then "True" else "False";
    Sanitize.SanitizeFixedPoints(t);
    assert CleanCell(Bool(b)) == Text(t);
    CastIntOfNonNumericText(t, 0);
  }
}
