/** The run of the export script: clear the previous `.json` objects from
    the bucket, then export each configured table to its folder, one table
    at a time, a failure in one table not stopping the next. */
module Runner {
  import opened Wrappers
  import Sanitize
  import opened Values
  import opened Casts
  import opened Frames
  import opened Ndjson

  // ---------------------------------------------------------------- configuration

  /** The tables to export and the folder each goes to, in dictionary order. */
  const TABLES: seq<(string, string)> := [("users", "users_folder/"), ("admin_profiles", "admin_profiles_folder/")]

  const UsersSchema: seq<ColumnSpec> := [
    ColumnSpec("id", "int"),
    ColumnSpec("email", "string"),
    ColumnSpec("password", "string"),
    ColumnSpec("firstname", "string"),
    ColumnSpec("lastname", "string"),
    ColumnSpec("username", "string"),
    ColumnSpec("role", "string"),
    ColumnSpec("creation_date", "date"),
    ColumnSpec("created_at", "timestamp"),
    ColumnSpec("updated_at", "timestamp")
  ]

  const AdminProfilesSchema: seq<ColumnSpec> := [
    ColumnSpec("id", "int"),
    ColumnSpec("admision_to_admin_date", "date"),
    ColumnSpec("admision_to_admin_time", "string"),
    ColumnSpec("total_questions_answered", "int"),
    ColumnSpec("is_active", "string"),
    ColumnSpec("created_at", "timestamp"),
    ColumnSpec("updated_at", "timestamp")
  ]

  /** The declared column types of each table. */
  const SCHEMAS: map<string, seq<ColumnSpec>> := map["users" := UsersSchema, "admin_profiles" := AdminProfilesSchema]

  /** Every configured table has a schema, no schema declares a column twice,
      and the two tables are distinct. */
  lemma ConfigurationConsistent()
    ensures forall i :: 0 <= i < |TABLES| ==> TABLES[i].0 in SCHEMAS && DistinctNames(SCHEMAS[TABLES[i].0])
    ensures TABLES[0].0 != TABLES[1].0
  {
  }

  /** `is_active` is a boolean column declared as "string": cleaning has
      already made its values "True"/"False", and the text cast keeps them. */
  lemma IsActiveStaysText(b: bool)
    ensures ColumnSpec("is_active", "string") in SCHEMAS["admin_profiles"]
    ensures KindOf(ColumnSpec("is_active", "string").typ) == ToText
    ensures CastTextCell(ObjectDType, CleanCell(Bool(b))) == Text(if b then "True" else "False")
  {
    assert AdminProfilesSchema[4] == ColumnSpec("is_active", "string");
    var t := if b then "True" else "False";
    Sanitize.SanitizeFixedPoints(t);
  }

  // ---------------------------------------------------------------- object keys

  /** `key.endswith(".json")`: the key is some text followed by `.json`. */
  predicate IsJsonKey(key: string)
    ensures IsJsonKey(key) <==> exists stem :: key == stem + ".json"
  {
    if |key| >= 5 && key[|key| - 5..] == ".json" then
      assert key == key[..|key| - 5] + ".json";
      true
    else
      assert forall stem :: (stem + ".json")[|stem|..] == ".json";
      false
  }

  /** The key a table is uploaded under: its folder, its name and `.json`. */
  function ObjectKey(folder: string, table: string): (key: string)
    ensures IsJsonKey(key)
    ensures |key| == |folder| + |table| + 5
    ensures key[..|folder|] == folder && key[|folder|..|key| - 5] == table
  {
    folder + table + ".json"
  }

  /** Keys are told apart by their parts: the same folder with different
      tables, or two folders neither of which begins the other, never give
      the same key. */
  lemma ObjectKeyInjective(folder1: string, table1: string, folder2: string, table2: string)
    requires folder1 == folder2 || (!(folder1 <= folder2) && !(folder2 <= folder1))
    requires ObjectKey(folder1, table1) == ObjectKey(folder2, table2)
    ensures folder1 == folder2 && table1 == table2
  {
    var key := ObjectKey(folder1, table1);
    PrefixesCompare(folder1, folder2, key);
    assert table1 == key[|folder1|..|key| - 5] == table2;
  }

  /** Two beginnings of one text: the shorter begins the longer. */
  lemma PrefixesCompare(a: string, b: string, s: string)
    requires a <= s && b <= s
    ensures a <= b || b <= a
  {
    if |a| <= |b| {
      assert a == s[..|a|] == b[..|a|];
    } else {
      assert b == s[..|b|] == a[..|b|];
    }
  }

  /** The two configured tables are uploaded under different keys. */
  lemma ConfiguredKeysDistinct()
    ensures ObjectKey(TABLES[0].1, TABLES[0].0) == "users_folder/users.json"
    ensures ObjectKey(TABLES[1].1, TABLES[1].0) == "admin_profiles_folder/admin_profiles.json"
    ensures ObjectKey(TABLES[0].1, TABLES[0].0) != ObjectKey(TABLES[1].1, TABLES[1].0)
  {
    assert |ObjectKey(TABLES[0].1, TABLES[0].0)| != |ObjectKey(TABLES[1].1, TABLES[1].0)|;
  }

  // ---------------------------------------------------------------- the bucket

  /** The bucket: every object's key and the lines it holds. */
  class Bucket {
    var objects: map<string, seq<string>>

    constructor (objects: map<string, seq<string>>)
      ensures this.objects == objects
    {
      this.objects := objects;
    }
  }

  /** The keys the clear step deletes: the listed `.json` keys in listing
      order, up to the first one whose delete raises. */
  function DeletedKeys(listing: seq<string>, deleteFails: set<string>): (deleted: seq<string>)
    ensures forall k :: k in deleted ==> k in listing && IsJsonKey(k) && k !in deleteFails
  {
    if listing == [] then []
    else if !IsJsonKey(listing[0]) then DeletedKeys(listing[1..], deleteFails)
    else if listing[0] in deleteFails then []
    else [listing[0]] + DeletedKeys(listing[1..], deleteFails)
  }

  /** The clear step runs without raising: the listing call answers and no
      delete of a listed `.json` key raises. */
  predicate ClearSucceeds(listing: Option<seq<string>>, deleteFails: set<string>) {
    listing.Some? && forall k :: k in listing.value && IsJsonKey(k) ==> k !in deleteFails
  }

  /** The objects left after the clear step; a listing call that raises
      deletes nothing. The step only ever removes listed `.json` keys: every
      other object stays, with its content, whatever fails. */
  function Cleared(objects: map<string, seq<string>>, listing: Option<seq<string>>, deleteFails: set<string>)
    : (left: map<string, seq<string>>)
    ensures left.Keys <= objects.Keys
    ensures forall k :: k in left ==> left[k] == objects[k]
    ensures forall k :: k in objects && !IsJsonKey(k) ==> k in left
    ensures forall k :: k in objects && (listing.None? || k !in listing.value) ==> k in left
  {
    match listing
    case None => objects
    case Some(keys) => objects - (set k | k in DeletedKeys(keys, deleteFails))
  }

  /** When no delete raises, the deleted keys are exactly the listed `.json`
      keys. */
  lemma {:induction false} DeletedKeysExactly(listing: seq<string>, deleteFails: set<string>)
    requires forall k :: k in listing && IsJsonKey(k) ==> k !in deleteFails
    ensures forall k :: k in DeletedKeys(listing, deleteFails) <==> k in listing && IsJsonKey(k)
  {
    if listing != [] {
      DeletedKeysExactly(listing[1..], deleteFails);
      assert forall k :: k in listing <==> k == listing[0] || k in listing[1..];
    }
  }

  /** A clear step that succeeds removes exactly the listed `.json` keys. */
  lemma ClearRemovesListedJson(objects: map<string, seq<string>>, listing: Option<seq<string>>, deleteFails: set<string>)
    requires ClearSucceeds(listing, deleteFails)
    ensures forall k :: k in Cleared(objects, listing, deleteFails) <==>
      k in objects && !(k in listing.value && IsJsonKey(k))
  {
    DeletedKeysExactly(listing.value, deleteFails);
  }

  lemma DeletedKeysFrom(keys: seq<string>, i: nat, deleteFails: set<string>)
    requires i < |keys|
    ensures DeletedKeys(keys[i..], deleteFails) ==
      if !IsJsonKey(keys[i]) then DeletedKeys(keys[i + 1..], deleteFails)
      else if keys[i] in deleteFails then []
      else [keys[i]] + DeletedKeys(keys[i + 1..], deleteFails)
  {
    assert keys[i..][0] == keys[i] && keys[i..][1..] == keys[i + 1..];
  }

  lemma RemoveOneMore(objects: map<string, seq<string>>, deleted: seq<string>, key: string)
    ensures objects - (set k | k in deleted + [key]) == (objects - (set k | k in deleted)) - {key}
  {
    assert (set k | k in deleted + [key]) == (set k | k in deleted) + {key};
  }

  lemma ClearSucceedsByIndex(keys: seq<string>, deleteFails: set<string>)
    ensures ClearSucceeds(Some(keys), deleteFails) <==>
      forall j :: 0 <= j < |keys| && IsJsonKey(keys[j]) ==> keys[j] !in deleteFails
  {
    assert forall k :: k in keys ==> exists j :: 0 <= j < |keys| && keys[j] == k;
  }

  /** The clear step of `main`: list the bucket, delete every listed `.json`
      key in order; an exception ends the step and is reported. */
  method ClearBucket(bucket: Bucket, listing: Option<seq<string>>, deleteFails: set<string>) returns (outcome: Outcome)
    modifies bucket
    ensures outcome.Pass? <==> ClearSucceeds(listing, deleteFails)
    ensures bucket.objects == Cleared(old(bucket.objects), listing, deleteFails)
  {
    if listing.None? {
      return Fail("listing the bucket failed");
    }
    var keys := listing.value;
    ghost var deleted: seq<string> := [];
    var i := 0;
    while i < |keys|
      invariant 0 <= i <= |keys|
      invariant DeletedKeys(keys, deleteFails) == deleted + DeletedKeys(keys[i..], deleteFails)
      invariant forall j :: 0 <= j < i && IsJsonKey(keys[j]) ==> keys[j] !in deleteFails
      invariant bucket.objects == old(bucket.objects) - (set k | k in deleted)
    {
      var key := keys[i];
      DeletedKeysFrom(keys, i, deleteFails);
      if IsJsonKey(key) {
        if key in deleteFails {
          assert deleted + [] == deleted;
          return Fail("deleting " + key + " failed");
        }
        RemoveOneMore(old(bucket.objects), deleted, key);
        bucket.objects := bucket.objects - {key};
        assert deleted + ([key] + DeletedKeys(keys[i + 1..], deleteFails)) ==
               (deleted + [key]) + DeletedKeys(keys[i + 1..], deleteFails);
        deleted := deleted + [key];
      }
      i := i + 1;
    }
    assert keys[i..] == [];
    assert deleted + [] == deleted;
    ClearSucceedsByIndex(keys, deleteFails);
    outcome := Pass;
  }

  // ---------------------------------------------------------------- one table

  /** What the world answers for one table: the frame `read_sql` returns or
      the error it raises, and whether the upload raises. */
  datatype TableSource = TableSource(fetched: Result<(seq<Column>, nat)>, uploadFails: bool)

  /** A fetched frame is rectangular, has distinct column names, and every
      value fits its column's storage type. */
  predicate Consistent(src: TableSource) {
    src.fetched.Ok? ==> Shaped(src.fetched.value.0, src.fetched.value.1) && WellTyped(src.fetched.value.0)
  }

  /** The body of the `try` for one table: fetch, clean, cast with the
      table's schema, write the lines and upload them under the table's key;
      the first step that raises gives the error. */
  function TableRun(table: string, folder: string, src: TableSource): (r: Result<(string, seq<string>)>)
    requires Consistent(src)
    ensures r.Ok? ==> r.value.0 == ObjectKey(folder, table)
  {
    match src.fetched
    case Err(e) => Err(e)
    case Ok(frame) =>
      if table !in SCHEMAS then Err("KeyError: " + table)
      else
        match Normalize(frame.0, SCHEMAS[table])
        case Err(e) => Err(e)
        case Ok(cols) =>
          NormalizeShape(frame.0, frame.1, SCHEMAS[table]);
          match NdjsonLines(cols, frame.1)
          case Err(e) => Err(e)
          case Ok(lines) =>
            if src.uploadFails then Err("upload failed") else Ok((ObjectKey(folder, table), lines))
  }

  /** One line of a table's file: a single line ending in a line feed that
      reads back as one JSON object whose keys are the column names, in
      order, and whose string values are printable ASCII. */
  predicate IsTableLine(line: string, names: seq<string>) {
    |line| > 0 && line[|line| - 1] == '\n' && '\n' !in line[..|line| - 1] &&
    DecodeLine(line).Some? && |DecodeLine(line).value| == |names| &&
    forall k :: 0 <= k < |names| ==>
      DecodeLine(line).value[k].0 == names[k] &&
      (DecodeLine(line).value[k].1.JString? ==> Sanitize.AllPrintable(DecodeLine(line).value[k].1.s))
  }

  /** The file of a table with the given column names. */
  predicate IsTableFile(lines: seq<string>, names: seq<string>) {
    forall r :: 0 <= r < |lines| ==> IsTableLine(lines[r], names)
  }

  /** The lines written for a table whose text values are all printable form
      a file of that table, one line per row. */
  lemma WrittenFile(cols: seq<Column>, rows: nat)
    requires Rectangular(cols, rows) && TextPrintable(cols) && NdjsonLines(cols, rows).Ok?
    ensures |NdjsonLines(cols, rows).value| == rows
    ensures IsTableFile(NdjsonLines(cols, rows).value, Names(cols))
  {
    NdjsonLinesRead(cols, rows);
    var lines := NdjsonLines(cols, rows).value;
    forall r | 0 <= r < rows
      ensures IsTableLine(lines[r], Names(cols))
    {
      var decoded := DecodeLine(lines[r]).value;
      forall k | 0 <= k < |cols|
        ensures decoded[k].1.JString? ==> Sanitize.AllPrintable(decoded[k].1.s)
      {
        assert CellJson(cols[k].dtype, cols[k].cells[r]) == Ok(decoded[k].1);
      }
    }
  }

  /** The steps of a table run that got to the upload. */
  lemma TableRunSteps(table: string, folder: string, src: TableSource)
    requires Consistent(src) && TableRun(table, folder, src).Ok?
    ensures src.fetched.Ok? && table in SCHEMAS && !src.uploadFails
    ensures Normalize(src.fetched.value.0, SCHEMAS[table]).Ok?
    ensures Rectangular(Normalize(src.fetched.value.0, SCHEMAS[table]).value, src.fetched.value.1)
    ensures TableRun(table, folder, src) ==
      Ok((ObjectKey(folder, table), NdjsonLines(Normalize(src.fetched.value.0, SCHEMAS[table]).value, src.fetched.value.1).value))
  {
    NormalizeShape(src.fetched.value.0, src.fetched.value.1, SCHEMAS[table]);
  }

  /** What an upload means: the object sits under `folder + table + ".json"`
      and holds one line per fetched row, a file of the table's columns. */
  lemma UploadedFile(table: string, folder: string, src: TableSource)
    requires Consistent(src) && TableRun(table, folder, src).Ok?
    ensures TableRun(table, folder, src).value.0 == ObjectKey(folder, table)
    ensures |TableRun(table, folder, src).value.1| == src.fetched.value.1
    ensures IsTableFile(TableRun(table, folder, src).value.1, Names(src.fetched.value.0))
  {
    TableRunSteps(table, folder, src);
    var cols := src.fetched.value.0;
    var rows := src.fetched.value.1;
    var schema := SCHEMAS[table];
    NormalizeShape(cols, rows, schema);
    NormalizedTextPrintable(cols, schema);
    WrittenFile(Normalize(cols, schema).value, rows);
  }

  /** A table whose schema is missing, whose fetch raises or whose upload
      raises uploads nothing. */
  lemma TableRunFails(table: string, folder: string, src: TableSource)
    requires Consistent(src)
    ensures src.fetched.Err? ==> TableRun(table, folder, src).Err?
    ensures table !in SCHEMAS ==> TableRun(table, folder, src).Err?
    ensures src.uploadFails ==> TableRun(table, folder, src).Err?
  {
  }

  /** Both configured schemas declare each column once. */
  lemma SchemaDistinct(table: string)
    requires table in SCHEMAS
    ensures DistinctNames(SCHEMAS[table])
  {
    ConfigurationConsistent();
    assert table == TABLES[0].0 || table == TABLES[1].0;
  }

  /** A value of a column declared "int" that the cast turns into a missing
      value is `pd.NA`, which `json.dumps` refuses, so the whole table is not
      uploaded. Such values are the text "None" that cleaning writes for a
      SQL NULL in an object column, and any other text that is not a number. */
  lemma MissingIntFailsTable(table: string, folder: string, src: TableSource, j: nat, k: nat, r: nat)
    requires Consistent(src) && src.fetched.Ok? && table in SCHEMAS
    requires j < |SCHEMAS[table]| && SCHEMAS[table][j].typ == "int"
    requires k < |src.fetched.value.0| && src.fetched.value.0[k].name == SCHEMAS[table][j].name
    requires r < src.fetched.value.1
    requires CastIntCell(CleanColumns(src.fetched.value.0)[k].cells[r]) == Ok(Null)
    ensures TableRun(table, folder, src).Err?
  {
    var cols := src.fetched.value.0;
    var rows := src.fetched.value.1;
    var schema := SCHEMAS[table];
    if Normalize(cols, schema).Ok? {
      var cleaned := CleanColumns(cols);
      CleanColumnsShape(cols, rows);
      SchemaDistinct(table);
      CastAllDeclared(cleaned, rows, schema, j, k);
      var out := Normalize(cols, schema).value;
      assert CastColumn(cleaned[k], ToInt) == Ok(out[k]);
      assert CastIntCell(cleaned[k].cells[r]) == Ok(out[k].cells[r]);
      assert Unserializable(out[k].dtype, out[k].cells[r]);
      NormalizeShape(cols, rows, schema);
      NdjsonLinesFail(out, rows);
    }
  }

  /** A SQL NULL in an object column declared "int" is such a value. */
  lemma NullTextIsMissingInt()
    ensures CastIntCell(CleanCell(Null)) == Ok(Null)
  {
    Sanitize.SanitizeFixedPoints("None");
    CastIntOfNoneText();
  }

  /** How one table ended, as `main` reports it. */
  datatype TableReport = Uploaded(key: string) | Failed(table: string)

  function ReportOf(table: string, run: Result<(string, seq<string>)>): TableReport {
    if run.Ok? then Uploaded(run.value.0) else Failed(table)
  }

  /** The bucket after one table: its object is written when the run got that
      far, and nothing changes otherwise. */
  function Upload(objects: map<string, seq<string>>, run: Result<(string, seq<string>)>): map<string, seq<string>> {
    if run.Ok? then objects[run.value.0 := run.value.1] else objects
  }

  /** One turn of the table loop of `main`, on a frame of its own. */
  method ExportTable(bucket: Bucket, table: string, folder: string, src: TableSource) returns (report: TableReport)
    requires Consistent(src)
    modifies bucket
    ensures report == ReportOf(table, TableRun(table, folder, src))
    ensures bucket.objects == Upload(old(bucket.objects), TableRun(table, folder, src))
  {
    if src.fetched.Err? {
      return Failed(table);
    }
    var cols := src.fetched.value.0;
    var rows := src.fetched.value.1;
    if table !in SCHEMAS {
      return Failed(table);
    }
    var df := new DataFrame(cols, rows);
    CleanDataFrame(df);
    var cast := CastTypes(df, SCHEMAS[table]);
    if cast.Fail? {
      return Failed(table);
    }
    assert df.columns[..] == Normalize(cols, SCHEMAS[table]).value;
    var written := ExportToNdjson(df);
    if written.Err? {
      return Failed(table);
    }
    if src.uploadFails {
      return Failed(table);
    }
    var key := ObjectKey(folder, table);
    bucket.objects := bucket.objects[key := written.value];
    report := Uploaded(key);
  }

  // ---------------------------------------------------------------- main

  /** The bucket after the first `n` configured tables have been exported. */
  function UploadAll(objects: map<string, seq<string>>, sources: seq<TableSource>, n: nat): (after: map<string, seq<string>>)
    requires n <= |TABLES| == |sources|
    requires forall i :: 0 <= i < |sources| ==> Consistent(sources[i])
    ensures objects.Keys <= after.Keys
  {
    if n == 0 then objects
    else Upload(UploadAll(objects, sources, n - 1), RunOf(sources, n - 1))
  }

  /** The bucket at the end of a run of `main`. */
  function FinalObjects(objects: map<string, seq<string>>, listing: Option<seq<string>>, deleteFails: set<string>,
                        sources: seq<TableSource>): map<string, seq<string>>
    requires |sources| == |TABLES|
    requires forall i :: 0 <= i < |sources| ==> Consistent(sources[i])
  {
    UploadAll(Cleared(objects, listing, deleteFails), sources, |TABLES|)
  }

  /** The run of configured table `i`. */
  function RunOf(sources: seq<TableSource>, i: nat): Result<(string, seq<string>)>
    requires i < |TABLES| == |sources| && Consistent(sources[i])
  {
    TableRun(TABLES[i].0, TABLES[i].1, sources[i])
  }

  /** The first `n` tables add only their own keys. */
  lemma {:induction false} UploadAllKeys(objects: map<string, seq<string>>, sources: seq<TableSource>, n: nat)
    requires n <= |TABLES| == |sources|
    requires forall i :: 0 <= i < |sources| ==> Consistent(sources[i])
    ensures forall k :: k in UploadAll(objects, sources, n) <==>
      (k in objects || exists i :: 0 <= i < n && RunOf(sources, i).Ok? && RunOf(sources, i).value.0 == k)
  {
    if n > 0 {
      UploadAllKeys(objects, sources, n - 1);
      var run := RunOf(sources, n - 1);
      assert UploadAll(objects, sources, n) == Upload(UploadAll(objects, sources, n - 1), run);
      if run.Ok? {
        assert RunOf(sources, n - 1).Ok? && RunOf(sources, n - 1).value.0 == run.value.0;
      }
    }
  }

  /** Uploads only write `.json` keys: every other object is untouched. */
  lemma {:induction false} UploadAllKeepsOthers(objects: map<string, seq<string>>, sources: seq<TableSource>, n: nat)
    requires n <= |TABLES| == |sources|
    requires forall i :: 0 <= i < |sources| ==> Consistent(sources[i])
    ensures forall k :: k in objects && !IsJsonKey(k) ==>
      k in UploadAll(objects, sources, n) && UploadAll(objects, sources, n)[k] == objects[k]
  {
    if n > 0 {
      UploadAllKeepsOthers(objects, sources, n - 1);
    }
  }

  /** Each of the first `n` tables that succeeds leaves its lines under its
      key, whatever the other tables did. */
  lemma {:induction false} UploadAllHolds(objects: map<string, seq<string>>, sources: seq<TableSource>, n: nat)
    requires n <= |TABLES| == |sources|
    requires forall i :: 0 <= i < |sources| ==> Consistent(sources[i])
    ensures forall i :: 0 <= i < n && RunOf(sources, i).Ok? ==>
      RunOf(sources, i).value.0 in UploadAll(objects, sources, n) &&
      UploadAll(objects, sources, n)[RunOf(sources, i).value.0] == RunOf(sources, i).value.1
  {
    if n > 0 {
      UploadAllHolds(objects, sources, n - 1);
      ConfiguredKeysDistinct();
    }
  }

  /** What a run of `main` leaves: every object that is not a `.json` key is
      kept; each table that succeeded holds its lines under
      `folder + table + ".json"`, even when another table failed; no other key
      is added. */
  lemma RunResult(objects: map<string, seq<string>>, listing: Option<seq<string>>, deleteFails: set<string>,
                  sources: seq<TableSource>)
    requires |sources| == |TABLES|
    requires forall i :: 0 <= i < |sources| ==> Consistent(sources[i])
    ensures forall k :: k in objects && !IsJsonKey(k) ==>
      k in FinalObjects(objects, listing, deleteFails, sources) &&
      FinalObjects(objects, listing, deleteFails, sources)[k] == objects[k]
    ensures forall i :: 0 <= i < |TABLES| && RunOf(sources, i).Ok? ==>
      ObjectKey(TABLES[i].1, TABLES[i].0) in FinalObjects(objects, listing, deleteFails, sources) &&
      FinalObjects(objects, listing, deleteFails, sources)[ObjectKey(TABLES[i].1, TABLES[i].0)] == RunOf(sources, i).value.1
    ensures forall k :: k in FinalObjects(objects, listing, deleteFails, sources) && k !in objects ==>
      exists i :: 0 <= i < |TABLES| && RunOf(sources, i).Ok? && k == ObjectKey(TABLES[i].1, TABLES[i].0)
  {
    var cleared := Cleared(objects, listing, deleteFails);
    UploadAllKeys(cleared, sources, |TABLES|);
    UploadAllKeepsOthers(cleared, sources, |TABLES|);
    UploadAllHolds(cleared, sources, |TABLES|);
  }

  /** Every object a run uploads is a `.json` key, so the clear step of the
      next run, when it succeeds and lists it, deletes it. */
  lemma NextRunClearsUploads(objects: map<string, seq<string>>, listing: Option<seq<string>>, deleteFails: set<string>,
                             sources: seq<TableSource>, nextListing: Option<seq<string>>, nextFails: set<string>)
    requires |sources| == |TABLES|
    requires forall i :: 0 <= i < |sources| ==> Consistent(sources[i])
    requires ClearSucceeds(nextListing, nextFails)
    requires forall k :: k in FinalObjects(objects, listing, deleteFails, sources) ==> k in nextListing.value
    ensures forall i :: 0 <= i < |TABLES| ==>
      ObjectKey(TABLES[i].1, TABLES[i].0) !in Cleared(FinalObjects(objects, listing, deleteFails, sources), nextListing, nextFails)
  {
    ClearRemovesListedJson(FinalObjects(objects, listing, deleteFails, sources), nextListing, nextFails);
  }

  /** `main`: clear the bucket, then export each configured table in order;
      each table's failure is caught and reported, and the loop goes on. */
  method RunExport(bucket: Bucket, listing: Option<seq<string>>, deleteFails: set<string>, sources: seq<TableSource>)
    returns (cleared: Outcome, reports: seq<TableReport>)
    requires |sources| == |TABLES|
    requires forall i :: 0 <= i < |sources| ==> Consistent(sources[i])
    modifies bucket
    ensures cleared.Pass? <==> ClearSucceeds(listing, deleteFails)
    ensures |reports| == |TABLES|
    ensures forall i :: 0 <= i < |TABLES| ==> reports[i] == ReportOf(TABLES[i].0, RunOf(sources, i))
    ensures bucket.objects == FinalObjects(old(bucket.objects), listing, deleteFails, sources)
  {
    cleared := ClearBucket(bucket, listing, deleteFails);
    ghost var start := bucket.objects;
    reports := [];
    for i := 0 to |TABLES|
      invariant |reports| == i
      invariant forall j :: 0 <= j < i ==> reports[j] == ReportOf(TABLES[j].0, RunOf(sources, j))
      invariant bucket.objects == UploadAll(start, sources, i)
    {
      var report := ExportTable(bucket, TABLES[i].0, TABLES[i].1, sources[i]);
      reports := reports + [report];
    }
  }
}
