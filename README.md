# export_to_s3 — a verified model of the table export

`export_to_s3.py` copies two PostgreSQL tables into an S3 bucket as
newline-delimited JSON for Athena. A run of `main` does two things:

1. It clears the bucket. It lists the bucket's keys and deletes every key
   that ends in `.json`. If that step raises, the error is logged and the
   run goes on.
2. It exports each configured table (`users`, then `admin_profiles`). For
   each table it:
   - reads the table;
   - cleans the text-like columns (`clean_dataframe`);
   - casts the declared columns to the types in the table's schema
     (`cast_types`);
   - writes one JSON object per row, one per line (`export_to_ndjson`);
   - uploads the file to `<folder><table>.json`.

   If any step for a table raises, that table is given up and the next one
   is still tried.

The project models each of these steps as Dafny and proves what they
promise:

- `clean_dataframe` leaves only printable ASCII.
- `cast_types` casts exactly the declared columns and leaves the others
  alone, and it raises exactly when one of those casts raises.
- Each cast keeps its meaning: an integer's text is read back as that
  integer, and a timestamp survives its own format.
- Every written line is one line that reads back as the row: its column
  names in order, with its values.
- The clear step removes exactly the listed `.json` keys when no delete
  fails.
- A table that succeeds leaves its file under its own key, whatever the
  other table did. Nothing that is not a `.json` key is ever touched.

Modules, in dependency order:

- `Wrappers` (`wrappers.dfy`): `Option`, `Result` and `Outcome`.
- `Sanitize` (`sanitize.dfy`): the two regular-expression passes of
  `clean_dataframe`.
- `Values` (`values.dfy`): cells, calendar dates and timestamps, and their
  text forms (`str`, `strftime`).
- `Parsing` (`parsing.dfy`): restricted stand-ins for `pd.to_numeric` and
  `pd.to_datetime` on text.
- `Epoch` (`epoch.dfy`): the proleptic Gregorian calendar as a count of
  days and seconds since 1970-01-01, and its inverse.
- `Casts` (`casts.dfy`): the per-value casts of `cast_types`.
- `Frames` (`frames.dfy`): the `DataFrame` class, which holds an array of
  columns. `clean_dataframe` and `cast_types` are methods that rewrite that
  array in place. Each method is proved against a function
  (`CleanColumns`, `CastAll`).
- `Ndjson` (`ndjson.dfy`): the `json.dumps` line writer, and a reader used
  to state what a line means. `export_to_ndjson` is a method with nested
  loops, proved against `NdjsonLines`.
- `Runner` (`runner.dfy`): `TABLES` and `SCHEMAS`, the bucket (a class
  holding a key-to-lines map), the clear step, the per-table `try`, and
  `main`.
- `Example` (`example.dfy`): one sample row followed through cleaning,
  casting and writing, down to the exact line of text.

The outside world enters as parameters:

- what `read_sql` returns or raises, and whether the upload raises
  (`TableSource`);
- what `list_objects_v2` returns or whether it raises (an `Option` of the
  listed keys);
- which deletes raise (a set of keys).

Some behaviours of the code are easy to misread, and the model keeps them:

- A boolean under a `"string"` declaration (`is_active`,
  export_to_s3.py:45) becomes the text `"True"`/`"False"`, as Python's
  `str` writes it, not the lower-case `true`/`false` that the comment on
  that line mentions. Cleaning has already turned the booleans into that
  text before the cast (`Runner.IsActiveStaysText`).
- A table missing from `SCHEMAS` makes `SCHEMAS[table]`
  (export_to_s3.py:118) raise `KeyError`, so that table fails
  (`Runner.TableRunFails`). Both configured tables have schemas
  (`Runner.ConfigurationConsistent`), so this cannot arise with the shipped
  configuration.
- A missing value depends on its column's storage type. After the int
  cast it is `pd.NA`, and `json.dumps` raises `TypeError` on it. So one
  missing or non-numeric value in an `"int"` column makes the whole table
  fail, and its file is not uploaded (`Runner.MissingIntFailsTable`). A
  `None` in a text column is already the text `"None"` after cleaning, and
  the int cast coerces that text to a missing value
  (`Runner.NullTextIsMissingInt`).
- A date or timestamp that does not parse is `NaT`, and `strftime` turns it
  into a float NaN. `json.dumps` writes that as the bare token `NaN`, which
  is not strict JSON (`Ndjson.NaNRoundTrip`).
- `pd.to_datetime` reads an integer as nanoseconds since 1970-01-01, so an
  integer column declared `"date"` or `"timestamp"` becomes dates around
  1970 (`Casts.IntegerDates`).

## Model

| member | source | states |
|---|---|---|
| Sanitize.Sanitize | export_to_s3.py:68-69 | after the two replacements a value holds only characters 0x20-0x7E and is no longer than before |
| Sanitize.SanitizeFixedPoints | export_to_s3.py:68-69 | a value is left unchanged exactly when it is already printable ASCII |
| Sanitize.SanitizeIdempotent | export_to_s3.py:68-69 | cleaning a cleaned value changes nothing |
| Sanitize.SanitizeConcat | export_to_s3.py:68-69 | the replacements act character by character: the cleaning of a concatenation is the concatenation of the cleanings |
| Sanitize.SanitizeIsCharwise | export_to_s3.py:68-69 | the two passes in sequence equal one pass that maps CR/LF/TAB to a space and drops every other non-printable character |
| Sanitize.SanitizeExamples | export_to_s3.py:68-69 | line feeds, carriage returns and tabs become spaces; non-ASCII letters are dropped |
| Values.NatTextDigits | export_to_s3.py:67 | the decimal text of a natural number is all digits, has no leading zero and reads back as the number |
| Values.TextOf | export_to_s3.py:67 | Python's `str` of a value: text is unchanged; an integer's text starts with `-` exactly when it is negative, and otherwise is its decimal digits; a valid date and a valid timestamp print in the shapes `YYYY-MM-DD` and `YYYY-MM-DD HH:MM:SS` |
| Values.PadDigitsValue | export_to_s3.py:83-85 | a zero-padded `strftime` field has exactly the width and reads back as its value |
| Values.ValidTimestampYear | export_to_s3.py:83-85 | a representable timestamp lies in the years 1677-2262 |
| Values.DateTextShape | export_to_s3.py:83 | `%Y-%m-%d` of a valid date is ten characters `DDDD-DD-DD` whose fields are the year, month and day |
| Values.ClockTextShape | export_to_s3.py:85 | `%H:%M:%S` is eight characters whose fields are the hour, minute and second |
| Values.TimestampTextShape | export_to_s3.py:85 | `%Y-%m-%d %H:%M:%S` is nineteen characters: the date text, a space, then the clock fields |
| Parsing.ParseNumeric | export_to_s3.py:81 | plain decimal digits are read as their value, and the empty text is not a number |
| Parsing.ParseNumericIntText | export_to_s3.py:81 | numeric parsing reads the text of any integer back as that whole number |
| Parsing.ParseNumericForeignChar | export_to_s3.py:81 | the model's decimal reader rejects text holding a character other than a digit, `.`, `-` or `+` |
| Parsing.ParseTimestamp | export_to_s3.py:83-85 | every timestamp the parser produces is valid and representable |
| Parsing.ParseTimestampText | export_to_s3.py:85 | the `%Y-%m-%d %H:%M:%S` text of a representable timestamp parses back to it |
| Parsing.ParseDateText | export_to_s3.py:83 | the `%Y-%m-%d` text of a date parses to its midnight when that midnight is representable |
| Parsing.FirstDayMidnightUnrepresentable | export_to_s3.py:83 | midnight of the earliest representable day (1677-09-21) is itself out of range |
| Parsing.MidnightValid | export_to_s3.py:83 | the midnight of any other representable day is representable |
| Casts.KindOf | export_to_s3.py:80-87 | the declared type selects the int, date or timestamp branch exactly when it is `"int"`, `"date"` or `"timestamp"`; anything else is the string branch |
| Casts.OtherTypesCastToText | export_to_s3.py:86-87 | every other type name, `"string"` included, falls to the `astype(str)` branch |
| Casts.CastIntCell | export_to_s3.py:81 | a value that casts to `Int64` becomes a 64-bit integer or a missing value, never anything else |
| Casts.CastIntOfWholeText | export_to_s3.py:81 | text holding a 64-bit integer becomes that integer |
| Casts.CastIntOfNonNumericText | export_to_s3.py:81 | text the model's decimal reader rejects is coerced to a missing value, not an error |
| Casts.CastIntOfNoneText | export_to_s3.py:81 | the text `"None"` becomes a missing value, which is not 0 |
| Casts.CastIntIdempotent | export_to_s3.py:81 | casting an already cast value again gives the same result |
| Epoch.YearOf | export_to_s3.py:83-85 | the year a day count since 1970-01-01 falls in: the one whose first day is at or before it and whose successor's first day is after it |
| Epoch.YearUnique | export_to_s3.py:83-85 | no day count lies in two years |
| Epoch.MonthDay | export_to_s3.py:83-85 | a day of the year falls in one valid month and day of that year, whose position in the year is that day |
| Epoch.MonthDayUnique | export_to_s3.py:83-85 | two valid month-day pairs with the same position in the year are equal |
| Epoch.CivilFromDays | export_to_s3.py:83-85 | a day count from year 1 on names a valid calendar date |
| Epoch.EpochTimestamp | export_to_s3.py:83-85 | a second count from year 1 on names a valid date and a clock time within the day |
| Epoch.CivilRoundTrip | export_to_s3.py:83-85 | the date of a day count counts back to the same number of days |
| Epoch.DaysRoundTrip | export_to_s3.py:83-85 | every valid date's day count names that date again |
| Epoch.EpochRoundTrip | export_to_s3.py:83-85 | the timestamp of a second count counts back to the same number of seconds |
| Epoch.TimestampRoundTrip | export_to_s3.py:83-85 | every valid date and clock time counts to seconds that name it again |
| Casts.IntTimestamp | export_to_s3.py:83-85 | an integer becomes a timestamp only when it is a 64-bit count other than the code of NaT, and then that timestamp is representable and its epoch second is the count of nanoseconds divided by 10^9, rounded down |
| Casts.IntTimestampOfEpoch | export_to_s3.py:83-85 | every 64-bit nanosecond count that falls within a representable second reads as that second |
| Casts.IntTimestampOutOfRange | export_to_s3.py:83-85 | the smallest 64-bit integer, which is NaT's own code, and every count beyond 64 bits is NaT |
| Casts.AsTimestamp | export_to_s3.py:83-85 | `to_datetime` with `errors="coerce"` yields only representable timestamps: text is parsed, an integer counts nanoseconds since the epoch, a missing value or a boolean (which `to_datetime` cannot convert) is NaT |
| Casts.CastDateCell | export_to_s3.py:83 | the result is NaN exactly when the value does not parse; otherwise it is a `YYYY-MM-DD` text |
| Casts.CastTimestampCell | export_to_s3.py:85 | the result is NaN exactly when the value does not parse; otherwise it is a `YYYY-MM-DD HH:MM:SS` text |
| Casts.CastTimestampLossless | export_to_s3.py:85 | the timestamp text parses back to the same instant, and casting twice equals casting once |
| Casts.CastDateLossless | export_to_s3.py:83 | the date text parses back to that day's midnight, and casting twice equals casting once (away from the first representable day) |
| Casts.CastDateFirstDay | export_to_s3.py:83 | on 1677-09-21 the date cast is not idempotent: its own output re-parses as NaT and becomes NaN |
| Casts.IntegerDates | export_to_s3.py:83-85 | integers are nanoseconds since the epoch: 5 is the date `1970-01-01`, -1 is the timestamp `1969-12-31 23:59:59`, and the smallest 64-bit integer is NaN |
| Casts.ParseDateShapeOnly | export_to_s3.py:83 | re-parsing a date text gives its midnight, or nothing when that midnight is out of range |
| Casts.CastTextCell | export_to_s3.py:87 | `astype(str)` always yields text and leaves text unchanged |
| Casts.MidnightText | export_to_s3.py:87 | the text of a date-time at midnight is its date text followed by ` 00:00:00` |
| Casts.CastColumnTextCell | export_to_s3.py:87 | in a column that prints as dates alone, a date-time is written as its `YYYY-MM-DD` date, which is its timestamp text without ` 00:00:00`; every other value is written as `CastTextCell` writes it |
| Casts.CastTextOfMissing | export_to_s3.py:87 | a missing value is written as its column prints it: `<NA>` in an `Int64` column, `NaT` in a `datetime64` column, `None` in an object column, and a float NaN as `nan` |
| Casts.CastTextOfBool | export_to_s3.py:87 | a boolean becomes `"True"` or `"False"` |
| Casts.TextOfPrintable | export_to_s3.py:67 | the `str` of a non-text value (number, boolean, date, timestamp, None) is printable ASCII |
| Casts.CastTextPrintable | export_to_s3.py:87 | the text cast of a value that is not already text is printable ASCII, in every column |
| Frames.CleanCell | export_to_s3.py:67-69 | a cleaned value is text and printable ASCII |
| Frames.CleanColumn | export_to_s3.py:64-70 | a column keeps its name and length; only `object`/`bool` columns change, and each of their values becomes its sanitised `str` |
| Frames.CleanColumns | export_to_s3.py:64-70 | the result has one column per input column, in order, each the cleaning of that column |
| Frames.CleanDataFrame | export_to_s3.py:62-71 | the frame's columns become `CleanColumns` of the old columns |
| Frames.CleanColumnsShape | export_to_s3.py:62-71 | cleaning keeps the row count, the column names and their order, and leaves every column that is not text-like as it was |
| Frames.CastIntCells | export_to_s3.py:81 | an integer column casts value by value, and it raises exactly when one of its values does |
| Frames.CastColumn | export_to_s3.py:80-87 | the new column keeps its name and one value per row; only the int cast can raise |
| Frames.CastColumnText | export_to_s3.py:87 | `astype(str)` of a `datetime64` column whose values all fall at midnight writes each date-time as its date alone; any other column is written value by value |
| Frames.MidnightColumnText | export_to_s3.py:87 | a midnight and a NaT print as `2023-05-01` and `NaT`, but beside a noon value the same midnight prints as `2023-05-01 00:00:00` |
| Frames.FindColumn | export_to_s3.py:78 | `name in df.columns`: no column has the name, or the given index holds it |
| Frames.ColumnIndex | export_to_s3.py:78 | the lookup loop finds the same column as `FindColumn` |
| Frames.CastEntry | export_to_s3.py:77-87 | a declaration whose column is absent is skipped (`continue`) |
| Frames.CastAll | export_to_s3.py:74-88 | the declarations are applied in order; a result has one column per column of the table, and a schema naming none of the table's columns leaves it as it is |
| Frames.CastTypes | export_to_s3.py:74-88 | the method passes exactly when `CastAll` succeeds, and then the columns are `CastAll`'s result |
| Frames.CastAllKeepsOthers | export_to_s3.py:76-79 | casting keeps the number, names, order and lengths of the columns, and never touches a column that is not declared |
| Frames.CastAllDeclared | export_to_s3.py:76-87 | every declared column the table has ends up as its cast for the declared type |
| Frames.CastAllRaises | export_to_s3.py:76-87 | `cast_types` raises exactly when one declared column's cast raises |
| Frames.CastAllTextPrintable | export_to_s3.py:74-88 | casting printable text yields printable text |
| Frames.Normalize | export_to_s3.py:117-118 | clean-then-cast keeps the column names, in order |
| Frames.NormalizeShape | export_to_s3.py:117-118 | clean-then-cast keeps the row count and one value per row in every column |
| Frames.NormalizedTextPrintable | export_to_s3.py:117-118 | after clean-then-cast every text value is printable ASCII |
| Frames.CleanBeforeIntCast | export_to_s3.py:117-118 | because cleaning comes first, an int cast of a boolean column yields missing values, not the 1/0 a direct cast gives |
| Ndjson.EscapeRoundTrip | export_to_s3.py:95 | the escaped body of any string, closed by a quote, reads back as that string |
| Ndjson.EscapeHasNoLineFeed | export_to_s3.py:95 | an escaped string contains no line feed |
| Ndjson.EscapePlain | export_to_s3.py:95 | text without quotes, backslashes or control characters is written between the quotes unchanged |
| Ndjson.IntRoundTrip | export_to_s3.py:95 | the JSON text of any integer reads back as that integer |
| Ndjson.NullRoundTrip | export_to_s3.py:95 | `null` reads back as null |
| Ndjson.BoolRoundTrip | export_to_s3.py:95 | `true`/`false` read back as the boolean |
| Ndjson.NaNRoundTrip | export_to_s3.py:95 | the bare token `NaN` that `json.dumps` writes for a float NaN reads back as NaN |
| Ndjson.StringRoundTrip | export_to_s3.py:95 | a quoted string reads back as the string |
| Ndjson.ValueRoundTrip | export_to_s3.py:95 | every rendered value reads back as itself |
| Ndjson.MemberRoundTrip | export_to_s3.py:95 | `"key": value` reads back as the key and the value |
| Ndjson.MembersRoundTrip | export_to_s3.py:95 | members joined by `, ` and closed by `}` read back as the same members, in order |
| Ndjson.RenderLine | export_to_s3.py:95 | a line opens with `{` and ends with `}` and the line feed |
| Ndjson.LineRoundTrip | export_to_s3.py:95 | every written line decodes to exactly the members it was written from |
| Ndjson.LineIsOneLine | export_to_s3.py:95 | a written line starts with `{`, ends with its only line feed |
| Ndjson.CellJson | export_to_s3.py:95 | serialising a value raises exactly for date and timestamp objects and for the missing value of an `Int64` (`pd.NA`) or `datetime64` (`NaT`) column; text and integers are written as themselves |
| Ndjson.RowPrefix | export_to_s3.py:95 | `row.to_dict()` pairs each column name with its value's JSON, in column order |
| Ndjson.LinesPrefix | export_to_s3.py:94-95 | the lines written so far are one per row, in row order, each the line of its row |
| Ndjson.RowPrefixFails | export_to_s3.py:95 | a row fails exactly when one of its values cannot be serialised |
| Ndjson.LinesPrefixFails | export_to_s3.py:94-95 | writing fails exactly when one of the rows fails |
| Ndjson.LinesStopAt | export_to_s3.py:94-95 | the first value that cannot be serialised ends the whole file with its error |
| Ndjson.NdjsonLines | export_to_s3.py:91-95 | a written file has one line per row, each the line of its row |
| Ndjson.NdjsonLinesFail | export_to_s3.py:91-95 | writing a table fails exactly when one of its values is a date or timestamp object, or the missing value of an `Int64` or `datetime64` column |
| Ndjson.NdjsonLinesRead | export_to_s3.py:91-95 | a written file has one line per row; each line is a single line that decodes to the column names in order, with the row's values |
| Ndjson.ExportToNdjson | export_to_s3.py:91-95 | the row-by-row, column-by-column loops produce exactly `NdjsonLines` |
| Runner.ConfigurationConsistent | export_to_s3.py:21-49 | both configured tables have a schema, no schema declares a name twice, and the tables differ |
| Runner.IsActiveStaysText | export_to_s3.py:45 | `is_active` is declared a string, and a boolean there ends as the text `"True"`/`"False"` |
| Runner.SchemaDistinct | export_to_s3.py:21-49 | no schema declares a column name twice |
| Runner.IsJsonKey | export_to_s3.py:105 | `endswith(".json")` holds exactly of the texts that are some text followed by `.json` |
| Runner.ObjectKey | export_to_s3.py:120-123 | the S3 key is the folder, then the table, then `.json`, so it always ends in `.json` |
| Runner.ObjectKeyInjective | export_to_s3.py:120-123 | two keys built from the same folder, or from two folders neither of which begins the other, are equal only when their folders and tables are |
| Runner.ConfiguredKeysDistinct | export_to_s3.py:120-123 | the two tables upload to `users_folder/users.json` and `admin_profiles_folder/admin_profiles.json`, which differ |
| Runner.DeletedKeys | export_to_s3.py:103-106 | only listed `.json` keys are deleted, none whose delete raises |
| Runner.DeletedKeysExactly | export_to_s3.py:103-106 | when no delete raises, the deleted keys are exactly the listed `.json` keys |
| Runner.Cleared | export_to_s3.py:101-109 | clearing only removes objects: it keeps every non-`.json` key and every unlisted key, with its content |
| Runner.ClearRemovesListedJson | export_to_s3.py:101-109 | a clear step that does not raise leaves exactly the objects that are not listed `.json` keys |
| Runner.ClearBucket | export_to_s3.py:101-109 | the loop reports success exactly when listing and every delete succeed, and the bucket becomes `Cleared` of the old bucket |
| Runner.TableRun | export_to_s3.py:113-130 | a table that succeeds is uploaded under `folder + table + ".json"` |
| Runner.WrittenFile | export_to_s3.py:117-121 | the file of a clean table has one line per row, and each line decodes to the column names with printable text values |
| Runner.UploadedFile | export_to_s3.py:113-125 | an uploaded file has the table's key, one line per fetched row, and lines keyed by the fetched column names |
| Runner.TableRunFails | export_to_s3.py:113-130 | a read that raises, a missing schema or an upload that raises each make the table fail |
| Runner.MissingIntFailsTable | export_to_s3.py:113-130 | a value of a declared `"int"` column that casts to a missing value makes the whole table fail |
| Runner.NullTextIsMissingInt | export_to_s3.py:67-81 | a `None` in a text column is cleaned to `"None"`, which the int cast turns into a missing value |
| Runner.ExportTable | export_to_s3.py:113-130 | the body of the `try`: the report and the bucket are those of `TableRun` |
| Runner.UploadAll | export_to_s3.py:112-130 | the export loop never removes a key |
| Runner.UploadAllKeys | export_to_s3.py:112-130 | after the loop, the keys are the old keys plus the keys of the tables that succeeded |
| Runner.UploadAllKeepsOthers | export_to_s3.py:112-130 | the export loop never changes an object that is not a `.json` key |
| Runner.UploadAllHolds | export_to_s3.py:112-130 | each table that succeeded holds its lines under its key, whatever the other table did |
| Runner.RunResult | export_to_s3.py:98-130 | after `main`, non-`.json` objects are unchanged, each successful table's key holds its lines, and every new key is a configured key of a successful table |
| Runner.NextRunClearsUploads | export_to_s3.py:101-125 | every object `main` uploads is removed by the next run's clear step when it lists it and succeeds |
| Runner.RunExport | export_to_s3.py:98-130 | `main` reports the clear step's success exactly when it succeeds and reports each table in order; the bucket ends as `FinalObjects` |
| Example.SampleRow | export_to_s3.py:117-121 | a row with id 1, a boolean flag and a date-time text, declared int/string/timestamp, cleans and casts to 1, `"True"` and the same text, and is written as exactly `{"id": 1, "is_active": "True", "created_at": "2023-05-01 12:00:00"}` and a line feed |

## Left out

- Environment variables (export_to_s3.py:11-18) and the bucket name: the model runs on one bucket value.
- The database engine and `pd.read_sql` (export_to_s3.py:56, 115): a table's frame, or the error reading it raises, is a parameter (`TableSource`).
- The S3 client (export_to_s3.py:59, 102, 106, 125): the listing, the failing deletes and a failing upload are parameters. The bucket is a map from key to file lines.
- Pagination of `list_objects_v2`: it returns at most 1000 keys per call, so a larger bucket keeps its later `.json` keys. The model takes the listing as given.
- Local file handling (export_to_s3.py:93, 120-121, 128): the file is modelled as its sequence of lines, so writing it and `os.remove` are not modelled.
- All `print` logging (export_to_s3.py:100, 107, 109, 114, 124, 126, 130): the table reports carry no error text.
- Parsing.ParseTimestamp: models only ISO-style text. That is `YYYY-MM-DD`, optionally followed by a space or `T` and `HH:MM:SS`, then an optional fraction and an optional zone suffix, both of which are dropped. The format guessing of `pd.to_datetime` and every other spelling are not covered.
- Parsing.ParseNumeric: models decimal text only. Leading and trailing whitespace, exponents, `inf`/`nan` and float rounding of `pd.to_numeric` are not modelled.
- Parsing.ParseNumericForeignChar: holds of the model's decimal reader only. `pd.to_numeric` also reads exponents (`"1e5"`), surrounding whitespace (`" 5"`) and `"inf"`, as the Parsing.ParseNumeric line says.
- Casts.CastIntOfNonNumericText: holds for the text the model's decimal reader rejects. Under pandas `"1e5"` casts to 100000, `" 5"` to 5, and `"inf"` makes the `Int64` cast raise.
- Casts.CastIntCell: a date or timestamp value under an `"int"` declaration is taken as missing. The numeric conversion pandas applies to datetimes is not modelled.
- Casts.AsTimestamp: the first 0.855 seconds of the pandas range (nanosecond counts from -9223372036854775807 to -9223372036000000001, in 1677-09-21 00:12:43) are NaT, because the model's earliest whole second is 00:12:44.
- Numpy scalar types: every integer `row.to_dict()` yields is written like a Python `int`. `json.dumps` rejects a `numpy.int64`; whether `row.to_dict()` hands it a numpy integer or a Python `int` depends on the pandas version, which the code does not pin.
- Values.Timestamp: whole seconds and no time zone. Sub-second precision and zone-aware timestamps are not modelled; a nanosecond count is rounded down to its second, which is all the two `strftime` formats print.
- Float columns are not modelled: a cell is an integer, text, boolean, date, timestamp, missing value, or the float NaN that `strftime` leaves for NaT.
- Exception texts are placeholders: only whether a step raises is modelled, not its message.
