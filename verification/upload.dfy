/** Loading data in the browser: the upload card (`DataUpload.tsx`) that
    turns a CSV or JSON file, or an API response, into a data source with
    a typed schema, and the drop zone (`FileUploader.tsx`) that checks a
    file's extension against an accept list. The CSV library, `JSON.parse`,
    `fetch`, URL parsing and `Date.parse` are parameters. */
module Upload {
  import opened Wrappers
  import opened Text
  import opened Values
  import Lists

  // ---------------------------------------------------------------- column types

  datatype ColumnType = StringType | NumberType | DateType | BooleanType

  /** A cell the type inference skips: null, undefined or the empty string. */
  predicate Blank(v: Value) {
    v.Null? || v.Undefined? || v == Str("")
  }

  /** `!isNaN(Number(v))`. */
  predicate NumberLike(v: Value) {
    !ToNumber(v).NaN?
  }

  /** `v === true || v === false || v === 'true' || v === 'false'`. */
  predicate BooleanLike(v: Value) {
    v.Bool? || v == Str("true") || v == Str("false")
  }

  /** `row[column]` for each of the given rows; a null or undefined row throws. */
  function Column(rows: seq<Value>, column: string): (r: Result<seq<Value>, string>)
    ensures r.Ok? <==> forall i :: 0 <= i < |rows| ==> Prop(rows[i], column).Ok?
    ensures r.Ok? ==> |r.value| == |rows| && forall i :: 0 <= i < |rows| ==> r.value[i] == Prop(rows[i], column).value
  {
    Lists.MapAllOk(rows, PropOf(column));
    Lists.MapAll(rows, PropOf(column))
  }

  /** `row => row[column]`. */
  function PropOf(column: string): Value -> Result<Value, string> {
    (row: Value) => Prop(row, column)
  }

  function NotBlank(v: Value): bool {
    !Blank(v)
  }

  /** `data.slice(0, 10)`. */
  function Sample(data: seq<Value>): (r: seq<Value>)
    ensures |r| <= 10 && (|data| <= 10 ==> r == data) && (|data| > 10 ==> |r| == 10)
    ensures forall i :: 0 <= i < |r| ==> r[i] == data[i]
  {
    if |data| <= 10 then data else data[..10]
  }

  /** The non-blank values of `column` in the first ten rows. */
  function Present(data: seq<Value>, column: string): (r: Result<seq<Value>, string>)
    ensures r.Ok? <==> forall i :: 0 <= i < |Sample(data)| ==> Prop(data[i], column).Ok?
    ensures r.Ok? ==> forall v :: v in r.value <==> !Blank(v) && exists i :: 0 <= i < |Sample(data)| && Prop(data[i], column).value == v
  {
    match Column(Sample(data), column)
    case Err(e) => Err(e)
    case Ok(vs) =>
      PresentMembers(data, column, vs);
      Ok(Lists.Filter(vs, NotBlank))
  }

  lemma PresentMembers(data: seq<Value>, column: string, vs: seq<Value>)
    requires Column(Sample(data), column) == Ok(vs)
    ensures forall v :: v in vs <==> exists i :: 0 <= i < |Sample(data)| && Prop(data[i], column).value == v
  {
    forall v ensures v in vs <==> exists i :: 0 <= i < |Sample(data)| && Prop(data[i], column).value == v {
      if v in vs {
        var i :| 0 <= i < |vs| && vs[i] == v;
        assert Prop(data[i], column).value == v;
      }
    }
  }

  /** The type of a column given its non-blank sample values: numbers are
      tried first, then booleans, then dates, and strings are the fallback. */
  function Classify(vs: seq<Value>, parsesAsDate: string -> bool): (t: ColumnType)
    ensures t == NumberType <==> |vs| > 0 && forall v :: v in vs ==> NumberLike(v)
    ensures t == BooleanType <==>
              |vs| > 0 && (forall v :: v in vs ==> BooleanLike(v)) && exists v :: v in vs && !NumberLike(v)
    ensures t == DateType <==>
              && |vs| > 0 && (forall v :: v in vs ==> parsesAsDate(ToString(v)))
              && (exists v :: v in vs && !NumberLike(v)) && (exists v :: v in vs && !BooleanLike(v))
    ensures t == StringType <==>
              || |vs| == 0
              || ((exists v :: v in vs && !NumberLike(v)) && (exists v :: v in vs && !BooleanLike(v))
                  && exists v :: v in vs && !parsesAsDate(ToString(v)))
  {
    if |vs| == 0 then StringType
    else if forall v :: v in vs ==> NumberLike(v) then NumberType
    else if forall v :: v in vs ==> BooleanLike(v) then BooleanType
    else if forall v :: v in vs ==> parsesAsDate(ToString(v)) then DateType
    else StringType
  }

  /** `inferDataType(data, column)`: an empty table is a string column;
      otherwise the non-blank values among the first ten rows decide, and
      reading the column from a null or undefined row throws. */
  function InferDataType(data: seq<Value>, column: string, parsesAsDate: string -> bool): (r: Result<ColumnType, string>)
    ensures |data| == 0 ==> r == Ok(StringType)
    ensures |data| > 0 ==> (r.Err? <==> exists i :: 0 <= i < |data| && i < 10 && Prop(data[i], column).Err?)
    ensures |data| > 0 && r.Ok? ==> r.value == Classify(Present(data, column).value, parsesAsDate)
  {
    if |data| == 0 then Ok(StringType)
    else
      match Present(data, column)
      case Err(e) => Err(e)
      case Ok(vs) => Ok(Classify(vs, parsesAsDate))
  }

  /** Rows past the tenth never change a column's type. */
  lemma InferFirstTen(data: seq<Value>, column: string, parsesAsDate: string -> bool)
    requires |data| > 10
    ensures InferDataType(data, column, parsesAsDate) == InferDataType(data[..10], column, parsesAsDate)
  {
    assert Sample(data[..10]) == Sample(data);
    assert Present(data[..10], column) == Present(data, column);
  }

  /** Because the number test comes first, a column of JSON booleans is typed
      as numbers (`Number(true)` is 1): the boolean type only arises when the
      words `'true'` or `'false'` appear as text. */
  lemma BooleansAreNumbers(data: seq<Value>, column: string, parsesAsDate: string -> bool)
    requires Present(data, column).Ok? && |Present(data, column).value| > 0
    requires forall v :: v in Present(data, column).value ==> v.Bool?
    ensures InferDataType(data, column, parsesAsDate) == Ok(NumberType)
  {
  }

  // ---------------------------------------------------------------- data sources

  /** One schema entry; every column is declared nullable. */
  datatype SchemaField = SchemaField(name: string, kind: ColumnType, nullable: bool)

  /** What the card hands to `onDataLoad`. The id (`Date.now()`) is not modelled. */
  datatype Loaded = Loaded(name: string, source: string, data: seq<Value>, columns: seq<string>,
                           url: Option<string>, fields: seq<SchemaField>)

  /** `columns.map(col => ({ name: col, type: inferDataType(data, col), nullable: true }))`;
      the first column whose inference throws aborts the whole load. */
  function Schema(data: seq<Value>, columns: seq<string>, parsesAsDate: string -> bool): (r: Result<seq<SchemaField>, string>)
    ensures r.Ok? <==> forall i :: 0 <= i < |columns| ==> InferDataType(data, columns[i], parsesAsDate).Ok?
    ensures r.Ok? ==> |r.value| == |columns| && forall i :: 0 <= i < |columns| ==>
              r.value[i] == SchemaField(columns[i], InferDataType(data, columns[i], parsesAsDate).value, true)
  {
    var entry := (c: string) => SchemaEntry(data, c, parsesAsDate);
    Lists.MapAllOk(columns, entry);
    Lists.MapAll(columns, entry)
  }

  /** The schema entry of one column. */
  function SchemaEntry(data: seq<Value>, column: string, parsesAsDate: string -> bool): (r: Result<SchemaField, string>)
    ensures r.Ok? <==> InferDataType(data, column, parsesAsDate).Ok?
    ensures r.Ok? ==> r.value == SchemaField(column, InferDataType(data, column, parsesAsDate).value, true)
  {
    match InferDataType(data, column, parsesAsDate)
    case Err(e) => Err(e)
    case Ok(t) => Ok(SchemaField(column, t, true))
  }

  /** `Object.keys(data[0] || {})`. */
  function FirstKeys(data: seq<Value>): (r: seq<string>)
    ensures |data| == 0 || !Truthy(data[0]) ==> r == []
    ensures |data| > 0 && Truthy(data[0]) ==> ObjectKeys(data[0]) == Ok(r)
  {
    if |data| == 0 || !Truthy(data[0]) then []
    else
      var keys := ObjectKeys(data[0]);
      assert keys.Ok? by { assert !data[0].Null? && !data[0].Undefined?; }
      keys.value
  }

  /** A row survives the CSV clean-up when some own property is not the
      empty string. */
  predicate HasContent(row: Record) {
    exists k :: k in OwnKeys(row) && Get(row, k) != Str("")
  }

  /** The rows the CSV parser produced, without the all-empty ones. */
  function ValidRows(rows: seq<Record>): (r: seq<Record>)
    ensures forall row :: row in r <==> row in rows && HasContent(row)
    ensures Lists.IsSubseq(r, rows)
  {
    Lists.Filter(rows, HasContent)
  }

  function Objects(rows: seq<Record>): (r: seq<Value>)
    ensures |r| == |rows| && forall i :: 0 <= i < |rows| ==> r[i] == Obj(rows[i])
  {
    seq(|rows|, i requires 0 <= i < |rows| => Obj(rows[i]))
  }

  /** A `.csv` file: the parsed rows minus the empty ones; the columns are the
      keys of the first remaining row. */
  function LoadCsv(name: string, rows: seq<Record>, parsesAsDate: string -> bool): (r: Option<Loaded>)
    ensures r.Some? ==> r.value.data == Objects(ValidRows(rows)) && r.value.source == "csv"
    ensures r.Some? ==> r.value.columns == (if |ValidRows(rows)| == 0 then [] else OwnKeys(ValidRows(rows)[0]))
    ensures r.Some? <==> Schema(Objects(ValidRows(rows)), FirstKeys(Objects(ValidRows(rows))), parsesAsDate).Ok?
    ensures r.Some? ==> r.value.name == name && r.value.url.None?
    ensures r.Some? ==> r.value.fields == Schema(Objects(ValidRows(rows)), r.value.columns, parsesAsDate).value
    ensures r.Some? ==> |r.value.fields| == |r.value.columns|
    ensures r.Some? ==> forall i :: 0 <= i < |r.value.columns| ==>
              r.value.fields[i].name == r.value.columns[i] && r.value.fields[i].nullable
  {
    var valid := Objects(ValidRows(rows));
    var columns := FirstKeys(valid);
    FirstKeysOfObjects(ValidRows(rows));
    match Schema(valid, columns, parsesAsDate)
    case Err(_) => None
    case Ok(fields) => Some(Loaded(name, "csv", valid, columns, None, fields))
  }

  /** The columns of parsed CSV rows are the keys of the first row. */
  lemma FirstKeysOfObjects(rows: seq<Record>)
    ensures FirstKeys(Objects(rows)) == if |rows| == 0 then [] else OwnKeys(rows[0])
  {
    var data := Objects(rows);
    if |rows| > 0 {
      assert data[0] == Obj(rows[0]);
      assert Truthy(data[0]);
      assert ObjectKeys(data[0]) == Ok(OwnKeys(rows[0]));
    } else {
      assert |data| == 0;
    }
  }

  /** Reading a column of a parsed CSV never throws, so a CSV file always loads. */
  lemma CsvAlwaysLoads(name: string, rows: seq<Record>, parsesAsDate: string -> bool)
    ensures LoadCsv(name, rows, parsesAsDate).Some?
  {
    var valid := Objects(ValidRows(rows));
    var columns := FirstKeys(valid);
    forall i | 0 <= i < |columns| ensures InferDataType(valid, columns[i], parsesAsDate).Ok? {
      assert forall j :: 0 <= j < |valid| ==> Prop(valid[j], columns[i]).Ok?;
    }
  }

  /** `Array.isArray(v) ? v : [v]`. */
  function Wrap(v: Value): (r: seq<Value>)
    ensures v.Arr? ==> r == v.elems
    ensures !v.Arr? ==> r == [v]
  {
    if v.Arr? then v.elems else [v]
  }

  /** Parsed JSON (from a file or an API) as a data source; `None` when
      parsing failed or a column could not be read, both of which the page
      only logs. */
  function LoadParsed(name: string, source: string, parsed: Option<Value>, url: Option<string>,
                      parsesAsDate: string -> bool): (r: Option<Loaded>)
    ensures parsed.None? ==> r.None?
    ensures r.Some? ==> r.value.data == Wrap(parsed.value) && r.value.columns == FirstKeys(Wrap(parsed.value))
    ensures r.Some? <==> parsed.Some? && Schema(Wrap(parsed.value), FirstKeys(Wrap(parsed.value)), parsesAsDate).Ok?
    ensures r.Some? ==> r.value.name == name && r.value.source == source && r.value.url == url
    ensures r.Some? ==> r.value.fields == Schema(r.value.data, r.value.columns, parsesAsDate).value
    ensures r.Some? ==> |r.value.fields| == |r.value.columns|
    ensures r.Some? ==> forall i :: 0 <= i < |r.value.columns| ==>
              r.value.fields[i].name == r.value.columns[i] && r.value.fields[i].nullable
  {
    match parsed
    case None => None
    case Some(v) =>
      var data := Wrap(v);
      var columns := FirstKeys(data);
      match Schema(data, columns, parsesAsDate)
      case Err(_) => None
      case Ok(fields) => Some(Loaded(name, source, data, columns, url, fields))
  }

  /** The file input: `.csv` goes to the CSV parser, `.json` to `JSON.parse`,
      anything else is ignored. */
  function LoadFile(name: string, csvRows: seq<Record>, parsedJson: Option<Value>,
                    parsesAsDate: string -> bool): (r: Option<Loaded>)
    ensures EndsWith(name, ".csv") ==> r == LoadCsv(name, csvRows, parsesAsDate)
    ensures !EndsWith(name, ".csv") && EndsWith(name, ".json") ==> r == LoadParsed(name, "json", parsedJson, None, parsesAsDate)
    ensures !EndsWith(name, ".csv") && !EndsWith(name, ".json") ==> r.None?
  {
    if EndsWith(name, ".csv") then LoadCsv(name, csvRows, parsesAsDate)
    else if EndsWith(name, ".json") then LoadParsed(name, "json", parsedJson, None, parsesAsDate)
    else None
  }

  /** `loadFromAPI`: nothing without a URL; the response body (or `None` when
      the request, the JSON decoding or the URL's host name failed) becomes a
      data source named after the host. */
  function LoadFromApi(apiUrl: string, response: Option<Value>, hostname: Option<string>,
                       parsesAsDate: string -> bool): (r: Option<Loaded>)
    ensures apiUrl == "" || response.None? || hostname.None? ==> r.None?
    ensures r.Some? ==> r.value.name == "API Data - " + hostname.value && r.value.url == Some(apiUrl)
    ensures r.Some? ==> r.value.data == Wrap(response.value) && r.value.source == "api"
    ensures r.Some? <==> apiUrl != "" && response.Some? && hostname.Some?
                         && Schema(Wrap(response.value), FirstKeys(Wrap(response.value)), parsesAsDate).Ok?
    ensures r.Some? ==> r.value.columns == FirstKeys(r.value.data)
                        && r.value.fields == Schema(r.value.data, r.value.columns, parsesAsDate).value
  {
    if apiUrl == "" || hostname.None? then None
    else LoadParsed("API Data - " + hostname.value, "api", response, Some(apiUrl), parsesAsDate)
  }

  /** A JSON array of objects always loads: every row can be read, so no
      column's inference throws. */
  lemma {:induction false} ObjectArrayLoads(name: string, source: string, rows: seq<Record>, url: Option<string>,
                                            parsesAsDate: string -> bool)
    ensures LoadParsed(name, source, Some(Arr(Objects(rows))), url, parsesAsDate).Some?
  {
    var data := Objects(rows);
    assert Wrap(Arr(data)) == data;
    var columns := FirstKeys(data);
    forall i | 0 <= i < |columns| ensures InferDataType(data, columns[i], parsesAsDate).Ok? {
      assert forall j :: 0 <= j < |data| ==> Prop(data[j], columns[i]).Ok?;
    }
  }

  /** An API whose response is an array of objects loads under a non-empty URL
      with a host name, and the dataset is named after the host. */
  lemma ApiObjectArrayLoads(apiUrl: string, rows: seq<Record>, host: string, parsesAsDate: string -> bool)
    requires apiUrl != ""
    ensures var l := LoadFromApi(apiUrl, Some(Arr(Objects(rows))), Some(host), parsesAsDate);
            l.Some? && l.value.name == "API Data - " + host && l.value.data == Objects(rows)
  {
    ObjectArrayLoads("API Data - " + host, "api", rows, Some(apiUrl), parsesAsDate);
  }

  /** A JSON document that is a single object loads as one row whose keys are
      the columns. */
  lemma SingleObjectLoads(name: string, fields: Record, parsesAsDate: string -> bool)
    requires LoadParsed(name, "json", Some(Obj(fields)), None, parsesAsDate).Some?
    ensures var l := LoadParsed(name, "json", Some(Obj(fields)), None, parsesAsDate).value;
            l.data == [Obj(fields)] && l.columns == OwnKeys(fields)
  {
  }

  // ---------------------------------------------------------------- file uploader

  /** `file.name.split('.').pop().toLowerCase()`. */
  function Extension(name: string): (r: string)
    ensures '.' !in name ==> r == Lower(name)
    ensures '.' in name ==> exists k :: 0 <= k < |name| && name[k] == '.' && r == Lower(name[k + 1..]) && '.' !in name[k + 1..]
  {
    Lower(LastPiece(name, '.'))
  }

  /** One entry of the accept list: trimmed, its first dot removed, lower-cased. */
  function AcceptedType(t: string): string {
    Lower(RemoveFirst(Trim(EcmaScript, t), '.'))
  }

  /** `accept.split(',').map(...)`. */
  function AcceptedTypes(accept: string): (r: seq<string>)
    ensures |r| == |Split(accept, ',')|
    ensures forall i :: 0 <= i < |r| ==> r[i] == AcceptedType(Split(accept, ',')[i])
  {
    var parts := Split(accept, ',');
    seq(|parts|, i requires 0 <= i < |parts| => AcceptedType(parts[i]))
  }

  /** An extension written as `.ext` reads back as `ext`. */
  lemma AcceptedTypeOfDotted(e: string)
    requires '.' !in e && Lower(e) == e
    requires |e| == 0 || !IsSpace(EcmaScript, e[|e| - 1])
    ensures AcceptedType("." + e) == e
  {
    var p := "." + e;
    assert Trimmed(EcmaScript, p) by {
      if |e| > 0 {
        assert p[|p| - 1] == e[|e| - 1];
      }
    }
    TrimOfTrimmed(EcmaScript, p);
    var i :| 0 <= i < |p| && p[i] == '.' && '.' !in p[..i] && RemoveFirst(p, '.') == p[..i] + p[i + 1..];
    assert p[..0] + p[1..] == e;
  }

  /** An accept list written as `.ext1,.ext2,...` with plain lower-case
      extensions lists exactly those extensions. */
  lemma AcceptedTypesOfList(exts: seq<string>)
    requires |exts| >= 1
    requires forall i :: 0 <= i < |exts| ==> ',' !in exts[i] && '.' !in exts[i] && Lower(exts[i]) == exts[i]
    requires forall i :: 0 <= i < |exts| ==> |exts[i]| == 0 || !IsSpace(EcmaScript, exts[i][|exts[i]| - 1])
    ensures AcceptedTypes(Join(Dotted(exts), ',')) == exts
  {
    var parts := Dotted(exts);
    forall i | 0 <= i < |parts| ensures ',' !in parts[i] {
      assert parts[i] == "." + exts[i];
    }
    SplitOfJoin(parts, ',');
    forall i | 0 <= i < |exts| ensures AcceptedType(parts[i]) == exts[i] {
      AcceptedTypeOfDotted(exts[i]);
    }
  }

  /** Each extension with a leading dot. */
  function Dotted(exts: seq<string>): (r: seq<string>)
    ensures |r| == |exts| && forall i :: 0 <= i < |exts| ==> r[i] == "." + exts[i]
  {
    seq(|exts|, i requires 0 <= i < |exts| => "." + exts[i])
  }

  /** What `processFile` shows in its toast. */
  datatype Notice = NoExtension | Unsupported | Uploaded

  /** The toast's title for each outcome. */
  function Title(n: Notice): string {
    match n
    case NoExtension => "Fehler bei der Datei"
    case Unsupported => "Nicht unterstütztes Format"
    case Uploaded => "Datei hochgeladen"
  }

  /** The drop zone after `processFile`: the name it shows, the files handed
      to `onFileUpload`, and the toast. */
  datatype Dropped = Dropped(fileName: Option<string>, handed: seq<string>, notice: Notice)

  function ProcessFile(shown: Option<string>, name: string, accept: string): (r: Dropped)
    ensures Extension(name) == "" ==> r == Dropped(shown, [], NoExtension)
    ensures Extension(name) != "" && Extension(name) !in AcceptedTypes(accept) ==> r == Dropped(shown, [], Unsupported)
    ensures r.notice == Uploaded <==> Extension(name) != "" && Extension(name) in AcceptedTypes(accept)
    ensures r.notice == Uploaded ==> r == Dropped(Some(name), [name], Uploaded)
  {
    var ext := Extension(name);
    if ext == "" then Dropped(shown, [], NoExtension)
    else if ext !in AcceptedTypes(accept) then Dropped(shown, [], Unsupported)
    else Dropped(Some(name), [name], Uploaded)
  }

  /** A file `stem.EXT` is handed on exactly when its lower-cased extension is
      in the accept list. */
  lemma UploadByExtension(stem: string, ext: string, shown: Option<string>, accept: string)
    requires ext != "" && '.' !in ext
    ensures (ProcessFile(shown, stem + "." + ext, accept).handed == [stem + "." + ext])
            <==> Lower(ext) in AcceptedTypes(accept)
  {
    var name := stem + "." + ext;
    assert name == stem + ['.'] + ext;
    SplitLastPiece(stem, ext, '.');
    assert '.' in name by { assert name[|stem|] == '.'; }
  }

  /** A name ending in a dot has an empty extension and is refused. */
  lemma TrailingDotRefused(stem: string, shown: Option<string>, accept: string)
    ensures ProcessFile(shown, stem + ".", accept) == Dropped(shown, [], NoExtension)
  {
    var name := stem + ".";
    assert name == stem + ['.'] + "";
    SplitLastPiece(stem, "", '.');
  }
}
