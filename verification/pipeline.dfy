/** The Python ingestion pipeline: choosing a reader by file suffix or URL,
    wrapping every failure in one `RuntimeError`, and `clean_data`
    (normalise column names, drop duplicate ids keeping the first, drop rows
    with a missing cell). The pandas readers, `requests.get` and the
    DataFrame constructor are parameters. */
module Ingest {
  import opened Wrappers
  import opened Text
  import opened Values
  import Lists

  /** A DataFrame: column labels and rows, one cell per column. */
  datatype Table = Table(columns: seq<string>, rows: seq<seq<Value>>)

  predicate WellFormed(t: Table) {
    forall i :: 0 <= i < |t.rows| ==> |t.rows[i]| == |t.columns|
  }

  // ---------------------------------------------------------------- loading

  datatype Format = Csv | Excel | Json

  /** What went wrong underneath the `RuntimeError`. */
  datatype Cause =
    | UnsupportedExtension(path: string)
    | ReaderFailed(message: string)
    | RequestFailed(message: string)
    | HttpError(status: int, message: string)
    | DecodeFailed(message: string)

  /** `source` is the path for file loads and `None` for the API loader, whose
      message does not name the URL. */
  datatype LoadError =
    | RuntimeError(source: Option<string>, cause: Cause)
    | ValueError(message: string)

  /** An HTTP response: status, the text `raise_for_status` would raise with,
      and the outcome of decoding the body as JSON. */
  datatype Response = Response(status: int, statusMessage: string, json: Result<Value, string>)

  function CauseText(c: Cause): string {
    match c
    case UnsupportedExtension(p) => "File extension not supported for " + p + "."
    case ReaderFailed(m) => m
    case RequestFailed(m) => m
    case HttpError(_, m) => m
    case DecodeFailed(m) => m
  }

  /** The text of the raised exception. */
  function Message(e: LoadError): string {
    match e
    case RuntimeError(Some(p), c) => "Failed to load data from " + p + ". Error: " + CauseText(c)
    case RuntimeError(None, c) => "Failed to load data from API. Error: " + CauseText(c)
    case ValueError(m) => m
  }

  /** The reader `load_data` picks, by case-sensitive suffix, the suffixes tried in order. */
  function ExtensionFormat(path: string): Option<Format> {
    if EndsWith(path, ".csv") then Some(Csv)
    else if EndsWith(path, ".xlsx") || EndsWith(path, ".xls") then Some(Excel)
    else if EndsWith(path, ".json") then Some(Json)
    else None
  }

  /** `load_data(path)`: every failure, including an unknown suffix, surfaces
      as a `RuntimeError` naming the path. */
  function LoadData(path: string, read: (Format, string) -> Result<Table, string>): (r: Result<Table, LoadError>)
    ensures r.Err? ==> r.error.RuntimeError? && r.error.source == Some(path)
    ensures r.Ok? ==> ExtensionFormat(path).Some? && read(ExtensionFormat(path).value, path) == Ok(r.value)
  {
    match ExtensionFormat(path)
    case None => Err(RuntimeError(Some(path), UnsupportedExtension(path)))
    case Some(f) =>
      match read(f, path)
      case Ok(t) => Ok(t)
      case Err(e) => Err(RuntimeError(Some(path), ReaderFailed(e)))
  }

  /** Requests treats 4xx and 5xx as failures. */
  predicate FailureStatus(status: int) {
    400 <= status < 600
  }

  /** `load_api_data(url)`: one request, no retry; a transport failure, an
      error status, an undecodable body or a body pandas rejects all become one
      `RuntimeError` that does not carry the URL. */
  function LoadApiData(url: string, get: string -> Result<Response, string>,
                       frame: Value -> Result<Table, string>): (r: Result<Table, LoadError>)
    ensures r.Ok? <==> get(url).Ok? && !FailureStatus(get(url).value.status)
                       && get(url).value.json.Ok? && frame(get(url).value.json.value).Ok?
    ensures r.Ok? ==> r.value == frame(get(url).value.json.value).value
    ensures r.Err? ==> r.error.RuntimeError? && r.error.source == None
  {
    match get(url)
    case Err(e) => Err(RuntimeError(None, RequestFailed(e)))
    case Ok(resp) =>
      if FailureStatus(resp.status) then Err(RuntimeError(None, HttpError(resp.status, resp.statusMessage)))
      else
        match resp.json
        case Err(e) => Err(RuntimeError(None, DecodeFailed(e)))
        case Ok(v) =>
          match frame(v)
          case Err(e) => Err(RuntimeError(None, DecodeFailed(e)))
          case Ok(t) => Ok(t)
  }

  predicate IsUrl(source: string) {
    StartsWith(source, "http://") || StartsWith(source, "https://")
  }

  /** `load_data_auto(source)`: URLs first, then only `.csv`, `.xlsx` and `.json`
      files; anything else is a `ValueError` raised outside any wrapper. */
  function LoadDataAuto(source: string, read: (Format, string) -> Result<Table, string>,
                        get: string -> Result<Response, string>,
                        frame: Value -> Result<Table, string>): (r: Result<Table, LoadError>)
    ensures IsUrl(source) ==> r == LoadApiData(source, get, frame)
    ensures !IsUrl(source) && ExtensionFormat(source).Some? && !EndsWith(source, ".xls") ==>
              r == LoadData(source, read)
    ensures r.Err? && r.error.ValueError? <==>
              !IsUrl(source) && (ExtensionFormat(source).None? || EndsWith(source, ".xls"))
  {
    SuffixesExclusive(source);
    if IsUrl(source) then LoadApiData(source, get, frame)
    else if EndsWith(source, ".csv") || EndsWith(source, ".xlsx") || EndsWith(source, ".json") then
      LoadData(source, read)
    else Err(ValueError("Unsupported source or file type"))
  }

  /** A name ending in `.xls` ends in none of the other suffixes. */
  lemma SuffixesExclusive(s: string)
    ensures EndsWith(s, ".xls") ==> !EndsWith(s, ".csv") && !EndsWith(s, ".xlsx") && !EndsWith(s, ".json")
  {
    EndsWithLast(s, ".xls");
    EndsWithLast(s, ".csv");
    EndsWithLast(s, ".xlsx");
    EndsWithLast(s, ".json");
  }

  lemma EndsWithLast(s: string, p: string)
    requires |p| > 0
    ensures EndsWith(s, p) ==> |s| > 0 && s[|s| - 1] == p[|p| - 1]
  {
    if EndsWith(s, p) {
      assert s[|s| - |p|..][|p| - 1] == s[|s| - 1];
    }
  }

  /** The suffix alone decides the reader, whatever the rest of the name. */
  lemma LoadDataBySuffix(stem: string, read: (Format, string) -> Result<Table, string>)
    ensures ExtensionFormat(stem + ".csv") == Some(Csv)
    ensures ExtensionFormat(stem + ".xlsx") == Some(Excel)
    ensures ExtensionFormat(stem + ".xls") == Some(Excel)
    ensures ExtensionFormat(stem + ".json") == Some(Json)
    ensures LoadData(stem + ".csv", read).Ok? <==> read(Csv, stem + ".csv").Ok?
  {
    EndsWithAppend(stem, ".csv", ".csv");
    EndsWithAppend(stem, ".xlsx", ".csv");
    EndsWithAppend(stem, ".xlsx", ".xlsx");
    EndsWithAppend(stem, ".xls", ".csv");
    EndsWithAppend(stem, ".xls", ".xls");
    EndsWithAppend(stem, ".json", ".csv");
    EndsWithAppend(stem, ".json", ".xlsx");
    EndsWithAppend(stem, ".json", ".xls");
    EndsWithAppend(stem, ".json", ".json");
  }

  /** An unknown suffix is reported through the `RuntimeError` wrapper. */
  lemma UnsupportedIsWrapped(path: string, read: (Format, string) -> Result<Table, string>)
    requires ExtensionFormat(path).None?
    ensures LoadData(path, read) == Err(RuntimeError(Some(path), UnsupportedExtension(path)))
  {
  }

  /** The URL test comes first: a URL ending in `.csv` is still fetched. */
  lemma UrlBeatsSuffix(rest: string, read: (Format, string) -> Result<Table, string>,
                       get: string -> Result<Response, string>, frame: Value -> Result<Table, string>)
    ensures LoadDataAuto("https://" + rest + ".csv", read, get, frame)
            == LoadApiData("https://" + rest + ".csv", get, frame)
  {
    assert "https://" + rest + ".csv" == "https://" + (rest + ".csv");
    StartsWithPrepend("https://", rest + ".csv", "https://");
  }

  /** `.xls` files load with `load_data` but the automatic loader rejects them. */
  lemma AutoRejectsXls(stem: string, read: (Format, string) -> Result<Table, string>,
                       get: string -> Result<Response, string>, frame: Value -> Result<Table, string>)
    requires !IsUrl(stem + ".xls")
    ensures ExtensionFormat(stem + ".xls") == Some(Excel)
    ensures LoadDataAuto(stem + ".xls", read, get, frame) == Err(ValueError("Unsupported source or file type"))
  {
    LoadDataBySuffix(stem, read);
    var path := stem + ".xls";
    assert path[|path| - 1] == 's';
    EndsWithAppend(stem, ".xls", ".csv");
  }

  // ---------------------------------------------------------------- column names

  /** `str.strip().str.lower().str.replace(' ', '_')` on one label. */
  function NormalizeName(c: string): string {
    ReplaceAll(Lower(Trim(Python, c)), ' ', '_')
  }

  predicate NoSpaceChar(s: string) {
    forall i :: 0 <= i < |s| ==> s[i] != ' '
  }

  /** A normalised label is trimmed, lower-case and has no space left. */
  lemma NormalizedShape(c: string)
    ensures Trimmed(Python, NormalizeName(c))
    ensures Lower(NormalizeName(c)) == NormalizeName(c)
    ensures NoSpaceChar(NormalizeName(c))
  {
    NormalizedTrimmed(c);
    var n := NormalizeName(c);
    assert forall i :: 0 <= i < |n| ==> LowerChar(n[i]) == n[i];
  }

  lemma NormalizedTrimmed(c: string)
    ensures Trimmed(Python, NormalizeName(c))
  {
    var t := Trim(Python, c);
    TrimTrimmed(Python, c);
    var l := Lower(t);
    var n := ReplaceAll(l, ' ', '_');
    if |n| > 0 {
      LowerSpace(t[0]);
      LowerSpace(t[|t| - 1]);
      assert !IsSpace(Python, n[0]) && !IsSpace(Python, n[|n| - 1]);
    }
  }

  /** Lower-casing neither makes nor unmakes whitespace. */
  lemma LowerSpace(c: char)
    ensures IsSpace(Python, LowerChar(c)) <==> IsSpace(Python, c)
  {
  }

  /** Normalising twice is normalising once. */
  lemma NormalizeIdempotent(c: string)
    ensures NormalizeName(NormalizeName(c)) == NormalizeName(c)
  {
    var n := NormalizeName(c);
    NormalizedShape(c);
    TrimOfTrimmed(Python, n);
    assert ReplaceAll(n, ' ', '_') == n;
  }

  function NormalizeColumns(t: Table): (r: Table)
    ensures |r.columns| == |t.columns| && r.rows == t.rows
    ensures forall i :: 0 <= i < |r.columns| ==> r.columns[i] == NormalizeName(t.columns[i])
  {
    Table(seq(|t.columns|, i requires 0 <= i < |t.columns| => NormalizeName(t.columns[i])), t.rows)
  }

  /** Normalising the labels of an already normalised table changes nothing. */
  lemma NormalizeColumnsIdempotent(t: Table)
    ensures NormalizeColumns(NormalizeColumns(t)) == NormalizeColumns(t)
  {
    var n := NormalizeColumns(t);
    forall i | 0 <= i < |n.columns| ensures NormalizeName(n.columns[i]) == n.columns[i] {
      NormalizeIdempotent(t.columns[i]);
    }
  }

  // ---------------------------------------------------------------- duplicates

  /** The cells of a row under every column labelled `id`. */
  function IdCells(cols: seq<string>, row: seq<Value>): seq<Value>
    decreases |cols|
  {
    if |cols| == 0 || |row| == 0 then []
    else (if cols[0] == "id" then [row[0]] else []) + IdCells(cols[1..], row[1..])
  }

  function IdKey(cols: seq<string>): seq<Value> -> seq<Value> {
    row => IdCells(cols, row)
  }

  /** `drop_duplicates(subset='id')` when an `id` column exists: the rows whose
      id has not been seen before, in order; without one, every row. */
  function DropDuplicateIds(t: Table): (r: Table)
    ensures r.columns == t.columns
    ensures Lists.IsSubseq(r.rows, t.rows)
    ensures "id" !in t.columns ==> r == t
    ensures "id" in t.columns ==>
              forall i, j :: 0 <= i < j < |r.rows| ==> IdCells(t.columns, r.rows[i]) != IdCells(t.columns, r.rows[j])
    ensures "id" in t.columns ==>
              forall i :: 0 <= i < |t.rows| && (forall j :: 0 <= j < i ==> IdCells(t.columns, t.rows[j]) != IdCells(t.columns, t.rows[i]))
                ==> t.rows[i] in r.rows
    ensures "id" in t.columns ==>
              Lists.KeysOf(r.rows, IdKey(t.columns)) == Lists.Dedup(Lists.KeysOf(t.rows, IdKey(t.columns)))
    ensures "id" in t.columns ==>
              forall m :: 0 <= m < |r.rows| ==> Lists.FirstOfKey(t.rows, IdKey(t.columns), r.rows[m])
  {
    if "id" in t.columns then
      var key := IdKey(t.columns);
      var rows := Lists.DedupBy(t.rows, key);
      Lists.DedupByKeys(t.rows, key);
      Lists.DedupByFirst(t.rows, key);
      FirstIdsKept(t);
      Table(t.columns, rows)
    else
      Lists.SubseqRefl(t.rows);
      t
  }

  /** A row whose id no earlier row carries survives deduplication. */
  lemma FirstIdsKept(t: Table)
    ensures forall i :: 0 <= i < |t.rows| && (forall j :: 0 <= j < i ==> IdCells(t.columns, t.rows[j]) != IdCells(t.columns, t.rows[i]))
              ==> t.rows[i] in Lists.DedupBy(t.rows, IdKey(t.columns))
  {
    var key := IdKey(t.columns);
    forall i | 0 <= i < |t.rows| && (forall j :: 0 <= j < i ==> IdCells(t.columns, t.rows[j]) != IdCells(t.columns, t.rows[i]))
      ensures t.rows[i] in Lists.DedupBy(t.rows, key)
    {
      var ks := Lists.KeysOf(t.rows[..i], key);
      assert key(t.rows[i]) !in ks by {
        forall m | 0 <= m < |ks| ensures ks[m] != key(t.rows[i]) {
          assert ks[m] == IdCells(t.columns, t.rows[m]);
        }
      }
    }
  }

  // ---------------------------------------------------------------- missing values

  /** What `isnull` reports: None, NaN (and undefined, for JSON-sourced frames). */
  predicate Missing(v: Value) {
    v.Null? || v.Undefined? || v == Num(NaN)
  }

  predicate Complete(row: seq<Value>) {
    forall i :: 0 <= i < |row| ==> !Missing(row[i])
  }

  /** `dropna(axis=0)`: the rows without a missing cell, in order, each as
      often as the input holds it. */
  function DropNa(t: Table): (r: Table)
    ensures r.columns == t.columns
    ensures forall i, j :: 0 <= i < |r.rows| && 0 <= j < |r.rows[i]| ==> !Missing(r.rows[i][j])
    ensures forall row :: row in t.rows && Complete(row) <==> row in r.rows
    ensures forall row :: multiset(r.rows)[row] == if Complete(row) then multiset(t.rows)[row] else 0
    ensures Lists.IsSubseq(r.rows, t.rows)
  {
    var rows := Lists.Filter(t.rows, Complete);
    assert forall i :: 0 <= i < |rows| ==> rows[i] in rows;
    forall row ensures multiset(rows)[row] == if Complete(row) then multiset(t.rows)[row] else 0 {
      Lists.FilterMultiplicity(t.rows, Complete, row);
    }
    Table(t.columns, rows)
  }

  /** A table without missing cells passes through unchanged, the empty one
      included; so `dropna` is idempotent. */
  lemma DropNaKeepsComplete(t: Table)
    requires forall row :: row in t.rows ==> Complete(row)
    ensures DropNa(t) == t
  {
    Lists.FilterAll(t.rows, Complete);
  }

  lemma DropNaIdempotent(t: Table)
    ensures DropNa(DropNa(t)) == DropNa(t)
  {
    DropNaKeepsComplete(DropNa(t));
  }

  // ---------------------------------------------------------------- clean_data

  /** `clean_data(df)`. */
  function CleanData(t: Table): Table {
    DropNa(DropDuplicateIds(NormalizeColumns(t)))
  }

  /** The cleaned table has normalised labels, only rows of the input, in
      order, no missing cell, and (with an `id` column) no repeated id. */
  lemma CleanDataSpec(t: Table)
    ensures |CleanData(t).columns| == |t.columns|
    ensures forall i :: 0 <= i < |t.columns| ==> CleanData(t).columns[i] == NormalizeName(t.columns[i])
    ensures Lists.IsSubseq(CleanData(t).rows, t.rows)
    ensures forall i :: 0 <= i < |CleanData(t).rows| ==> Complete(CleanData(t).rows[i])
    ensures var cols := CleanData(t).columns;
            "id" in cols ==>
              forall i, j :: 0 <= i < j < |CleanData(t).rows| ==>
                IdCells(cols, CleanData(t).rows[i]) != IdCells(cols, CleanData(t).rows[j])
  {
    var n := NormalizeColumns(t);
    var d := DropDuplicateIds(n);
    var c := DropNa(d);
    Lists.SubseqTrans(c.rows, d.rows, t.rows);
    if "id" in n.columns {
      var key := IdKey(n.columns);
      assert Lists.NoDups(Lists.KeysOf(d.rows, key));
      Lists.SubseqKeysDistinct(c.rows, d.rows, key);
      assert forall i, j :: 0 <= i < j < |c.rows| ==> Lists.KeysOf(c.rows, key)[i] != Lists.KeysOf(c.rows, key)[j];
    }
  }

  /** With pairwise-distinct ids (or no `id` column) nothing is dropped. */
  lemma DropDuplicateIdsOfDistinct(t: Table)
    requires "id" in t.columns ==>
               forall i, j :: 0 <= i < j < |t.rows| ==> IdCells(t.columns, t.rows[i]) != IdCells(t.columns, t.rows[j])
    ensures DropDuplicateIds(t) == t
  {
    if "id" in t.columns {
      var key := IdKey(t.columns);
      assert forall i, j :: 0 <= i < j < |t.rows| ==> Lists.KeysOf(t.rows, key)[i] != Lists.KeysOf(t.rows, key)[j];
      Lists.DedupByDistinct(t.rows, key);
    }
  }

  /** Cleaning a cleaned table changes nothing. */
  lemma CleanDataIdempotent(t: Table)
    ensures CleanData(CleanData(t)) == CleanData(t)
  {
    var c := CleanData(t);
    CleanDataSpec(t);
    var n := NormalizeColumns(t);
    NormalizeColumnsIdempotent(t);
    assert c.columns == n.columns;
    assert NormalizeColumns(c) == c;
    DropDuplicateIdsOfDistinct(c);
    DropNaKeepsComplete(c);
  }
}
