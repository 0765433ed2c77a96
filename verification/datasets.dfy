/** The backend's dataset bookkeeping (`dataController.js` and its
    TypeScript twin `dataController.ts`): each user owns a folder
    `<userId>_...` holding files `import_<timestamp>_<id>.json`. The
    directory listings, file contents, the clock, `JSON.parse` and the CSV
    reader are parameters; the model decides what the controllers answer
    and which file they write or delete. */
module Datasets {
  import opened Wrappers
  import opened Text
  import opened Values
  import opened Http
  import Lists

  // ---------------------------------------------------------------- file names

  /** The length of the run of digits that ends `s`. */
  function TrailingDigits(s: string): (n: nat)
    ensures n <= |s|
    ensures AllDigits(s[|s| - n..])
    ensures n < |s| ==> !IsDigit(s[|s| - n - 1])
    decreases |s|
  {
    if |s| > 0 && IsDigit(s[|s| - 1]) then
      var n := 1 + TrailingDigits(s[..|s| - 1]);
      assert s[|s| - n..] == s[..|s| - 1][|s| - n..] + [s[|s| - 1]];
      n
    else 0
  }

  /** The digits after a non-digit are exactly the trailing run. */
  lemma {:induction false} TrailingDigitsOf(pre: string, digits: string)
    requires AllDigits(digits)
    requires |pre| > 0 && !IsDigit(pre[|pre| - 1])
    ensures TrailingDigits(pre + digits) == |digits|
    decreases |digits|
  {
    if |digits| > 0 {
      var s := pre + digits;
      assert s[..|s| - 1] == pre + digits[..|digits| - 1];
      TrailingDigitsOf(pre, digits[..|digits| - 1]);
    } else {
      assert pre + digits == pre;
    }
  }

  /** The id `/<lead>.*?_(\d+)\.json$/` and `parseInt` read from a file
      name: the digits between an underscore and the closing `.json`,
      provided `lead` occurs before that underscore. The id allocation and
      the lookups use the lead `import_`; deletion uses none. */
  function NameId(name: string, lead: string): Option<nat> {
    if !EndsWith(name, ".json") then None
    else
      var body := name[..|name| - 5];
      var a := TrailingDigits(body);
      if a == 0 || a == |body| then None
      else
        var k := |body| - a - 1;
        if body[k] == '_' && Contains(body[..k], lead) then Some(ParseNat(body[k + 1..])) else None
  }

  /** A name of the shape `<stem>_<digits>.json` matches exactly when the
      lead occurs in the stem, and then yields the digits' value. */
  lemma NameIdOfShape(stem: string, digits: string, lead: string)
    requires |digits| > 0 && AllDigits(digits)
    ensures NameId(stem + "_" + digits + ".json", lead) ==
            if Contains(stem, lead) then Some(ParseNat(digits)) else None
  {
    var name := stem + "_" + digits + ".json";
    var body := stem + "_" + digits;
    assert name[..|name| - 5] == body;
    assert name[|name| - 5..] == ".json";
    TrailingDigitsOf(stem + "_", digits);
    var k := |body| - |digits| - 1;
    assert body[k] == '_';
    assert body[..k] == stem;
    assert body[k + 1..] == digits;
  }

  /** Conversely, every match has that shape. */
  lemma NameIdShape(name: string, lead: string)
    requires NameId(name, lead).Some?
    ensures exists stem, digits ::
              && |digits| > 0 && AllDigits(digits) && Contains(stem, lead)
              && name == stem + "_" + digits + ".json"
              && NameId(name, lead) == Some(ParseNat(digits))
  {
    var body := name[..|name| - 5];
    var a := TrailingDigits(body);
    var k := |body| - a - 1;
    var stem, digits := body[..k], body[k + 1..];
    assert name == stem + "_" + digits + ".json";
  }

  /** Deletion's pattern accepts every name the import pattern accepts,
      with the same id. */
  lemma DeletePatternWider(name: string)
    ensures NameId(name, "import_").Some? ==> NameId(name, "") == NameId(name, "import_")
  {
    if NameId(name, "import_").Some? {
      var body := name[..|name| - 5];
      var k := |body| - TrailingDigits(body) - 1;
      ContainsEmpty(body[..k]);
    }
  }

  /** ... and also names without the `import_` prefix. */
  lemma DeletePatternIgnoresPrefix(stem: string, digits: string)
    requires |digits| > 0 && AllDigits(digits) && !Contains(stem, "import_")
    ensures NameId(stem + "_" + digits + ".json", "") == Some(ParseNat(digits))
    ensures NameId(stem + "_" + digits + ".json", "import_") == None
  {
    ContainsEmpty(stem);
    NameIdOfShape(stem, digits, "");
    NameIdOfShape(stem, digits, "import_");
  }

  /** `toISOString().replace(/[:.]/g, '-')`. */
  function Stamp(iso: string): (r: string)
    ensures |r| == |iso| && ':' !in r && '.' !in r
    ensures forall i :: 0 <= i < |iso| ==> r[i] == (if iso[i] == ':' || iso[i] == '.' then '-' else iso[i])
  {
    seq(|iso|, i requires 0 <= i < |iso| => if iso[i] == ':' || iso[i] == '.' then '-' else iso[i])
  }

  /** `import_${timestamp}_${newId}.${format}`. */
  function FileName(iso: string, id: nat, format: string): string {
    "import_" + Stamp(iso) + "_" + NatToString(id) + "." + format
  }

  /** The listing filter: `f.startsWith('import_') && f.endsWith('.json')`. */
  predicate IsImportFile(f: string) {
    StartsWith(f, "import_") && EndsWith(f, ".json")
  }

  /** A saved JSON import is listed, and both patterns read its id back. */
  lemma FileNameRoundTrip(iso: string, id: nat)
    ensures IsImportFile(FileName(iso, id, "json"))
    ensures NameId(FileName(iso, id, "json"), "import_") == Some(id)
    ensures NameId(FileName(iso, id, "json"), "") == Some(id)
  {
    var stem := "import_" + Stamp(iso);
    var digits := NatToString(id);
    var name := FileName(iso, id, "json");
    assert name == stem + "_" + digits + ".json";
    assert name[..7] == "import_";
    assert name[|name| - 5..] == ".json";
    assert OccursAt(stem, "import_", 0);
    ContainsEmpty(stem);
    NameIdOfShape(stem, digits, "import_");
    NameIdOfShape(stem, digits, "");
    ParseNatToString(id);
  }

  // ---------------------------------------------------------------- id allocation

  /** The id an existing file contributes: its import id when it is listed
      and matches, else 0 (which the `id > 0` filter drops). */
  function ExistingId(f: string): nat {
    if IsImportFile(f) then NameId(f, "import_").GetOr(0) else 0
  }

  /** `Math.max(...existingIds)`, or 0 when there are none. */
  function MaxImportId(files: seq<string>): (m: nat)
    ensures forall f :: f in files ==> ExistingId(f) <= m
    ensures m == 0 || exists f :: f in files && ExistingId(f) == m
    decreases |files|
  {
    if |files| == 0 then 0
    else
      var init := files[..|files| - 1];
      var last := files[|files| - 1];
      assert files == init + [last];
      var m := MaxImportId(init);
      if ExistingId(last) > m then ExistingId(last) else m
  }

  /** The id of the next import: one more than the largest existing one. */
  function NewId(files: seq<string>): (id: nat)
    ensures id >= 1
    ensures forall f :: f in files && IsImportFile(f) && NameId(f, "import_").Some? ==>
              NameId(f, "import_").value < id
    ensures id == 1 || exists f :: f in files && IsImportFile(f) && NameId(f, "import_") == Some(id - 1)
  {
    MaxImportId(files) + 1
  }

  /** Ids grow by one with every import: after writing the file the next
      allocation is one higher. */
  lemma NewIdMonotone(files: seq<string>, iso: string)
    ensures NewId(files + [FileName(iso, NewId(files), "json")]) == NewId(files) + 1
  {
    var f := FileName(iso, NewId(files), "json");
    FileNameRoundTrip(iso, NewId(files));
    var all := files + [f];
    assert all[..|all| - 1] == files;
    assert ExistingId(f) == NewId(files);
  }

  // ---------------------------------------------------------------- saving

  /** `dir.startsWith(`${userId}_`)`. */
  function FolderOf(userId: string): string -> bool {
    (d: string) => StartsWith(d, userId + "_")
  }

  /** The first folder of the user, if any. */
  function UserFolder(dirs: seq<string>, userId: string): (r: Option<string>)
    ensures r.None? <==> forall d :: d in dirs ==> !StartsWith(d, userId + "_")
    ensures r.Some? ==> r.value in dirs && StartsWith(r.value, userId + "_")
  {
    Lists.Find(dirs, FolderOf(userId))
  }

  /** The `meta` object of a new import. */
  function ImportMeta(id: nat, datasetName: Value, sourceUrl: Value, date: string): (m: Record)
    ensures Get(m, "id") == Real(id as real)
    ensures Get(m, "datasetName") == datasetName
    ensures Get(m, "url") == sourceUrl
    ensures Get(m, "created") == Str(date) && Get(m, "lastModified") == Str(date)
  {
    var m0 := Put([], "id", Real(id as real));
    var m1 := Put(m0, "datasetName", datasetName);
    var m2 := Put(m1, "url", sourceUrl);
    var m3 := Put(m2, "created", Str(date));
    Put(m3, "lastModified", Str(date))
  }

  /** A written import: the folder, the file name and the JSON document. */
  datatype Saved = Saved(folder: string, fileName: string, meta: Record, data: Value)

  /** `saveUserImport`: allocates the next id in the user's folder and
      writes `{meta: {id, datasetName, url, created, lastModified}, data}`.
      `listing` gives the names in a folder, `iso` is the current time as
      an ISO string and `date` the same day as `d.m.yyyy`, without padding. */
  function SaveUserImport(userId: string, dirs: seq<string>, listing: string -> seq<string>,
                          iso: string, date: string, data: Value, format: string,
                          sourceUrl: Value, datasetName: Value): (r: Result<Saved, string>)
    ensures r.Err? <==> UserFolder(dirs, userId).None?
    ensures r.Ok? ==>
              var folder := UserFolder(dirs, userId).value;
              && r.value.folder == folder
              && r.value.fileName == FileName(iso, NewId(listing(folder)), format)
              && r.value.meta == ImportMeta(NewId(listing(folder)), datasetName, sourceUrl, date)
              && r.value.data == data
  {
    match UserFolder(dirs, userId)
    case None => Err("Kein Verzeichnis für User-ID " + userId + " gefunden.")
    case Some(folder) =>
      var id := NewId(listing(folder));
      Ok(Saved(folder, FileName(iso, id, format), ImportMeta(id, datasetName, sourceUrl, date), data))
  }

  /** A saved JSON import gets an id no existing import in the folder has. */
  lemma SavedIdFresh(userId: string, dirs: seq<string>, listing: string -> seq<string>,
                     iso: string, date: string, data: Value, sourceUrl: Value, datasetName: Value)
    requires SaveUserImport(userId, dirs, listing, iso, date, data, "json", sourceUrl, datasetName).Ok?
    ensures var s := SaveUserImport(userId, dirs, listing, iso, date, data, "json", sourceUrl, datasetName).value;
            && IsImportFile(s.fileName)
            && forall f :: f in listing(s.folder) && IsImportFile(f) ==>
                 NameId(f, "import_") != NameId(s.fileName, "import_")
  {
    var s := SaveUserImport(userId, dirs, listing, iso, date, data, "json", sourceUrl, datasetName).value;
    FileNameRoundTrip(iso, NewId(listing(s.folder)));
  }

  // ---------------------------------------------------------------- importing

  /** The body of an import request; absent properties are `Undefined`. */
  datatype ImportRequest = ImportRequest(source: Value, content: Value, datasetName: Value)

  /** The body of a successful import and the file it wrote. */
  datatype Imported = Imported(data: seq<Value>, saved: Saved)

  /** `!x || typeof x !== 'string' || x.trim() === ''` fails. */
  predicate NameGiven(v: Value) {
    v.Str? && Trim(EcmaScript, v.s) != ""
  }

  const ServerError := Refusal(500, "Failed to process import.")

  /** The records an import carries, by source. `parseJson` is
      `JSON.parse` (`None` when it throws) and `csv` the CSV reader (`None`
      when it fails); both failures end in the catch-all 500. */
  function ReadContent(source: string, content: Value, parseJson: string -> Option<Value>,
                       csv: Value -> Option<seq<Value>>): (r: Result<seq<Value>, Refusal>)
    ensures !Truthy(content) && source in {"json", "csv", "url"} ==> r.Err? && r.error.status == 400
    ensures source == "json" && Truthy(content) && !content.Str? ==>
              r == if content.Arr? then Ok(content.elems) else Err(Refusal(400, "Expected JSON array of objects."))
    ensures source == "json" && Truthy(content) && content.Str? && parseJson(content.s).None? ==> r == Err(ServerError)
    ensures source == "json" && Truthy(content) && content.Str? && parseJson(content.s).Some? ==>
              r == if parseJson(content.s).value.Arr? then Ok(parseJson(content.s).value.elems)
                   else Err(Refusal(400, "Expected JSON array of objects."))
    ensures source == "csv" && Truthy(content) ==>
              r == if csv(content).Some? then Ok(csv(content).value) else Err(ServerError)
    ensures source == "url" && Truthy(content) && content.Str? && parseJson(content.s).Some? ==>
              r == if parseJson(content.s).value.Arr? then Ok(parseJson(content.s).value.elems)
                   else Err(Refusal(400, "Expected JSON array of objects."))
    ensures source == "url" && Truthy(content) && content.Str? && parseJson(content.s).None? ==>
              r == if csv(content).Some? then Ok(csv(content).value) else Err(ServerError)
    ensures source == "url" && Truthy(content) && !content.Str? ==>
              r == if content.Arr? then Ok(content.elems) else Err(Refusal(400, "Expected JSON array or CSV text."))
  {
    if source == "json" then
      if !Truthy(content) then Err(Refusal(400, "No JSON content provided."))
      else
        var parsed := if content.Str? then parseJson(content.s) else Some(content);
        if parsed.None? then Err(ServerError)
        else if parsed.value.Arr? then Ok(parsed.value.elems)
        else Err(Refusal(400, "Expected JSON array of objects."))
    else if source == "csv" then
      if !Truthy(content) then Err(Refusal(400, "No CSV content provided."))
      else if csv(content).Some? then Ok(csv(content).value)
      else Err(ServerError)
    else
      if !Truthy(content) then Err(Refusal(400, "No content from URL provided."))
      else if !content.Str? then
        if content.Arr? then Ok(content.elems) else Err(Refusal(400, "Expected JSON array or CSV text."))
      else match parseJson(content.s)
        case Some(Arr(es)) => Ok(es)
        case Some(_) => Err(Refusal(400, "Expected JSON array of objects."))
        case None => if csv(content).Some? then Ok(csv(content).value) else Err(ServerError)
  }

  /** `importUserDatasets`. `sources` are the accepted sources: json, csv
      and url in the JavaScript controller, json and csv in the TypeScript
      one. `userId` is `None` without a token; `userExists` is what
      `User.findById` found. The records are always saved as JSON with no
      URL. */
  function Import(sources: set<string>, userId: Option<string>, req: ImportRequest, userExists: bool,
                  parseJson: string -> Option<Value>, csv: Value -> Option<seq<Value>>,
                  dirs: seq<string>, listing: string -> seq<string>, iso: string, date: string): (r: Reply<Imported>)
    requires sources <= {"json", "csv", "url"}
    ensures userId.None? ==> r == Refused(Refusal(401, "Not authenticated"))
    ensures userId.Some? && !(req.source.Str? && req.source.s in sources) ==>
              r == Refused(Refusal(400, "Invalid or missing source."))
    ensures userId.Some? && req.source.Str? && req.source.s in sources && !NameGiven(req.datasetName) ==>
              r == Refused(Refusal(400, "Dataset name is required."))
    ensures r.Answered? <==>
              && userId.Some? && req.source.Str? && req.source.s in sources && NameGiven(req.datasetName)
              && userExists && ReadContent(req.source.s, req.content, parseJson, csv).Ok?
              && UserFolder(dirs, userId.value).Some?
    ensures r.Answered? ==>
              && r.body.data == ReadContent(req.source.s, req.content, parseJson, csv).value
              && r.body.saved == SaveUserImport(userId.value, dirs, listing, iso, date, Arr(r.body.data), "json",
                                                Null, req.datasetName).value
  {
    if userId.None? then Refused(Refusal(401, "Not authenticated"))
    else if !(req.source.Str? && req.source.s in sources) then Refused(Refusal(400, "Invalid or missing source."))
    else if !NameGiven(req.datasetName) then Refused(Refusal(400, "Dataset name is required."))
    else if !userExists then Refused(Refusal(404, "User not found"))
    else match ReadContent(req.source.s, req.content, parseJson, csv)
      case Err(why) => Refused(why)
      case Ok(data) =>
        match SaveUserImport(userId.value, dirs, listing, iso, date, Arr(data), "json", Null, req.datasetName)
        case Err(_) => Refused(ServerError)
        case Ok(saved) => Answered(Imported(data, saved))
  }

  const JsSources: set<string> := {"json", "csv", "url"}
  const TsSources: set<string> := {"json", "csv"}

  /** The two controllers answer alike except for the `url` source, which
      only the JavaScript one accepts. */
  lemma ImportVariants(userId: Option<string>, req: ImportRequest, userExists: bool,
                       parseJson: string -> Option<Value>, csv: Value -> Option<seq<Value>>,
                       dirs: seq<string>, listing: string -> seq<string>, iso: string, date: string)
    ensures req.source != Str("url") ==>
              Import(JsSources, userId, req, userExists, parseJson, csv, dirs, listing, iso, date)
              == Import(TsSources, userId, req, userExists, parseJson, csv, dirs, listing, iso, date)
    ensures userId.Some? && req.source == Str("url") ==>
              Import(TsSources, userId, req, userExists, parseJson, csv, dirs, listing, iso, date)
              == Refused(Refusal(400, "Invalid or missing source."))
  {
    if req.source.Str? && req.source.s == "url" {
      assert "url" !in TsSources;
    }
  }

  // ---------------------------------------------------------------- listing

  /** A stored import as `JSON.parse` gives it back: `{meta, data}`. */
  function Document(meta: Record, data: Value): (d: Value)
    ensures d.Obj? && Get(d.fields, "meta") == Obj(meta) && Get(d.fields, "data") == data
  {
    Obj(Put(Put([], "meta", Obj(meta)), "data", data))
  }

  /** One row of the dataset list. The dates are kept as the `.`-separated
      parts (day, month, year) the controller builds its `Date`s from. */
  datatype Entry = Entry(id: Value, name: Value, recordCount: nat, created: seq<string>,
                         lastModified: seq<string>, data: seq<Value>, fields: seq<string>)

  const NotAFunction := "TypeError: split is not a function"

  /** `meta[k].split('.')`: throws unless the property holds a string. */
  function DateParts(meta: Value, k: string): (r: Result<seq<string>, string>)
    ensures r.Ok? <==> Prop(meta, k).Ok? && Prop(meta, k).value.Str?
    ensures r.Ok? ==> Join(r.value, '.') == Prop(meta, k).value.s
  {
    var v :- Prop(meta, k);
    if v.Str? then
      SplitJoin(v.s, '.');
      Ok(Split(v.s, '.'))
    else Err(NotAFunction)
  }

  /** `Array.isArray(parsed.data) ? parsed.data : []`. */
  function Records(data: Value): seq<Value> {
    if data.Arr? then data.elems else []
  }

  /** The first `n` records, or all of them. */
  function Preview(records: seq<Value>, preview: Option<nat>): (r: seq<Value>)
    ensures preview.None? ==> r == records
    ensures preview.Some? ==> r == records[..if |records| < preview.value then |records| else preview.value]
  {
    match preview
    case None => records
    case Some(n) => if |records| < n then records else records[..n]
  }

  /** `carried.length > 0 ? Object.keys(carried[0]) : []`. */
  function FirstKeys(carried: seq<Value>): (r: Result<seq<string>, string>)
    ensures carried == [] ==> r == Ok([])
    ensures carried != [] ==> r == ObjectKeys(carried[0])
  {
    if carried == [] then Ok([]) else ObjectKeys(carried[0])
  }

  /** The entry built from a document's `meta` and `data`. */
  function EntryFrom(meta: Value, data: Value, preview: Option<nat>): (r: Result<Entry, string>)
    ensures r.Ok? ==>
              var records := Records(data);
              && DateParts(meta, "created") == Ok(r.value.created)
              && DateParts(meta, "lastModified") == Ok(r.value.lastModified)
              && Prop(meta, "id") == Ok(r.value.id) && Prop(meta, "datasetName") == Ok(r.value.name)
              && r.value.recordCount == |records|
              && r.value.data == Preview(records, preview)
              && FirstKeys(r.value.data) == Ok(r.value.fields)
    ensures r.Err? <==>
              || DateParts(meta, "created").Err? || DateParts(meta, "lastModified").Err?
              || FirstKeys(Preview(Records(data), preview)).Err?
  {
    var created :- DateParts(meta, "created");
    var modified :- DateParts(meta, "lastModified");
    var records := Records(data);
    var carried := Preview(records, preview);
    var fields :- FirstKeys(carried);
    Ok(Entry(Prop(meta, "id").value, Prop(meta, "datasetName").value, |records|, created, modified, carried, fields))
  }

  /** The list entry of one stored import. `preview` is how many records
      the entry carries: all of them (`None`) in the JavaScript controller,
      the first five in the TypeScript one. `fields` are the keys of the
      first carried record. */
  function EntryOf(doc: Value, preview: Option<nat>): (r: Result<Entry, string>)
    ensures doc.Null? || doc.Undefined? ==> r.Err?
    ensures r.Ok? ==> Prop(doc, "meta").Ok? && Prop(doc, "data").Ok?
    ensures r.Ok? ==> r == EntryFrom(Prop(doc, "meta").value, Prop(doc, "data").value, preview)
  {
    var meta :- Prop(doc, "meta");
    EntryFrom(meta, Prop(doc, "data").value, preview)
  }

  /** The TypeScript listing carries at most five records and otherwise
      agrees with the JavaScript one: same success, same id, name, count,
      dates and fields. */
  lemma EntryVariants(doc: Value)
    ensures EntryOf(doc, Some(5)).Ok? <==> EntryOf(doc, None).Ok?
    ensures EntryOf(doc, None).Ok? ==>
              var e := EntryOf(doc, None).value;
              EntryOf(doc, Some(5)).value
                == e.(data := e.data[..if |e.data| < 5 then |e.data| else 5])
  {
    if Prop(doc, "meta").Ok? && Prop(doc, "data").Ok? {
      var records := Records(Prop(doc, "data").value);
      var short := Preview(records, Some(5));
      if records != [] {
        assert short != [] && short[0] == records[0];
      }
    }
  }

  /** A freshly saved import lists with its id, name, record count and
      creation date; it fails to list only when its first carried record
      is null. */
  lemma ListedAfterSave(id: nat, datasetName: Value, sourceUrl: Value, date: string, records: seq<Value>,
                        preview: Option<nat>)
    ensures var e := EntryOf(Document(ImportMeta(id, datasetName, sourceUrl, date), Arr(records)), preview);
            && (e.Ok? <==> FirstKeys(Preview(records, preview)).Ok?)
            && (e.Ok? ==>
                  && e.value.id == Real(id as real) && e.value.name == datasetName
                  && e.value.recordCount == |records| && Join(e.value.created, '.') == date
                  && e.value.data == Preview(records, preview))
  {
    var meta := ImportMeta(id, datasetName, sourceUrl, date);
    EntryOfStored(meta, Arr(records), preview);
  }

  /** The entry of a document `{meta, data}` whose meta is an object. */
  lemma EntryOfStored(meta: Record, data: Value, preview: Option<nat>)
    ensures var e := EntryOf(Document(meta, data), preview);
            && (e.Ok? <==> && Get(meta, "created").Str? && Get(meta, "lastModified").Str?
                           && FirstKeys(Preview(Records(data), preview)).Ok?)
            && (e.Ok? ==>
                  && e.value.id == Get(meta, "id") && e.value.name == Get(meta, "datasetName")
                  && e.value.recordCount == |Records(data)|
                  && Join(e.value.created, '.') == Get(meta, "created").s
                  && Join(e.value.lastModified, '.') == Get(meta, "lastModified").s
                  && e.value.data == Preview(Records(data), preview))
  {
    var doc := Document(meta, data);
    assert Prop(doc, "meta") == Ok(Obj(meta));
    assert Prop(doc, "data") == Ok(data);
  }

  /** The entries of the listed files, failing when any file cannot be read
      (`None` from `read`: the file or `JSON.parse` failed) or listed. */
  function Entries(files: seq<string>, read: string -> Option<Value>, preview: Option<nat>)
    : (r: Result<seq<Entry>, string>)
  {
    Lists.MapAll(files, (f: string) => EntryOfFile(f, read, preview))
  }

  /** The listing succeeds exactly when every file lists, and then holds
      each file's entry in file order. */
  lemma EntriesAll(files: seq<string>, read: string -> Option<Value>, preview: Option<nat>)
    ensures var r := Entries(files, read, preview);
            r.Ok? <==> forall i :: 0 <= i < |files| ==> EntryOfFile(files[i], read, preview).Ok?
    ensures var r := Entries(files, read, preview);
            r.Ok? ==> |r.value| == |files| &&
                      forall i :: 0 <= i < |files| ==> r.value[i] == EntryOfFile(files[i], read, preview).value
  {
    Lists.MapAllOk(files, (f: string) => EntryOfFile(f, read, preview));
  }

  /** The entry of one listed file; an unreadable file throws a
      `SyntaxError`. */
  function EntryOfFile(file: string, read: string -> Option<Value>, preview: Option<nat>)
    : (r: Result<Entry, string>)
    ensures r.Ok? <==> read(file).Some? && EntryOf(read(file).value, preview).Ok?
    ensures r.Ok? ==> r.value == EntryOf(read(file).value, preview).value
  {
    if read(file).None? then Err("SyntaxError") else EntryOf(read(file).value, preview)
  }

  /** `fetchDatasetsFromUser`. `read(folder)(file)` is the parsed content
      of a file. */
  function FetchDatasets(userId: Option<string>, dirs: seq<string>, listing: string -> seq<string>,
                         read: string -> string -> Option<Value>, preview: Option<nat>): (r: Reply<seq<Entry>>)
    ensures userId.None? ==> r == Refused(Refusal(401, "Not authenticated"))
    ensures userId.Some? && UserFolder(dirs, userId.value).None? ==>
              r == Refused(Refusal(404, "User folder not found."))
    ensures r.Answered? ==>
              && userId.Some? && UserFolder(dirs, userId.value).Some?
              && var folder := UserFolder(dirs, userId.value).value;
                 Entries(Lists.Filter(listing(folder), IsImportFile), read(folder), preview) == Ok(r.body)
    ensures r.Refused? && r.why.status == 500 <==>
              && userId.Some? && UserFolder(dirs, userId.value).Some?
              && var folder := UserFolder(dirs, userId.value).value;
                 Entries(Lists.Filter(listing(folder), IsImportFile), read(folder), preview).Err?
  {
    if userId.None? then Refused(Refusal(401, "Not authenticated"))
    else match UserFolder(dirs, userId.value)
      case None => Refused(Refusal(404, "User folder not found."))
      case Some(folder) =>
        match Entries(Lists.Filter(listing(folder), IsImportFile), read(folder), preview)
        case Err(_) => Refused(Refusal(500, "Fehler beim Abrufen der Datasets."))
        case Ok(entries) => Answered(entries)
  }

  /** `getDatasetsCount`: the number of import files, 0 without a folder. */
  function CountDatasets(userId: Option<string>, dirs: seq<string>, listing: string -> seq<string>)
    : (r: Reply<nat>)
    ensures userId.None? <==> r == Refused(Refusal(401, "Not authenticated"))
    ensures userId.Some? && UserFolder(dirs, userId.value).None? ==> r == Answered(0)
    ensures r.Answered? ==> r.body <= |listing(UserFolder(dirs, userId.value).GetOr(""))|
    ensures userId.Some? && UserFolder(dirs, userId.value).Some? ==>
              r == Answered(|Lists.Filter(listing(UserFolder(dirs, userId.value).value), IsImportFile)|)
  {
    if userId.None? then Refused(Refusal(401, "Not authenticated"))
    else match UserFolder(dirs, userId.value)
      case None => Answered(0)
      case Some(folder) => Answered(|Lists.Filter(listing(folder), IsImportFile)|)
  }

  /** The count agrees with the list whenever the list can be produced. */
  lemma CountMatchesListing(userId: Option<string>, dirs: seq<string>, listing: string -> seq<string>,
                            read: string -> string -> Option<Value>, preview: Option<nat>)
    requires FetchDatasets(userId, dirs, listing, read, preview).Answered?
    ensures CountDatasets(userId, dirs, listing) == Answered(|FetchDatasets(userId, dirs, listing, read, preview).body|)
  {
  }

  /** Saving a JSON import adds exactly one to the count. */
  lemma CountAfterSave(userId: string, dirs: seq<string>, listing: string -> seq<string>,
                       after: string -> seq<string>, iso: string, id: nat)
    requires UserFolder(dirs, userId).Some?
    requires after(UserFolder(dirs, userId).value)
             == listing(UserFolder(dirs, userId).value) + [FileName(iso, id, "json")]
    ensures CountDatasets(Some(userId), dirs, after).body == CountDatasets(Some(userId), dirs, listing).body + 1
  {
    var folder := UserFolder(dirs, userId).value;
    FileNameRoundTrip(iso, id);
    Lists.FilterAppend(listing(folder), [FileName(iso, id, "json")], IsImportFile);
  }

  // ---------------------------------------------------------------- one dataset

  /** `Number(idParam)` as the `isNaN` / `isInteger` / `< 1` guard accepts it. */
  function FileIdParam(p: string): (r: Option<nat>)
    ensures r.Some? ==> r.value >= 1 && TextNumber(p) == Finite(r.value as real)
    ensures r.None? <==> !TextNumber(p).Finite? || TextNumber(p).r < 1.0
                         || TextNumber(p).r != TextNumber(p).r.Floor as real
  {
    var x := TextNumber(p);
    if x.Finite? && x.r.Floor as real == x.r && x.r >= 1.0 then Some(x.r.Floor) else None
  }

  /** The id in a file's own URL is accepted back. */
  lemma FileIdOfNumeral(n: nat)
    requires n >= 1
    ensures FileIdParam(NatToString(n)) == Some(n)
  {
    NumberOfNumeral(n);
  }

  /** The folder and file a request addresses. */
  datatype Located = Located(folder: string, file: string)

  const NoFolder := Refusal(404, "User folder not found.")
  const NoDataset := Refusal(404, "Dataset not found.")

  /** `name => NameId(name, lead) === id`, the lookup predicate. */
  function HasId(id: nat, lead: string): string -> bool {
    (f: string) => NameId(f, lead) == Some(id)
  }

  /** The user's folder and the first file there whose name carries `id`
      after `lead`. */
  function Locate(userId: string, id: nat, lead: string, dirs: seq<string>, listing: string -> seq<string>)
    : (r: Result<Located, Refusal>)
    ensures UserFolder(dirs, userId).None? <==> r == Err(NoFolder)
    ensures UserFolder(dirs, userId).Some? ==>
              var files := listing(UserFolder(dirs, userId).value);
              && (r == Err(NoDataset) <==> forall f :: f in files ==> NameId(f, lead) != Some(id))
              && (r.Ok? ==> exists i :: 0 <= i < |files| && files[i] == r.value.file
                                       && NameId(r.value.file, lead) == Some(id)
                                       && forall j :: 0 <= j < i ==> NameId(files[j], lead) != Some(id))
    ensures r.Ok? ==> r.value.folder == UserFolder(dirs, userId).value
  {
    match UserFolder(dirs, userId)
    case None => Err(NoFolder)
    case Some(folder) =>
      match Lists.Find(listing(folder), HasId(id, lead))
      case None => Err(NoDataset)
      case Some(file) => Ok(Located(folder, file))
  }

  /** The common guards: a token and a valid id. */
  function Guard(userId: Option<string>, param: string): (r: Result<nat, Refusal>)
    ensures userId.None? ==> r == Err(Refusal(401, "Not authenticated"))
    ensures userId.Some? ==> (r.Ok? <==> FileIdParam(param).Some?)
    ensures userId.Some? && r.Err? ==> r.error == Refusal(400, "Invalid dataset ID")
    ensures r.Ok? ==> r.value >= 1 && Some(r.value) == FileIdParam(param)
  {
    if userId.None? then Err(Refusal(401, "Not authenticated"))
    else match FileIdParam(param)
      case None => Err(Refusal(400, "Invalid dataset ID"))
      case Some(id) => Ok(id)
  }

  /** A removed file and the confirmation text. */
  datatype Deletion = Deletion(at: Located, message: string)

  /** `deleteDatasetsFromUser`: removes the first file of the user whose
      name ends in `_<id>.json`, whatever precedes it. */
  function DeleteDataset(userId: Option<string>, param: string, dirs: seq<string>,
                         listing: string -> seq<string>): (r: Reply<Deletion>)
    ensures Guard(userId, param).Err? ==> r == Refused(Guard(userId, param).error)
    ensures r.Answered? <==> Guard(userId, param).Ok? && Locate(userId.value, Guard(userId, param).value, "", dirs, listing).Ok?
    ensures r.Answered? ==>
              var id := FileIdParam(param).value;
              && r.body.at == Locate(userId.value, id, "", dirs, listing).value
              && NameId(r.body.at.file, "") == Some(id)
              && r.body.message == "Dataset " + NatToString(id) + " deleted."
  {
    match Guard(userId, param)
    case Err(why) => Refused(why)
    case Ok(id) =>
      match Locate(userId.value, id, "", dirs, listing)
      case Err(why) => Refused(why)
      case Ok(at) => Answered(Deletion(at, "Dataset " + NatToString(id) + " deleted."))
  }

  /** A saved import can be deleted through its id: the request removes a
      file carrying that id. */
  lemma DeleteAfterSave(userId: string, dirs: seq<string>, listing: string -> seq<string>, iso: string, id: nat)
    requires id >= 1 && UserFolder(dirs, userId).Some?
    requires FileName(iso, id, "json") in listing(UserFolder(dirs, userId).value)
    ensures DeleteDataset(Some(userId), NatToString(id), dirs, listing).Answered?
    ensures NameId(DeleteDataset(Some(userId), NatToString(id), dirs, listing).body.at.file, "") == Some(id)
  {
    FileIdOfNumeral(id);
    FileNameRoundTrip(iso, id);
  }

  /** What `findDatasetById` answers. */
  datatype DatasetView = DatasetView(id: Value, name: Value, description: Value, tags: Value,
                                     createdAt: Value, lastModified: Value, url: Value, data: Value)

  /** The view of a parsed document; fails when the document or its `meta`
      is null or undefined. */
  function ViewOf(doc: Value): (r: Result<DatasetView, string>)
    ensures doc.Obj? && Get(doc.fields, "meta").Obj? ==>
              var meta := Get(doc.fields, "meta").fields;
              r == Ok(DatasetView(Get(meta, "id"), Get(meta, "datasetName"), Get(meta, "description"),
                                  Get(meta, "tags"), Get(meta, "created"), Get(meta, "lastModified"),
                                  Get(meta, "url"), Get(doc.fields, "data")))
    ensures doc.Null? || doc.Undefined? ==> r.Err?
    ensures doc.Obj? && (Get(doc.fields, "meta").Null? || Get(doc.fields, "meta").Undefined?) ==> r.Err?
    ensures r.Err? <==> Prop(doc, "meta").Err? || Prop(doc, "meta").value.Null? || Prop(doc, "meta").value.Undefined?
  {
    var meta :- Prop(doc, "meta");
    if meta.Null? || meta.Undefined? then Err(NullAccess)
    else
      Ok(DatasetView(Prop(meta, "id").value, Prop(meta, "datasetName").value, Prop(meta, "description").value,
                     Prop(meta, "tags").value, Prop(meta, "created").value, Prop(meta, "lastModified").value,
                     Prop(meta, "url").value, Prop(doc, "data").value))
  }

  const FindFailed := Refusal(500, "Fehler beim Laden des Datasets.")

  /** `findDatasetById`: the first import file of the user carrying the id.
      `read(folder)(file)` is the parsed content, `None` when reading or
      parsing fails. */
  function FindDataset(userId: Option<string>, param: string, dirs: seq<string>, listing: string -> seq<string>,
                       read: string -> string -> Option<Value>): (r: Reply<DatasetView>)
    ensures Guard(userId, param).Err? ==> r == Refused(Guard(userId, param).error)
    ensures Guard(userId, param).Ok? ==>
              var at := Locate(userId.value, Guard(userId, param).value, "import_", dirs, listing);
              && (at.Err? ==> r == Refused(at.error))
              && (at.Ok? ==> (r.Answered? <==> (read(at.value.folder)(at.value.file).Some?
                                                && ViewOf(read(at.value.folder)(at.value.file).value).Ok?)))
              && (r.Answered? ==> ViewOf(read(at.value.folder)(at.value.file).value) == Ok(r.body))
  {
    match Guard(userId, param)
    case Err(why) => Refused(why)
    case Ok(id) =>
      match Locate(userId.value, id, "import_", dirs, listing)
      case Err(why) => Refused(why)
      case Ok(at) =>
        match read(at.folder)(at.file)
        case None => Refused(FindFailed)
        case Some(doc) =>
          match ViewOf(doc)
          case Err(_) => Refused(FindFailed)
          case Ok(view) => Answered(view)
  }

  // ---------------------------------------------------------------- editing

  /** The properties a spread of `meta` contributes: an object's own; for an
      array or a string its index properties, key `i` holding element or
      character `i`; none for null, undefined, numbers and booleans. */
  function MetaBase(meta: Value): (r: Record)
    ensures meta.Obj? ==> r == meta.fields
    ensures meta.Arr? ==> RawKeys(r) == IndexKeys(|meta.elems|)
    ensures meta.Arr? ==> forall i :: 0 <= i < |meta.elems| ==> Get(r, NatToString(i)) == meta.elems[i]
    ensures meta.Str? ==> RawKeys(r) == IndexKeys(|meta.s|)
    ensures meta.Str? ==> forall i :: 0 <= i < |meta.s| ==> Get(r, NatToString(i)) == Str([meta.s[i]])
    ensures !meta.Obj? && !meta.Arr? && !meta.Str? ==> r == []
  {
    match meta
    case Obj(fs) => fs
    case Arr(es) => IndexEntries(es)
    case Str(text) =>
      var chars := seq(|text|, i requires 0 <= i < |text| => Str([text[i]]));
      IndexEntries(chars)
    case _ => []
  }

  /** The own properties of an array-like value: key `i` holds entry `i`. */
  function IndexEntries(vals: seq<Value>): (r: Record)
    ensures RawKeys(r) == IndexKeys(|vals|)
    ensures forall i :: 0 <= i < |vals| ==> Get(r, NatToString(i)) == vals[i]
  {
    var r := seq(|vals|, i requires 0 <= i < |vals| => Field(NatToString(i), vals[i]));
    IndexEntriesRead(vals, r);
    r
  }

  /** Distinct indices have distinct numerals, so each index key is read from
      its own entry. */
  lemma IndexEntriesRead(vals: seq<Value>, r: Record)
    requires |r| == |vals| && forall i :: 0 <= i < |vals| ==> r[i] == Field(NatToString(i), vals[i])
    ensures RawKeys(r) == IndexKeys(|vals|)
    ensures forall i :: 0 <= i < |vals| ==> Get(r, NatToString(i)) == vals[i]
  {
    forall i | 0 <= i < |vals| ensures Get(r, NatToString(i)) == vals[i] {
      var front := RawKeys(r[..i]);
      forall j | 0 <= j < i ensures front[j] != NatToString(i) {
        assert front[j] == NatToString(j);
        ParseNatToString(i);
        ParseNatToString(j);
      }
      GetFirst(r, NatToString(i), i);
    }
  }

  /** `...(v !== undefined ? {[k]: v} : {})`: writes `k` unless `v` is undefined. */
  function PutDefined(r: Record, k: string, v: Value): (r': Record)
    ensures Get(r', k) == if v.Undefined? then Get(r, k) else v
    ensures forall k' :: k' != k ==> Get(r', k') == Get(r, k')
    ensures RawKeys(r) <= RawKeys(r')
    ensures !v.Undefined? ==> k in RawKeys(r')
  {
    if v.Undefined? then r else Put(r, k, v)
  }

  /** `{...base, datasetName: name, lastModified: date}`. */
  function Renamed(base: Record, name: string, date: string): (r: Record)
    ensures Get(r, "datasetName") == Str(name) && Get(r, "lastModified") == Str(date)
    ensures forall k :: k != "datasetName" && k != "lastModified" ==> Get(r, k) == Get(base, k)
    ensures RawKeys(base) <= RawKeys(r)
    ensures "datasetName" in RawKeys(r) && "lastModified" in RawKeys(r)
  {
    var r0 := Put(base, "datasetName", Str(name));
    assert RawKeys(base) <= RawKeys(r0);
    Put(r0, "lastModified", Str(date))
  }

  /** `{...meta, datasetName: name, lastModified: date}` plus `description`
      and `tags` when they are not undefined. */
  function UpdateMeta(meta: Value, name: string, date: string, description: Value, tags: Value): (r: Record)
    ensures Get(r, "datasetName") == Str(name) && Get(r, "lastModified") == Str(date)
    ensures Get(r, "description") == if description.Undefined? then Get(MetaBase(meta), "description") else description
    ensures Get(r, "tags") == if tags.Undefined? then Get(MetaBase(meta), "tags") else tags
    ensures forall k :: k != "datasetName" && k != "lastModified" && k != "description" && k != "tags" ==>
              Get(r, k) == Get(MetaBase(meta), k)
    ensures RawKeys(MetaBase(meta)) <= RawKeys(r)
  {
    var r1 := Renamed(MetaBase(meta), name, date);
    var r2 := PutDefined(r1, "description", description);
    var r3 := PutDefined(r2, "tags", tags);
    assert EditSteps(MetaBase(meta), r1, r2, r3, name, date, description, tags);
    EditStepsNamed(MetaBase(meta), r1, r2, r3, name, date, description, tags);
    EditStepsDescription(MetaBase(meta), r1, r2, r3, name, date, description, tags);
    EditStepsTags(MetaBase(meta), r1, r2, r3, name, date, description, tags);
    EditStepsOthers(MetaBase(meta), r1, r2, r3, name, date, description, tags);
    Lists.PrefixTrans(RawKeys(MetaBase(meta)), RawKeys(r1), RawKeys(r2));
    Lists.PrefixTrans(RawKeys(MetaBase(meta)), RawKeys(r2), RawKeys(r3));
    r3
  }

  /** The metadata keys are pairwise different. */
  lemma MetaKeysDistinct()
    ensures "description" != "datasetName" && "description" != "lastModified" && "description" != "tags"
    ensures "id" != "datasetName" && "id" != "lastModified" && "id" != "description" && "id" != "tags"
    ensures "created" != "datasetName" && "created" != "lastModified" && "created" != "description" && "created" != "tags"
    ensures "url" != "datasetName" && "url" != "lastModified" && "url" != "description" && "url" != "tags"
  {
    assert "description"[1] != "datasetName"[1];
  }

  /** The three writes of an edit, seen through their contracts only. */
  ghost predicate EditSteps(base: Record, r1: Record, r2: Record, r3: Record, name: string, date: string,
                      description: Value, tags: Value) {
    && Get(r1, "datasetName") == Str(name) && Get(r1, "lastModified") == Str(date)
    && (forall k :: k != "datasetName" && k != "lastModified" ==> Get(r1, k) == Get(base, k))
    && Get(r2, "description") == (if description.Undefined? then Get(r1, "description") else description)
    && (forall k :: k != "description" ==> Get(r2, k) == Get(r1, k))
    && Get(r3, "tags") == (if tags.Undefined? then Get(r2, "tags") else tags)
    && (forall k :: k != "tags" ==> Get(r3, k) == Get(r2, k))
  }

  lemma EditStepsNamed(base: Record, r1: Record, r2: Record, r3: Record, name: string, date: string,
                       description: Value, tags: Value)
    requires EditSteps(base, r1, r2, r3, name, date, description, tags)
    ensures Get(r3, "datasetName") == Str(name) && Get(r3, "lastModified") == Str(date)
  {
  }

  lemma EditStepsDescription(base: Record, r1: Record, r2: Record, r3: Record, name: string, date: string,
                             description: Value, tags: Value)
    requires EditSteps(base, r1, r2, r3, name, date, description, tags)
    ensures Get(r3, "description") == if description.Undefined? then Get(base, "description") else description
  {
    MetaKeysDistinct();
    assert Get(r3, "description") == Get(r2, "description");
    assert Get(r1, "description") == Get(base, "description");
  }

  lemma EditStepsTags(base: Record, r1: Record, r2: Record, r3: Record, name: string, date: string,
                      description: Value, tags: Value)
    requires EditSteps(base, r1, r2, r3, name, date, description, tags)
    ensures Get(r3, "tags") == if tags.Undefined? then Get(base, "tags") else tags
  {
  }

  lemma EditStepsOthers(base: Record, r1: Record, r2: Record, r3: Record, name: string, date: string,
                        description: Value, tags: Value)
    requires EditSteps(base, r1, r2, r3, name, date, description, tags)
    ensures forall k :: k != "datasetName" && k != "lastModified" && k != "description" && k != "tags" ==>
              Get(r3, k) == Get(base, k)
  {
  }

  /** Sending the same edit twice stores the same metadata as sending it once. */
  lemma UpdateMetaIdempotent(meta: Value, name: string, date: string, description: Value, tags: Value)
    ensures var once := UpdateMeta(meta, name, date, description, tags);
            UpdateMeta(Obj(once), name, date, description, tags) == once
  {
    var once := UpdateMeta(meta, name, date, description, tags);
    PutExisting(once, "datasetName", Str(name));
    PutExisting(once, "lastModified", Str(date));
    if !description.Undefined? {
      PutExisting(once, "description", description);
    }
    if !tags.Undefined? {
      PutExisting(once, "tags", tags);
    }
  }

  /** The body of `updateDatasetById`. */
  datatype Edit = Edit(name: Value, description: Value, tags: Value)

  /** The rewritten file: where it is, its new `meta` and its unchanged `data`. */
  datatype Updated = Updated(at: Located, meta: Record, data: Value)

  const UpdateFailed := Refusal(500, "Fehler beim Aktualisieren des Datensatzes.")

  /** `updateDatasetById`: renames the dataset, stamps it modified and
      optionally replaces its description and tags; the records stay. */
  function UpdateDataset(userId: Option<string>, param: string, edit: Edit, dirs: seq<string>,
                         listing: string -> seq<string>, read: string -> string -> Option<Value>, date: string)
    : (r: Reply<Updated>)
    ensures Guard(userId, param).Err? ==> r == Refused(Guard(userId, param).error)
    ensures Guard(userId, param).Ok? && !NameGiven(edit.name) ==> r == Refused(Refusal(400, "Name ist erforderlich."))
    ensures Guard(userId, param).Ok? && NameGiven(edit.name) && Truthy(edit.tags) && !edit.tags.Arr? ==>
              r == Refused(Refusal(400, "Tags müssen ein Array sein."))
    ensures r.Answered? ==>
              && Guard(userId, param).Ok? && edit.name.Str?
              && Locate(userId.value, Guard(userId, param).value, "import_", dirs, listing) == Ok(r.body.at)
              && NameId(r.body.at.file, "import_") == Some(Guard(userId, param).value)
              && var doc := read(r.body.at.folder)(r.body.at.file);
                 && doc.Some? && Prop(doc.value, "meta").Ok?
                 && r.body.meta == UpdateMeta(Prop(doc.value, "meta").value, edit.name.s, date, edit.description, edit.tags)
                 && Prop(doc.value, "data") == Ok(r.body.data)
  {
    match Guard(userId, param)
    case Err(why) => Refused(why)
    case Ok(id) =>
      if !NameGiven(edit.name) then Refused(Refusal(400, "Name ist erforderlich."))
      else if Truthy(edit.tags) && !edit.tags.Arr? then Refused(Refusal(400, "Tags müssen ein Array sein."))
      else match Locate(userId.value, id, "import_", dirs, listing)
        case Err(why) => Refused(why)
        case Ok(at) =>
          match read(at.folder)(at.file)
          case None => Refused(UpdateFailed)
          case Some(doc) =>
            match (Prop(doc, "meta"), Prop(doc, "data"))
            case (Ok(meta), Ok(data)) =>
              Answered(Updated(at, UpdateMeta(meta, edit.name.s, date, edit.description, edit.tags), data))
            case _ => Refused(UpdateFailed)
  }

  /** After an edit the dataset reads back with the new name, modification
      date, description and tags, and its old id, creation date, URL and
      records. */
  lemma FoundAfterUpdate(meta: Record, data: Value, name: string, date: string, description: Value, tags: Value)
    ensures ViewOf(Document(UpdateMeta(Obj(meta), name, date, description, tags), data))
            == Ok(DatasetView(Get(meta, "id"), Str(name),
                              if description.Undefined? then Get(meta, "description") else description,
                              if tags.Undefined? then Get(meta, "tags") else tags,
                              Get(meta, "created"), Str(date), Get(meta, "url"), data))
  {
    var m := UpdateMeta(Obj(meta), name, date, description, tags);
    ViewOfDocument(m, data);
    UpdateMetaKeeps(meta, name, date, description, tags);
  }

  /** The view of a stored document reads its `meta` properties. */
  lemma ViewOfDocument(m: Record, data: Value)
    ensures ViewOf(Document(m, data)) == Ok(DatasetView(Get(m, "id"), Get(m, "datasetName"), Get(m, "description"),
                                                        Get(m, "tags"), Get(m, "created"), Get(m, "lastModified"),
                                                        Get(m, "url"), data))
  {
  }

  /** An edit keeps the id, creation date and URL. */
  lemma UpdateMetaKeeps(meta: Record, name: string, date: string, description: Value, tags: Value)
    ensures var m := UpdateMeta(Obj(meta), name, date, description, tags);
            Get(m, "id") == Get(meta, "id") && Get(m, "created") == Get(meta, "created") && Get(m, "url") == Get(meta, "url")
  {
    UpdateMetaOther(Obj(meta), name, date, description, tags, "id");
    UpdateMetaOther(Obj(meta), name, date, description, tags, "created");
    UpdateMetaOther(Obj(meta), name, date, description, tags, "url");
  }

  /** One property an edit does not name keeps its value. */
  lemma UpdateMetaOther(meta: Value, name: string, date: string, description: Value, tags: Value, k: string)
    requires k != "datasetName" && k != "lastModified" && k != "description" && k != "tags"
    ensures Get(UpdateMeta(meta, name, date, description, tags), k) == Get(MetaBase(meta), k)
  {
  }

  /** An edit of a dataset whose stored `meta` is a string keeps one index
      property per character next to the edited ones, as the spread copies
      them. */
  lemma UpdateMetaSpreadsString(text: string, name: string, date: string, description: Value, tags: Value)
    ensures var m := UpdateMeta(Str(text), name, date, description, tags);
            && IndexKeys(|text|) <= RawKeys(m)
            && (forall i :: 0 <= i < |text| ==> Get(m, NatToString(i)) == Str([text[i]]))
            && Get(m, "datasetName") == Str(name)
  {
    forall i | 0 <= i < |text|
      ensures Get(UpdateMeta(Str(text), name, date, description, tags), NatToString(i)) == Str([text[i]])
    {
      var k := NatToString(i);
      assert '0' <= k[0] <= '9';
      UpdateMetaOther(Str(text), name, date, description, tags, k);
    }
  }

  /** The same for a stored `meta` that is an array: index `i` holds element `i`. */
  lemma UpdateMetaSpreadsArray(elems: seq<Value>, name: string, date: string, description: Value, tags: Value)
    ensures var m := UpdateMeta(Arr(elems), name, date, description, tags);
            && IndexKeys(|elems|) <= RawKeys(m)
            && (forall i :: 0 <= i < |elems| ==> Get(m, NatToString(i)) == elems[i])
  {
    forall i | 0 <= i < |elems|
      ensures Get(UpdateMeta(Arr(elems), name, date, description, tags), NatToString(i)) == elems[i]
    {
      var k := NatToString(i);
      assert '0' <= k[0] <= '9';
      UpdateMetaOther(Arr(elems), name, date, description, tags, k);
    }
  }

}
