/** The upload parser of the front end: CSV text and parsed JSON to records,
    then one type per column (numeric, date or categorical) decided on the
    first ten records. `JSON.parse` is a parameter. */
module Parsing {
  import opened Wrappers
  import opened Text
  import opened Values
  import Lists

  // ---------------------------------------------------------------- CSV

  /** How one cell is stored: a number when the text is non-empty and
      `Number` accepts it, the text otherwise; a missing cell is undefined. */
  function Cell(values: seq<string>, j: nat): (v: Value)
    ensures j < |values| && values[j] != "" && StringToNumber(values[j]).Some? ==>
              v == Real(StringToNumber(values[j]).value)
    ensures j < |values| && (values[j] == "" || StringToNumber(values[j]).None?) ==> v == Str(values[j])
    ensures j >= |values| ==> v == Undefined
  {
    if j >= |values| then Undefined
    else if values[j] != "" && !TextNumber(values[j]).NaN? then Num(TextNumber(values[j]))
    else Str(values[j])
  }

  /** A header that assignment turns into an own property. `__proto__` is
      not one: assigning a number, a string or `undefined` to it goes to the
      inherited setter, which ignores anything but an object or `null`. */
  predicate Assignable(h: string) {
    h != "__proto__"
  }

  /** The object built for one line: each header assigned in turn, so a
      repeated header keeps its first place and `__proto__` adds nothing. */
  function BuildRecord(headers: seq<string>, values: seq<string>): (r: Record)
    ensures RawKeys(r) == Lists.Dedup(Lists.Filter(headers, Assignable))
    decreases |headers|
  {
    if |headers| == 0 then []
    else
      var n := |headers| - 1;
      var init, h := headers[..n], headers[n];
      var r0 := BuildRecord(init, values);
      assert headers == init + [h];
      Lists.FilterAppend(init, [h], Assignable);
      if Assignable(h) then
        assert Lists.Filter([h], Assignable) == [h];
        Lists.DedupSnoc(Lists.Filter(init, Assignable), h);
        Put(r0, h, Cell(values, n))
      else
        assert Lists.Filter([h], Assignable) == [];
        assert Lists.Filter(init, Assignable) + [] == Lists.Filter(init, Assignable);
        r0
  }

  /** An assignable header reads back the cell under its last occurrence. */
  lemma {:induction false} BuildRecordValue(headers: seq<string>, values: seq<string>, j: nat)
    requires j < |headers| && headers[j] !in headers[j + 1..]
    ensures Assignable(headers[j]) ==> Get(BuildRecord(headers, values), headers[j]) == Cell(values, j)
    ensures !Assignable(headers[j]) ==> headers[j] !in RawKeys(BuildRecord(headers, values))
    decreases |headers|
  {
    var n := |headers| - 1;
    var init := headers[..n];
    var r0 := BuildRecord(init, values);
    if !Assignable(headers[j]) {
      assert headers[j] !in Lists.Filter(headers, Assignable);
    } else if j < n {
      assert headers[n] in headers[j + 1..];
      assert init[j + 1..] == headers[j + 1..n];
      BuildRecordValue(init, values, j);
      assert Get(r0, headers[j]) == Cell(values, j);
      if Assignable(headers[n]) {
        assert BuildRecord(headers, values) == Put(r0, headers[n], Cell(values, n));
      } else {
        assert BuildRecord(headers, values) == r0;
      }
    } else {
      assert j == n;
      assert BuildRecord(headers, values) == Put(r0, headers[n], Cell(values, n));
      PutGet(r0, headers[n], Cell(values, n));
      assert Get(BuildRecord(headers, values), headers[n]) == Cell(values, n);
    }
  }

  function TrimAll(xs: seq<string>): (r: seq<string>)
    ensures |r| == |xs| && forall i :: 0 <= i < |xs| ==> r[i] == Trim(EcmaScript, xs[i])
  {
    seq(|xs|, i requires 0 <= i < |xs| => Trim(EcmaScript, xs[i]))
  }

  predicate NonBlank(line: string) {
    Trim(EcmaScript, line) != ""
  }

  /** The header names: the first line split on commas, each trimmed. */
  function Headers(text: string): seq<string> {
    TrimAll(Split(Split(text, '\n')[0], ','))
  }

  function LineRecord(headers: seq<string>, line: string): Record {
    BuildRecord(headers, TrimAll(Split(Trim(EcmaScript, line), ',')))
  }

  /** One record per non-blank line after the first. */
  function RecordsOf(headers: seq<string>, lines: seq<string>): (r: seq<Record>)
    ensures |r| == |Lists.Filter(lines, NonBlank)|
    ensures forall k :: 0 <= k < |r| ==> r[k] == LineRecord(headers, Lists.Filter(lines, NonBlank)[k])
    decreases |lines|
  {
    if |lines| == 0 then []
    else
      var rest := RecordsOf(headers, lines[1..]);
      var kept := Lists.Filter(lines[1..], NonBlank);
      if NonBlank(lines[0]) then
        assert Lists.Filter(lines, NonBlank) == [lines[0]] + kept;
        [LineRecord(headers, lines[0])] + rest
      else
        assert Lists.Filter(lines, NonBlank) == kept;
        rest
  }

  /** `parseCSV(text)`. */
  function ParseCsv(text: string): seq<Record> {
    var lines := Split(text, '\n');
    RecordsOf(Headers(text), lines[1..])
  }

  /** There are never more records than lines after the header, and every
      record has a property for every assignable header. */
  lemma ParseCsvShape(text: string)
    ensures |ParseCsv(text)| <= |Split(text, '\n')| - 1
    ensures forall k, h :: 0 <= k < |ParseCsv(text)| && h in Headers(text) && Assignable(h) ==> h in RawKeys(ParseCsv(text)[k])
  {
  }

  /** For a text made of a header line and non-blank data lines, there is
      exactly one record per data line, built from that line. */
  lemma ParseCsvOfLines(header: string, rows: seq<string>)
    requires '\n' !in header
    requires forall i :: 0 <= i < |rows| ==> '\n' !in rows[i] && NonBlank(rows[i])
    ensures var text := Join([header] + rows, '\n');
            |ParseCsv(text)| == |rows|
            && forall k :: 0 <= k < |rows| ==> ParseCsv(text)[k] == LineRecord(TrimAll(Split(header, ',')), rows[k])
  {
    var parts := [header] + rows;
    var text := Join(parts, '\n');
    assert forall i :: 0 <= i < |parts| ==> '\n' !in parts[i] by {
      forall i | 0 <= i < |parts| ensures '\n' !in parts[i] {
        if i > 0 {
          assert parts[i] == rows[i - 1];
        }
      }
    }
    SplitOfJoin(parts, '\n');
    assert parts[1..] == rows;
    Lists.FilterAll(rows, NonBlank);
  }

  // ---------------------------------------------------------------- JSON

  const NotRecords := "JSON does not contain an array of records"

  /** The value of the first key, in enumeration order, holding an array. */
  function FirstArrayField(r: Record, keys: seq<string>): (res: Option<seq<Value>>)
    ensures res.None? <==> forall i :: 0 <= i < |keys| ==> !Get(r, keys[i]).Arr?
    ensures res.Some? ==> exists i :: 0 <= i < |keys| && Get(r, keys[i]) == Arr(res.value)
                                      && forall j :: 0 <= j < i ==> !Get(r, keys[j]).Arr?
    decreases |keys|
  {
    if |keys| == 0 then None
    else if Get(r, keys[0]).Arr? then Some(Get(r, keys[0]).elems)
    else
      var res := FirstArrayField(r, keys[1..]);
      if res.Some? then
        var i :| 0 <= i < |keys[1..]| && Get(r, keys[1..][i]) == Arr(res.value)
                 && forall j :: 0 <= j < i ==> !Get(r, keys[1..][j]).Arr?;
        assert Get(r, keys[i + 1]) == Arr(res.value);
        res
      else
        res
  }

  /** `parseJSON(text)` given the outcome of `JSON.parse(text)`: an array as
      is; an object's first array-valued property, or the object alone; any
      other value is refused. Parse errors are rethrown. */
  function ParseJson(parsed: Result<Value, string>): (r: Result<seq<Value>, string>)
    ensures parsed.Err? ==> r == Err(parsed.error)
    ensures parsed.Ok? && parsed.value.Arr? ==> r == Ok(parsed.value.elems)
    ensures parsed.Ok? && parsed.value.Obj? ==> r == ObjectRecords(parsed.value.fields)
    ensures parsed.Ok? && !parsed.value.Arr? && !parsed.value.Obj? ==> r == Err(NotRecords)
  {
    match parsed
    case Err(e) => Err(e)
    case Ok(v) =>
      match v
      case Arr(es) => Ok(es)
      case Obj(fs) => ObjectRecords(fs)
      case _ => Err(NotRecords)
  }

  /** An object's first array-valued property, in `for...in` order, or the
      object alone. */
  function ObjectRecords(fs: Record): (r: Result<seq<Value>, string>)
    ensures r.Ok?
    ensures || (exists k :: k in RawKeys(fs) && Get(fs, k) == Arr(r.value))
            || (r.value == [Obj(fs)] && forall k :: k in RawKeys(fs) ==> !Get(fs, k).Arr?)
    ensures (exists k :: k in RawKeys(fs) && Get(fs, k).Arr?) ==>
              var keys := OwnKeys(fs);
              exists i :: 0 <= i < |keys| && Get(fs, keys[i]) == Arr(r.value)
                          && forall j :: 0 <= j < i ==> !Get(fs, keys[j]).Arr?
    ensures (forall k :: k in RawKeys(fs) ==> !Get(fs, k).Arr?) ==> r.value == [Obj(fs)]
  {
    var keys := OwnKeys(fs);
    OwnKeysMembers(fs);
    match FirstArrayField(fs, keys)
    case Some(es) => Ok(es)
    case None => Ok([Obj(fs)])
  }

  // ---------------------------------------------------------------- column types

  datatype FileType = CsvFile | JsonFile

  datatype Kind = Numeric | Date | Categorical

  datatype Summary = Summary(rowCount: nat, numericColumns: seq<string>,
                             categoricalColumns: seq<string>, dateColumns: seq<string>)

  datatype Processed = Processed(records: seq<Value>, columns: seq<string>, summary: Summary)

  const NoRecords := "No records found in the data"

  /** The date test: the text starts with `dddd-dd-dd` or `dd/dd/dddd`. */
  predicate DatePrefix(s: string) {
    || (|s| >= 10 && IsDigit(s[0]) && IsDigit(s[1]) && IsDigit(s[2]) && IsDigit(s[3]) && s[4] == '-'
        && IsDigit(s[5]) && IsDigit(s[6]) && s[7] == '-' && IsDigit(s[8]) && IsDigit(s[9]))
    || (|s| >= 10 && IsDigit(s[0]) && IsDigit(s[1]) && s[2] == '/' && IsDigit(s[3]) && IsDigit(s[4])
        && s[5] == '/' && IsDigit(s[6]) && IsDigit(s[7]) && IsDigit(s[8]) && IsDigit(s[9]))
  }

  /** What one sampled value contributes: a number, a date-like string, or neither. */
  predicate CountsAsNumber(v: Value) {
    v.Num?
  }

  predicate CountsAsDate(v: Value) {
    v.Str? && DatePrefix(v.s)
  }

  function SampleSize(n: nat): nat {
    if n < 10 then n else 10
  }

  /** One sampled value added to the (numbers, dates) tally. */
  function Step(prev: (nat, nat), v: Value): (nat, nat) {
    if CountsAsNumber(v) then (prev.0 + 1, prev.1)
    else if CountsAsDate(v) then (prev.0, prev.1 + 1)
    else prev
  }

  /** Record i holds a number under `column`. */
  predicate NumberAt(records: seq<Value>, column: string, i: int)
    requires 0 <= i < |records|
  {
    Prop(records[i], column).Ok? && CountsAsNumber(Prop(records[i], column).value)
  }

  /** Record i holds a date-like string under `column`. */
  predicate DateAt(records: seq<Value>, column: string, i: int)
    requires 0 <= i < |records|
  {
    Prop(records[i], column).Ok? && CountsAsDate(Prop(records[i], column).value)
  }

  /** How many of the first `m` records hold a number under `column`. */
  function NumCount(records: seq<Value>, column: string, m: nat): nat
    requires m <= |records|
  {
    |set i | 0 <= i < m && NumberAt(records, column, i)|
  }

  /** How many of the first `m` records hold a date-like string under `column`. */
  function DateCount(records: seq<Value>, column: string, m: nat): nat
    requires m <= |records|
  {
    |set i | 0 <= i < m && DateAt(records, column, i)|
  }

  /** Extending the range by one index adds that index when it qualifies. */
  lemma CountSnoc(m: nat, p: int -> bool)
    requires m > 0
    ensures |set i | 0 <= i < m && p(i)| == |set i | 0 <= i < m - 1 && p(i)| + (if p(m - 1) then 1 else 0)
  {
    var below := set i | 0 <= i < m - 1 && p(i);
    if p(m - 1) {
      assert (set i | 0 <= i < m && p(i)) == below + {m - 1};
    } else {
      assert (set i | 0 <= i < m && p(i)) == below;
    }
  }

  /** The tallies count the records holding a number and those holding a
      date-like string. */
  lemma {:induction false} CountStep(records: seq<Value>, column: string, m: nat)
    requires 0 < m <= |records|
    ensures NumCount(records, column, m)
            == NumCount(records, column, m - 1) + (if NumberAt(records, column, m - 1) then 1 else 0)
    ensures DateCount(records, column, m)
            == DateCount(records, column, m - 1) + (if DateAt(records, column, m - 1) then 1 else 0)
  {
    var n := i => 0 <= i < |records| && NumberAt(records, column, i);
    var d := i => 0 <= i < |records| && DateAt(records, column, i);
    CountSnoc(m, n);
    CountSnoc(m, d);
    assert (set i | 0 <= i < m && n(i)) == (set i | 0 <= i < m && NumberAt(records, column, i));
    assert (set i | 0 <= i < m - 1 && n(i)) == (set i | 0 <= i < m - 1 && NumberAt(records, column, i));
    assert (set i | 0 <= i < m && d(i)) == (set i | 0 <= i < m && DateAt(records, column, i));
    assert (set i | 0 <= i < m - 1 && d(i)) == (set i | 0 <= i < m - 1 && DateAt(records, column, i));
  }

  /** One more record moves the tallies as `Step` does. */
  lemma TallyStep(records: seq<Value>, column: string, m: nat, v: Value)
    requires 0 < m <= |records| && Prop(records[m - 1], column) == Ok(v)
    ensures Step((NumCount(records, column, m - 1), DateCount(records, column, m - 1)), v)
            == (NumCount(records, column, m), DateCount(records, column, m))
  {
    CountStep(records, column, m);
  }

  /** The number and date tallies of `column` over the first `m` records;
      reading a property of null or undefined throws. */
  function Tally(records: seq<Value>, column: string, m: nat): (r: Result<(nat, nat), string>)
    requires m <= |records|
    ensures r.Ok? ==> r.value == (NumCount(records, column, m), DateCount(records, column, m))
    ensures r.Ok? <==> forall i :: 0 <= i < m ==> Prop(records[i], column).Ok?
    decreases m
  {
    if m == 0 then Ok((0, 0))
    else
      match Tally(records, column, m - 1)
      case Err(e) => Err(e)
      case Ok(prev) =>
        match Prop(records[m - 1], column)
        case Err(e) =>
          assert !Prop(records[m - 1], column).Ok?;
          Err(e)
        case Ok(v) =>
          TallyStep(records, column, m, v);
          assert forall i :: 0 <= i < m ==> Prop(records[i], column).Ok?;
          Ok(Step(prev, v))
  }

  /** The 70% rule, numbers first. `sampleSize * 0.7` is compared exactly:
      for sample sizes 1 to 10 the double-precision product never moves the
      threshold across an integer. */
  function Classify(numeric: nat, dates: nat, sample: nat): Kind {
    if 10 * numeric >= 7 * sample then Numeric
    else if 10 * dates >= 7 * sample then Date
    else Categorical
  }

  /** The kind of each column, in column order, by the 70% rule over the
      first `SampleSize` records. */
  function Kinds(records: seq<Value>, columns: seq<string>): (r: Result<seq<Kind>, string>)
    ensures r.Ok? ==> |r.value| == |columns|
    ensures r.Ok? ==> forall j :: 0 <= j < |columns| ==>
              var s := SampleSize(|records|);
              r.value[j] == Classify(NumCount(records, columns[j], s), DateCount(records, columns[j], s), s)
    ensures r.Ok? <==> |columns| == 0 || forall i :: 0 <= i < SampleSize(|records|) ==> !records[i].Null? && !records[i].Undefined?
    decreases |columns|
  {
    if |columns| == 0 then Ok([])
    else
      var t :- Tally(records, columns[0], SampleSize(|records|));
      var rest :- Kinds(records, columns[1..]);
      Ok([Classify(t.0, t.1, SampleSize(|records|))] + rest)
  }

  /** The columns whose kind is `k`, in column order. */
  function Pick(columns: seq<string>, kinds: seq<Kind>, k: Kind): seq<string>
    requires |kinds| == |columns|
    decreases |columns|
  {
    if |columns| == 0 then []
    else (if kinds[0] == k then [columns[0]] else []) + Pick(columns[1..], kinds[1..], k)
  }

  /** Every column lands in exactly one of the three lists. */
  lemma {:induction false} PickPartition(columns: seq<string>, kinds: seq<Kind>)
    requires |kinds| == |columns|
    ensures multiset(Pick(columns, kinds, Numeric)) + multiset(Pick(columns, kinds, Date))
            + multiset(Pick(columns, kinds, Categorical)) == multiset(columns)
    decreases |columns|
  {
    if |columns| > 0 {
      var rest, ks := columns[1..], kinds[1..];
      PickPartition(rest, ks);
      PickHead(columns, kinds, Numeric);
      PickHead(columns, kinds, Date);
      PickHead(columns, kinds, Categorical);
      assert multiset(columns) == multiset{columns[0]} + multiset(rest) by {
        assert columns == [columns[0]] + rest;
      }
      AddToOne(multiset{columns[0]}, kinds[0],
               multiset(Pick(rest, ks, Numeric)), multiset(Pick(rest, ks, Date)), multiset(Pick(rest, ks, Categorical)));
    }
  }

  /** Adding one element to the part of its own kind adds it to the whole. */
  lemma AddToOne(h: multiset<string>, k: Kind, n: multiset<string>, d: multiset<string>, t: multiset<string>)
    ensures ((if k == Numeric then h else multiset{}) + n) + ((if k == Date then h else multiset{}) + d)
            + ((if k == Categorical then h else multiset{}) + t) == h + (n + d + t)
  {
  }

  /** The first column adds itself to the list of its own kind only. */
  lemma PickHead(columns: seq<string>, kinds: seq<Kind>, k: Kind)
    requires |kinds| == |columns| > 0
    ensures multiset(Pick(columns, kinds, k))
            == (if kinds[0] == k then multiset{columns[0]} else multiset{}) + multiset(Pick(columns[1..], kinds[1..], k))
  {
  }

  /** A column is picked exactly when some position holds it with kind `k`. */
  lemma {:induction false} PickMembers(columns: seq<string>, kinds: seq<Kind>, k: Kind, c: string)
    requires |kinds| == |columns|
    ensures c in Pick(columns, kinds, k) <==> exists j :: 0 <= j < |columns| && columns[j] == c && kinds[j] == k
    decreases |columns|
  {
    if |columns| > 0 {
      PickMembers(columns[1..], kinds[1..], k, c);
      if exists j :: 0 <= j < |columns| && columns[j] == c && kinds[j] == k {
        var j :| 0 <= j < |columns| && columns[j] == c && kinds[j] == k;
        if j > 0 {
          assert columns[1..][j - 1] == c && kinds[1..][j - 1] == k;
        }
      }
      if exists j :: 0 <= j < |columns[1..]| && columns[1..][j] == c && kinds[1..][j] == k {
        var j :| 0 <= j < |columns[1..]| && columns[1..][j] == c && kinds[1..][j] == k;
        assert columns[j + 1] == c && kinds[j + 1] == k;
      }
    }
  }

  /** The column lists follow the 70% rule: numbers first, then dates, and
      every other column is categorical. */
  ghost predicate FollowsRule(records: seq<Value>, columns: seq<string>, summary: Summary) {
    var n := SampleSize(|records|);
    && n <= |records|
    && (forall c :: c in summary.numericColumns <==> c in columns && 10 * NumCount(records, c, n) >= 7 * n)
    && (forall c :: c in summary.dateColumns <==>
          c in columns && 10 * NumCount(records, c, n) < 7 * n && 10 * DateCount(records, c, n) >= 7 * n)
    && (forall c :: c in summary.categoricalColumns <==>
          c in columns && 10 * NumCount(records, c, n) < 7 * n && 10 * DateCount(records, c, n) < 7 * n)
  }

  /** Picking by the kinds `Kinds` computes follows the 70% rule. */
  lemma PickFollowsRule(records: seq<Value>, columns: seq<string>, kinds: seq<Kind>)
    requires |kinds| == |columns|
    requires forall j :: 0 <= j < |columns| ==>
               var s := SampleSize(|records|);
               kinds[j] == Classify(NumCount(records, columns[j], s), DateCount(records, columns[j], s), s)
    ensures FollowsRule(records, columns,
                        Summary(|records|, Pick(columns, kinds, Numeric), Pick(columns, kinds, Categorical),
                                Pick(columns, kinds, Date)))
  {
    var n := SampleSize(|records|);
    forall c
      ensures c in Pick(columns, kinds, Numeric) <==> c in columns && 10 * NumCount(records, c, n) >= 7 * n
      ensures c in Pick(columns, kinds, Date) <==>
                c in columns && 10 * NumCount(records, c, n) < 7 * n && 10 * DateCount(records, c, n) >= 7 * n
      ensures c in Pick(columns, kinds, Categorical) <==>
                c in columns && 10 * NumCount(records, c, n) < 7 * n && 10 * DateCount(records, c, n) < 7 * n
    {
      PickMembers(columns, kinds, Numeric, c);
      PickMembers(columns, kinds, Date, c);
      PickMembers(columns, kinds, Categorical, c);
    }
  }

  /** `null` and `undefined`, the values whose properties cannot be read. */
  predicate Nullish(v: Value) {
    v.Null? || v.Undefined?
  }

  /** `processData(text, fileType)` after the parse: refused when there are
      no records; reading the columns of a `null` first record, or a column
      of a `null` sampled record, throws; otherwise the columns of the first
      record, each typed by the 70% rule. */
  function ProcessRecords(records: seq<Value>): (r: Result<Processed, string>)
    ensures r.Ok? ==> |records| > 0 && r.value.records == records && r.value.summary.rowCount == |records|
    ensures r.Ok? ==> ObjectKeys(records[0]) == Ok(r.value.columns)
    ensures r.Ok? ==> multiset(r.value.summary.numericColumns) + multiset(r.value.summary.dateColumns)
                      + multiset(r.value.summary.categoricalColumns) == multiset(r.value.columns)
    ensures r.Ok? ==> FollowsRule(records, r.value.columns, r.value.summary)
    ensures |records| == 0 ==> r == Err(NoRecords)
    ensures |records| > 0 ==>
              (r.Ok? <==> !Nullish(records[0])
                          && (ObjectKeys(records[0]).value == [] || forall i :: 0 <= i < SampleSize(|records|) ==> !Nullish(records[i])))
  {
    if |records| == 0 then Err(NoRecords)
    else
      var columns :- ObjectKeys(records[0]);
      var kinds :- Kinds(records, columns);
      PickPartition(columns, kinds);
      PickFollowsRule(records, columns, kinds);
      Ok(Processed(records, columns,
                   Summary(|records|, Pick(columns, kinds, Numeric), Pick(columns, kinds, Categorical),
                           Pick(columns, kinds, Date))))
  }

  /** Records as object values. */
  function Objects(rs: seq<Record>): (vs: seq<Value>)
    ensures |vs| == |rs| && forall i :: 0 <= i < |vs| ==> vs[i] == Obj(rs[i])
  {
    seq(|rs|, i requires 0 <= i < |rs| => Obj(rs[i]))
  }

  /** `processData(text, fileType)`: a CSV text is read by `parseCSV`, which
      cannot fail, and any other text by `parseJSON`, whose error is
      rethrown; the records are then processed. */
  function ProcessData(data: string, fileType: FileType, jsonParse: string -> Result<Value, string>)
    : (r: Result<Processed, string>)
    ensures r.Ok? ==> |r.value.records| > 0 && r.value.summary.rowCount == |r.value.records|
    ensures r.Ok? ==> ObjectKeys(r.value.records[0]) == Ok(r.value.columns)
    ensures r.Ok? ==> multiset(r.value.summary.numericColumns) + multiset(r.value.summary.dateColumns)
                      + multiset(r.value.summary.categoricalColumns) == multiset(r.value.columns)
    ensures r.Ok? ==> FollowsRule(r.value.records, r.value.columns, r.value.summary)
    ensures fileType == CsvFile && r.Ok? ==>
              |r.value.records| == |ParseCsv(data)|
              && forall i :: 0 <= i < |ParseCsv(data)| ==> r.value.records[i] == Obj(ParseCsv(data)[i])
    ensures fileType == CsvFile ==> (r.Ok? <==> |ParseCsv(data)| > 0)
    ensures fileType == CsvFile && |ParseCsv(data)| == 0 ==> r == Err(NoRecords)
    ensures fileType != CsvFile && r.Ok? ==> ParseJson(jsonParse(data)) == Ok(r.value.records)
    ensures fileType != CsvFile && ParseJson(jsonParse(data)).Err? ==> r == Err(ParseJson(jsonParse(data)).error)
    ensures fileType != CsvFile && ParseJson(jsonParse(data)) == Ok([]) ==> r == Err(NoRecords)
    ensures fileType != CsvFile && ParseJson(jsonParse(data)).Ok? ==> r == ProcessRecords(ParseJson(jsonParse(data)).value)
  {
    if fileType == CsvFile then
      RowsProcessed(ParseCsv(data));
      ProcessRecords(Objects(ParseCsv(data)))
    else
      var records :- ParseJson(jsonParse(data));
      ProcessRecords(records)
  }

  /** The objects of parsed rows are processed exactly when there is a row,
      and a result keeps them in order. */
  lemma RowsProcessed(rows: seq<Record>)
    ensures var r := ProcessRecords(Objects(rows));
            && (r.Ok? <==> |rows| > 0)
            && (|rows| == 0 ==> r == Err(NoRecords))
            && (r.Ok? ==> |r.value.records| == |rows| && forall i :: 0 <= i < |rows| ==> r.value.records[i] == Obj(rows[i]))
  {
    ObjectsProcessed(Objects(rows));
  }

  /** Object records are processed whenever there is one. */
  lemma ObjectsProcessed(records: seq<Value>)
    requires forall i :: 0 <= i < |records| ==> records[i].Obj?
    ensures ProcessRecords(records).Ok? <==> |records| > 0
  {
    if |records| > 0 {
      assert !Nullish(records[0]);
      assert forall i :: 0 <= i < SampleSize(|records|) ==> !Nullish(records[i]);
    }
  }

  /** A CSV text with only a header line has no records and is refused. */
  lemma HeaderOnlyRefused(header: string, jsonParse: string -> Result<Value, string>)
    requires '\n' !in header
    ensures ProcessData(header, CsvFile, jsonParse) == Err(NoRecords)
  {
    SplitNoSeparator(header, '\n');
  }

  /** A column holding a number in every sampled record tallies all numbers. */
  lemma {:induction false} TallyAllNumbers(records: seq<Value>, column: string, m: nat)
    requires m <= |records|
    requires forall i :: 0 <= i < m ==> Prop(records[i], column).Ok? && CountsAsNumber(Prop(records[i], column).value)
    ensures Tally(records, column, m) == Ok((m, 0))
    decreases m
  {
    if m > 0 {
      TallyAllNumbers(records, column, m - 1);
      var v := Prop(records[m - 1], column).value;
      assert Tally(records, column, m) == Ok(Step((m - 1, 0), v));
    }
  }

  /** A column holding a date-like string in every sampled record tallies all dates. */
  lemma {:induction false} TallyAllDates(records: seq<Value>, column: string, m: nat)
    requires m <= |records|
    requires forall i :: 0 <= i < m ==> Prop(records[i], column).Ok? && CountsAsDate(Prop(records[i], column).value)
    ensures Tally(records, column, m) == Ok((0, m))
    decreases m
  {
    if m > 0 {
      TallyAllDates(records, column, m - 1);
      var v := Prop(records[m - 1], column).value;
      assert Tally(records, column, m) == Ok(Step((0, m - 1), v));
    }
  }

  lemma ClassifyUniform(n: nat)
    ensures Classify(n, 0, n) == Numeric
    ensures n > 0 ==> Classify(0, n, n) == Date
    ensures n > 0 ==> Classify(0, 0, n) == Categorical
  {
  }
}
