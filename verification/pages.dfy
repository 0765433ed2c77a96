/** The list pages and editors of the new frontend: the dataset editor, the
    dataset and dashboard overviews, the dashboard component's chart list
    and layouts, and the upload result view. Toasts, navigation targets and
    the clock are values; the sample tables the pages start from are
    parameters. */
module Pages {
  import opened Wrappers
  import opened Text
  import opened Values
  import Lists
  import ChartData

  // ---------------------------------------------------------------- shared list steps

  /** `xs.filter(x => x.id !== id)`. */
  function WithoutId<T(==,!new)>(xs: seq<T>, idOf: T -> Value, id: Value): (r: seq<T>)
    ensures forall x :: x in r <==> x in xs && !StrictEquals(idOf(x), id)
    ensures Lists.IsSubseq(r, xs)
  {
    Lists.Filter(xs, (x: T) => !StrictEquals(idOf(x), id))
  }

  /** Removing the id of an entry just appended, when no other entry has
      it, gives back the list as it was before. */
  lemma RemoveAfterAppend<T(!new)>(xs: seq<T>, x: T, idOf: T -> Value)
    requires idOf(x) != Num(NaN)
    requires forall y :: y in xs ==> idOf(y) != idOf(x)
    ensures WithoutId(xs + [x], idOf, idOf(x)) == xs
  {
    var keep := (y: T) => !StrictEquals(idOf(y), idOf(x));
    Lists.FilterAppend(xs, [x], keep);
    Lists.FilterAll(xs, keep);
    assert Lists.Filter([x], keep) == [] by {
      assert [x][1..] == [];
    }
  }

  /** `name.toLowerCase().includes(term.toLowerCase())`. */
  predicate Matches(name: string, term: string) {
    Contains(Lower(name), Lower(term))
  }

  /** The search box: the entries whose name contains the term, ignoring
      case, in list order. */
  function SearchBy<T(==,!new)>(xs: seq<T>, nameOf: T -> string, term: string): (r: seq<T>)
    ensures forall x :: x in r <==> x in xs && Matches(nameOf(x), term)
    ensures Lists.IsSubseq(r, xs)
  {
    Lists.Filter(xs, (x: T) => Matches(nameOf(x), term))
  }

  /** An empty search term keeps every entry, and the case of the term
      does not matter. */
  lemma SearchProperties<T(!new)>(xs: seq<T>, nameOf: T -> string, term: string)
    ensures SearchBy(xs, nameOf, "") == xs
    ensures SearchBy(xs, nameOf, Lower(term)) == SearchBy(xs, nameOf, term)
  {
    forall x | x in xs ensures Matches(nameOf(x), "") {
      ContainsEmpty(Lower(nameOf(x)));
    }
    Lists.FilterAll(xs, (x: T) => Matches(nameOf(x), ""));
    LowerIdempotent(term);
    Lists.FilterSame(xs, (x: T) => Matches(nameOf(x), Lower(term)), (x: T) => Matches(nameOf(x), term));
  }

  // ---------------------------------------------------------------- Dashboards page

  /** A dashboard card of the overview. */
  datatype DashboardCard = DashboardCard(id: int, name: string, description: string, chartCount: int)

  function CardId(d: DashboardCard): Value {
    Real(d.id as real)
  }

  function CardName(d: DashboardCard): string {
    d.name
  }

  /** `handleDelete(id)`: exactly the dashboards with another id remain, in
      their order. */
  function DeleteDashboard(ds: seq<DashboardCard>, id: int): (r: seq<DashboardCard>)
    ensures forall d :: d in r <==> d in ds && d.id != id
    ensures Lists.IsSubseq(r, ds)
  {
    WithoutId(ds, CardId, Real(id as real))
  }

  /** The dashboards the search shows. */
  function SearchDashboards(ds: seq<DashboardCard>, term: string): (r: seq<DashboardCard>)
    ensures forall d :: d in r <==> d in ds && Matches(d.name, term)
    ensures Lists.IsSubseq(r, ds)
  {
    SearchBy(ds, CardName, term)
  }

  // ---------------------------------------------------------------- Datasets page

  /** A dataset card; entries fetched from the server keep their values as
      the server sent them. */
  datatype ListedDataset = ListedDataset(id: Value, name: Value, recordCount: Value, fileType: Value,
                                         data: Value, fields: Value)

  /** `null` or `undefined`. */
  predicate Nullish(v: Value) {
    v == Null || v == Undefined
  }

  /** `a ?? b`. */
  function Coalesce(a: Value, b: Value): (r: Value)
    ensures !Nullish(a) ==> r == a
    ensures Nullish(a) ==> r == b
  {
    if Nullish(a) then b else a
  }

  /** `ds.datasetName ?? ds.name ?? "Unbenannt"`: an empty name is kept, only
      a missing one falls through. */
  function DisplayName(ds: Value): (r: Value)
    ensures !Nullish(r)
    ensures var dn := ChartData.FieldOf(ds, "datasetName");
            var n := ChartData.FieldOf(ds, "name");
            && (!Nullish(dn) ==> r == dn)
            && (Nullish(dn) && !Nullish(n) ==> r == n)
            && (Nullish(dn) && Nullish(n) ==> r == Str("Unbenannt"))
  {
    Coalesce(ChartData.FieldOf(ds, "datasetName"), Coalesce(ChartData.FieldOf(ds, "name"), Str("Unbenannt")))
  }

  /** One dataset of the server's listing as a card. */
  function FromServer(ds: Value): ListedDataset {
    ListedDataset(ChartData.FieldOf(ds, "id"), DisplayName(ds), ChartData.FieldOf(ds, "recordCount"),
                  ChartData.FieldOf(ds, "fileType"), ChartData.FieldOf(ds, "data"), ChartData.FieldOf(ds, "fields"))
  }

  /** `if (Array.isArray(json.datasets)) setDatasets(prev => [...prev, ...userDatasets])`:
      the fetched datasets go after the ones already shown, which stay as
      they are; anything but an array changes nothing. */
  function MergeFetched(prev: seq<ListedDataset>, fetched: Value): (r: seq<ListedDataset>)
    ensures !fetched.Arr? ==> r == prev
    ensures fetched.Arr? ==>
              && |r| == |prev| + |fetched.elems|
              && r[..|prev|] == prev
              && forall i :: 0 <= i < |fetched.elems| ==> r[|prev| + i] == FromServer(fetched.elems[i])
    ensures forall d :: d in prev ==> d in r
  {
    match fetched
    case Arr(es) =>
      var r := prev + seq(|es|, i requires 0 <= i < |es| => FromServer(es[i]));
      assert forall d :: d in prev ==> d in r by {
        assert r[..|prev|] == prev;
      }
      r
    case _ => prev
  }

  function DatasetId(d: ListedDataset): Value {
    d.id
  }

  /** `handleDelete(id)`. */
  function DeleteDataset(ds: seq<ListedDataset>, id: Value): (r: seq<ListedDataset>)
    ensures forall d :: d in r <==> d in ds && !StrictEquals(d.id, id)
    ensures Lists.IsSubseq(r, ds)
  {
    WithoutId(ds, DatasetId, id)
  }

  function NameText(d: ListedDataset): string {
    if d.name.Str? then d.name.s else ""
  }

  /** The dataset search; `toLowerCase` on a name that is not a string
      throws, which ends the page's render. */
  function SearchDatasets(ds: seq<ListedDataset>, term: string): (r: Result<seq<ListedDataset>, string>)
    ensures r.Ok? <==> forall d :: d in ds ==> d.name.Str?
    ensures r.Ok? ==> forall d :: d in r.value <==> d in ds && Matches(d.name.s, term)
    ensures r.Ok? ==> Lists.IsSubseq(r.value, ds)
  {
    if forall d :: d in ds ==> d.name.Str? then Ok(SearchBy(ds, NameText, term))
    else Err("TypeError: name.toLowerCase is not a function")
  }

  // ---------------------------------------------------------------- DatasetEdit page

  /** A column of the edited dataset and its declared type. */
  datatype ColumnInfo = ColumnInfo(name: string, kind: string)

  /** The edited dataset; dates are timestamps. */
  datatype EditedDataset = EditedDataset(id: int, name: string, recordCount: int, createdAt: int,
                                         lastModified: int, fileType: string, description: Option<string>,
                                         tags: Option<seq<string>>, columns: Option<seq<ColumnInfo>>)

  /** The fields the form edits, each with its new value. */
  datatype Change =
    | NameChange(name: string)
    | DescriptionChange(text: string)
    | FileTypeChange(fileType: string)
    | TagsChange(tags: seq<string>)
    | ColumnsChange(columns: seq<ColumnInfo>)

  /** The changed field holds the new value. */
  predicate Shows(d: EditedDataset, c: Change) {
    match c
    case NameChange(n) => d.name == n
    case DescriptionChange(t) => d.description == Some(t)
    case FileTypeChange(f) => d.fileType == f
    case TagsChange(ts) => d.tags == Some(ts)
    case ColumnsChange(cs) => d.columns == Some(cs)
  }

  /** `e` with the changed field and the modification date put back as they
      are in `d`. */
  function Restore(e: EditedDataset, d: EditedDataset, c: Change): EditedDataset {
    var e := e.(lastModified := d.lastModified);
    match c
    case NameChange(_) => e.(name := d.name)
    case DescriptionChange(_) => e.(description := d.description)
    case FileTypeChange(_) => e.(fileType := d.fileType)
    case TagsChange(_) => e.(tags := d.tags)
    case ColumnsChange(_) => e.(columns := d.columns)
  }

  /** `handleChange(field, value)`: sets the field and stamps `now` as the
      modification date; without a dataset nothing happens. */
  function HandleChange(ds: Option<EditedDataset>, c: Change, now: int): (r: Option<EditedDataset>)
    ensures r.Some? <==> ds.Some?
    ensures ds.Some? ==>
              && r.value.lastModified == now
              && Shows(r.value, c)
              && Restore(r.value, ds.value, c) == ds.value
  {
    match ds
    case None => None
    case Some(d) =>
      var d := d.(lastModified := now);
      Some(match c
           case NameChange(n) => d.(name := n)
           case DescriptionChange(t) => d.(description := Some(t))
           case FileTypeChange(f) => d.(fileType := f)
           case TagsChange(ts) => d.(tags := Some(ts))
           case ColumnsChange(cs) => d.(columns := Some(cs)))
  }

  /** `tags || []`. */
  function TagsOf(d: EditedDataset): seq<string> {
    if d.tags.Some? then d.tags.value else []
  }

  /** `handleAddTag()`: a tag that is not blank goes, trimmed, to the end of
      the tags and the input is cleared; otherwise dataset and input stay. */
  function AddTag(ds: Option<EditedDataset>, newTag: string, now: int): (r: (Option<EditedDataset>, string))
    ensures Trim(EcmaScript, newTag) != "" && ds.Some? ==>
              && r.1 == ""
              && r.0.Some?
              && r.0.value.tags == Some(TagsOf(ds.value) + [Trim(EcmaScript, newTag)])
              && r.0.value.lastModified == now
              && r.0.value.(tags := ds.value.tags, lastModified := ds.value.lastModified) == ds.value
    ensures !(Trim(EcmaScript, newTag) != "" && ds.Some?) ==> r == (ds, newTag)
  {
    if Trim(EcmaScript, newTag) != "" && ds.Some? then
      (HandleChange(ds, TagsChange(TagsOf(ds.value) + [Trim(EcmaScript, newTag)]), now), "")
    else (ds, newTag)
  }

  /** `t => t !== tag`. */
  function OtherThan(tag: string): string -> bool {
    t => t != tag
  }

  /** `handleRemoveTag(tag)`: every copy of the tag goes, the other tags keep
      their order; without tags nothing happens. */
  function RemoveTag(ds: Option<EditedDataset>, tag: string, now: int): (r: Option<EditedDataset>)
    ensures !(ds.Some? && ds.value.tags.Some?) ==> r == ds
    ensures ds.Some? && ds.value.tags.Some? ==>
              && r.Some? && r.value.tags.Some?
              && (forall t :: t in r.value.tags.value <==> t in ds.value.tags.value && t != tag)
              && Lists.IsSubseq(r.value.tags.value, ds.value.tags.value)
              && r.value.lastModified == now
              && r.value.(tags := ds.value.tags, lastModified := ds.value.lastModified) == ds.value
  {
    if ds.Some? && ds.value.tags.Some? then
      HandleChange(ds, TagsChange(Lists.Filter(ds.value.tags.value, OtherThan(tag))), now)
    else ds
  }

  /** Removing a tag just added, that was not there before, restores the
      tags (an absent tag list comes back empty). */
  lemma RemoveAddedTag(d: EditedDataset, newTag: string, now: int, later: int)
    requires Trim(EcmaScript, newTag) != "" && Trim(EcmaScript, newTag) !in TagsOf(d)
    ensures var added := AddTag(Some(d), newTag, now).0;
            var removed := RemoveTag(added, Trim(EcmaScript, newTag), later);
            removed.Some? && removed.value.tags == Some(TagsOf(d))
  {
    var t := Trim(EcmaScript, newTag);
    var added := AddTag(Some(d), newTag, now).0;
    assert added.Some? && added.value.tags == Some(TagsOf(d) + [t]);
    var removed := RemoveTag(added, t, later);
    assert removed == HandleChange(added, TagsChange(Lists.Filter(TagsOf(d) + [t], OtherThan(t))), later);
    DropAppended(TagsOf(d), t);
  }

  /** Filtering out a tag just appended, that was not there before, gives
      back the tags before. */
  lemma DropAppended(tags: seq<string>, t: string)
    requires t !in tags
    ensures Lists.Filter(tags + [t], OtherThan(t)) == tags
  {
    var keep := OtherThan(t);
    Lists.FilterAppend(tags, [t], keep);
    Lists.FilterAll(tags, keep);
    assert Lists.Filter([t], keep) == [] by {
      assert [t][1..] == [];
    }
  }

  /** The type selector of column `index`: only that column's type changes,
      when the dataset has columns. */
  function SetColumnType(d: EditedDataset, index: nat, kind: string, now: int): (r: EditedDataset)
    requires d.columns.Some? ==> index < |d.columns.value|
    ensures d.columns.None? ==> r == d
    ensures d.columns.Some? ==>
              var before := d.columns.value;
              && r.columns.Some?
              && |r.columns.value| == |before|
              && r.columns.value[index] == ColumnInfo(before[index].name, kind)
              && (forall i :: 0 <= i < |before| && i != index ==> r.columns.value[i] == before[i])
              && r.lastModified == now
              && r.(columns := d.columns, lastModified := d.lastModified) == d
  {
    match d.columns
    case None => d
    case Some(cs) =>
      var updated := cs[index := cs[index].(kind := kind)];
      HandleChange(Some(d), ColumnsChange(updated), now).value
  }

  /** `parseInt(id || "0")`: a missing or empty route parameter reads as 0;
      `None` is NaN. */
  function RouteId(id: Option<string>): Option<int> {
    ParseIntText(if id.Some? && id.value != "" then id.value else "0")
  }

  /** `sampleDatasets.find(ds => ds.id === datasetId)`. */
  function FindEdited(table: seq<EditedDataset>, id: Option<string>): (r: Option<EditedDataset>)
    ensures RouteId(id).None? ==> r.None?
    ensures r.Some? ==> r.value in table && RouteId(id) == Some(r.value.id)
    ensures RouteId(id).Some? && r.None? ==> forall d :: d in table ==> d.id != RouteId(id).value
  {
    var wanted := RouteId(id);
    Lists.Find(table, (d: EditedDataset) => wanted == Some(d.id))
  }

  /** The route `/datasets/<n>/edit` finds the first dataset with id n; a
      missing route parameter looks for id 0. */
  lemma FindByRoute(table: seq<EditedDataset>, n: nat)
    ensures var r := FindEdited(table, Some(NatToString(n)));
            (r.Some? ==> r.value.id == n) && (r.None? ==> forall d :: d in table ==> d.id != n)
    ensures RouteId(None) == Some(0)
  {
    ParseIntOfNumeral(n);
    ParseIntOfNumeral(0);
    assert NatToString(n) != "";
    assert NatToString(0) == "0";
  }

  // ---------------------------------------------------------------- Dashboard component

  function ChartId(c: Record): Value {
    Get(c, "id")
  }

  /** `handleChartCreate(config)`: the new chart goes last, the others stay. */
  function AddChart(charts: seq<Record>, config: Record): (r: seq<Record>)
    ensures |r| == |charts| + 1 && r[..|charts|] == charts && r[|charts|] == config
  {
    charts + [config]
  }

  /** `handleChartRemove(id)`. */
  function RemoveChart(charts: seq<Record>, id: Value): (r: seq<Record>)
    ensures forall c :: c in r <==> c in charts && !StrictEquals(Get(c, "id"), id)
    ensures Lists.IsSubseq(r, charts)
  {
    WithoutId(charts, ChartId, id)
  }

  /** Removing a chart just created under a fresh id restores the list. */
  lemma RemoveCreatedChart(charts: seq<Record>, config: Record)
    requires Get(config, "id") != Num(NaN)
    requires forall c :: c in charts ==> Get(c, "id") != Get(config, "id")
    ensures RemoveChart(AddChart(charts, config), Get(config, "id")) == charts
  {
    RemoveAfterAppend(charts, config, ChartId);
  }

  /** `Math.min(charts.length, 4)`. */
  function Shown(n: nat): nat {
    if n < 4 then n else 4
  }

  /** The tab triggers: the first four charts at most. */
  function TabTriggers(charts: seq<Record>): (r: seq<Record>)
    ensures |r| <= 4 && |r| <= |charts| && r == charts[..|r|]
    ensures |charts| >= 4 ==> |r| == 4
  {
    charts[..Shown(|charts|)]
  }

  /** The dashboard layout: `charts.slice(0, 4)` in the summary row and
      `charts.slice(4)` in the main grid. */
  function SummaryRow(charts: seq<Record>): seq<Record> {
    charts[..Shown(|charts|)]
  }

  function MainGrid(charts: seq<Record>): seq<Record> {
    charts[Shown(|charts|)..]
  }

  /** Summary row and main grid split the charts: together they are the
      charts in order, the summary has at most four, and the main grid is
      empty unless the summary is full. */
  lemma LayoutPartition(charts: seq<Record>)
    ensures SummaryRow(charts) + MainGrid(charts) == charts
    ensures |SummaryRow(charts)| <= 4
    ensures |MainGrid(charts)| > 0 ==> |SummaryRow(charts)| == 4
    ensures SummaryRow(charts) == TabTriggers(charts)
  {
  }

  // ---------------------------------------------------------------- upload result view

  /** What the upload passes along: the rows and the field names. */
  datatype Processed = Processed(data: seq<Value>, fields: seq<string>)

  datatype Axes = Axes(x: string, y: string)

  /** `typeof data[0][field] === 'number'` when there is a first row. */
  predicate NumericInFirst(data: seq<Value>, field: string) {
    |data| > 0 && IsNumber(ChartData.FieldOf(data[0], field))
  }

  /** The axes the view starts with: none without fields; otherwise x is
      the first field and y is `numericField || fields[1] || fields[0]`. */
  function InitialAxes(p: Processed): (r: Axes)
    ensures |p.fields| == 0 ==> r == Axes("", "")
    ensures |p.fields| > 0 ==> r.x == p.fields[0] && r.y in p.fields
    ensures |p.fields| > 0 ==>
              forall i :: (0 <= i < |p.fields| && NumericInFirst(p.data, p.fields[i]) && p.fields[i] != "" &&
                           forall j :: 0 <= j < i ==> !NumericInFirst(p.data, p.fields[j])) ==> r.y == p.fields[i]
    ensures |p.fields| > 0 && (forall f :: f in p.fields ==> !NumericInFirst(p.data, f)) ==>
              r.y == ChartData.SecondOrFirst(p.fields)
    ensures |p.fields| > 1 && p.fields[1] != "" && (forall f :: f in p.fields ==> !NumericInFirst(p.data, f)) ==>
              r.y == p.fields[1]
  {
    if |p.fields| == 0 then Axes("", "")
    else
      var numeric := (f: string) => NumericInFirst(p.data, f);
      var y := ChartData.FindOr(p.fields, numeric, ChartData.SecondOrFirst(p.fields));
      assert forall i :: (0 <= i < |p.fields| && NumericInFirst(p.data, p.fields[i]) && p.fields[i] != "" &&
                          forall j :: 0 <= j < i ==> !NumericInFirst(p.data, p.fields[j])) ==> y == p.fields[i] by {
        forall i | 0 <= i < |p.fields| && NumericInFirst(p.data, p.fields[i]) && p.fields[i] != "" &&
                   (forall j :: 0 <= j < i ==> !NumericInFirst(p.data, p.fields[j]))
          ensures y == p.fields[i]
        {
          assert ChartData.FirstPass(p.fields, numeric, i);
        }
      }
      Axes(p.fields[0], y)
  }

  /** A point of the plotted series. */
  datatype Point = Point(name: string, value: Value)

  /** `{name: item[x]?.toString() || '', value: typeof item[y] === 'number' ? item[y] : 0}`. */
  function PointOf(item: Value, x: string, y: string): (p: Point)
    ensures Nullish(ChartData.FieldOf(item, x)) ==> p.name == ""
    ensures !Nullish(ChartData.FieldOf(item, x)) ==> p.name == ToString(ChartData.FieldOf(item, x))
    ensures p.value.Num?
    ensures IsNumber(ChartData.FieldOf(item, y)) ==> p.value == ChartData.FieldOf(item, y)
    ensures !IsNumber(ChartData.FieldOf(item, y)) ==> p.value == Real(0.0)
  {
    var xv := ChartData.FieldOf(item, x);
    var yv := ChartData.FieldOf(item, y);
    Point(if Nullish(xv) then "" else ToString(xv), if IsNumber(yv) then yv else Real(0.0))
  }

  /** The series effect: it runs only with data and both axes chosen, and
      then gives one point per row, in row order. */
  function Series(p: Option<Processed>, axes: Axes, previous: seq<Point>): (r: seq<Point>)
    ensures !(p.Some? && axes.x != "" && axes.y != "") ==> r == previous
    ensures p.Some? && axes.x != "" && axes.y != "" ==>
              |r| == |p.value.data| && forall i :: 0 <= i < |r| ==> r[i] == PointOf(p.value.data[i], axes.x, axes.y)
  {
    if p.Some? && axes.x != "" && axes.y != "" then
      seq(|p.value.data|, i requires 0 <= i < |p.value.data| => PointOf(p.value.data[i], axes.x, axes.y))
    else previous
  }

  /** What the view shows. */
  datatype Screen = GoToUpload | Placeholder | BarPlot(points: seq<Point>) | LinePlot(points: seq<Point>)
                  | PiePlot(points: seq<Point>)

  /** Without processed data the view sends the user to `/upload`; with no
      points it shows the placeholder; otherwise the chosen plot. */
  function ViewOf(p: Option<Processed>, chartType: string, points: seq<Point>): (s: Screen)
    requires chartType in ["bar", "line", "pie"]
    ensures p.None? <==> s == GoToUpload
    ensures p.Some? && |points| == 0 <==> s == Placeholder
    ensures s.BarPlot? || s.LinePlot? || s.PiePlot? ==> s.points == points && |points| > 0
  {
    if p.None? then GoToUpload
    else if |points| == 0 then Placeholder
    else if chartType == "bar" then BarPlot(points)
    else if chartType == "line" then LinePlot(points)
    else PiePlot(points)
  }

  /** Once both axes are set, the placeholder shows exactly when the data
      have no rows. */
  lemma PlaceholderIffNoRows(p: Processed, axes: Axes, previous: seq<Point>, chartType: string)
    requires chartType in ["bar", "line", "pie"]
    requires axes.x != "" && axes.y != ""
    ensures ViewOf(Some(p), chartType, Series(Some(p), axes, previous)) == Placeholder <==> |p.data| == 0
  {
  }

  /** A source with rows and fields is plotted right away: the first axes
      are non-empty when the first field is, and the series has a point for
      every row. */
  lemma UploadedDataIsPlotted(p: Processed, chartType: string)
    requires chartType in ["bar", "line", "pie"]
    requires |p.fields| > 0 && p.fields[0] != "" && |p.data| > 0
    ensures var axes := InitialAxes(p);
            var points := Series(Some(p), axes, []);
            |points| == |p.data| && ViewOf(Some(p), chartType, points) != Placeholder
  {
    var axes := InitialAxes(p);
    assert axes.y != "";
  }
}
