/** The two chart editors: the advanced chart selector
    (`AdvancedChartSelector.tsx`), which keeps a chart type, a rendering
    library, filters, custom metrics and interaction switches and turns them
    into a chart configuration, and the configuration panel
    (`ChartConfigPanel.tsx`) with its filter list, type buttons and save
    button. Each handler is a function from the editor's state to the next. */
module Editors {
  import opened Wrappers
  import opened Text
  import opened Values
  import Lists
  import ChartData

  // ---------------------------------------------------------------- chart types

  /** An entry of the selector's type list. */
  datatype ChartType = ChartType(value: string, caption: string, category: string, library: string)

  /** `chartTypes`: basic types draw with either library, the rest require D3
      except the radar chart, which requires Recharts. */
  const ChartTypes: seq<ChartType> := [
    ChartType("line", "Line Chart", "basic", "both"),
    ChartType("bar", "Bar Chart", "basic", "both"),
    ChartType("pie", "Pie Chart", "basic", "both"),
    ChartType("area", "Area Chart", "basic", "both"),
    ChartType("scatter", "Scatter Plot", "basic", "both"),
    ChartType("heatmap", "Heatmap", "advanced", "d3"),
    ChartType("treemap", "Treemap", "advanced", "d3"),
    ChartType("network", "Network Graph", "advanced", "d3"),
    ChartType("sankey", "Sankey Diagram", "advanced", "d3"),
    ChartType("histogram", "Histogram", "statistical", "d3"),
    ChartType("boxplot", "Box Plot", "statistical", "d3"),
    ChartType("bubble", "Bubble Chart", "advanced", "d3"),
    ChartType("waterfall", "Waterfall Chart", "business", "d3"),
    ChartType("radar", "Radar Chart", "specialized", "recharts")
  ]

  function HasValue(v: string): ChartType -> bool {
    (ct: ChartType) => ct.value == v
  }

  function InCategory(category: string): ChartType -> bool {
    (ct: ChartType) => category == "all" || ct.category == category
  }

  /** `filteredChartTypes`, over the type list `table`: every type for
      `'all'`, otherwise the types of the chosen category, in table order. */
  function TypesOf(table: seq<ChartType>, category: string): (r: seq<ChartType>)
    ensures category == "all" ==> r == table
    ensures category != "all" ==> forall ct :: ct in r <==> ct in table && ct.category == category
    ensures Lists.IsSubseq(r, table)
  {
    var r := Lists.Filter(table, InCategory(category));
    assert category == "all" ==> r == table by {
      if category == "all" {
        Lists.FilterAll(table, InCategory(category));
      }
    }
    r
  }

  // ---------------------------------------------------------------- selector state

  /** A filter row as the inputs fill it in; a field is `undefined` when
      there was no column to default to. */
  datatype Filter = Filter(field: Value, operator: Value, value: Value)

  datatype FilterKey = FieldKey | OperatorKey | ValueKey

  datatype Metric = Metric(name: string, formula: string, description: string)

  datatype MetricKey = NameKey | FormulaKey | DescriptionKey

  datatype Interaction = Interaction(kind: string, enabled: bool)

  /** The selector's state hooks. */
  datatype Selector = Selector(selectedType: string, library: string, xAxis: string, yAxis: string,
                               zAxis: string, title: string, aggregation: string, groupBy: seq<string>,
                               filters: seq<Filter>, interactions: seq<Interaction>,
                               metrics: seq<Metric>, category: string)

  /** `columns[k] || ''`. */
  function ColumnOrEmpty(columns: seq<string>, k: nat): (r: string)
    ensures k < |columns| ==> r == columns[k]
    ensures k >= |columns| ==> r == ""
  {
    if k < |columns| then columns[k] else ""
  }

  const InitialInteractions: seq<Interaction> := [
    Interaction("tooltip", true),
    Interaction("zoom", false),
    Interaction("pan", false),
    Interaction("brush", false)
  ]

  /** The state when the selector opens on a data source. */
  function OpenSelector(source: ChartData.DataSource): (st: Selector)
    ensures st.selectedType == "line" && st.library == "recharts" && st.category == "basic"
    ensures st.xAxis == ColumnOrEmpty(source.columns, 0) && st.yAxis == ColumnOrEmpty(source.columns, 1)
    ensures st.title == source.name + " Chart" && st.aggregation == "none"
    ensures st.filters == [] && st.metrics == [] && st.groupBy == [] && st.zAxis == ""
    ensures |st.interactions| == 4 && forall i :: 0 <= i < 4 ==> st.interactions[i].enabled == (i == 0)
  {
    Selector("line", "recharts", ColumnOrEmpty(source.columns, 0), ColumnOrEmpty(source.columns, 1),
             "", source.name + " Chart", "none", [], [], InitialInteractions, [], "basic")
  }

  /** The library a type change leaves selected: the entry's own library
      when it requires one, the current one otherwise. */
  function LibraryAfter(required: string, current: string): string {
    if required == "d3" || required == "recharts" then required else current
  }

  /** `handleTypeChange(type)` over the type list `table`: the type is taken
      as it is; the library follows the first entry with that value. */
  function ChangeType(table: seq<ChartType>, st: Selector, t: string): (r: Selector)
    ensures r == st.(selectedType := t, library := r.library)
    ensures Lists.Find(table, HasValue(t)).None? ==> r.library == st.library
    ensures Lists.Find(table, HasValue(t)).Some? ==>
              r.library == LibraryAfter(Lists.Find(table, HasValue(t)).value.library, st.library)
  {
    match Lists.Find(table, HasValue(t))
    case None => st.(selectedType := t)
    case Some(ct) =>
      if ct.library == "d3" then st.(selectedType := t, library := "d3")
      else if ct.library == "recharts" then st.(selectedType := t, library := "recharts")
      else st.(selectedType := t)
  }

  /** With distinct values, choosing the `i`-th listed type applies that
      entry's library rule. */
  lemma ChangeToListed(table: seq<ChartType>, st: Selector, i: nat)
    requires i < |table|
    requires forall j, k :: 0 <= j < k < |table| ==> table[j].value != table[k].value
    ensures ChangeType(table, st, table[i].value).library == LibraryAfter(table[i].library, st.library)
  {
    FindDistinct(table, i);
  }

  /** The selector's list has distinct values and only the three library
      tags, so `ChangeToListed` applies to it: a D3 type selects D3, the
      radar chart selects Recharts, and a basic type keeps the library. */
  lemma ChartTypesWellFormed()
    ensures forall j, k :: 0 <= j < k < |ChartTypes| ==> ChartTypes[j].value != ChartTypes[k].value
    ensures forall j :: 0 <= j < |ChartTypes| ==>
              (ChartTypes[j].library == "both" <==> ChartTypes[j].category == "basic")
    ensures forall j :: 0 <= j < |ChartTypes| ==>
              (ChartTypes[j].library == "recharts" <==> ChartTypes[j].value == "radar")
    ensures forall j :: 0 <= j < |ChartTypes| ==> ChartTypes[j].library in {"both", "d3", "recharts"}
  {
  }

  lemma FindDistinct(table: seq<ChartType>, i: nat)
    requires i < |table|
    requires forall j, k :: 0 <= j < k < |table| ==> table[j].value != table[k].value
    ensures Lists.Find(table, HasValue(table[i].value)) == Some(table[i])
  {
    Lists.FindFirst(table, HasValue(table[i].value), i);
  }

  // ---------------------------------------------------------------- filters

  /** The selector's `addFilter`: an equality filter on the first column. */
  function AddFilter(filters: seq<Filter>, columns: seq<string>): (r: seq<Filter>)
    ensures |r| == |filters| + 1 && r[..|filters|] == filters
    ensures r[|filters|] == Filter(Str(ColumnOrEmpty(columns, 0)), Str("eq"), Str(""))
  {
    filters + [Filter(Str(ColumnOrEmpty(columns, 0)), Str("eq"), Str(""))]
  }

  /** `removeFilter(index)`: `filters.filter((_, i) => i !== index)`. */
  function RemoveFilter(filters: seq<Filter>, index: int): (r: seq<Filter>)
    ensures 0 <= index < |filters| ==> |r| == |filters| - 1
    ensures 0 <= index < |filters| ==> forall i :: 0 <= i < |r| ==> r[i] == filters[if i < index then i else i + 1]
    ensures !(0 <= index < |filters|) ==> r == filters
  {
    Lists.RemoveAt(filters, index)
  }

  /** Removing the filter just added gives the list back. */
  lemma AddThenRemove(filters: seq<Filter>, columns: seq<string>)
    ensures RemoveFilter(AddFilter(filters, columns), |filters|) == filters
  {
  }

  function SetFilterKey(f: Filter, key: FilterKey, v: Value): Filter {
    match key
    case FieldKey => f.(field := v)
    case OperatorKey => f.(operator := v)
    case ValueKey => f.(value := v)
  }

  function FilterKeyValue(f: Filter, key: FilterKey): Value {
    match key
    case FieldKey => f.field
    case OperatorKey => f.operator
    case ValueKey => f.value
  }

  /** `updateFilter(index, key, v)` on an existing row. */
  function UpdateFilter(filters: seq<Filter>, index: nat, key: FilterKey, v: Value): (r: seq<Filter>)
    requires index < |filters|
    ensures |r| == |filters|
    ensures forall i :: 0 <= i < |r| && i != index ==> r[i] == filters[i]
    ensures FilterKeyValue(r[index], key) == v
    ensures forall k :: k != key ==> FilterKeyValue(r[index], k) == FilterKeyValue(filters[index], k)
  {
    filters[index := SetFilterKey(filters[index], key, v)]
  }

  /** Writing back a row's own value changes nothing. */
  lemma UpdateFilterSame(filters: seq<Filter>, index: nat, key: FilterKey)
    requires index < |filters|
    ensures UpdateFilter(filters, index, key, FilterKeyValue(filters[index], key)) == filters
  {
    var r := UpdateFilter(filters, index, key, FilterKeyValue(filters[index], key));
    assert r[index] == filters[index] by {
      assert FilterKeyValue(r[index], FieldKey) == FilterKeyValue(filters[index], FieldKey);
      assert FilterKeyValue(r[index], OperatorKey) == FilterKeyValue(filters[index], OperatorKey);
      assert FilterKeyValue(r[index], ValueKey) == FilterKeyValue(filters[index], ValueKey);
    }
  }

  // ---------------------------------------------------------------- custom metrics

  /** `addCustomMetric`: the next metric is numbered from one. */
  function AddMetric(metrics: seq<Metric>): (r: seq<Metric>)
    ensures |r| == |metrics| + 1 && r[..|metrics|] == metrics
    ensures r[|metrics|] == Metric("Metric " + NatToString(|metrics| + 1), "", "")
  {
    metrics + [Metric("Metric " + NatToString(|metrics| + 1), "", "")]
  }

  /** The number in a fresh metric's name reads back as the list's new length. */
  lemma AddMetricNumbered(metrics: seq<Metric>)
    ensures var name := AddMetric(metrics)[|metrics|].name;
            name[..7] == "Metric " && ParseNat(name[7..]) == |AddMetric(metrics)|
  {
    var name := AddMetric(metrics)[|metrics|].name;
    assert name[7..] == NatToString(|metrics| + 1);
    ParseNatToString(|metrics| + 1);
  }

  function RemoveMetric(metrics: seq<Metric>, index: int): (r: seq<Metric>)
    ensures 0 <= index < |metrics| ==> |r| == |metrics| - 1
    ensures 0 <= index < |metrics| ==> forall i :: 0 <= i < |r| ==> r[i] == metrics[if i < index then i else i + 1]
    ensures !(0 <= index < |metrics|) ==> r == metrics
  {
    Lists.RemoveAt(metrics, index)
  }

  function MetricKeyValue(m: Metric, key: MetricKey): string {
    match key
    case NameKey => m.name
    case FormulaKey => m.formula
    case DescriptionKey => m.description
  }

  function UpdateMetric(metrics: seq<Metric>, index: nat, key: MetricKey, v: string): (r: seq<Metric>)
    requires index < |metrics|
    ensures |r| == |metrics|
    ensures forall i :: 0 <= i < |r| && i != index ==> r[i] == metrics[i]
    ensures MetricKeyValue(r[index], key) == v
    ensures forall k :: k != key ==> MetricKeyValue(r[index], k) == MetricKeyValue(metrics[index], k)
  {
    var m := metrics[index];
    var m' := match key
      case NameKey => m.(name := v)
      case FormulaKey => m.(formula := v)
      case DescriptionKey => m.(description := v);
    metrics[index := m']
  }

  // ---------------------------------------------------------------- interactions

  /** `toggleInteraction(kind)`: flips `enabled` on the entries of that kind. */
  function Toggle(xs: seq<Interaction>, kind: string): (r: seq<Interaction>)
    ensures |r| == |xs|
    ensures forall i :: 0 <= i < |xs| ==> r[i].kind == xs[i].kind
    ensures forall i :: 0 <= i < |xs| && xs[i].kind != kind ==> r[i] == xs[i]
    ensures forall i :: 0 <= i < |xs| && xs[i].kind == kind ==> r[i].enabled != xs[i].enabled
  {
    seq(|xs|, i requires 0 <= i < |xs| =>
      if xs[i].kind == kind then xs[i].(enabled := !xs[i].enabled) else xs[i])
  }

  lemma ToggleTwice(xs: seq<Interaction>, kind: string)
    ensures Toggle(Toggle(xs, kind), kind) == xs
  {
    var r := Toggle(Toggle(xs, kind), kind);
    assert forall i :: 0 <= i < |xs| ==> r[i] == xs[i];
  }

  /** Switches of different kinds do not interfere. */
  lemma ToggleCommutes(xs: seq<Interaction>, a: string, b: string)
    ensures Toggle(Toggle(xs, a), b) == Toggle(Toggle(xs, b), a)
  {
    var l := Toggle(Toggle(xs, a), b);
    var r := Toggle(Toggle(xs, b), a);
    forall i | 0 <= i < |xs| ensures l[i] == r[i] {
    }
  }

  // ---------------------------------------------------------------- creating

  /** The configuration handed to `onChartCreate`; the id (`Date.now()`) and
      the fixed colour theme are not modelled. */
  datatype Config = Config(kind: string, data: seq<Record>, xAxis: string, yAxis: string,
                           zAxis: Option<string>, title: string, library: string, width: nat, height: nat,
                           aggregation: Option<string>, groupBy: Option<seq<string>>,
                           filters: Option<seq<Filter>>, interactions: seq<Interaction>,
                           metrics: Option<seq<Metric>>)

  function Enabled(x: Interaction): bool {
    x.enabled
  }

  /** `x.length > 0 ? x : undefined`. */
  function NonEmpty<T>(xs: seq<T>): (r: Option<seq<T>>)
    ensures r.None? <==> |xs| == 0
    ensures r.Some? ==> r.value == xs
  {
    if |xs| > 0 then Some(xs) else None
  }

  /** `handleCreate`. */
  function Create(st: Selector, source: ChartData.DataSource): (c: Config)
    ensures c.kind == st.selectedType && c.library == st.library && c.data == source.data
    ensures c.width == 600 && c.height == 400
    ensures c.zAxis.None? <==> st.zAxis == ""
    ensures c.aggregation.None? <==> st.aggregation == "none"
    ensures c.aggregation.Some? ==> c.aggregation.value == st.aggregation
    ensures c.groupBy == NonEmpty(st.groupBy) && c.filters == NonEmpty(st.filters) && c.metrics == NonEmpty(st.metrics)
    ensures forall x :: x in c.interactions <==> x in st.interactions && x.enabled
    ensures Lists.IsSubseq(c.interactions, st.interactions)
  {
    Config(st.selectedType, source.data, st.xAxis, st.yAxis,
           if st.zAxis == "" then None else Some(st.zAxis), st.title, st.library, 600, 400,
           if st.aggregation != "none" then Some(st.aggregation) else None,
           NonEmpty(st.groupBy), NonEmpty(st.filters), Lists.Filter(st.interactions, Enabled),
           NonEmpty(st.metrics))
  }

  /** A freshly opened selector creates a line chart with only the tooltip
      switched on and nothing optional set. */
  lemma CreateFromFresh(source: ChartData.DataSource)
    ensures var c := Create(OpenSelector(source), source);
            c.interactions == [Interaction("tooltip", true)] && c.aggregation.None? && c.filters.None?
            && c.groupBy.None? && c.metrics.None? && c.zAxis.None? && c.kind == "line"
  {
    var xs := InitialInteractions;
    assert xs == [xs[0]] + xs[1..];
    assert Lists.Filter(xs, Enabled) == [xs[0]] + Lists.Filter(xs[1..], Enabled);
    assert xs[1..] == [xs[1]] + xs[2..];
    assert xs[2..] == [xs[2]] + xs[3..];
    assert xs[3..] == [xs[3]] + xs[4..];
  }

  // ---------------------------------------------------------------- configuration panel

  /** The panel's `addFilter`: nothing without a data source; otherwise an
      equality filter on `columns[0]`, which is `undefined` for a source
      without columns. */
  function PanelAddFilter(source: Option<ChartData.DataSource>, filters: seq<Filter>): (r: seq<Filter>)
    ensures source.None? ==> r == filters
    ensures source.Some? ==> |r| == |filters| + 1 && r[..|filters|] == filters
    ensures source.Some? && |source.value.columns| > 0 ==> r[|filters|] == Filter(Str(source.value.columns[0]), Str("eq"), Str(""))
    ensures source.Some? && |source.value.columns| == 0 ==> r[|filters|] == Filter(Undefined, Str("eq"), Str(""))
  {
    match source
    case None => filters
    case Some(s) =>
      var first := if |s.columns| > 0 then Str(s.columns[0]) else Undefined;
      filters + [Filter(first, Str("eq"), Str(""))]
  }

  /** With a source that has columns the panel adds the same row as the
      selector, and removing the last row undoes either. */
  lemma PanelAddAsSelector(s: ChartData.DataSource, filters: seq<Filter>)
    requires |s.columns| > 0
    ensures PanelAddFilter(Some(s), filters) == AddFilter(filters, s.columns)
    ensures RemoveFilter(PanelAddFilter(Some(s), filters), |filters|) == filters
  {
  }

  datatype PanelType = PanelType(value: string, caption: string)

  /** The panel's type buttons; two of them select `line`. */
  const PanelTypes: seq<PanelType> := [
    PanelType("pie", "Kreis"),
    PanelType("area", "Fläche"),
    PanelType("line", "Linie"),
    PanelType("bar", "Balken"),
    PanelType("scatter", "Punkt"),
    PanelType("line", "Kombiniert")
  ]

  /** Whether a type button is highlighted. */
  predicate IsSelected(chartType: string, t: PanelType) {
    chartType == t.value && (t.caption != "Kombiniert" || (t.caption == "Kombiniert" && chartType == "line"))
  }

  /** A button is highlighted exactly when its value is the chart type, so the
      two `line` buttons light up together. */
  lemma SelectedIffValue(chartType: string)
    ensures forall i :: 0 <= i < |PanelTypes| ==> (IsSelected(chartType, PanelTypes[i]) <==> PanelTypes[i].value == chartType)
    ensures chartType == "line" ==> IsSelected(chartType, PanelTypes[2]) && IsSelected(chartType, PanelTypes[5])
  {
  }

  /** The save button is enabled only with a data source and a y axis. */
  predicate CanSave(source: Option<ChartData.DataSource>, yAxis: string) {
    source.Some? && yAxis != ""
  }
}
