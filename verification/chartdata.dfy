/** The chart-data pipelines of the new front end: the visualization builder
    (filter, then aggregate, then sample) and the chart page (filter, then
    sample), plus the axis choices both pages make for a data source. */
module ChartData {
  import opened Wrappers
  import opened Text
  import opened Values
  import Lists
  import Aggregate

  // ---------------------------------------------------------------- filters

  /** One row of the filter editor; the value is the text typed in. */
  datatype ChartFilter = ChartFilter(field: string, operator: string, value: string)

  /** One filter on one data point: strict (in)equality with the text,
      numeric comparison after `Number()`, a case-insensitive substring test,
      and any other operator lets the point through. */
  predicate Passes(item: Record, f: ChartFilter) {
    var v := Get(item, f.field);
    if f.operator == "eq" then v == Str(f.value)
    else if f.operator == "ne" then v != Str(f.value)
    else if f.operator == "gt" then Less(TextNumber(f.value), ToNumber(v))
    else if f.operator == "lt" then Less(ToNumber(v), TextNumber(f.value))
    else if f.operator == "contains" then Contains(Lower(ToString(v)), Lower(f.value))
    else true
  }

  /** `filters.every(...)`. */
  predicate PassesAll(item: Record, filters: seq<ChartFilter>) {
    forall i :: 0 <= i < |filters| ==> Passes(item, filters[i])
  }

  function Matcher(filters: seq<ChartFilter>): Record -> bool {
    (item: Record) => PassesAll(item, filters)
  }

  /** The filter step both pages share: kept rows pass every filter, in
      input order. */
  function ApplyFilters(data: seq<Record>, filters: seq<ChartFilter>): (r: seq<Record>)
    ensures forall x :: x in r <==> x in data && PassesAll(x, filters)
    ensures Lists.IsSubseq(r, data)
  {
    if |filters| > 0 then Lists.Filter(data, Matcher(filters))
    else
      Lists.SubseqRefl(data);
      data
  }

  /** Filters are conjunctive: a longer list filters what the shorter one
      left. */
  lemma FiltersCompose(data: seq<Record>, fs: seq<ChartFilter>, gs: seq<ChartFilter>)
    ensures ApplyFilters(data, fs + gs) == ApplyFilters(ApplyFilters(data, fs), gs)
  {
    if |fs| == 0 {
      assert fs + gs == gs;
    } else if |gs| > 0 {
      forall x ensures Matcher(fs + gs)(x) == (Matcher(fs)(x) && Matcher(gs)(x)) {
        assert forall i :: 0 <= i < |fs| ==> (fs + gs)[i] == fs[i];
        assert forall i :: 0 <= i < |gs| ==> (fs + gs)[|fs| + i] == gs[i];
      }
      Lists.FilterFilter(data, Matcher(fs), Matcher(gs), Matcher(fs + gs));
    } else {
      assert fs + gs == fs;
    }
  }

  /** `eq` and `ne` with the same text split the points between them. */
  lemma EqualityFiltersComplement(item: Record, field: string, text: string)
    ensures Passes(item, ChartFilter(field, "eq", text)) <==> !Passes(item, ChartFilter(field, "ne", text))
  {
  }

  /** An empty `contains` text matches every point. */
  lemma EmptyContainsMatches(item: Record, field: string)
    ensures Passes(item, ChartFilter(field, "contains", ""))
  {
    assert Lower("") == "";
    ContainsEmpty(Lower(ToString(Get(item, field))));
  }

  // ---------------------------------------------------------------- aggregation

  /** `item[yField]` of one grouped entry. */
  function FieldOf(item: Value, y: string): Value {
    if item.Obj? then Get(item.fields, y) else Undefined
  }

  /** `items.map(item => parse(item[yField]))`; the pages parse with
      `parseFloat`. */
  function YNumbers(items: seq<Value>, y: string, parse: Value -> Number): (ns: seq<Number>)
    ensures |ns| == |items|
    ensures forall i :: 0 <= i < |items| ==> ns[i] == parse(FieldOf(items[i], y))
  {
    seq(|items|, i requires 0 <= i < |items| => parse(FieldOf(items[i], y)))
  }

  /** `.filter(v => !isNaN(v))` on the results of `parseFloat`, which are
      finite or NaN. */
  function Finites(ns: seq<Number>): (xs: seq<real>)
    ensures |xs| <= |ns|
    decreases |ns|
  {
    if |ns| == 0 then []
    else (if ns[0].Finite? then [ns[0].r] else []) + Finites(ns[1..])
  }

  /** Every number is kept exactly when every number is finite, and the
      kept ones are the finite ones. */
  lemma {:induction false} FinitesCount(ns: seq<Number>)
    ensures |Finites(ns)| == |ns| <==> forall i :: 0 <= i < |ns| ==> ns[i].Finite?
    ensures forall v :: v in Finites(ns) <==> Finite(v) in ns
    decreases |ns|
  {
    if |ns| > 0 {
      FinitesCount(ns[1..]);
      assert forall i :: 1 <= i < |ns| ==> ns[1..][i - 1] == ns[i];
      assert ns == [ns[0]] + ns[1..];
    }
  }

  /** The y values of a group that `parse` reads as numbers. */
  function ParsedValues(items: seq<Value>, y: string, parse: Value -> Number): seq<real> {
    Finites(YNumbers(items, y, parse))
  }

  /** The aggregate of one group. An empty list gives the values JavaScript
      arithmetic gives: 0/0 is NaN, `Math.min()` is +Infinity, `Math.max()`
      is -Infinity; an unknown type takes the first value, or 0. */
  function AggValue(ys: seq<real>, kind: string): (r: Number)
    ensures kind == "count" ==> r == Finite(|ys| as real)
    ensures |ys| == 0 && kind == "avg" ==> r.NaN?
    ensures |ys| == 0 && kind == "min" ==> r == Infinity(false)
    ensures |ys| == 0 && kind == "max" ==> r == Infinity(true)
    ensures |ys| > 0 && kind == "avg" ==> r.Finite? && Aggregate.Minimum(ys) <= r.r <= Aggregate.Maximum(ys)
    ensures |ys| > 0 && kind == "min" ==> r.Finite? && r.r in ys && forall v :: v in ys ==> r.r <= v
    ensures |ys| > 0 && kind == "max" ==> r.Finite? && r.r in ys && forall v :: v in ys ==> v <= r.r
    ensures kind !in {"sum", "avg", "count", "min", "max"} ==> r == Finite(if |ys| == 0 then 0.0 else ys[0])
  {
    if kind == "sum" then Finite(Aggregate.Sum(ys))
    else if kind == "avg" then
      if |ys| == 0 then NaN
      else
        Aggregate.AverageBounds(ys);
        Finite(Aggregate.Sum(ys) / |ys| as real)
    else if kind == "count" then Finite(|ys| as real)
    else if kind == "min" then
      if |ys| == 0 then Infinity(false) else Finite(Aggregate.Minimum(ys))
    else if kind == "max" then
      if |ys| == 0 then Infinity(true) else Finite(Aggregate.Maximum(ys))
    else Finite(if |ys| == 0 then 0.0 else ys[0])
  }

  /** The builder's aggregates agree with the data processor's on any
      non-empty list: the sum is the sum of the values, the average their
      sum over their count, and the least and greatest values match. */
  lemma AggValueAgrees(ys: seq<real>)
    requires |ys| > 0
    ensures AggValue(ys, "sum") == Finite(Aggregate.CalculateAggregate(ys, "sum")) == Finite(Aggregate.Sum(ys))
    ensures AggValue(ys, "avg") == Finite(Aggregate.CalculateAggregate(ys, "average"))
    ensures AggValue(ys, "avg") == Finite(Aggregate.Sum(ys) / |ys| as real)
    ensures AggValue(ys, "min") == Finite(Aggregate.CalculateAggregate(ys, "min"))
    ensures AggValue(ys, "max") == Finite(Aggregate.CalculateAggregate(ys, "max"))
  {
    Aggregate.SumAggregate(ys);
    Aggregate.AverageIsMean(ys);
  }

  /** The output row for one group: the group's first point, with the x
      field replaced by the group key and the y field by the aggregate.
      Spreading an object copies its own properties in `Object.keys` order,
      which changes neither `Object.keys` nor any read, so the copy is the
      record itself. */
  function AggregateRow(groups: Record, key: string, x: string, y: string, kind: string): Record {
    var items := Aggregate.ItemsOf(Get(groups, key));
    var first := if |items| > 0 && items[0].Obj? then items[0].fields else [];
    Put(Put(first, x, Str(key)), y, Num(AggValue(ParsedValues(items, y, ParseFloat), kind)))
  }

  /** `applyAggregation`: the identity for `'none'` or an empty axis,
      otherwise one row per entry of the grouping object; the reduce over a
      fresh `{}` throws the grouping's TypeError when an x value names an
      inherited property. */
  function ApplyAggregation(data: seq<Record>, x: string, y: string, kind: string): (r: Result<seq<Record>, string>)
    ensures kind == "none" || x == "" || y == "" ==> r == Ok(data)
    ensures r.Err? <==> !(kind == "none" || x == "" || y == "") && Aggregate.MeetsInherited(data, Aggregate.FieldKey(x))
    ensures r.Ok? && !(kind == "none" || x == "" || y == "") ==> |r.value| == |RowKeys(data, x)|
  {
    if kind == "none" || x == "" || y == "" then Ok(data)
    else
      match Aggregate.GroupData(data, x)
      case Err(e) => Err(e)
      case Ok(groups) =>
        var keys := OwnKeys(groups);
        Ok(seq(|keys|, i requires 0 <= i < |keys| => AggregateRow(groups, keys[i], x, y, kind)))
  }

  /** The keys of the output rows, in order. */
  function RowKeys(data: seq<Record>, x: string): seq<string> {
    OwnKeys(Aggregate.Groups(data, x))
  }

  /** One row per distinct x value: the row keys are pairwise distinct and
      are exactly the x values of the points. */
  lemma OneRowPerKey(data: seq<Record>, x: string)
    ensures Lists.NoDups(RowKeys(data, x))
    ensures forall k :: k in RowKeys(data, x) <==> k in Lists.KeysOf(data, Aggregate.FieldKey(x))
  {
    var groups := Aggregate.GroupBy(data, Aggregate.FieldKey(x));
    OwnKeysOrder(groups);
    OwnKeysMembers(groups);
    Lists.NoDupsPermutation(OwnKeys(groups), RawKeys(groups));
  }

  /** The group behind a row key is the non-empty list of the points with
      that x value. */
  lemma GroupOfRowKey(data: seq<Record>, x: string, key: string)
    requires key in RowKeys(data, x)
    ensures var members := Aggregate.Members(data, Aggregate.FieldKey(x), key);
            && Get(Aggregate.GroupBy(data, Aggregate.FieldKey(x)), key) == Arr(members)
            && |members| > 0
  {
    var f := Aggregate.FieldKey(x);
    var groups := Aggregate.GroupBy(data, f);
    OwnKeysMembers(groups);
    assert key in RawKeys(groups);
    Aggregate.GroupByGet(data, f);
    assert key in Lists.KeysOf(data, f);
    var j :| 0 <= j < |data| && f(data[j]) == key;
    MemberOfKey(data, f, key, j);
  }

  /** A point filed under `key` makes the group of `key` non-empty. */
  lemma MemberOfKey(data: seq<Record>, f: Record -> string, key: string, j: nat)
    requires j < |data| && f(data[j]) == key
    ensures |Aggregate.Members(data, f, key)| > 0
  {
    var objects := Aggregate.Objects(data);
    assert Aggregate.HasKey(f, key)(objects[j]);
    assert objects[j] in objects;
    assert objects[j] in Aggregate.Members(data, f, key);
  }

  /** Each output row carries its key under x, the aggregate of its group
      under y, and the first member's value under every other field. */
  lemma AggregatedRow(data: seq<Record>, x: string, y: string, kind: string, i: nat)
    requires ApplyAggregation(data, x, y, kind).Ok? && !(kind == "none" || x == "" || y == "")
    requires i < |RowKeys(data, x)|
    ensures var key := RowKeys(data, x)[i];
            var members := Aggregate.Members(data, Aggregate.FieldKey(x), key);
            var row := ApplyAggregation(data, x, y, kind).value[i];
            && |members| > 0
            && Get(row, y) == Num(AggValue(ParsedValues(members, y, ParseFloat), kind))
            && (x != y ==> Get(row, x) == Str(key))
            && forall k :: k != x && k != y ==> Get(row, k) == Get(members[0].fields, k)
  {
    var key := RowKeys(data, x)[i];
    GroupOfRowKey(data, x, key);
    var members := Aggregate.Members(data, Aggregate.FieldKey(x), key);
    RowFields(members[0].fields, key, x, y, Num(AggValue(ParsedValues(members, y, ParseFloat), kind)));
  }

  /** Writing the key under x and then the aggregate under y. */
  lemma RowFields(first: Record, key: string, x: string, y: string, v: Value)
    ensures var row := Put(Put(first, x, Str(key)), y, v);
            && Get(row, y) == v
            && (x != y ==> Get(row, x) == Str(key))
            && forall k :: k != x && k != y ==> Get(row, k) == Get(first, k)
  {
  }

  /** `'count'` counts the parseable y values of a group, not its points:
      it equals the size of the group exactly when every y value parses. */
  lemma CountAllParsed(items: seq<Value>, y: string, parse: Value -> Number)
    ensures AggValue(ParsedValues(items, y, parse), "count") == Finite(|items| as real)
            <==> forall i :: 0 <= i < |items| ==> parse(FieldOf(items[i], y)).Finite?
  {
    FinitesCount(YNumbers(items, y, parse));
  }

  // ---------------------------------------------------------------- sampling

  /** `xs.filter((_, i) => i % n === 0)`. A step of 0 makes the remainder
      NaN, so nothing passes. */
  function EveryNth<T>(xs: seq<T>, n: nat): (r: seq<T>)
    ensures |r| <= |xs|
    decreases |xs|
  {
    if |xs| == 0 || n == 0 then []
    else
      var m := |xs| - 1;
      EveryNth(xs[..m], n) + (if m % n == 0 then [xs[m]] else [])
  }

  /** Multiples of a positive number are ordered like their factors. */
  lemma MulAtLeast(x: int, n: int)
    requires n > 0
    ensures x >= 1 ==> x * n >= n
  {
    if x >= 1 {
      assert x * n == (x - 1) * n + n;
      assert (x - 1) * n >= 0;
    }
  }

  lemma MulCancel(a: int, b: int, n: int)
    requires n > 0 && a * n <= b * n < a * n + n
    ensures a == b
  {
    assert (b - a) * n == b * n - a * n;
    assert (a - b) * n == a * n - b * n;
    MulAtLeast(b - a, n);
    MulAtLeast(a - b, n);
  }

  lemma MulLe(a: int, b: int, n: int)
    requires n > 0 && a * n <= b * n
    ensures a <= b
  {
    assert (a - b) * n == a * n - b * n;
    MulAtLeast(a - b, n);
  }

  /** A multiple of n leaves no remainder. */
  lemma MultipleMod(k: int, n: int)
    requires n > 0
    ensures (k * n) % n == 0
  {
    var q, r := (k * n) / n, (k * n) % n;
    assert k * n == q * n + r;
    MulCancel(q, k, n);
  }

  /** Keeping every n-th index stops at the first multiple of n past the
      end: the count is the ceiling of |xs| / n, stated without division. */
  lemma {:induction false} EveryNthCount<T>(xs: seq<T>, n: nat)
    requires n > 0
    ensures var c := |EveryNth(xs, n)|; (c > 0 ==> (c - 1) * n < |xs|) && |xs| <= c * n
    decreases |xs|
  {
    if |xs| > 0 {
      var m := |xs| - 1;
      var c := |EveryNth(xs[..m], n)|;
      EveryNthCount(xs[..m], n);
      if m % n == 0 {
        LastMultiple(m, n, c);
      } else if c * n == m {
        MultipleMod(c, n);
      }
    }
  }

  /** When m is a multiple of n, the only c with (c - 1) * n < m <= c * n is
      m / n. */
  lemma LastMultiple(m: nat, n: nat, c: nat)
    requires n > 0 && m % n == 0 && (c > 0 ==> (c - 1) * n < m) && m <= c * n
    ensures c * n == m
  {
    var q := m / n;
    assert m == q * n;
    if c > 0 {
      assert (c - 1) * n == c * n - n;
      MulCancel(q, c, n);
    }
  }

  /** Keeping every n-th index picks `xs[0], xs[n], xs[2n], ...`. */
  lemma {:induction false} EveryNthStrided<T>(xs: seq<T>, n: nat)
    requires n > 0
    ensures forall j :: 0 <= j < |EveryNth(xs, n)| ==> j * n < |xs| && EveryNth(xs, n)[j] == xs[j * n]
    decreases |xs|
  {
    if |xs| > 0 {
      var m := |xs| - 1;
      var prev := EveryNth(xs[..m], n);
      EveryNthStrided(xs[..m], n);
      var r := EveryNth(xs, n);
      if m % n == 0 {
        EveryNthCount(xs[..m], n);
        LastMultiple(m, n, |prev|);
        assert r == prev + [xs[m]];
      } else {
        assert r == prev;
      }
      forall j | 0 <= j < |r| ensures j * n < |xs| && r[j] == xs[j * n] {
        if j < |prev| {
          assert r[j] == prev[j] == xs[..m][j * n];
        } else {
          assert j == |prev| && j * n == m;
        }
      }
    }
  }

  /** Every n-th point keeps the input order. */
  lemma {:induction false} EveryNthSubseq<T>(xs: seq<T>, n: nat)
    ensures Lists.IsSubseq(EveryNth(xs, n), xs)
    decreases |xs|
  {
    if |xs| > 0 && n > 0 {
      var m := |xs| - 1;
      var prev := EveryNth(xs[..m], n);
      EveryNthSubseq(xs[..m], n);
      assert xs == xs[..m] + [xs[m]];
      if m % n == 0 {
        Lists.SubseqAppend(prev, xs[..m], xs[m]);
      } else {
        Lists.SubseqExtend(prev, xs[..m], xs[m]);
        assert EveryNth(xs, n) == prev;
      }
    } else if |xs| > 0 {
      assert EveryNth(xs, n) == [];
      Lists.SubseqRefl(xs);
      Lists.SubseqPrefix(xs, xs, 0);
      assert xs[..0] == [];
    } else {
      Lists.SubseqRefl(xs);
    }
  }

  /** Taking every floor(len / size)-th index leaves at least `size`
      elements. */
  lemma StepCoversSize<T>(xs: seq<T>, size: nat)
    requires 0 < size < |xs|
    ensures |xs| / size > 0 && |EveryNth(xs, |xs| / size)| >= size
  {
    var step := |xs| / size;
    assert |xs| == step * size + |xs| % size;
    EveryNthCount(xs, step);
    MulLe(size, |EveryNth(xs, step)|, step);
  }

  /** The builder's `'sample'`: everything when it fits, otherwise the
      indices that are multiples of floor(len / size), cut to `size`. With a
      size of 0 the step is Infinity, only index 0 passes the filter, and the
      cut to 0 leaves nothing. */
  function Sample<T>(xs: seq<T>, size: nat): (r: seq<T>)
    ensures |xs| <= size ==> r == xs
    ensures |xs| > size ==> |r| == size
  {
    if |xs| <= size then xs
    else if size == 0 then []
    else
      var step := |xs| / size;
      StepCoversSize(xs, size);
      EveryNth(xs, step)[..size]
  }

  /** A sample is a subsequence of evenly spaced points. */
  lemma SampleSpaced<T>(xs: seq<T>, size: nat)
    requires size > 0 && |xs| > size
    ensures Lists.IsSubseq(Sample(xs, size), xs)
    ensures forall j :: 0 <= j < size ==> j * (|xs| / size) < |xs| && Sample(xs, size)[j] == xs[j * (|xs| / size)]
  {
    var step := |xs| / size;
    StepCoversSize(xs, size);
    EveryNthStrided(xs, step);
    EveryNthSubseq(xs, step);
    Lists.SubseqPrefix(EveryNth(xs, step), xs, size);
  }

  /** The builder's `getProcessedData`: nothing for no data; otherwise
      filters, then the aggregation (when it is not `'none'` and both axes
      are set), then the data handling. */
  function BuilderData(data: seq<Record>, filters: seq<ChartFilter>, aggregation: string,
                       x: string, y: string, handling: string, sampleSize: nat, nth: nat): (r: Result<seq<Record>, string>)
    ensures |data| == 0 ==> r == Ok([])
    ensures r.Err? <==> |data| > 0 && aggregation != "none" && x != "" && y != ""
                        && Aggregate.MeetsInherited(ApplyFilters(data, filters), Aggregate.FieldKey(x))
    ensures r.Ok? && |data| > 0 && handling == "sample" ==> |r.value| <= sampleSize
    ensures |data| > 0 && handling !in {"sample", "every-nth"} && (aggregation == "none" || x == "" || y == "") ==>
              r == Ok(ApplyFilters(data, filters))
  {
    if |data| == 0 then Ok([])
    else
      var filtered := ApplyFilters(data, filters);
      var aggregated :=
        if aggregation != "none" && x != "" && y != "" then ApplyAggregation(filtered, x, y, aggregation)
        else Ok(filtered);
      match aggregated
      case Err(e) => Err(e)
      case Ok(rows) =>
        if handling == "sample" then Ok(Sample(rows, sampleSize))
        else if handling == "every-nth" then Ok(EveryNth(rows, nth))
        else Ok(rows)
  }

  /** Without aggregation the builder only ever drops rows: the result is
      a subsequence of the input and every row passes every filter. */
  lemma BuilderWithoutAggregation(data: seq<Record>, filters: seq<ChartFilter>, x: string, y: string,
                                  handling: string, sampleSize: nat, nth: nat)
    ensures var r := BuilderData(data, filters, "none", x, y, handling, sampleSize, nth);
            && r.Ok?
            && Lists.IsSubseq(r.value, data)
            && forall row :: row in r.value ==> PassesAll(row, filters)
  {
    var r := BuilderData(data, filters, "none", x, y, handling, sampleSize, nth).value;
    if |data| > 0 {
      var f := ApplyFilters(data, filters);
      if handling == "sample" && |f| > sampleSize && sampleSize > 0 {
        SampleSpaced(f, sampleSize);
      } else if handling == "every-nth" {
        EveryNthSubseq(f, nth);
      } else if handling != "sample" || |f| <= sampleSize {
        Lists.SubseqRefl(f);
      }
      assert Lists.IsSubseq(r, f);
      Lists.SubseqTrans(r, f, data);
      Lists.SubseqElements(r, f);
    }
  }

  /** The chart page's `getProcessedData`: nothing without a selected source;
      otherwise filters, then a prefix of `sampleSize` rows, every n-th row,
      or all rows. */
  function PageData(source: Option<seq<Record>>, filters: seq<ChartFilter>, handling: string,
                    sampleSize: nat, nth: nat): (r: seq<Record>)
    ensures source.None? ==> r == []
    ensures source.Some? && handling == "sample" ==>
              var f := ApplyFilters(source.value, filters);
              |r| == (if |f| < sampleSize then |f| else sampleSize) && r == f[..|r|]
    ensures source.Some? && handling !in {"sample", "every-nth"} ==> r == ApplyFilters(source.value, filters)
  {
    if source.None? then []
    else
      var f := ApplyFilters(source.value, filters);
      if handling == "sample" then (if |f| < sampleSize then f else f[..sampleSize])
      else if handling == "every-nth" then EveryNth(f, nth)
      else f
  }

  /** The page's every-n-th rows are the filtered rows at multiples of n. */
  lemma PageEveryNth(data: seq<Record>, filters: seq<ChartFilter>, sampleSize: nat, nth: nat)
    requires nth > 0
    ensures var r := PageData(Some(data), filters, "every-nth", sampleSize, nth);
            var f := ApplyFilters(data, filters);
            && (|r| > 0 ==> (|r| - 1) * nth < |f|) && |f| <= |r| * nth
            && forall j :: 0 <= j < |r| ==> j * nth < |f| && r[j] == f[j * nth]
  {
    var f := ApplyFilters(data, filters);
    assert PageData(Some(data), filters, "every-nth", sampleSize, nth) == EveryNth(f, nth);
    EveryNthCount(f, nth);
    EveryNthStrided(f, nth);
  }

  // ---------------------------------------------------------------- axes

  /** A data source as the pages hold it. */
  datatype DataSource = DataSource(id: string, name: string, kind: string, data: seq<Record>, columns: seq<string>)

  datatype Selection = Selection(source: Option<DataSource>, xAxis: string, yAxis: string)

  function HasId(id: string): DataSource -> bool {
    (ds: DataSource) => ds.id == id
  }

  /** `columns[1] || columns[0]`. */
  function SecondOrFirst(columns: seq<string>): string
    requires |columns| > 0
  {
    if |columns| > 1 && columns[1] != "" then columns[1] else columns[0]
  }

  /** Choosing a source on the chart page: the first source with that id
      becomes the selection, and a source with columns sets the x axis to
      the first column and the y axis to the second (or the first). */
  function SelectSource(sources: seq<DataSource>, id: string, current: Selection): (s: Selection)
    ensures s.source == Lists.Find(sources, HasId(id))
    ensures s.source.Some? ==> s.source.value in sources && s.source.value.id == id
    ensures s.source.None? ==> forall ds :: ds in sources ==> ds.id != id
    ensures s.source.Some? && |s.source.value.columns| > 0 ==>
              && s.xAxis == s.source.value.columns[0]
              && s.yAxis in s.source.value.columns
              && (|s.source.value.columns| > 1 && s.source.value.columns[1] != "" ==> s.yAxis == s.source.value.columns[1])
    ensures !(s.source.Some? && |s.source.value.columns| > 0) ==>
              s.xAxis == current.xAxis && s.yAxis == current.yAxis
  {
    var found := Lists.Find(sources, HasId(id));
    if found.Some? && |found.value.columns| > 0 then
      Selection(found, found.value.columns[0], SecondOrFirst(found.value.columns))
    else Selection(found, current.xAxis, current.yAxis)
  }

  /** The x axis the chart page saves: none for a pie chart. */
  function SavedXAxis(chartType: string, xAxis: string): (r: Option<string>)
    ensures r.None? <==> chartType == "pie"
    ensures r.Some? ==> r.value == xAxis
  {
    if chartType != "pie" then Some(xAxis) else None
  }

  // ---------------------------------------------------------------- chart component helpers

  /** `xs.find(p) || fallback`: the first passing element, unless that
      is the empty (falsy) string. */
  function FindOr(xs: seq<string>, p: string -> bool, fallback: string): (y: string)
    ensures y in xs || y == fallback
    ensures (forall x :: x in xs ==> !p(x)) ==> y == fallback
    ensures forall i :: 0 <= i < |xs| && p(xs[i]) && xs[i] != "" && FirstPass(xs, p, i) ==> y == xs[i]
  {
    var found := Lists.Find(xs, p);
    if found.Some? && found.value != "" then
      FirstPassing(xs, p, found.value);
      found.value
    else fallback
  }

  /** No element before position i passes. */
  predicate FirstPass(xs: seq<string>, p: string -> bool, i: int)
    requires 0 <= i <= |xs|
  {
    forall j :: 0 <= j < i ==> !p(xs[j])
  }

  /** Two first passing positions are the same position. */
  lemma FirstPassing(xs: seq<string>, p: string -> bool, v: string)
    requires exists i :: 0 <= i < |xs| && xs[i] == v && p(v) && forall j :: 0 <= j < i ==> !p(xs[j])
    ensures forall i :: 0 <= i < |xs| && p(xs[i]) && FirstPass(xs, p, i) ==> xs[i] == v
  {
  }
}
