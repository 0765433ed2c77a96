/** The chart layer. `ChartFactory` chooses the drawing library, fills in
    the size, forwards interaction events and shows the zoom badge.
    `D3AdvancedWrapper` turns data into the shapes it draws: the type
    dispatch, the inner drawing area, the network split, the sankey indexing
    and the waterfall running totals. The older `Chart` component groups its
    data points by category for the pie. Drawing itself is not modelled. */
module Charts {
  import opened Wrappers
  import opened Values
  import Lists
  import Aggregate
  import ChartData
  import Editors

  // ---------------------------------------------------------------- ChartFactory

  /** `{...config, width: config.width || 800, height: config.height || 400}`:
      a falsy size takes the default, every other property is kept. */
  function Responsive(config: Record): (r: Record)
    ensures Truthy(Get(config, "width")) ==> Get(r, "width") == Get(config, "width")
    ensures !Truthy(Get(config, "width")) ==> Get(r, "width") == Real(800.0)
    ensures Truthy(Get(config, "height")) ==> Get(r, "height") == Get(config, "height")
    ensures !Truthy(Get(config, "height")) ==> Get(r, "height") == Real(400.0)
    ensures forall k :: k != "width" && k != "height" ==> Get(r, k) == Get(config, k)
    ensures "width" in RawKeys(r) && "height" in RawKeys(r)
  {
    assert "width" != "height" by { assert "width"[0] != "height"[0]; }
    var sized := Put(config, "width", Or(Get(config, "width"), Real(800.0)));
    Put(sized, "height", Or(Get(config, "height"), Real(400.0)))
  }

  /** Making a config responsive twice changes nothing more. */
  lemma ResponsiveIdempotent(config: Record)
    ensures Responsive(Responsive(config)) == Responsive(config)
  {
    var r := Responsive(config);
    assert "width" != "height" by { assert "width"[0] != "height"[0]; }
    PutExisting(r, "width", Get(r, "width"));
    PutExisting(r, "height", Get(r, "height"));
  }

  /** The types that always need D3; `renderChart` lists the same names as
      the types the advanced wrapper draws. */
  const D3OnlyTypes: seq<string> :=
    ["heatmap", "network", "treemap", "sankey", "histogram", "boxplot", "bubble", "candlestick", "waterfall"]

  /** `shouldUseD3()`. */
  predicate ShouldUseD3(library: string, kind: string) {
    library == "d3" || kind in D3OnlyTypes
  }

  /** The wrapper a chart is handed to. */
  datatype Renderer = AdvancedD3 | PlainD3 | Recharts

  /** `renderChart()`. */
  function RenderChart(library: string, kind: string): (r: Renderer)
    ensures r == AdvancedD3 <==> kind in D3OnlyTypes
    ensures r == PlainD3 <==> library == "d3" && kind !in D3OnlyTypes
    ensures r == Recharts <==> !ShouldUseD3(library, kind)
  {
    if ShouldUseD3(library, kind) then
      if kind in D3OnlyTypes then AdvancedD3 else PlainD3
    else Recharts
  }

  /** Every type the chart selector marks as D3-only reaches the advanced
      wrapper whatever library is set, and that wrapper has a dedicated
      drawing for it. */
  lemma SelectorD3TypesAreDrawn(library: string)
    ensures forall t :: t in Editors.ChartTypes && t.library == "d3" ==>
              RenderChart(library, t.value) == AdvancedD3 && Draw(t.value, 1) != Fallback
  {
    forall t | t in Editors.ChartTypes && t.library == "d3"
      ensures t.value in D3OnlyTypes && t.value in DrawnTypes
    {
      var i :| 0 <= i < |Editors.ChartTypes| && Editors.ChartTypes[i] == t;
      assert 5 <= i < 13;
    }
  }

  /** An interaction event from a wrapper. */
  datatype Event = Event(kind: string, data: Value)

  /** What the factory keeps: the tooltip state and the events passed on to
      `onInteraction`. */
  datatype Handled = Handled(tooltip: Value, forwarded: seq<Event>)

  predicate IsTooltip(e: Event) {
    e.kind == "tooltip"
  }

  /** `handleInteraction`: a tooltip event replaces the tooltip data; every
      event goes on to the handler when there is one. */
  function HandleInteraction(h: Handled, e: Event, hasHandler: bool): (r: Handled)
    ensures r.tooltip == if IsTooltip(e) then e.data else h.tooltip
    ensures r.forwarded == if hasHandler then h.forwarded + [e] else h.forwarded
  {
    Handled(if IsTooltip(e) then e.data else h.tooltip,
            if hasHandler then h.forwarded + [e] else h.forwarded)
  }

  /** A stream of events handled one after the other. */
  function HandleAll(h: Handled, events: seq<Event>, hasHandler: bool): Handled
    decreases |events|
  {
    if |events| == 0 then h
    else
      var n := |events| - 1;
      HandleInteraction(HandleAll(h, events[..n], hasHandler), events[n], hasHandler)
  }

  /** The data of the last tooltip event, or `initial` when there was none. */
  function LastTooltip(events: seq<Event>, initial: Value): Value {
    var ts := Lists.Filter(events, IsTooltip);
    if |ts| == 0 then initial else ts[|ts| - 1].data
  }

  /** After any stream of events the tooltip shows the last tooltip event's
      data, and the handler has seen every event, in order, exactly when it
      is provided. */
  lemma {:induction false} HandleAllEffect(initial: Value, events: seq<Event>, hasHandler: bool)
    ensures HandleAll(Handled(initial, []), events, hasHandler).tooltip == LastTooltip(events, initial)
    ensures HandleAll(Handled(initial, []), events, hasHandler).forwarded == if hasHandler then events else []
    decreases |events|
  {
    if |events| > 0 {
      var n := |events| - 1;
      var init := events[..n];
      HandleAllEffect(initial, init, hasHandler);
      assert events == init + [events[n]];
      Lists.FilterAppend(init, [events[n]], IsTooltip);
      assert Lists.Filter([events[n]], IsTooltip) == if IsTooltip(events[n]) then [events[n]] else [] by {
        assert [events[n]][1..] == [];
      }
    }
  }

  /** `interactions?.some(i => i.type === 'zoom' && i.enabled)`. */
  function HasZoom(interactions: Option<seq<Editors.Interaction>>): (r: bool)
    ensures r <==> interactions.Some? && exists x :: x in interactions.value && x.kind == "zoom" && x.enabled
  {
    match interactions
    case None => false
    case Some(xs) => exists i :: 0 <= i < |xs| && xs[i].kind == "zoom" && xs[i].enabled
  }

  /** The chart the selector creates shows the zoom badge exactly when zoom
      was switched on in the selector, although disabled entries are
      dropped. The fresh selector has zoom off, one toggle turns it on. */
  lemma ZoomBadgeOfCreated(st: Editors.Selector, source: ChartData.DataSource)
    ensures HasZoom(Some(Editors.Create(st, source).interactions)) == HasZoom(Some(st.interactions))
    ensures !HasZoom(Some(Editors.InitialInteractions))
    ensures HasZoom(Some(Editors.Toggle(Editors.InitialInteractions, "zoom")))
  {
    var toggled := Editors.Toggle(Editors.InitialInteractions, "zoom");
    assert toggled[1].kind == "zoom" && toggled[1].enabled;
    assert toggled[1] in toggled;
    forall x | x in Editors.InitialInteractions && x.kind == "zoom"
      ensures !x.enabled
    {
      var i :| 0 <= i < 4 && Editors.InitialInteractions[i] == x;
    }
  }

  // ---------------------------------------------------------------- D3AdvancedWrapper

  /** A destructuring default (`width = 400`) replaces only `undefined`. */
  function SizeOr(v: Value, default: real): (r: Value)
    ensures v != Undefined ==> r == v
    ensures v == Undefined ==> r == Real(default)
  {
    if v == Undefined then Real(default) else v
  }

  /** `size - margin`: the subtraction converts the size to a number first;
      NaN and the infinities pass through. */
  function Inner(size: Value, margin: real): (r: Number)
    ensures ToNumber(size).Finite? ==> r == Finite(ToNumber(size).r - margin)
    ensures !ToNumber(size).Finite? ==> r == ToNumber(size)
  {
    match ToNumber(size)
    case Finite(x) => Finite(x - margin)
    case other => other
  }

  /** The inner drawing area: the margins are 40 left, 30 right, 20 top and
      40 bottom. */
  function InnerArea(config: Record): (Number, Number) {
    (Inner(SizeOr(Get(config, "width"), 400.0), 40.0 + 30.0),
     Inner(SizeOr(Get(config, "height"), 300.0), 20.0 + 40.0))
  }

  /** The inner size the wrapper computes from `size || fallback`: the
      fallback when the size is falsy, the size itself when it is a number,
      each less the margin. */
  lemma InnerOfOr(size: Value, fallback: real, default: real, margin: real)
    requires fallback != 0.0
    ensures !Truthy(size) ==> Inner(SizeOr(Or(size, Real(fallback)), default), margin) == Finite(fallback - margin)
    ensures Truthy(size) && size.Num? && size.n.Finite? ==>
              Inner(SizeOr(Or(size, Real(fallback)), default), margin) == Finite(size.n.r - margin)
  {
    var sized := Or(size, Real(fallback));
    if !Truthy(size) {
      assert sized == Real(fallback);
    } else if size.Num? {
      assert sized == size;
    }
  }

  /** Behind the factory the wrapper's own width default never applies: a
      config without a width is drawn 730 wide, one with a numeric width
      that width less the margins. */
  lemma FactoryDecidesWidth(config: Record)
    ensures !Truthy(Get(config, "width")) ==> InnerArea(Responsive(config)).0 == Finite(730.0)
    ensures var w := Get(config, "width");
            Truthy(w) && w.Num? && w.n.Finite? ==> InnerArea(Responsive(config)).0 == Finite(w.n.r - 70.0)
  {
    var w := Get(config, "width");
    var r := Responsive(config);
    assert InnerArea(r).0 == Inner(SizeOr(Get(r, "width"), 400.0), 70.0);
    assert Get(r, "width") == Or(w, Real(800.0));
    InnerOfOr(w, 800.0, 400.0, 70.0);
  }

  /** The same for the height: 340 without one, the height less the
      margins with a numeric one. */
  lemma FactoryDecidesHeight(config: Record)
    ensures !Truthy(Get(config, "height")) ==> InnerArea(Responsive(config)).1 == Finite(340.0)
    ensures var h := Get(config, "height");
            Truthy(h) && h.Num? && h.n.Finite? ==> InnerArea(Responsive(config)).1 == Finite(h.n.r - 60.0)
  {
    var h := Get(config, "height");
    var r := Responsive(config);
    assert InnerArea(r).1 == Inner(SizeOr(Get(r, "height"), 300.0), 60.0);
    assert Get(r, "height") == Or(h, Real(400.0));
    InnerOfOr(h, 400.0, 300.0, 60.0);
  }

  /** What the wrapper draws. */
  datatype Drawing =
    | Nothing | Heatmap | Treemap | Network | Sankey | Histogram | Boxplot | Bubble | Waterfall | Fallback

  /** The types with a drawing of their own. */
  const DrawnTypes: seq<string> :=
    ["heatmap", "treemap", "network", "sankey", "histogram", "boxplot", "bubble", "waterfall"]

  /** The effect's dispatch: nothing for empty data, then by type, and the
      fallback for any other type. */
  function Draw(kind: string, count: nat): (r: Drawing)
    ensures r == Nothing <==> count == 0
    ensures r == Fallback <==> count > 0 && kind !in DrawnTypes
  {
    if count == 0 then Nothing
    else if kind == "heatmap" then Heatmap
    else if kind == "treemap" then Treemap
    else if kind == "network" then Network
    else if kind == "sankey" then Sankey
    else if kind == "histogram" then Histogram
    else if kind == "boxplot" then Boxplot
    else if kind == "bubble" then Bubble
    else if kind == "waterfall" then Waterfall
    else Fallback
  }

  /** `candlestick` is sent to the advanced wrapper, which has no drawing
      for it and shows the fallback; it is the only such type. */
  lemma CandlestickFallsBack(library: string, count: nat)
    requires count > 0
    ensures RenderChart(library, "candlestick") == AdvancedD3
    ensures Draw("candlestick", count) == Fallback
    ensures forall t :: t in D3OnlyTypes && Draw(t, count) == Fallback ==> t == "candlestick"
  {
    assert "candlestick" in D3OnlyTypes by { assert D3OnlyTypes[7] == "candlestick"; }
  }

  // network

  /** `d.type === 'node' || !d.type`. */
  predicate IsNode(d: Value) {
    var t := ChartData.FieldOf(d, "type");
    t == Str("node") || !Truthy(t)
  }

  /** `d.type === 'link'`. */
  predicate IsLink(d: Value) {
    ChartData.FieldOf(d, "type") == Str("link")
  }

  function NetworkNodes(data: seq<Value>): seq<Value> {
    Lists.Filter(data, IsNode)
  }

  function NetworkLinks(data: seq<Value>): seq<Value> {
    Lists.Filter(data, IsLink)
  }

  /** The network split: nodes are the items typed `node` or untyped, links
      the items typed `link`, both in input order, and no item is both. */
  lemma NetworkSplit(data: seq<Value>)
    ensures forall d :: d in NetworkNodes(data) <==> d in data && IsNode(d)
    ensures forall d :: d in NetworkLinks(data) <==> d in data && IsLink(d)
    ensures forall d :: !(d in NetworkNodes(data) && d in NetworkLinks(data))
    ensures Lists.IsSubseq(NetworkNodes(data), data) && Lists.IsSubseq(NetworkLinks(data), data)
  {
    forall d | IsLink(d) ensures !IsNode(d) {
      assert Str("link") != Str("node") by { assert "link"[0] != "node"[0]; }
    }
  }

  // sankey

  /** `v` is the source or the target of item `d`. */
  predicate IsEnd(d: Value, v: Value) {
    v == ChartData.FieldOf(d, "source") || v == ChartData.FieldOf(d, "target")
  }

  /** Some item has `v` as its source or target. */
  predicate Mentioned(data: seq<Value>, v: Value) {
    exists i :: 0 <= i < |data| && IsEnd(data[i], v)
  }

  /** `data.flatMap(d => [d.source, d.target])`. */
  function Endpoints(data: seq<Value>): (r: seq<Value>)
    ensures |r| == 2 * |data|
    ensures forall v :: v in r <==> Mentioned(data, v)
    decreases |data|
  {
    if |data| == 0 then []
    else
      var rest := Endpoints(data[1..]);
      var r := [ChartData.FieldOf(data[0], "source"), ChartData.FieldOf(data[0], "target")] + rest;
      assert forall v :: Mentioned(data, v) <==> IsEnd(data[0], v) || Mentioned(data[1..], v) by {
        forall v | Mentioned(data, v) ensures IsEnd(data[0], v) || Mentioned(data[1..], v) {
          var i :| 0 <= i < |data| && IsEnd(data[i], v);
          if i > 0 {
            assert data[1..][i - 1] == data[i];
          }
        }
        forall v | Mentioned(data[1..], v) ensures Mentioned(data, v) {
          var i :| 0 <= i < |data[1..]| && IsEnd(data[1..][i], v);
          assert data[i + 1] == data[1..][i];
        }
        assert forall v :: IsEnd(data[0], v) ==> Mentioned(data, v);
      }
      r
  }

  /** `[...new Set(endpoints)]`: a `Set` compares with SameValueZero, under
      which NaN equals itself, so structural equality models it. */
  function SankeyNodes(data: seq<Value>): (r: seq<Value>)
    ensures Lists.NoDups(r)
    ensures forall v :: v in r <==> Mentioned(data, v)
  {
    Lists.Dedup(Endpoints(data))
  }

  /** `xs.findIndex(n => n === x)`: the first strictly equal position, -1
      when there is none. */
  function FindIndex(xs: seq<Value>, x: Value): (i: int)
    ensures -1 <= i < |xs|
    ensures i >= 0 ==> StrictEquals(xs[i], x) && forall j :: 0 <= j < i ==> !StrictEquals(xs[j], x)
    ensures i == -1 <==> forall j :: 0 <= j < |xs| ==> !StrictEquals(xs[j], x)
    decreases |xs|
  {
    if |xs| == 0 then -1
    else if StrictEquals(xs[0], x) then 0
    else
      var k := FindIndex(xs[1..], x);
      if k == -1 then -1 else k + 1
  }

  /** A sankey link as node positions and a weight. */
  datatype Link = Link(source: int, target: int, value: Value)

  /** `data.map(d => ({source: findIndex(d.source), target: findIndex(d.target),
      value: d.value || 1}))`. */
  function SankeyLinks(data: seq<Value>): (r: seq<Link>)
    ensures |r| == |data|
    ensures forall i :: 0 <= i < |data| ==>
              && r[i].source == FindIndex(SankeyNodes(data), ChartData.FieldOf(data[i], "source"))
              && r[i].target == FindIndex(SankeyNodes(data), ChartData.FieldOf(data[i], "target"))
              && r[i].value == Or(ChartData.FieldOf(data[i], "value"), Real(1.0))
  {
    var nodes := SankeyNodes(data);
    seq(|data|, i requires 0 <= i < |data| =>
      Link(FindIndex(nodes, ChartData.FieldOf(data[i], "source")),
           FindIndex(nodes, ChartData.FieldOf(data[i], "target")),
           Or(ChartData.FieldOf(data[i], "value"), Real(1.0))))
  }

  /** A node name other than NaN is found at its own position. */
  lemma FoundAtItsPosition(nodes: seq<Value>, x: Value)
    requires x in nodes && x != Num(NaN)
    ensures 0 <= FindIndex(nodes, x) < |nodes| && nodes[FindIndex(nodes, x)] == x
  {
    var j :| 0 <= j < |nodes| && nodes[j] == x;
    assert StrictEquals(nodes[j], x);
  }

  /** Every link end that is not NaN is a valid index of the node with that
      name; a missing weight or a weight of 0 counts as 1. A NaN end is
      never found, because `===` never equates NaN, although the node list
      holds it. */
  lemma SankeyLinksValid(data: seq<Value>, i: nat)
    requires i < |data|
    ensures var s := ChartData.FieldOf(data[i], "source");
            var l := SankeyLinks(data)[i];
            s != Num(NaN) ==> 0 <= l.source < |SankeyNodes(data)| && SankeyNodes(data)[l.source] == s
    ensures var t := ChartData.FieldOf(data[i], "target");
            var l := SankeyLinks(data)[i];
            t != Num(NaN) ==> 0 <= l.target < |SankeyNodes(data)| && SankeyNodes(data)[l.target] == t
    ensures ChartData.FieldOf(data[i], "source") == Num(NaN) ==>
              SankeyLinks(data)[i].source == -1 && Num(NaN) in SankeyNodes(data)
    ensures !Truthy(ChartData.FieldOf(data[i], "value")) ==> SankeyLinks(data)[i].value == Real(1.0)
  {
    var nodes := SankeyNodes(data);
    var s := ChartData.FieldOf(data[i], "source");
    var t := ChartData.FieldOf(data[i], "target");
    assert IsEnd(data[i], s) && IsEnd(data[i], t);
    assert s in nodes && t in nodes;
    if s != Num(NaN) {
      FoundAtItsPosition(nodes, s);
    }
    if t != Num(NaN) {
      FoundAtItsPosition(nodes, t);
    }
  }

  // waterfall

  /** JavaScript `a + b` on numbers. */
  function Add(a: Number, b: Number): (r: Number)
    ensures a.NaN? || b.NaN? ==> r.NaN?
    ensures a.Finite? && b.Finite? ==> r == Finite(a.r + b.r)
  {
    match (a, b)
    case (NaN, _) => NaN
    case (_, NaN) => NaN
    case (Finite(x), Finite(y)) => Finite(x + y)
    case (Infinity(p), Infinity(q)) => if p == q then a else NaN
    case (Infinity(_), Finite(_)) => a
    case (Finite(_), Infinity(_)) => b
  }

  /** The sum of `values` added from the left, starting at 0. */
  function RunningTotal(values: seq<Number>): Number
    decreases |values|
  {
    if |values| == 0 then Finite(0.0)
    else Add(RunningTotal(values[..|values| - 1]), values[|values| - 1])
  }

  /** A waterfall bar: the item, where the bar starts and ends, its value. */
  datatype Bar = Bar(item: Value, start: Number, end: Number, value: Number)

  /** Consecutive bars meet: each bar starts where the previous one ends. */
  predicate Chained(bars: seq<Bar>) {
    forall i :: 0 <= i < |bars| - 1 ==> bars[i + 1].start == bars[i].end
  }

  /** The first `|bars|` waterfall bars of `data`: each carries its item and
      parsed value, ends at its start plus its value and at the running total
      so far, and the first starts at 0. */
  ghost predicate BarsSoFar(bars: seq<Bar>, data: seq<Value>, y: string, parse: Value -> Number) {
    && |bars| <= |data|
    && (|bars| > 0 ==> bars[0].start == Finite(0.0))
    && (forall i :: 0 <= i < |bars| ==>
          && bars[i].item == data[i]
          && bars[i].value == parse(ChartData.FieldOf(data[i], y))
          && bars[i].end == Add(bars[i].start, bars[i].value)
          && bars[i].end == RunningTotal(ChartData.YNumbers(data, y, parse)[..i + 1]))
    && Chained(bars)
  }

  /** One more bar starting at the running total keeps the prefix valid. */
  lemma BarsSoFarSnoc(bars: seq<Bar>, data: seq<Value>, y: string, parse: Value -> Number)
    requires BarsSoFar(bars, data, y, parse) && |bars| < |data|
    ensures var n := |bars|;
            var values := ChartData.YNumbers(data, y, parse);
            var start := RunningTotal(values[..n]);
            var value := parse(ChartData.FieldOf(data[n], y));
            (n > 0 ==> bars[n - 1].end == start) &&
            BarsSoFar(bars + [Bar(data[n], start, Add(start, value), value)], data, y, parse)
  {
    var n := |bars|;
    var values := ChartData.YNumbers(data, y, parse);
    var start := RunningTotal(values[..n]);
    var value := parse(ChartData.FieldOf(data[n], y));
    assert value == values[n];
    assert values[..n + 1][..n] == values[..n];
    assert Add(start, value) == RunningTotal(values[..n + 1]);
    var next := Bar(data[n], start, Add(start, value), value);
    var bars' := bars + [next];
    assert forall k :: 0 <= k < n ==> bars'[k] == bars[k];
    assert bars'[n] == next;
  }

  /** `renderWaterfall`'s `processedData`: the value is `parse(d[yField])`
      (the page parses with `parseFloat`), the first bar starts at 0, each
      bar ends at its start plus its value and the next one starts there. */
  method WaterfallBars(data: seq<Value>, y: string, parse: Value -> Number) returns (bars: seq<Bar>)
    ensures |bars| == |data|
    ensures |bars| > 0 ==> bars[0].start == Finite(0.0)
    ensures forall i :: 0 <= i < |bars| ==>
              && bars[i].item == data[i]
              && bars[i].value == parse(ChartData.FieldOf(data[i], y))
              && bars[i].end == Add(bars[i].start, bars[i].value)
    ensures Chained(bars)
    ensures forall i :: 0 <= i < |bars| ==>
              bars[i].end == RunningTotal(ChartData.YNumbers(data, y, parse)[..i + 1])
  {
    ghost var values := ChartData.YNumbers(data, y, parse);
    var cumulative := Finite(0.0);
    bars := [];
    var i := 0;
    while i < |data|
      invariant i == |bars| <= |data| == |values|
      invariant cumulative == RunningTotal(values[..i])
      invariant BarsSoFar(bars, data, y, parse)
    {
      var value := parse(ChartData.FieldOf(data[i], y));
      BarsSoFarSnoc(bars, data, y, parse);
      bars := bars + [Bar(data[i], cumulative, Add(cumulative, value), value)];
      cumulative := Add(cumulative, value);
      assert values[..i + 1][..i] == values[..i];
      i := i + 1;
    }
  }

  /** `Finites` distributes over concatenation. */
  lemma {:induction false} FinitesAppend(a: seq<Number>, b: seq<Number>)
    ensures ChartData.Finites(a + b) == ChartData.Finites(a) + ChartData.Finites(b)
    decreases |a|
  {
    if |a| > 0 {
      var head := if a[0].Finite? then [a[0].r] else [];
      assert (a + b)[0] == a[0];
      assert (a + b)[1..] == a[1..] + b;
      FinitesAppend(a[1..], b);
      assert ChartData.Finites(a + b) == head + ChartData.Finites(a[1..] + b);
      assert ChartData.Finites(a) == head + ChartData.Finites(a[1..]);
    } else {
      assert a + b == b;
    }
  }

  /** When every value is a number the last bar ends at their sum. */
  lemma {:induction false} TotalOfNumbers(values: seq<Number>)
    requires forall i :: 0 <= i < |values| ==> values[i].Finite?
    ensures RunningTotal(values) == Finite(Aggregate.Sum(ChartData.Finites(values)))
    decreases |values|
  {
    if |values| > 0 {
      var n := |values| - 1;
      TotalOfNumbers(values[..n]);
      assert values == values[..n] + [values[n]];
      FinitesAppend(values[..n], [values[n]]);
      assert ChartData.Finites([values[n]]) == [values[n].r];
    }
  }

  /** One value that does not parse makes its own and every later end NaN. */
  lemma {:induction false} NaNPropagates(values: seq<Number>, k: nat)
    requires k < |values| && values[k].NaN?
    ensures RunningTotal(values).NaN?
    decreases |values|
  {
    var n := |values| - 1;
    if k < n {
      NaNPropagates(values[..n], k);
    }
  }

  /** d3.extent's lower end: the least value that is not NaN, none when
      every value is NaN. */
  function LeastOf(ns: seq<Number>): (r: Option<Number>)
    ensures r.None? <==> forall i :: 0 <= i < |ns| ==> ns[i].NaN?
    ensures r.Some? ==> r.value in ns && !r.value.NaN? && forall i :: 0 <= i < |ns| ==> !Less(ns[i], r.value)
    decreases |ns|
  {
    if |ns| == 0 then None
    else
      var rest := LeastOf(ns[1..]);
      assert forall i :: 1 <= i < |ns| ==> ns[i] == ns[1..][i - 1];
      if ns[0].NaN? then rest
      else match rest
        case None => Some(ns[0])
        case Some(m) => if Less(ns[0], m) then Some(ns[0]) else Some(m)
  }

  /** `Math.min(0, yExtent[0])`: NaN when no end is a number. */
  function DomainLow(bars: seq<Bar>): Number {
    var ends := seq(|bars|, i requires 0 <= i < |bars| => bars[i].end);
    match LeastOf(ends)
    case None => NaN
    case Some(m) => if Less(m, Finite(0.0)) then m else Finite(0.0)
  }

  /** With finite ends the y axis starts at 0 or at the lowest end,
      whichever is lower, so every bar fits above it. */
  lemma DomainLowBounds(bars: seq<Bar>)
    requires |bars| > 0 && forall i :: 0 <= i < |bars| ==> bars[i].end.Finite?
    ensures DomainLow(bars).Finite?
    ensures DomainLow(bars).r <= 0.0
    ensures forall i :: 0 <= i < |bars| ==> DomainLow(bars).r <= bars[i].end.r
    ensures DomainLow(bars).r == 0.0 || exists i :: 0 <= i < |bars| && DomainLow(bars).r == bars[i].end.r
  {
    var ends := seq(|bars|, i requires 0 <= i < |bars| => bars[i].end);
    assert ends[0] == bars[0].end;
    var m := LeastOf(ends).value;
    assert m in ends;
    forall i | 0 <= i < |bars| ensures m.r <= bars[i].end.r {
      assert ends[i] == bars[i].end;
    }
  }

  /** `processedData.slice(0, -1)`: one connector after every bar but the
      last. */
  function Connectors(bars: seq<Bar>): (r: seq<Bar>)
    ensures |bars| > 0 ==> |r| == |bars| - 1
    ensures |bars| == 0 ==> r == []
    ensures forall i :: 0 <= i < |r| ==> r[i] == bars[i]
  {
    if |bars| == 0 then [] else bars[..|bars| - 1]
  }

  /** Each connector joins its bar's end to the start of the next bar. */
  lemma ConnectorsJoin(bars: seq<Bar>)
    requires Chained(bars)
    ensures forall i :: 0 <= i < |Connectors(bars)| ==> i + 1 < |bars| && Connectors(bars)[i].end == bars[i + 1].start
  {
    var c := Connectors(bars);
    forall i | 0 <= i < |c|
      ensures i + 1 < |bars| && c[i].end == bars[i + 1].start
    {
      assert c[i] == bars[i];
      assert bars[i + 1].start == bars[i].end;
    }
  }

  // ---------------------------------------------------------------- Chart

  /** A data point of the older frontend. */
  datatype DataPoint = DataPoint(month: string, value: real, category: string)

  function CategoryOf(p: DataPoint): string {
    p.category
  }

  /** `getUniqueCategories`: distinct categories in order of first
      appearance, one for every category present. */
  function Categories(data: seq<DataPoint>): (r: seq<string>)
    ensures Lists.NoDups(r)
    ensures forall c :: c in r <==> exists i :: 0 <= i < |data| && data[i].category == c
  {
    var cs := Lists.KeysOf(data, CategoryOf);
    assert forall c :: c in cs <==> exists i :: 0 <= i < |data| && data[i].category == c by {
      forall c | c in cs ensures exists i :: 0 <= i < |data| && data[i].category == c {
        var i :| 0 <= i < |cs| && cs[i] == c;
      }
      forall i | 0 <= i < |data| ensures data[i].category in cs {
        assert cs[i] == data[i].category;
      }
    }
    Lists.Dedup(cs)
  }

  /** The eight colours `getColor` cycles through. */
  const Palette: seq<string> :=
    ["#3B82F6", "#EC4899", "#8B5CF6", "#10B981", "#F97316", "#06B6D4", "#EAB308", "#6366F1"]

  /** `getColor(index)`. */
  function Color(index: nat): (c: string)
    ensures c in Palette
  {
    Palette[index % |Palette|]
  }

  /** The colours repeat with period 8 and the first eight all differ. */
  lemma ColorCycle(index: nat)
    ensures Color(index + 8) == Color(index)
    ensures forall i, j :: 0 <= i < j < 8 ==> Color(i) != Color(j)
  {
    forall i, j | 0 <= i < j < 8 ensures Palette[i] != Palette[j] {
      assert Palette[i][1] != Palette[j][1] || Palette[i][2] != Palette[j][2];
    }
  }

  /** `.reduce((sum, item) => sum + item.value, 0)`. */
  function ReduceSum(points: seq<DataPoint>): real
    decreases |points|
  {
    if |points| == 0 then 0.0 else ReduceSum(points[..|points| - 1]) + points[|points| - 1].value
  }

  /** `data.filter(d => d.category === category)` summed. */
  function CategoryTotal(data: seq<DataPoint>, category: string): real {
    ReduceSum(Lists.Filter(data, (p: DataPoint) => p.category == category))
  }

  /** A pie slice. */
  datatype Slice = Slice(name: string, value: real)

  /** One slice per category, in the categories' order. */
  function SlicesOf(data: seq<DataPoint>, categories: seq<string>): seq<Slice>
    decreases |categories|
  {
    if |categories| == 0 then []
    else [Slice(categories[0], CategoryTotal(data, categories[0]))] + SlicesOf(data, categories[1..])
  }

  /** Slice `i` is category `i` with its total. */
  lemma {:induction false} SlicesAt(data: seq<DataPoint>, categories: seq<string>)
    ensures |SlicesOf(data, categories)| == |categories|
    ensures forall i :: 0 <= i < |categories| ==>
              SlicesOf(data, categories)[i] == Slice(categories[i], CategoryTotal(data, categories[i]))
    decreases |categories|
  {
    if |categories| > 0 {
      SlicesAt(data, categories[1..]);
    }
  }

  /** The pie: one slice per category, in category order, holding the sum of
      its points' values. */
  function PieData(data: seq<DataPoint>): seq<Slice> {
    SlicesOf(data, Categories(data))
  }

  function SliceTotal(slices: seq<Slice>): real
    decreases |slices|
  {
    if |slices| == 0 then 0.0 else slices[0].value + SliceTotal(slices[1..])
  }

  /** One more point adds its value to its own category's total only. */
  lemma CategoryTotalSnoc(data: seq<DataPoint>, p: DataPoint, category: string)
    ensures CategoryTotal(data + [p], category) ==
              CategoryTotal(data, category) + (if p.category == category then p.value else 0.0)
  {
    var keep := (q: DataPoint) => q.category == category;
    Lists.FilterAppend(data, [p], keep);
    assert Lists.Filter([p], keep) == if keep(p) then [p] else [] by {
      assert [p][1..] == [];
    }
    var f := Lists.Filter(data, keep);
    if keep(p) {
      assert (f + [p])[..|f + [p]| - 1] == f;
    } else {
      assert f + [] == f;
    }
  }

  /** Over distinct categories, one more point adds its value once when its
      category is listed, and not at all otherwise. */
  lemma {:induction false} SlicesSnoc(data: seq<DataPoint>, p: DataPoint, categories: seq<string>)
    requires Lists.NoDups(categories)
    ensures SliceTotal(SlicesOf(data + [p], categories)) ==
              SliceTotal(SlicesOf(data, categories)) + (if p.category in categories then p.value else 0.0)
    decreases |categories|
  {
    if |categories| > 0 {
      var rest := categories[1..];
      assert Lists.NoDups(rest) by {
        assert forall i :: 0 <= i < |rest| ==> rest[i] == categories[i + 1];
      }
      SlicesSnoc(data, p, rest);
      CategoryTotalSnoc(data, p, categories[0]);
      assert p.category in categories <==> p.category == categories[0] || p.category in rest by {
        assert categories == [categories[0]] + rest;
      }
      if p.category == categories[0] {
        assert p.category !in rest by {
          forall i | 0 <= i < |rest| ensures rest[i] != p.category {
            assert rest[i] == categories[i + 1];
          }
        }
      }
    }
  }

  /** Over distinct categories that cover the data, the slices add up to
      the sum of all values. */
  lemma {:induction false} SlicesCover(data: seq<DataPoint>, categories: seq<string>)
    requires Lists.NoDups(categories)
    requires forall i :: 0 <= i < |data| ==> data[i].category in categories
    ensures SliceTotal(SlicesOf(data, categories)) == ReduceSum(data)
    decreases |data|
  {
    if |data| == 0 {
      EmptySlices(categories);
    } else {
      var n := |data| - 1;
      var init, last := data[..n], data[n];
      assert forall i :: 0 <= i < n ==> init[i] == data[i];
      SlicesCover(init, categories);
      var before := SliceTotal(SlicesOf(init, categories));
      assert before == ReduceSum(init);
      assert last.category in categories;
      SlicesSnoc(init, last, categories);
      assert init + [last] == data;
      assert SliceTotal(SlicesOf(data, categories)) == before + last.value;
      assert ReduceSum(data) == ReduceSum(init) + last.value;
    }
  }

  /** Without data every slice is empty. */
  lemma {:induction false} EmptySlices(categories: seq<string>)
    ensures SliceTotal(SlicesOf([], categories)) == 0.0
    decreases |categories|
  {
    if |categories| > 0 {
      EmptySlices(categories[1..]);
      assert CategoryTotal([], categories[0]) == 0.0;
    }
  }

  /** The pie shows every category once, and its slices add up to the sum
      of all values. */
  lemma PieTotal(data: seq<DataPoint>)
    ensures |PieData(data)| == |Categories(data)|
    ensures forall i :: 0 <= i < |PieData(data)| ==> PieData(data)[i].name == Categories(data)[i]
    ensures SliceTotal(PieData(data)) == ReduceSum(data)
  {
    var cs := Categories(data);
    forall i | 0 <= i < |data| ensures data[i].category in cs {
    }
    SlicesCover(data, cs);
    SlicesAt(data, cs);
  }

  /** What the component shows. */
  datatype View = Loading | LineView | BarView | AreaView | PieView(slices: seq<Slice>) | ScatterView | Unsupported

  /** The component: a placeholder before it has mounted, then by type,
      and "Unsupported chart type" for any other type. */
  function ChartView(mounted: bool, kind: string, data: seq<DataPoint>): (v: View)
    ensures !mounted <==> v == Loading
    ensures mounted && kind !in ["line", "bar", "area", "pie", "scatter"] <==> v == Unsupported
    ensures v.PieView? ==> v.slices == PieData(data)
  {
    if !mounted then Loading
    else if kind == "line" then LineView
    else if kind == "bar" then BarView
    else if kind == "area" then AreaView
    else if kind == "pie" then PieView(PieData(data))
    else if kind == "scatter" then ScatterView
    else Unsupported
  }
}
