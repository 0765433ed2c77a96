/** The chart-side helpers of the new front end that turn data points into
    chart rows: grouping by a field, one aggregate per group, histogram bins
    and summary metrics. A data point is a plain object (`Values.Record`). */
module Aggregate {
  import opened Wrappers
  import opened Values
  import Lists

  // ---------------------------------------------------------------- grouping

  /** The property name a data point is filed under: `String(item[field])`. */
  function KeyOf(item: Record, field: string): string {
    ToString(Get(item, field))
  }

  function FieldKey(field: string): Record -> string {
    item => KeyOf(item, field)
  }

  /** The data points as array elements. */
  function Objects(data: seq<Record>): (vs: seq<Value>)
    ensures |vs| == |data|
    ensures forall i :: 0 <= i < |data| ==> vs[i] == Obj(data[i])
  {
    seq(|data|, i requires 0 <= i < |data| => Obj(data[i]))
  }

  /** Whether an element is a data point filed under `k`. */
  function HasKey(key: Record -> string, k: string): Value -> bool {
    (v: Value) => v.Obj? && key(v.fields) == k
  }

  /** The points whose key is `k`, in input order: the reference the groups
      are checked against. */
  function Members(data: seq<Record>, key: Record -> string, k: string): (vs: seq<Value>)
    ensures forall v :: v in vs ==> v.Obj? && key(v.fields) == k
    ensures Lists.IsSubseq(vs, Objects(data))
  {
    Lists.Filter(Objects(data), HasKey(key, k))
  }

  /** Membership grows one point at a time. */
  lemma MembersSnoc(init: seq<Record>, x: Record, key: Record -> string, k: string)
    ensures Members(init + [x], key, k) ==
              Members(init, key, k) + (if key(x) == k then [Obj(x)] else [])
  {
    assert Objects(init + [x]) == Objects(init) + [Obj(x)];
    Lists.FilterAppend(Objects(init), [Obj(x)], HasKey(key, k));
    assert [Obj(x)][1..] == [];
  }

  /** A point filed under `k` has key `k`. */
  lemma MembersPresent(data: seq<Record>, key: Record -> string, k: string)
    requires |Members(data, key, k)| > 0
    ensures k in Lists.KeysOf(data, key)
  {
    var v := Members(data, key, k)[0];
    assert v in Objects(data);
  }

  /** No group for a key that no point has. */
  lemma MembersAbsent(data: seq<Record>, key: Record -> string, k: string)
    requires k !in Lists.KeysOf(data, key)
    ensures Members(data, key, k) == []
  {
    if |Members(data, key, k)| > 0 {
      MembersPresent(data, key, k);
    }
  }

  /** The elements of an array value; anything else has none. */
  function ItemsOf(v: Value): seq<Value> {
    if v.Arr? then v.elems else []
  }

  /** Filing one more point under `k`. A missing group reads as `undefined`,
      which is falsy, and an existing one is a (truthy) array, so creating
      the array and pushing onto it is one write. */
  function File(groups: Record, k: string, item: Record): Record {
    Put(groups, k, Arr(ItemsOf(Get(groups, k)) + [Obj(item)]))
  }

  /** The groups of `data` under an arbitrary key function. */
  function GroupBy(data: seq<Record>, key: Record -> string): (groups: Record)
    ensures RawKeys(groups) == Lists.Dedup(Lists.KeysOf(data, key))
    decreases |data|
  {
    if |data| == 0 then []
    else
      var n := |data| - 1;
      var init := data[..n];
      var k := key(data[n]);
      assert Lists.KeysOf(data, key) == Lists.KeysOf(init, key) + [k];
      Lists.DedupSnoc(Lists.KeysOf(init, key), k);
      File(GroupBy(init, key), k, data[n])
  }

  /** The groups of `data` by the string form of `field`, as `groupData`
      builds them when no key names an inherited property. */
  function Groups(data: seq<Record>, field: string): (groups: Record)
    ensures RawKeys(groups) == Lists.Dedup(Lists.KeysOf(data, FieldKey(field)))
  {
    GroupBy(data, FieldKey(field))
  }

  /** The TypeError `push` throws when the group it is called on is an
      inherited member of `Object.prototype` rather than an array. */
  const PushError := "TypeError: push is not a function"

  /** Whether some point's key names a property every plain object inherits. */
  predicate MeetsInherited(data: seq<Record>, key: Record -> string) {
    exists i :: 0 <= i < |data| && key(data[i]) in ObjectPrototypeKeys
  }

  /** The grouping loop as it runs on a fresh `{}`: `!groups[key]` also sees
      the properties a plain object inherits, all truthy and none an array,
      so the first point whose key names one of them makes `push` throw;
      until then every point is filed as `GroupBy` files it. */
  function Grouping(data: seq<Record>, key: Record -> string): (r: Result<Record, string>)
    ensures r.Err? <==> MeetsInherited(data, key)
    ensures r.Ok? ==> r.value == GroupBy(data, key)
    decreases |data|
  {
    if |data| == 0 then Ok([])
    else
      var n := |data| - 1;
      MeetsInheritedSnoc(data, key);
      match Grouping(data[..n], key)
      case Err(e) => Err(e)
      case Ok(g) =>
        if key(data[n]) in ObjectPrototypeKeys then Err(PushError)
        else Ok(File(g, key(data[n]), data[n]))
  }

  /** The last point meets an inherited name or an earlier one did. */
  lemma MeetsInheritedSnoc(data: seq<Record>, key: Record -> string)
    requires |data| > 0
    ensures MeetsInherited(data, key) <==>
              MeetsInherited(data[..|data| - 1], key) || key(data[|data| - 1]) in ObjectPrototypeKeys
  {
    var n := |data| - 1;
    if MeetsInherited(data, key) {
      var i :| 0 <= i < |data| && key(data[i]) in ObjectPrototypeKeys;
      if i < n {
        assert data[..n][i] == data[i];
      }
    }
    if MeetsInherited(data[..n], key) {
      var i :| 0 <= i < n && key(data[..n][i]) in ObjectPrototypeKeys;
      assert data[..n][i] == data[i];
    }
  }

  /** `groupData`: a plain object mapping each key to the array of points
      with that key, or the TypeError of a key `Object.prototype` has. */
  function GroupData(data: seq<Record>, field: string): (r: Result<Record, string>)
    ensures r.Err? <==> exists i :: 0 <= i < |data| && KeyOf(data[i], field) in ObjectPrototypeKeys
    ensures r.Ok? ==> r.value == Groups(data, field)
  {
    Grouping(data, FieldKey(field))
  }

  /** A point whose field reads "constructor" stops the grouping. */
  lemma ConstructorKeyThrows(item: Record, field: string)
    requires Get(item, field) == Str("constructor")
    ensures GroupData([item], field) == Err(PushError)
  {
    assert KeyOf(item, field) == "constructor";
    assert [item][..0] == [];
  }

  /** One filing step keeps every group equal to its members. */
  lemma FileStep(g: Record, init: seq<Record>, x: Record, key: Record -> string)
    requires RawKeys(g) == Lists.Dedup(Lists.KeysOf(init, key))
    requires forall k :: k in RawKeys(g) ==> Get(g, k) == Arr(Members(init, key, k))
    ensures var r := File(g, key(x), x);
            forall k :: k in RawKeys(r) ==> Get(r, k) == Arr(Members(init + [x], key, k))
  {
    var r := File(g, key(x), x);
    forall k | k in RawKeys(r)
      ensures Get(r, k) == Arr(Members(init + [x], key, k))
    {
      if k == key(x) {
        FileStepSame(g, init, x, key);
      } else {
        FileStepOther(g, init, x, key, k);
      }
    }
  }

  /** The other groups keep their members. */
  lemma FileStepOther(g: Record, init: seq<Record>, x: Record, key: Record -> string, k: string)
    requires k != key(x) && k in RawKeys(File(g, key(x), x))
    requires forall k :: k in RawKeys(g) ==> Get(g, k) == Arr(Members(init, key, k))
    ensures Get(File(g, key(x), x), k) == Arr(Members(init + [x], key, k))
  {
    MembersSnoc(init, x, key, k);
  }

  /** The group the new point joins gains exactly that point. */
  lemma FileStepSame(g: Record, init: seq<Record>, x: Record, key: Record -> string)
    requires RawKeys(g) == Lists.Dedup(Lists.KeysOf(init, key))
    requires forall k :: k in RawKeys(g) ==> Get(g, k) == Arr(Members(init, key, k))
    ensures Get(File(g, key(x), x), key(x)) == Arr(Members(init + [x], key, key(x)))
  {
    var k := key(x);
    MembersSnoc(init, x, key, k);
    if k !in RawKeys(g) {
      MembersAbsent(init, key, k);
    }
  }

  /** Every group holds exactly its members, in input order. */
  lemma {:induction false} GroupByGet(data: seq<Record>, key: Record -> string)
    ensures forall k :: k in RawKeys(GroupBy(data, key)) ==>
              Get(GroupBy(data, key), k) == Arr(Members(data, key, k))
    decreases |data|
  {
    if |data| > 0 {
      var n := |data| - 1;
      GroupByGet(data[..n], key);
      assert data == data[..n] + [data[n]];
      FileStep(GroupBy(data[..n], key), data[..n], data[n], key);
    }
  }

  /** The number of array elements over all properties of a record. */
  function SumSizes(r: Record): nat
    decreases |r|
  {
    if |r| == 0 then 0 else |ItemsOf(r[0].val)| + SumSizes(r[1..])
  }

  /** Writing a property changes the total by the difference in size. */
  lemma {:induction false} PutSizes(r: Record, k: string, v: Value)
    ensures SumSizes(Put(r, k, v)) + |ItemsOf(Get(r, k))| == SumSizes(r) + |ItemsOf(v)|
    decreases |r|
  {
    if |r| > 0 && r[0].key != k {
      PutSizes(r[1..], k, v);
      assert Put(r, k, v)[1..] == Put(r[1..], k, v);
    } else if |r| > 0 {
      assert Put(r, k, v)[1..] == r[1..];
    }
  }

  /** The groups' sizes add up to the number of points. */
  lemma {:induction false} GroupSizes(data: seq<Record>, key: Record -> string)
    ensures SumSizes(GroupBy(data, key)) == |data|
    decreases |data|
  {
    if |data| > 0 {
      var n := |data| - 1;
      var g := GroupBy(data[..n], key);
      var k := key(data[n]);
      var v := Arr(ItemsOf(Get(g, k)) + [Obj(data[n])]);
      assert GroupBy(data, key) == Put(g, k, v);
      assert |ItemsOf(v)| == |ItemsOf(Get(g, k))| + 1;
      GroupSizes(data[..n], key);
      PutSizes(g, k, v);
    }
  }

  // ---------------------------------------------------------------- aggregates

  function Sum(xs: seq<real>): real
    decreases |xs|
  {
    if |xs| == 0 then 0.0 else Sum(xs[..|xs| - 1]) + xs[|xs| - 1]
  }

  lemma {:induction false} SumAppend(a: seq<real>, b: seq<real>)
    ensures Sum(a + b) == Sum(a) + Sum(b)
    decreases |b|
  {
    if |b| > 0 {
      var n := |b| - 1;
      SumAppend(a, b[..n]);
      assert (a + b)[..|a + b| - 1] == a + b[..n];
    } else {
      assert a + b == a;
    }
  }

  /** `Math.min(...xs)` on a non-empty list of finite numbers. */
  function Minimum(xs: seq<real>): (m: real)
    requires |xs| > 0
    ensures m in xs
    ensures forall x :: x in xs ==> m <= x
    decreases |xs|
  {
    if |xs| == 1 then xs[0]
    else
      var n := |xs| - 1;
      var m := Minimum(xs[..n]);
      assert xs == xs[..n] + [xs[n]];
      if xs[n] < m then xs[n] else m
  }

  /** `Math.max(...xs)` on a non-empty list of finite numbers. */
  function Maximum(xs: seq<real>): (m: real)
    requires |xs| > 0
    ensures m in xs
    ensures forall x :: x in xs ==> x <= m
    decreases |xs|
  {
    if |xs| == 1 then xs[0]
    else
      var n := |xs| - 1;
      var m := Maximum(xs[..n]);
      assert xs == xs[..n] + [xs[n]];
      if xs[n] > m then xs[n] else m
  }

  /** The sum of n values lies between n times their least and n times their
      greatest value. */
  lemma {:induction false} SumBounds(xs: seq<real>, lo: real, hi: real)
    requires forall x :: x in xs ==> lo <= x <= hi
    ensures |xs| as real * lo <= Sum(xs) <= |xs| as real * hi
    decreases |xs|
  {
    if |xs| > 0 {
      var n := |xs| - 1;
      assert forall x :: x in xs[..n] ==> x in xs;
      SumBounds(xs[..n], lo, hi);
      assert xs[n] in xs;
    }
  }

  /** The mean lies between the least and the greatest value. */
  lemma AverageBounds(xs: seq<real>)
    requires |xs| > 0
    ensures Minimum(xs) <= Sum(xs) / |xs| as real <= Maximum(xs)
  {
    var lo, hi := Minimum(xs), Maximum(xs);
    assert forall x :: x in xs ==> lo <= x <= hi;
    MeanBounds(xs, lo, hi);
  }

  /** Any bounds on the values bound their mean. */
  lemma MeanBounds(xs: seq<real>, lo: real, hi: real)
    requires |xs| > 0
    requires forall x :: x in xs ==> lo <= x <= hi
    ensures lo <= Sum(xs) / |xs| as real <= hi
  {
    SumBounds(xs, lo, hi);
    DivBounds(Sum(xs), |xs| as real, lo, hi);
  }

  lemma DivBounds(s: real, n: real, lo: real, hi: real)
    requires n > 0.0 && n * lo <= s <= n * hi
    ensures lo <= s / n <= hi
  {
    var q := s / n;
    assert q * n == s;
    if lo > q {
      MulMono(q, lo, n);
    }
    if q > hi {
      MulMono(hi, q, n);
    }
  }

  /** `calculateAggregate`: no values give 0, and so does an aggregation
      type it does not know. */
  function CalculateAggregate(values: seq<real>, kind: string): (r: real)
    ensures |values| == 0 ==> r == 0.0
    ensures kind !in {"sum", "average", "count", "min", "max"} ==> r == 0.0
    ensures |values| > 0 && kind == "count" ==> r == |values| as real
    ensures |values| > 0 && kind == "min" ==> r in values && forall x :: x in values ==> r <= x
    ensures |values| > 0 && kind == "max" ==> r in values && forall x :: x in values ==> x <= r
    ensures |values| > 0 && kind == "average" ==> Minimum(values) <= r <= Maximum(values)
  {
    if |values| == 0 then 0.0
    else if kind == "sum" then Sum(values)
    else if kind == "average" then
      AverageBounds(values);
      Sum(values) / |values| as real
    else if kind == "count" then |values| as real
    else if kind == "min" then Minimum(values)
    else if kind == "max" then Maximum(values)
    else 0.0
  }

  /** The sum aggregate is the sum of the values. */
  lemma SumAggregate(values: seq<real>)
    requires |values| > 0
    ensures CalculateAggregate(values, "sum") == Sum(values)
  {
  }

  /** The average aggregate is the sum of the values over their count. */
  lemma AverageIsMean(values: seq<real>)
    requires |values| > 0
    ensures CalculateAggregate(values, "average") == Sum(values) / |values| as real
  {
  }

  /** `item[field]` of one data point, kept when it is a finite number. */
  function NumberIn(item: Value, field: string): (xs: seq<real>)
    ensures |xs| <= 1
  {
    var v := if item.Obj? then Get(item.fields, field) else Undefined;
    if v.Num? && v.n.Finite? then [v.n.r] else []
  }

  /** The finite numbers found under `field` in a list of data points.
      `typeof v === 'number'` also keeps NaN and the infinities; the model
      keeps finite numbers only. */
  function FieldNumbers(items: seq<Value>, field: string): (xs: seq<real>)
    ensures |xs| <= |items|
    decreases |items|
  {
    if |items| == 0 then [] else NumberIn(items[0], field) + FieldNumbers(items[1..], field)
  }

  /** Each point contributes its own number, in order. */
  lemma {:induction false} FieldNumbersAppend(a: seq<Value>, b: seq<Value>, field: string)
    ensures FieldNumbers(a + b, field) == FieldNumbers(a, field) + FieldNumbers(b, field)
    decreases |a|
  {
    if |a| == 0 {
      assert a + b == b;
    } else {
      assert (a + b)[1..] == a[1..] + b;
      FieldNumbersAppend(a[1..], b, field);
    }
  }

  /** A finite number in a point's field is among the numbers aggregated. */
  lemma {:induction false} FieldNumbersHas(items: seq<Value>, field: string, i: nat, x: real)
    requires i < |items| && NumberIn(items[i], field) == [x]
    ensures x in FieldNumbers(items, field)
    decreases i
  {
    if i > 0 {
      FieldNumbersHas(items[1..], field, i - 1, x);
    }
  }

  /** One row of `aggregateData`. */
  datatype AggRow = AggRow(category: string, value: real, count: nat)

  /** `aggregateData`: one row per entry of `Object.entries(groups)`. */
  function AggregateData(groups: Record, field: string, kind: string): (rows: seq<AggRow>)
    ensures |rows| == |OwnKeys(groups)|
    ensures forall i :: 0 <= i < |rows| ==> rows[i].category == OwnKeys(groups)[i]
    ensures forall i :: 0 <= i < |rows| ==>
              var items := ItemsOf(Get(groups, rows[i].category));
              rows[i].count == |items| && rows[i].value == CalculateAggregate(FieldNumbers(items, field), kind)
  {
    var keys := OwnKeys(groups);
    seq(|keys|, i requires 0 <= i < |keys| =>
      var items := ItemsOf(Get(groups, keys[i]));
      AggRow(keys[i], CalculateAggregate(FieldNumbers(items, field), kind), |items|))
  }

  // ---------------------------------------------------------------- bins

  /** `Math.ceil`. */
  function Ceil(x: real): int {
    -((-x).Floor)
  }

  /** `Math.floor((v - lo) / size)`. */
  function BinIndex(v: real, lo: real, size: real): int
    requires size != 0.0
  {
    ((v - lo) / size).Floor
  }

  /** The array length `Array.from({ length: ... })` makes of
      `Math.ceil((hi - lo) / size)`; a negative length becomes 0. */
  function BinCount(lo: real, hi: real, size: real): nat
    requires size != 0.0
  {
    var c := Ceil((hi - lo) / size);
    if c < 0 then 0 else c
  }

  /** How many values fall at index `i`: the reference for the counters. */
  function CountAt(values: seq<real>, lo: real, size: real, i: int): nat
    requires size != 0.0
    decreases |values|
  {
    if |values| == 0 then 0
    else
      var n := |values| - 1;
      CountAt(values[..n], lo, size, i) + (if BinIndex(values[n], lo, size) == i then 1 else 0)
  }

  /** How many values fall outside the `n` bins. */
  function Outside(values: seq<real>, lo: real, size: real, n: nat): nat
    requires size != 0.0
    decreases |values|
  {
    if |values| == 0 then 0
    else
      var m := |values| - 1;
      var k := BinIndex(values[m], lo, size);
      Outside(values[..m], lo, size, n) + (if 0 <= k < n then 0 else 1)
  }

  function Total(c: seq<nat>): nat
    decreases |c|
  {
    if |c| == 0 then 0 else c[0] + Total(c[1..])
  }

  lemma {:induction false} TotalIncrement(c: seq<nat>, k: nat)
    requires k < |c|
    ensures Total(c[k := c[k] + 1]) == Total(c) + 1
    decreases |c|
  {
    if k > 0 {
      TotalIncrement(c[1..], k - 1);
      assert c[k := c[k] + 1][1..] == c[1..][k - 1 := c[k] + 1];
    } else {
      assert c[k := c[k] + 1][1..] == c[1..];
    }
  }

  lemma {:induction false} TotalZeros(n: nat)
    ensures Total(seq(n, _ => 0)) == 0
    decreases n
  {
    if n > 0 {
      TotalZeros(n - 1);
      assert seq(n, _ => 0)[1..] == seq(n - 1, _ => 0);
    }
  }

  /** The counters after the `forEach` over the values: each value bumps the
      bin at its index when that index is in range. */
  function BinCounts(values: seq<real>, lo: real, size: real, n: nat): (c: seq<nat>)
    requires size != 0.0
    ensures |c| == n
    ensures forall i :: 0 <= i < n ==> c[i] == CountAt(values, lo, size, i)
    ensures Total(c) + Outside(values, lo, size, n) == |values|
    decreases |values|
  {
    if |values| == 0 then
      TotalZeros(n);
      seq(n, _ => 0)
    else
      var m := |values| - 1;
      var c := BinCounts(values[..m], lo, size, n);
      var k := BinIndex(values[m], lo, size);
      if 0 <= k < n then
        TotalIncrement(c, k);
        c[k := c[k] + 1]
      else c
  }

  /** One histogram bin; its label is `binStart` and `binEnd` printed with
      one decimal. */
  datatype Bin = Bin(binStart: real, binEnd: real, count: nat)

  function BinTotal(bins: seq<Bin>): nat
    decreases |bins|
  {
    if |bins| == 0 then 0 else bins[0].count + BinTotal(bins[1..])
  }

  lemma {:induction false} BinTotalCounts(bins: seq<Bin>, c: seq<nat>)
    requires |bins| == |c| && forall i :: 0 <= i < |c| ==> bins[i].count == c[i]
    ensures BinTotal(bins) == Total(c)
    decreases |c|
  {
    if |c| > 0 {
      BinTotalCounts(bins[1..], c[1..]);
    }
  }

  /** Bin `i` of those laid out from `lo` in steps of `size`. */
  function BinAt(lo: real, size: real, i: nat, count: nat): Bin {
    Bin(lo + i as real * size, lo + (i + 1) as real * size, count)
  }

  /** The bins `Array.from` lays out, carrying the final counters. */
  function MakeBins(lo: real, size: real, c: seq<nat>): (bins: seq<Bin>)
    ensures |bins| == |c|
    ensures forall i :: 0 <= i < |c| ==> bins[i] == BinAt(lo, size, i, c[i])
    ensures BinTotal(bins) == Total(c)
  {
    var bins := seq(|c|, i requires 0 <= i < |c| => BinAt(lo, size, i, c[i]));
    BinTotalCounts(bins, c);
    bins
  }

  /** `createBins`: no numbers give no bins; otherwise the bins cover
      `[min, min + n * size)` in steps of `size`, each counting the values
      whose index lands on it, so the counts add up to the number of values
      minus those whose index falls outside the bins. */
  function CreateBins(data: seq<Record>, field: string, size: real): (bins: seq<Bin>)
    requires size != 0.0
    ensures |FieldNumbers(Objects(data), field)| == 0 ==> bins == []
    ensures |FieldNumbers(Objects(data), field)| > 0 ==>
              var values := FieldNumbers(Objects(data), field);
              var lo := Minimum(values);
              && |bins| == BinCount(lo, Maximum(values), size)
              && (forall i :: 0 <= i < |bins| ==> bins[i] == BinAt(lo, size, i, CountAt(values, lo, size, i)))
              && BinTotal(bins) + Outside(values, lo, size, |bins|) == |values|
  {
    var values := FieldNumbers(Objects(data), field);
    if |values| == 0 then []
    else
      var lo := Minimum(values);
      var n := BinCount(lo, Maximum(values), size);
      MakeBins(lo, size, BinCounts(values, lo, size, n))
  }

  /** With a positive size there are exactly ceil((max - min) / size) bins. */
  lemma BinCountPositive(lo: real, hi: real, size: real)
    requires size > 0.0 && lo <= hi
    ensures BinCount(lo, hi, size) == Ceil((hi - lo) / size)
  {
    assert (hi - lo) / size >= 0.0;
  }

  /** All values equal (or a single value) give no bins at all. */
  lemma EqualValuesNoBins(values: seq<real>, size: real)
    requires |values| > 0 && size != 0.0
    requires forall x :: x in values ==> x == values[0]
    ensures BinCount(Minimum(values), Maximum(values), size) == 0
  {
  }

  /** A value counted in bin `i` lies inside that bin's range. */
  lemma BinContains(v: real, lo: real, size: real, i: int)
    requires size > 0.0 && BinIndex(v, lo, size) == i
    ensures lo + i as real * size <= v
    ensures v < lo + (i + 1) as real * size
  {
    var q := (v - lo) / size;
    var j := i as real;
    assert j <= q < j + 1.0;
    assert q * size == v - lo;
    MulMono(j, q, size);
    MulMono(q, j + 1.0, size);
    assert (i + 1) as real * size == (j + 1.0) * size;
    assert q * size < (j + 1.0) * size;
    assert v - lo < (j + 1.0) * size;
  }

  lemma MulMono(a: real, b: real, s: real)
    requires s > 0.0
    ensures a <= b ==> a * s <= b * s
    ensures a < b ==> a * s < b * s
  {
  }

  /** The values equal to the maximum are dropped when the range is an
      exact multiple of the size: 0 and 10 in bins of 5 give two bins and a
      total count of 1. */
  lemma MaximumOnBoundaryUncounted()
    ensures var bins := CreateBins([[Field("v", Real(0.0))], [Field("v", Real(10.0))]], "v", 5.0);
            |bins| == 2 && BinTotal(bins) == 1
  {
    var data := [[Field("v", Real(0.0))], [Field("v", Real(10.0))]];
    var items := Objects(data);
    assert items == [Obj(data[0]), Obj(data[1])];
    assert FieldNumbers(items[1..], "v") == [10.0] by {
      assert items[1..][1..] == [];
    }
    var values := FieldNumbers(items, "v");
    assert values == [0.0, 10.0];
    assert Minimum(values) == 0.0 && Maximum(values) == 10.0;
    assert BinCount(0.0, 10.0, 5.0) == 2;
    var bins := CreateBins(data, "v", 5.0);
    assert |bins| == 2;
    assert BinIndex(10.0, 0.0, 5.0) == 2;
    assert BinIndex(0.0, 0.0, 5.0) == 0;
    assert Outside(values, 0.0, 5.0, 2) == 1 by {
      assert values[..1] == [0.0];
      assert values[..1][..0] == [];
      assert Outside(values[..1], 0.0, 5.0, 2) == 0;
    }
  }

  // ---------------------------------------------------------------- metrics

  function Self(x: real): real { x }

  /** Sorting only rearranges: each sorted entry lies between the least and
      the greatest value. */
  lemma SortedMember(values: seq<real>, k: nat)
    requires k < |values|
    ensures |Lists.SortBy(values, Self)| == |values|
    ensures Minimum(values) <= Lists.SortBy(values, Self)[k] <= Maximum(values)
  {
    var s := Lists.SortBy(values, Self);
    assert |s| == |multiset(s)| == |multiset(values)| == |values|;
    assert s[k] in multiset(s);
    assert s[k] in values;
  }

  /** Entry `k` of the values in ascending order. */
  function SortedAt(values: seq<real>, k: nat): (x: real)
    requires k < |values|
    ensures Minimum(values) <= x <= Maximum(values)
  {
    SortedMember(values, k);
    Lists.SortBy(values, Self)[k]
  }

  /** How many of the values are at most `m`. */
  function CountAtMost(xs: seq<real>, m: real): nat
    decreases |xs|
  {
    if |xs| == 0 then 0 else (if xs[0] <= m then 1 else 0) + CountAtMost(xs[1..], m)
  }

  /** How many of the values are at least `m`. */
  function CountAtLeast(xs: seq<real>, m: real): nat
    decreases |xs|
  {
    if |xs| == 0 then 0 else (if m <= xs[0] then 1 else 0) + CountAtLeast(xs[1..], m)
  }

  /** `m` is the k-th smallest value, counting from 0: one of the values,
      with at least k + 1 values no larger and at least |xs| - k no smaller. */
  predicate OrderStatistic(xs: seq<real>, k: nat, m: real) {
    m in xs && CountAtMost(xs, m) >= k + 1 && CountAtLeast(xs, m) >= |xs| - k
  }

  lemma {:induction false} CountAppend(a: seq<real>, b: seq<real>, m: real)
    ensures CountAtMost(a + b, m) == CountAtMost(a, m) + CountAtMost(b, m)
    ensures CountAtLeast(a + b, m) == CountAtLeast(a, m) + CountAtLeast(b, m)
    decreases |a|
  {
    if |a| == 0 {
      assert a + b == b;
    } else {
      assert (a + b)[1..] == a[1..] + b;
      CountAppend(a[1..], b, m);
    }
  }

  /** The counts depend on the values only, not on their order. */
  lemma {:induction false} CountPermutation(a: seq<real>, b: seq<real>, m: real)
    requires multiset(a) == multiset(b)
    ensures CountAtMost(a, m) == CountAtMost(b, m)
    ensures CountAtLeast(a, m) == CountAtLeast(b, m)
    decreases |a|
  {
    if |a| == 0 {
      assert |b| == |multiset(b)| == 0;
    } else {
      var x := a[0];
      assert x in multiset(b);
      var j :| 0 <= j < |b| && b[j] == x;
      var rest := b[..j] + b[j + 1..];
      assert multiset(a[1..]) == multiset(rest) by {
        assert a == [x] + a[1..];
        assert multiset(a[1..]) == multiset(a) - multiset{x};
        assert b == b[..j] + [x] + b[j + 1..];
        assert multiset(b) == multiset(b[..j]) + multiset{x} + multiset(b[j + 1..]);
      }
      CountPermutation(a[1..], rest, m);
      CountRemove(b, j, m);
    }
  }

  /** Taking out entry j takes its own contribution out of each count. */
  lemma CountRemove(b: seq<real>, j: nat, m: real)
    requires j < |b|
    ensures CountAtMost(b, m) == CountAtMost(b[..j] + b[j + 1..], m) + (if b[j] <= m then 1 else 0)
    ensures CountAtLeast(b, m) == CountAtLeast(b[..j] + b[j + 1..], m) + (if m <= b[j] then 1 else 0)
  {
    assert b == b[..j] + [b[j]] + b[j + 1..];
    CountAppend(b[..j] + [b[j]], b[j + 1..], m);
    CountAppend(b[..j], [b[j]], m);
    CountAppend(b[..j], b[j + 1..], m);
  }

  /** When every value is at most (at least) `m`, all of them count. */
  lemma {:induction false} CountAll(xs: seq<real>, m: real)
    ensures (forall i :: 0 <= i < |xs| ==> xs[i] <= m) ==> CountAtMost(xs, m) == |xs|
    ensures (forall i :: 0 <= i < |xs| ==> m <= xs[i]) ==> CountAtLeast(xs, m) == |xs|
    decreases |xs|
  {
    if |xs| > 0 {
      CountAll(xs[1..], m);
      assert forall i :: 1 <= i < |xs| ==> xs[1..][i - 1] == xs[i];
    }
  }

  /** Below `a < b`, no value is counted both at most `a` and at least `b`. */
  lemma {:induction false} CountsDisjoint(xs: seq<real>, a: real, b: real)
    requires a < b
    ensures CountAtMost(xs, a) + CountAtLeast(xs, b) <= |xs|
    decreases |xs|
  {
    if |xs| > 0 {
      CountsDisjoint(xs[1..], a, b);
    }
  }

  /** Entry k of a sorted list is its k-th smallest value. */
  lemma SortedOrderStatistic(s: seq<real>, k: nat)
    requires Lists.SortedBy(s, Self) && k < |s|
    ensures OrderStatistic(s, k, s[k])
  {
    SortedAtMost(s, k);
    SortedAtLeast(s, k);
  }

  lemma SortedAtMost(s: seq<real>, k: nat)
    requires Lists.SortedBy(s, Self) && k < |s|
    ensures CountAtMost(s, s[k]) >= k + 1
  {
    var pre, post := s[..k + 1], s[k + 1..];
    assert s == pre + post;
    CountAppend(pre, post, s[k]);
    SortedSides(s, k, pre, s[k..]);
    CountAll(pre, s[k]);
  }

  lemma SortedAtLeast(s: seq<real>, k: nat)
    requires Lists.SortedBy(s, Self) && k < |s|
    ensures CountAtLeast(s, s[k]) >= |s| - k
  {
    var pre, post := s[..k], s[k..];
    assert s == pre + post;
    CountAppend(pre, post, s[k]);
    SortedSides(s, k, s[..k + 1], post);
    CountAll(post, s[k]);
  }

  /** In a sorted list, entry k bounds everything up to it from above and
      everything from it on from below. */
  lemma SortedSides(s: seq<real>, k: nat, upTo: seq<real>, from: seq<real>)
    requires Lists.SortedBy(s, Self) && k < |s|
    requires upTo == s[..k + 1] && from == s[k..]
    ensures forall i :: 0 <= i < |upTo| ==> upTo[i] <= s[k]
    ensures forall i :: 0 <= i < |from| ==> s[k] <= from[i]
  {
    forall i | 0 <= i < k + 1
      ensures upTo[i] <= s[k]
    {
      assert i < k ==> Self(s[i]) <= Self(s[k]);
    }
    forall i | 0 <= i < |s| - k
      ensures s[k] <= from[i]
    {
      assert 0 < i ==> Self(s[k]) <= Self(s[k + i]);
    }
  }

  /** Entry k of the values in ascending order is their k-th smallest value. */
  lemma SortedAtOrderStatistic(values: seq<real>, k: nat)
    requires k < |values|
    ensures OrderStatistic(values, k, SortedAt(values, k))
  {
    var s := Lists.SortBy(values, Self);
    SortedMember(values, k);
    SortedOrderStatistic(s, k);
    CountPermutation(s, values, s[k]);
    assert s[k] in multiset(s);
  }

  /** There is only one k-th smallest value. */
  lemma OrderStatisticUnique(xs: seq<real>, k: nat, a: real, b: real)
    requires OrderStatistic(xs, k, a) && OrderStatistic(xs, k, b)
    ensures a == b
  {
    if a < b {
      CountsDisjoint(xs, a, b);
    } else if b < a {
      CountsDisjoint(xs, b, a);
    }
  }

  /** The middle of the sorted values, or the mean of the two middle ones
      for an even count. */
  function Median(values: seq<real>): (m: real)
    requires |values| > 0
    ensures Minimum(values) <= m <= Maximum(values)
  {
    var mid := |values| / 2;
    if |values| % 2 != 0 then SortedAt(values, mid)
    else (SortedAt(values, mid - 1) + SortedAt(values, mid)) / 2.0
  }

  /** `lo` and `hi` are the two middle values of an even count. */
  predicate MiddlePair(values: seq<real>, lo: real, hi: real)
    requires |values| >= 2
  {
    OrderStatistic(values, |values| / 2 - 1, lo) && OrderStatistic(values, |values| / 2, hi)
  }

  /** The median is the middle order statistic of an odd count and the mean
      of the two middle ones of an even count, whatever order the values
      come in. */
  lemma MedianOrder(values: seq<real>)
    requires |values| > 0
    ensures |values| % 2 == 1 ==> OrderStatistic(values, |values| / 2, Median(values))
    ensures |values| % 2 == 0 ==>
              exists lo, hi :: MiddlePair(values, lo, hi) && Median(values) == (lo + hi) / 2.0
  {
    if |values| % 2 == 1 {
      MedianOdd(values);
    } else {
      MedianEven(values);
    }
  }

  lemma MedianOdd(values: seq<real>)
    requires |values| % 2 == 1
    ensures OrderStatistic(values, |values| / 2, Median(values))
  {
    SortedAtOrderStatistic(values, |values| / 2);
  }

  lemma MedianEven(values: seq<real>)
    requires |values| > 0 && |values| % 2 == 0
    ensures MiddlePair(values, SortedAt(values, |values| / 2 - 1), SortedAt(values, |values| / 2))
    ensures Median(values) == (SortedAt(values, |values| / 2 - 1) + SortedAt(values, |values| / 2)) / 2.0
  {
    SortedAtOrderStatistic(values, |values| / 2 - 1);
    SortedAtOrderStatistic(values, |values| / 2);
  }

  /** `calculateMetric`: no numbers give 0, an unknown metric gives 0. */
  function CalculateMetric(data: seq<Record>, field: string, metric: string): (r: real)
    ensures var values := FieldNumbers(Objects(data), field);
            && (|values| == 0 ==> r == 0.0)
            && (metric !in {"average", "median", "min", "max"} ==> r == 0.0)
            && (|values| > 0 && metric in {"average", "median", "min", "max"} ==>
                  Minimum(values) <= r <= Maximum(values))
            && (metric == "average" ==> r == CalculateAggregate(values, "average"))
            && (|values| > 0 && metric == "median" ==> r == Median(values))
            && (|values| > 0 && metric == "min" ==> r == Minimum(values))
            && (|values| > 0 && metric == "max" ==> r == Maximum(values))
  {
    var values := FieldNumbers(Objects(data), field);
    if |values| == 0 then 0.0
    else if metric == "average" then
      AverageBounds(values);
      Sum(values) / |values| as real
    else if metric == "median" then Median(values)
    else if metric == "min" then Minimum(values)
    else if metric == "max" then Maximum(values)
    else 0.0
  }

  // ---------------------------------------------------------------- dispatch

  datatype Transformed = Binned(bins: seq<Bin>) | Aggregated(rows: seq<AggRow>)

  /** `transformData`: bins when asked for `'bin'` with a truthy size,
      otherwise group and aggregate on the same field; the grouping's
      TypeError, when a key names an inherited property, escapes. */
  function TransformData(data: seq<Record>, kind: string, field: string, binSize: Option<real>): (t: Result<Transformed, string>)
    ensures t.Ok? && t.value.Binned? <==> kind == "bin" && binSize.Some? && binSize.value != 0.0
    ensures t.Ok? && t.value.Binned? ==> t.value.bins == CreateBins(data, field, binSize.value)
    ensures t.Err? <==> !(kind == "bin" && binSize.Some? && binSize.value != 0.0) && MeetsInherited(data, FieldKey(field))
    ensures t.Ok? && t.value.Aggregated? ==> t.value.rows == AggregateData(Groups(data, field), field, kind)
  {
    if kind == "bin" && binSize.Some? && binSize.value != 0.0 then
      Ok(Binned(CreateBins(data, field, binSize.value)))
    else
      match GroupData(data, field)
      case Err(e) => Err(e)
      case Ok(groups) => Ok(Aggregated(AggregateData(groups, field, kind)))
  }

  /** The aggregated path has a row for every key some point has. */
  lemma GroupedRowsCover(data: seq<Record>, field: string, kind: string)
    ensures var rows := AggregateData(Groups(data, field), field, kind);
            forall k :: k in Lists.KeysOf(data, FieldKey(field)) ==> exists i :: 0 <= i < |rows| && rows[i].category == k
  {
    forall k | k in Lists.KeysOf(data, FieldKey(field)) {
      GroupedRowCovers(data, field, kind, k);
    }
  }

  lemma GroupedRowCovers(data: seq<Record>, field: string, kind: string, k: string)
    requires k in Lists.KeysOf(data, FieldKey(field))
    ensures var rows := AggregateData(Groups(data, field), field, kind);
            exists i :: 0 <= i < |rows| && rows[i].category == k
  {
    var groups := Groups(data, field);
    var rows := AggregateData(groups, field, kind);
    var keys := OwnKeys(groups);
    OwnKeysMembers(groups);
    assert k in RawKeys(groups);
    assert k in keys;
    var i :| 0 <= i < |keys| && keys[i] == k;
    assert rows[i].category == k;
  }

  /** Row `i` of the aggregated path: its key is one some point has, it
      counts the points with that key and aggregates the numbers among them. */
  lemma GroupedRowAt(data: seq<Record>, field: string, kind: string, i: nat)
    requires i < |AggregateData(Groups(data, field), field, kind)|
    ensures var row := AggregateData(Groups(data, field), field, kind)[i];
            var members := Members(data, FieldKey(field), row.category);
            && row.category in Lists.KeysOf(data, FieldKey(field))
            && row.count == |members|
            && row.value == CalculateAggregate(FieldNumbers(members, field), kind)
  {
    var groups := Groups(data, field);
    var rows := AggregateData(groups, field, kind);
    var keys := OwnKeys(groups);
    var k := keys[i];
    OwnKeysMembers(groups);
    assert k in RawKeys(groups);
    GroupByGet(data, FieldKey(field));
    var members := Members(data, FieldKey(field), k);
    assert Get(groups, k) == Arr(members);
    assert rows[i] == AggRow(k, CalculateAggregate(FieldNumbers(members, field), kind), |members|);
  }

  /** Each row of the aggregated path belongs to a key some point has,
      counts the points with that key and aggregates the numbers among
      them. */
  lemma GroupedRowsCount(data: seq<Record>, field: string, kind: string)
    ensures var rows := AggregateData(Groups(data, field), field, kind);
            forall i :: 0 <= i < |rows| ==>
              && rows[i].category in Lists.KeysOf(data, FieldKey(field))
              && rows[i].count == |Members(data, FieldKey(field), rows[i].category)|
              && rows[i].value == CalculateAggregate(FieldNumbers(Members(data, FieldKey(field), rows[i].category), field), kind)
  {
    var rows := AggregateData(Groups(data, field), field, kind);
    forall i | 0 <= i < |rows|
      ensures rows[i].category in Lists.KeysOf(data, FieldKey(field))
      ensures rows[i].count == |Members(data, FieldKey(field), rows[i].category)|
      ensures rows[i].value == CalculateAggregate(FieldNumbers(Members(data, FieldKey(field), rows[i].category), field), kind)
    {
      GroupedRowAt(data, field, kind, i);
    }
  }
}
