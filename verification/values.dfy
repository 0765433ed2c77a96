/** JavaScript values as the front end and the Express controllers see them:
    numbers (with NaN and the infinities), strings, booleans, null, undefined,
    arrays and plain objects. An object is an association list in insertion
    order; `Object.keys` reorders integer-like keys first. */
module Values {
  import opened Wrappers
  import opened Text
  import Lists

  /** A JavaScript number; `+0` and `-0` are not distinguished. */
  datatype Number = Finite(r: real) | NaN | Infinity(negative: bool)

  /** `a < b`: false whenever either side is NaN. */
  predicate Less(a: Number, b: Number) {
    match (a, b)
    case (NaN, _) => false
    case (_, NaN) => false
    case (Finite(x), Finite(y)) => x < y
    case (Infinity(na), Infinity(nb)) => na && !nb
    case (Infinity(na), Finite(_)) => na
    case (Finite(_), Infinity(nb)) => !nb
  }

  datatype Value =
    | Num(n: Number)
    | Str(s: string)
    | Bool(b: bool)
    | Null
    | Undefined
    | Arr(elems: seq<Value>)
    | Obj(fields: Record)

  datatype Field = Field(key: string, val: Value)

  /** A plain object: its own properties in insertion order. */
  type Record = seq<Field>

  function Real(x: real): Value {
    Num(Finite(x))
  }

  // ---------------------------------------------------------------- objects

  /** The property names in insertion order. */
  function RawKeys(r: Record): (ks: seq<string>)
    ensures |ks| == |r|
    ensures forall i :: 0 <= i < |r| ==> ks[i] == r[i].key
    decreases |r|
  {
    if |r| == 0 then [] else [r[0].key] + RawKeys(r[1..])
  }

  /** The names of the properties every plain object inherits from
      `Object.prototype`; each is truthy and none is an array. */
  const ObjectPrototypeKeys: set<string> :=
    {"constructor", "__proto__", "hasOwnProperty", "isPrototypeOf", "propertyIsEnumerable",
     "toLocaleString", "toString", "valueOf", "__defineGetter__", "__defineSetter__",
     "__lookupGetter__", "__lookupSetter__"}

  /** `o[k]` on a plain object: the value of the first own property named
      `k`, `undefined` when there is none. Inherited properties are not
      read here; the grouping code, where they matter, handles
      `ObjectPrototypeKeys` itself. */
  function Get(r: Record, k: string): (v: Value)
    ensures k !in RawKeys(r) ==> v == Undefined
    decreases |r|
  {
    if |r| == 0 then Undefined
    else if r[0].key == k then r[0].val
    else Get(r[1..], k)
  }

  /** A property is read from its first occurrence. */
  lemma {:induction false} GetFirst(r: Record, k: string, i: nat)
    requires i < |r| && r[i].key == k && k !in RawKeys(r[..i])
    ensures Get(r, k) == r[i].val
    decreases i
  {
    if i > 0 {
      var tail := r[1..];
      assert r[0].key != k by {
        assert RawKeys(r[..i])[0] == r[0].key;
      }
      assert k !in RawKeys(tail[..i - 1]) by {
        var front := r[..i];
        assert front[1..] == tail[..i - 1];
        assert RawKeys(front) == [r[0].key] + RawKeys(tail[..i - 1]);
      }
      GetFirst(tail, k, i - 1);
    }
  }

  /** `o[k] = v` on a plain object: an existing property keeps its place,
      a new one goes to the end. */
  function Put(r: Record, k: string, v: Value): (r': Record)
    ensures Get(r', k) == v
    ensures forall k' :: k' != k ==> Get(r', k') == Get(r, k')
    ensures RawKeys(r') == if k in RawKeys(r) then RawKeys(r) else RawKeys(r) + [k]
    decreases |r|
  {
    if |r| == 0 then [Field(k, v)]
    else if r[0].key == k then
      var r' := [Field(k, v)] + r[1..];
      assert r'[1..] == r[1..];
      r'
    else
      var rest := Put(r[1..], k, v);
      var r' := [r[0]] + rest;
      assert r'[1..] == rest;
      r'
  }

  /** The object literal `{k0: v0, k1: v1, ...}`. */
  function Literal(keys: seq<string>, vals: seq<Value>): (r: Record)
    requires |keys| == |vals|
    ensures RawKeys(r) == keys
    decreases |keys|
  {
    if |keys| == 0 then [] else [Field(keys[0], vals[0])] + Literal(keys[1..], vals[1..])
  }

  /** With distinct names, every property of a literal reads back the value
      written beside it. */
  lemma LiteralGets(keys: seq<string>, vals: seq<Value>)
    requires |keys| == |vals| && Lists.NoDups(keys)
    ensures forall i :: 0 <= i < |keys| ==> Get(Literal(keys, vals), keys[i]) == vals[i]
  {
    forall i | 0 <= i < |keys|
      ensures Get(Literal(keys, vals), keys[i]) == vals[i]
    {
      LiteralGet(keys, vals, i);
    }
  }

  /** A property of a literal reads back the value written beside its first
      occurrence. */
  lemma {:induction false} LiteralGet(keys: seq<string>, vals: seq<Value>, i: nat)
    requires |keys| == |vals| && i < |keys| && Lists.NoDups(keys)
    ensures Get(Literal(keys, vals), keys[i]) == vals[i]
    decreases i
  {
    var k := keys[i];
    var rest := Literal(keys[1..], vals[1..]);
    assert Literal(keys, vals) == [Field(keys[0], vals[0])] + rest;
    GetCons(Field(keys[0], vals[0]), rest, k);
    if i > 0 {
      var tail := keys[1..];
      assert tail[i - 1] == k;
      assert Lists.NoDups(tail) by {
        forall a, b | 0 <= a < b < |tail| ensures tail[a] != tail[b] {
          assert tail[a] == keys[a + 1] && tail[b] == keys[b + 1];
        }
      }
      LiteralGet(tail, vals[1..], i - 1);
    }
  }

  /** Reading a property of an object literal: the leading property answers
      for its own name, the rest of the literal for every other name. */
  lemma GetCons(f: Field, r: Record, k: string)
    ensures Get([f] + r, k) == if f.key == k then f.val else Get(r, k)
  {
    assert ([f] + r)[1..] == r;
  }

  /** Reading a property right after writing it gives the written value. */
  lemma PutGet(r: Record, k: string, v: Value)
    ensures Get(Put(r, k, v), k) == v
  {
  }

  /** Writing the value a property already has changes nothing. */
  lemma {:induction false} PutExisting(r: Record, k: string, v: Value)
    requires k in RawKeys(r) && Get(r, k) == v
    ensures Put(r, k, v) == r
    decreases |r|
  {
    if r[0].key == k {
      assert r == [Field(k, v)] + r[1..];
    } else {
      assert RawKeys(r) == [r[0].key] + RawKeys(r[1..]);
      assert Get(r[1..], k) == v;
      PutExisting(r[1..], k, v);
      assert Put(r, k, v) == [r[0]] + Put(r[1..], k, v);
      assert [r[0]] + r[1..] == r;
    }
  }

  /** A canonical array index: digits without a leading zero, below 2^32 - 1. */
  predicate IsArrayIndex(k: string) {
    |k| >= 1 && AllDigits(k) && (|k| == 1 || k[0] != '0') && ParseNat(k) < 0xFFFF_FFFF
  }

  function IndexValue(k: string): real {
    if AllDigits(k) then ParseNat(k) as real else 0.0
  }

  predicate NotIndex(k: string) {
    !IsArrayIndex(k)
  }

  /** `Object.keys(o)`: array-index keys in ascending numeric order, then the
      other keys in insertion order. */
  function OwnKeys(r: Record): seq<string> {
    var raw := RawKeys(r);
    Lists.SortBy(Lists.Filter(raw, IsArrayIndex), IndexValue) + Lists.Filter(raw, NotIndex)
  }

  /** `Object.keys` lists every own key once, integer-like keys first and in
      ascending order, and the others in the order they were added. */
  lemma OwnKeysOrder(r: Record)
    ensures multiset(OwnKeys(r)) == multiset(RawKeys(r))
    ensures forall i, j :: 0 <= i < j < |OwnKeys(r)| && IsArrayIndex(OwnKeys(r)[j]) ==>
              IsArrayIndex(OwnKeys(r)[i]) && IndexValue(OwnKeys(r)[i]) <= IndexValue(OwnKeys(r)[j])
    ensures Lists.IsSubseq(Lists.Filter(OwnKeys(r), NotIndex), RawKeys(r))
  {
    var raw := RawKeys(r);
    var idx := Lists.Filter(raw, IsArrayIndex);
    var other := Lists.Filter(raw, NotIndex);
    var sorted := Lists.SortBy(idx, IndexValue);
    assert OwnKeys(r) == sorted + other;
    OwnKeysPermutation(raw, idx, other, sorted);
    SortedAreIndices(idx, sorted);
    IndicesFirst(sorted, other);
    OtherKeysInOrder(raw, other, sorted);
  }

  /** `Object.keys` lists exactly the own keys. */
  lemma OwnKeysMembers(r: Record)
    ensures forall k :: k in OwnKeys(r) <==> k in RawKeys(r)
  {
    var raw := RawKeys(r);
    var idx := Lists.Filter(raw, IsArrayIndex);
    var other := Lists.Filter(raw, NotIndex);
    var sorted := Lists.SortBy(idx, IndexValue);
    OwnKeysPermutation(raw, idx, other, sorted);
    forall k ensures k in OwnKeys(r) <==> k in raw {
      assert k in OwnKeys(r) <==> k in multiset(sorted + other);
      assert k in raw <==> k in multiset(raw);
    }
  }

  lemma OwnKeysPermutation(raw: seq<string>, idx: seq<string>, other: seq<string>, sorted: seq<string>)
    requires idx == Lists.Filter(raw, IsArrayIndex) && other == Lists.Filter(raw, NotIndex)
    requires multiset(sorted) == multiset(idx)
    ensures multiset(sorted + other) == multiset(raw)
  {
    Lists.FilterPartition(raw, IsArrayIndex, NotIndex);
  }

  lemma OtherKeysInOrder(raw: seq<string>, other: seq<string>, sorted: seq<string>)
    requires other == Lists.Filter(raw, NotIndex)
    requires forall k :: k in sorted ==> IsArrayIndex(k)
    ensures Lists.IsSubseq(Lists.Filter(sorted + other, NotIndex), raw)
  {
    Lists.FilterAll(other, NotIndex);
    NoneKept(sorted, NotIndex);
    Lists.FilterAppend(sorted, other, NotIndex);
    assert [] + other == other;
  }

  lemma IndicesFirst(sorted: seq<string>, other: seq<string>)
    requires forall k :: k in sorted ==> IsArrayIndex(k)
    requires forall k :: k in other ==> NotIndex(k)
    requires Lists.SortedBy(sorted, IndexValue)
    ensures forall i, j :: 0 <= i < j < |sorted + other| && IsArrayIndex((sorted + other)[j]) ==>
              IsArrayIndex((sorted + other)[i]) && IndexValue((sorted + other)[i]) <= IndexValue((sorted + other)[j])
  {
    var ks := sorted + other;
    forall m | |sorted| <= m < |ks|
      ensures NotIndex(ks[m])
    {
      assert ks[m] == other[m - |sorted|];
    }
    forall i, j | 0 <= i < j < |ks| && IsArrayIndex(ks[j])
      ensures IsArrayIndex(ks[i]) && IndexValue(ks[i]) <= IndexValue(ks[j])
    {
      assert ks[i] == sorted[i] && ks[j] == sorted[j];
    }
  }

  lemma SortedAreIndices(idx: seq<string>, sorted: seq<string>)
    requires forall k :: k in idx ==> IsArrayIndex(k)
    requires multiset(sorted) == multiset(idx)
    ensures forall k :: k in sorted ==> IsArrayIndex(k)
  {
    forall k | k in sorted ensures IsArrayIndex(k) {
      assert k in multiset(sorted);
      assert k in idx;
    }
  }

  lemma {:induction false} NoneKept(xs: seq<string>, p: string -> bool)
    requires forall x :: x in xs ==> !p(x)
    ensures Lists.Filter(xs, p) == []
    decreases |xs|
  {
    if |xs| > 0 {
      NoneKept(xs[1..], p);
    }
  }

  /** When no key looks like an array index, `Object.keys` is insertion order. */
  lemma OwnKeysInsertionOrder(r: Record)
    requires forall i :: 0 <= i < |r| ==> !IsArrayIndex(r[i].key)
    ensures OwnKeys(r) == RawKeys(r)
  {
    var raw := RawKeys(r);
    NoneKept(raw, IsArrayIndex);
    Lists.FilterAll(raw, NotIndex);
  }

  /** The index keys `"0"` .. `n - 1` of an array or string of length `n`. */
  function IndexKeys(n: nat): (ks: seq<string>)
    ensures |ks| == n && forall i :: 0 <= i < n ==> ks[i] == NatToString(i)
  {
    seq(n, i requires 0 <= i < n => NatToString(i))
  }

  const NullAccess := "TypeError: Cannot convert undefined or null to object"

  /** `Object.keys(v)` for any value: null and undefined throw; strings and
      arrays list their indices; numbers and booleans have no own keys. */
  function ObjectKeys(v: Value): Result<seq<string>, string> {
    match v
    case Null => Err(NullAccess)
    case Undefined => Err(NullAccess)
    case Obj(fs) => Ok(OwnKeys(fs))
    case Arr(es) => Ok(IndexKeys(|es|))
    case Str(s) => Ok(IndexKeys(|s|))
    case Num(_) => Ok([])
    case Bool(_) => Ok([])
  }

  /** `v[k]` for any value: null and undefined throw; arrays and strings answer
      their indices and `length`; other properties of primitives (the prototype
      methods) are taken to be `undefined`. */
  function Prop(v: Value, k: string): (r: Result<Value, string>)
    ensures r.Err? <==> v.Null? || v.Undefined?
    ensures v.Obj? ==> r == Ok(Get(v.fields, k))
  {
    match v
    case Null => Err(NullAccess)
    case Undefined => Err(NullAccess)
    case Obj(fs) => Ok(Get(fs, k))
    case Arr(es) =>
      if IsArrayIndex(k) && ParseNat(k) < |es| then Ok(es[ParseNat(k)])
      else if k == "length" then Ok(Real(|es| as real))
      else Ok(Undefined)
    case Str(s) =>
      if IsArrayIndex(k) && ParseNat(k) < |s| then Ok(Str([s[ParseNat(k)]]))
      else if k == "length" then Ok(Real(|s| as real))
      else Ok(Undefined)
    case Num(_) => Ok(Undefined)
    case Bool(_) => Ok(Undefined)
  }

  /** The decimal numeral of an index is an array-index key naming that index. */
  lemma IndexKeyOfNumeral(i: nat)
    requires i < 0xFFFF_FFFF
    ensures IsArrayIndex(NatToString(i)) && ParseNat(NatToString(i)) == i
  {
    ParseNatToString(i);
  }

  /** Every key `Object.keys` lists for an array reads back its element. */
  lemma ArrayKeysReadBack(es: seq<Value>)
    requires |es| < 0xFFFF_FFFF
    ensures ObjectKeys(Arr(es)).Ok?
    ensures forall i :: 0 <= i < |es| ==> Prop(Arr(es), ObjectKeys(Arr(es)).value[i]) == Ok(es[i])
  {
    forall i | 0 <= i < |es| ensures Prop(Arr(es), ObjectKeys(Arr(es)).value[i]) == Ok(es[i]) {
      IndexKeyOfNumeral(i);
    }
  }

  // ---------------------------------------------------------------- conversions

  /** `String(n)` for a number. */
  function NumberText(n: Number): string {
    match n
    case Finite(x) => ShowNumber(x)
    case NaN => "NaN"
    case Infinity(neg) => if neg then "-Infinity" else "Infinity"
  }

  /** `String(v)`: arrays join their elements with commas, rendering null and
      undefined elements as empty text; plain objects print as
      `[object Object]`. */
  function ToString(v: Value): string
    decreases v
  {
    match v
    case Num(n) => NumberText(n)
    case Str(s) => s
    case Bool(b) => if b then "true" else "false"
    case Null => "null"
    case Undefined => "undefined"
    case Arr(es) =>
      Join(seq(|es|, i requires 0 <= i < |es| =>
                 if es[i].Null? || es[i].Undefined? then "" else ToString(es[i])), ',')
    case Obj(_) => "[object Object]"
  }

  /** `Number(s)` for a string. */
  function TextNumber(s: string): Number {
    match StringToNumber(s)
    case Some(x) => Finite(x)
    case None => NaN
  }

  /** `Number(v)`: null is 0, undefined is NaN, booleans are 1 and 0, arrays go
      through their string form, plain objects are NaN. */
  function ToNumber(v: Value): Number {
    match v
    case Num(n) => n
    case Str(s) => TextNumber(s)
    case Bool(b) => Finite(if b then 1.0 else 0.0)
    case Null => Finite(0.0)
    case Undefined => NaN
    case Arr(_) => TextNumber(ToString(v))
    case Obj(_) => NaN
  }

  /** `parseFloat(v)`: the longest decimal prefix of `String(v)`. */
  function ParseFloat(v: Value): Number {
    match ParseFloatText(ToString(v))
    case Some(x) => Finite(x)
    case None => NaN
  }

  /** JavaScript truthiness. */
  predicate Truthy(v: Value) {
    match v
    case Num(n) => !(n.NaN? || n == Finite(0.0))
    case Str(s) => s != ""
    case Bool(b) => b
    case Null => false
    case Undefined => false
    case Arr(_) => true
    case Obj(_) => true
  }

  /** `a || b`. */
  function Or(a: Value, b: Value): (r: Value)
    ensures Truthy(a) ==> r == a
    ensures !Truthy(a) ==> r == b
  {
    if Truthy(a) then a else b
  }

  /** `a === b`: NaN equals nothing; arrays and objects are compared by
      structure, as object identity is not modelled. */
  predicate StrictEquals(a: Value, b: Value) {
    a != Num(NaN) && a == b
  }

  /** `typeof v === 'number'`. */
  predicate IsNumber(v: Value) {
    v.Num?
  }

  /** A natural number survives `String` and then `Number`. */
  lemma NumberOfText(n: nat)
    ensures ToNumber(Str(ToString(Real(n as real)))) == Finite(n as real)
  {
    ShowNatural(n);
    NumberOfNumeral(n);
  }

  /** A one-element array converts like its element (`Number([5]) === 5`). */
  lemma NumberOfSingleton(n: nat)
    ensures ToNumber(Arr([Real(n as real)])) == Finite(n as real)
  {
    var es := [Real(n as real)];
    var parts := seq(|es|, i requires 0 <= i < |es| =>
                   if es[i].Null? || es[i].Undefined? then "" else ToString(es[i]));
    assert parts == [ToString(Real(n as real))];
    assert ToString(Arr(es)) == Join(parts, ',');
    assert Join(parts, ',') == ToString(Real(n as real));
    assert ToNumber(Arr(es)) == TextNumber(ToString(Arr(es)));
    assert TextNumber(ToString(Real(n as real))) == ToNumber(Str(ToString(Real(n as real))));
    NumberOfText(n);
  }
}
