/** Sequence helpers behind `Array.prototype.filter`, `[...new Set(xs)]`,
    `splice`-style removal and `sort`, with the facts the other modules use. */
module Lists {
  import opened Wrappers

  /** `a` can be obtained from `b` by deleting elements: same order, nothing new. */
  predicate IsSubseq<T(==)>(a: seq<T>, b: seq<T>)
    decreases |b|
  {
    if |a| == 0 then true
    else if |b| == 0 then false
    else if a[0] == b[0] then IsSubseq(a[1..], b[1..])
    else IsSubseq(a, b[1..])
  }

  lemma {:induction false} SubseqRefl<T>(a: seq<T>)
    ensures IsSubseq(a, a)
    decreases |a|
  {
    if |a| > 0 {
      SubseqRefl(a[1..]);
    }
  }

  lemma {:induction false} SubseqElements<T>(a: seq<T>, b: seq<T>)
    requires IsSubseq(a, b)
    ensures |a| <= |b|
    ensures forall x :: x in a ==> x in b
    decreases |b|
  {
    if |a| > 0 && |b| > 0 {
      if a[0] == b[0] {
        SubseqElements(a[1..], b[1..]);
        assert a == [a[0]] + a[1..];
        assert b == [b[0]] + b[1..];
      } else {
        SubseqElements(a, b[1..]);
        assert b == [b[0]] + b[1..];
      }
    }
  }

  /** Prefixes of a subsequence relation: deleting the same tail keeps it. */
  lemma {:induction false} SubseqPrefix<T>(a: seq<T>, b: seq<T>, n: nat)
    requires n <= |a| && IsSubseq(a, b)
    ensures IsSubseq(a[..n], b)
    decreases |b|
  {
    if n > 0 && |b| > 0 {
      if a[0] == b[0] {
        SubseqPrefix(a[1..], b[1..], n - 1);
        assert a[..n][1..] == a[1..][..n - 1];
      } else {
        SubseqPrefix(a, b[1..], n);
      }
    }
  }

  /** Keep the elements that satisfy `p`, in order (`xs.filter(p)`). */
  function Filter<T(!new)>(xs: seq<T>, p: T -> bool): (r: seq<T>)
    ensures |r| <= |xs|
    ensures forall x :: x in r <==> x in xs && p(x)
    ensures IsSubseq(r, xs)
    decreases |xs|
  {
    if |xs| == 0 then []
    else
      var rest := Filter(xs[1..], p);
      assert forall x :: x in xs <==> x == xs[0] || x in xs[1..];
      if p(xs[0]) then
        assert ([xs[0]] + rest)[1..] == rest;
        [xs[0]] + rest
      else
        assert |rest| > 0 ==> rest[0] in xs[1..];
        SubseqSkip(rest, xs);
        rest
  }

  /** If every element passes, filtering changes nothing. */
  lemma {:induction false} FilterAll<T(!new)>(xs: seq<T>, p: T -> bool)
    requires forall x :: x in xs ==> p(x)
    ensures Filter(xs, p) == xs
    decreases |xs|
  {
    if |xs| > 0 {
      FilterAll(xs[1..], p);
    }
  }

  /** Two tests that agree everywhere filter alike. */
  lemma {:induction false} FilterSame<T(!new)>(xs: seq<T>, p: T -> bool, q: T -> bool)
    requires forall x :: p(x) == q(x)
    ensures Filter(xs, p) == Filter(xs, q)
    decreases |xs|
  {
    if |xs| > 0 {
      FilterSame(xs[1..], p, q);
    }
  }

  /** Filtering twice keeps what passes both tests. */
  lemma {:induction false} FilterFilter<T(!new)>(xs: seq<T>, p: T -> bool, q: T -> bool, pq: T -> bool)
    requires forall x :: pq(x) == (p(x) && q(x))
    ensures Filter(Filter(xs, p), q) == Filter(xs, pq)
    decreases |xs|
  {
    if |xs| > 0 {
      FilterFilter(xs[1..], p, q, pq);
      if p(xs[0]) {
        assert Filter(xs, p) == [xs[0]] + Filter(xs[1..], p);
        assert ([xs[0]] + Filter(xs[1..], p))[1..] == Filter(xs[1..], p);
      }
    }
  }

  /** `xs.find(p)`: the first element passing `p`. */
  function Find<T(==,!new)>(xs: seq<T>, p: T -> bool): (r: Option<T>)
    ensures r.None? <==> forall x :: x in xs ==> !p(x)
    ensures r.Some? ==> exists i :: 0 <= i < |xs| && xs[i] == r.value && p(r.value)
                          && forall j :: 0 <= j < i ==> !p(xs[j])
    decreases |xs|
  {
    if |xs| == 0 then None
    else if p(xs[0]) then Some(xs[0])
    else
      var r := Find(xs[1..], p);
      assert forall x :: x in xs ==> x == xs[0] || x in xs[1..];
      if r.Some? then
        var i :| 0 <= i < |xs[1..]| && xs[1..][i] == r.value && p(r.value)
                 && forall j :: 0 <= j < i ==> !p(xs[1..][j]);
        assert xs[i + 1] == r.value;
        r
      else r
  }

  /** `Find` returns the element at the first index passing the test. */
  lemma FindFirst<T(!new)>(xs: seq<T>, p: T -> bool, i: nat)
    requires i < |xs| && p(xs[i]) && forall j :: 0 <= j < i ==> !p(xs[j])
    ensures Find(xs, p) == Some(xs[i])
  {
    var r := Find(xs, p);
    var k :| 0 <= k < |xs| && xs[k] == r.value && p(r.value) && forall j :: 0 <= j < k ==> !p(xs[j]);
    assert !(k < i) && !(i < k);
  }

  /** Being a prefix is transitive. */
  lemma PrefixTrans<T>(a: seq<T>, b: seq<T>, c: seq<T>)
    requires a <= b && b <= c
    ensures a <= c
  {
    assert forall i :: 0 <= i < |a| ==> a[i] == b[i] == c[i];
  }

  /** Filtering commutes with concatenation. */
  lemma {:induction false} FilterAppend<T(!new)>(xs: seq<T>, ys: seq<T>, p: T -> bool)
    ensures Filter(xs + ys, p) == Filter(xs, p) + Filter(ys, p)
    decreases |xs|
  {
    if |xs| == 0 {
      assert xs + ys == ys;
    } else {
      assert (xs + ys)[1..] == xs[1..] + ys;
      FilterAppend(xs[1..], ys, p);
    }
  }

  /** A subsequence of the tail is a subsequence of the whole. */
  lemma {:induction false} SubseqSkip<T>(a: seq<T>, b: seq<T>)
    requires |b| > 0 && IsSubseq(a, b[1..])
    ensures IsSubseq(a, b)
    decreases |a| + |b|
  {
    if |a| > 0 && a[0] == b[0] {
      SubseqDropHead(a, b[1..]);
    }
  }

  lemma {:induction false} SubseqDropHead<T>(a: seq<T>, b: seq<T>)
    requires |a| > 0 && IsSubseq(a, b)
    ensures IsSubseq(a[1..], b)
    decreases |a| + |b|
  {
    if |b| > 0 {
      if a[0] == b[0] {
        SubseqSkip(a[1..], b);
      } else {
        SubseqDropHead(a, b[1..]);
        SubseqSkip(a[1..], b);
      }
    }
  }

  /** Appending to the longer sequence keeps a subsequence. */
  lemma {:induction false} SubseqExtend<T>(a: seq<T>, b: seq<T>, x: T)
    requires IsSubseq(a, b)
    ensures IsSubseq(a, b + [x])
    decreases |b|
  {
    if |a| > 0 && |b| > 0 {
      assert (b + [x])[1..] == b[1..] + [x];
      if a[0] == b[0] {
        SubseqExtend(a[1..], b[1..], x);
      } else {
        SubseqExtend(a, b[1..], x);
      }
    }
  }

  /** Appending the same element to both sides keeps a subsequence. */
  lemma {:induction false} SubseqAppend<T>(a: seq<T>, b: seq<T>, x: T)
    requires IsSubseq(a, b)
    ensures IsSubseq(a + [x], b + [x])
    decreases |b|
  {
    if |b| == 0 {
      assert a == [];
      assert a + [x] == b + [x];
      SubseqRefl(a + [x]);
    } else {
      assert (b + [x])[1..] == b[1..] + [x];
      if |a| == 0 {
        if x != b[0] {
          SubseqAppend(a, b[1..], x);
        }
      } else if a[0] == b[0] {
        assert (a + [x])[1..] == a[1..] + [x];
        SubseqAppend(a[1..], b[1..], x);
      } else {
        SubseqAppend(a, b[1..], x);
      }
    }
  }

  /** Being a subsequence is transitive. */
  lemma {:induction false} SubseqTrans<T>(a: seq<T>, b: seq<T>, c: seq<T>)
    requires IsSubseq(a, b) && IsSubseq(b, c)
    ensures IsSubseq(a, c)
    decreases |c|
  {
    if |a| > 0 {
      assert |b| > 0 && |c| > 0;
      if b[0] == c[0] {
        if a[0] == b[0] {
          SubseqTrans(a[1..], b[1..], c[1..]);
        } else {
          SubseqTrans(a, b[1..], c[1..]);
          SubseqSkip(a, c);
        }
      } else {
        SubseqTrans(a, b, c[1..]);
        SubseqSkip(a, c);
      }
    }
  }

  /** Deleting items cannot create a repeated key. */
  lemma {:induction false} SubseqKeysDistinct<T, K>(a: seq<T>, b: seq<T>, key: T -> K)
    requires IsSubseq(a, b) && NoDups(KeysOf(b, key))
    ensures NoDups(KeysOf(a, key))
    decreases |b|
  {
    if |a| > 0 {
      assert NoDups(KeysOf(b[1..], key)) by {
        assert forall i :: 0 <= i < |b[1..]| ==> KeysOf(b[1..], key)[i] == KeysOf(b, key)[i + 1];
      }
      if a[0] == b[0] {
        SubseqKeysDistinct(a[1..], b[1..], key);
        SubseqElements(a[1..], b[1..]);
        forall i, j | 0 <= i < j < |a| ensures KeysOf(a, key)[i] != KeysOf(a, key)[j] {
          if i == 0 {
            assert a[j] == a[1..][j - 1];
            assert a[j] in b[1..];
            var m :| 0 <= m < |b[1..]| && b[1..][m] == a[j];
            assert KeysOf(b, key)[m + 1] == key(a[j]);
          } else {
            assert KeysOf(a[1..], key)[i - 1] != KeysOf(a[1..], key)[j - 1];
          }
        }
      } else {
        SubseqKeysDistinct(a, b[1..], key);
      }
    }
  }

  /** Splitting by a predicate and its negation partitions the elements. */
  lemma {:induction false} FilterPartition<T(!new)>(xs: seq<T>, p: T -> bool, q: T -> bool)
    requires forall x :: q(x) == !p(x)
    ensures multiset(Filter(xs, p)) + multiset(Filter(xs, q)) == multiset(xs)
    ensures |Filter(xs, p)| + |Filter(xs, q)| == |xs|
    decreases |xs|
  {
    if |xs| > 0 {
      FilterPartition(xs[1..], p, q);
      assert xs == [xs[0]] + xs[1..];
    }
  }

  /** Filtering keeps every copy of a passing element and no copy of a
      failing one. */
  lemma {:induction false} FilterMultiplicity<T(!new)>(xs: seq<T>, p: T -> bool, x: T)
    ensures multiset(Filter(xs, p))[x] == if p(x) then multiset(xs)[x] else 0
    decreases |xs|
  {
    if |xs| > 0 {
      FilterMultiplicity(xs[1..], p, x);
      assert xs == [xs[0]] + xs[1..];
      assert multiset(xs) == multiset{xs[0]} + multiset(xs[1..]);
      if p(xs[0]) {
        assert Filter(xs, p) == [xs[0]] + Filter(xs[1..], p);
        assert multiset(Filter(xs, p)) == multiset{xs[0]} + multiset(Filter(xs[1..], p));
      }
    }
  }

  /** The keys of a sequence of items, position by position. */
  function KeysOf<T, K>(xs: seq<T>, key: T -> K): (ks: seq<K>)
    ensures |ks| == |xs| && forall i :: 0 <= i < |xs| ==> ks[i] == key(xs[i])
  {
    seq(|xs|, i requires 0 <= i < |xs| => key(xs[i]))
  }

  /** Keep the first item of each key and drop later ones, preserving order
      (pandas `drop_duplicates(subset=...)` with its default `keep='first'`).
      `DedupByFirst` pins down which items are kept and in what order. */
  function DedupBy<T(==), K(==)>(xs: seq<T>, key: T -> K): (r: seq<T>)
    ensures IsSubseq(r, xs)
    ensures NoDups(KeysOf(r, key))
    ensures forall i :: 0 <= i < |xs| && key(xs[i]) !in KeysOf(xs[..i], key) ==> xs[i] in r
    decreases |xs|
  {
    if |xs| == 0 then []
    else
      var n := |xs| - 1;
      var init := xs[..n];
      var x := xs[n];
      var d := DedupBy(init, key);
      assert xs == init + [x];
      assert forall i :: 0 <= i < n ==> xs[..i] == init[..i];
      if key(x) in KeysOf(d, key) then
        SubseqExtend(d, init, x);
        SubseqElements(d, init);
        var j :| 0 <= j < |d| && key(d[j]) == key(x);
        assert d[j] in init;
        var m :| 0 <= m < n && init[m] == d[j];
        assert KeysOf(xs[..n], key)[m] == key(x);
        d
      else
        SubseqAppend(d, init, x);
        assert KeysOf(d + [x], key) == KeysOf(d, key) + [key(x)];
        d + [x]
  }

  /** The kept keys are the distinct keys in first-occurrence order. */
  lemma {:induction false} DedupByKeys<T, K(!new)>(xs: seq<T>, key: T -> K)
    ensures KeysOf(DedupBy(xs, key), key) == Dedup(KeysOf(xs, key))
    decreases |xs|
  {
    if |xs| > 0 {
      var n := |xs| - 1;
      var init, x := xs[..n], xs[n];
      var d := DedupBy(init, key);
      var ki := KeysOf(init, key);
      DedupByKeys(init, key);
      DedupBySnoc(init, x, key);
      assert xs == init + [x];
      KeysOfSnoc(init, x, key);
      DedupSnoc(ki, key(x));
      assert KeysOf(d, key) == Dedup(ki);
      if key(x) in KeysOf(d, key) {
        assert DedupBy(xs, key) == d;
        assert Dedup(KeysOf(xs, key)) == Dedup(ki);
      } else {
        assert DedupBy(xs, key) == d + [x];
        KeysOfSnoc(d, x, key);
        assert Dedup(KeysOf(xs, key)) == Dedup(ki) + [key(x)];
      }
    }
  }

  lemma KeysOfSnoc<T, K>(xs: seq<T>, x: T, key: T -> K)
    ensures KeysOf(xs + [x], key) == KeysOf(xs, key) + [key(x)]
  {
  }

  /** `y` is the first item of `xs` carrying its key. */
  ghost predicate FirstOfKey<T, K>(xs: seq<T>, key: T -> K, y: T) {
    key(y) in KeysOf(xs, key) && y == xs[FirstIndex(KeysOf(xs, key), key(y))]
  }

  /** Each kept item is the first item of the input carrying its key. */
  lemma {:induction false} DedupByFirst<T, K(!new)>(xs: seq<T>, key: T -> K)
    ensures forall m :: 0 <= m < |DedupBy(xs, key)| ==> FirstOfKey(xs, key, DedupBy(xs, key)[m])
    decreases |xs|
  {
    if |xs| > 0 {
      var n := |xs| - 1;
      DedupByFirst(xs[..n], key);
      DedupByFirstStep(xs, DedupBy(xs[..n], key), key);
    }
  }

  /** One step of `DedupByFirst`: what was first in the prefix stays first,
      and an appended item is first exactly when its key is new. */
  lemma DedupByFirstStep<T, K(!new)>(xs: seq<T>, d: seq<T>, key: T -> K)
    requires |xs| > 0 && d == DedupBy(xs[..|xs| - 1], key)
    requires forall m :: 0 <= m < |d| ==> FirstOfKey(xs[..|xs| - 1], key, d[m])
    ensures forall m :: 0 <= m < |DedupBy(xs, key)| ==> FirstOfKey(xs, key, DedupBy(xs, key)[m])
  {
    var n := |xs| - 1;
    var init, x := xs[..n], xs[n];
    DedupBySnoc(init, x, key);
    assert xs == init + [x];
    var r := DedupBy(xs, key);
    forall m | 0 <= m < |d| ensures FirstOfKey(xs, key, d[m]) {
      FirstOfKeyPrefix(xs, n, key, d[m]);
    }
    if key(x) !in KeysOf(d, key) {
      DedupByFirstNew(xs, d, key);
      assert r == d + [x];
      forall m | 0 <= m < |r| ensures FirstOfKey(xs, key, r[m]) {
        if m < |d| {
          assert r[m] == d[m];
        }
      }
    } else {
      assert r == d;
    }
  }

  /** The first item of a key in a prefix is also the first in the whole. */
  lemma FirstOfKeyPrefix<T, K>(xs: seq<T>, n: nat, key: T -> K, y: T)
    requires n <= |xs| && FirstOfKey(xs[..n], key, y)
    ensures FirstOfKey(xs, key, y)
  {
    var ks := KeysOf(xs, key);
    assert ks[..n] == KeysOf(xs[..n], key);
    FirstIndexOfPrefix(ks, n, key(y));
  }

  /** An item whose key is new is the first of its key. */
  lemma DedupByFirstNew<T, K(!new)>(xs: seq<T>, d: seq<T>, key: T -> K)
    requires |xs| > 0 && d == DedupBy(xs[..|xs| - 1], key) && key(xs[|xs| - 1]) !in KeysOf(d, key)
    ensures FirstOfKey(xs, key, xs[|xs| - 1])
  {
    var n := |xs| - 1;
    var init, x := xs[..n], xs[n];
    var ks, ki := KeysOf(xs, key), KeysOf(init, key);
    assert ks[..n] == ki;
    var i := FirstIndex(ks, key(x));
    if i < n {
      assert ks[i] == ki[i];
      DedupByKeys(init, key);
      assert false;
    }
  }

  /** `DedupBy` grows one item at a time from the front. */
  lemma DedupBySnoc<T, K(!new)>(init: seq<T>, x: T, key: T -> K)
    ensures DedupBy(init + [x], key)
            == if key(x) in KeysOf(DedupBy(init, key), key) then DedupBy(init, key) else DedupBy(init, key) + [x]
  {
    var xs := init + [x];
    assert xs[..|xs| - 1] == init;
  }

  /** Items whose keys are already distinct all survive. */
  lemma {:induction false} DedupByDistinct<T, K(!new)>(xs: seq<T>, key: T -> K)
    requires NoDups(KeysOf(xs, key))
    ensures DedupBy(xs, key) == xs
    decreases |xs|
  {
    if |xs| > 0 {
      var n := |xs| - 1;
      var init := xs[..n];
      var ks := KeysOf(xs, key);
      assert KeysOf(init, key) == ks[..n];
      DedupByDistinct(init, key);
      assert key(xs[n]) !in KeysOf(init, key) by {
        assert forall m :: 0 <= m < n ==> ks[m] != ks[n];
      }
      assert xs == init + [xs[n]];
      DedupBySnoc(init, xs[n], key);
    }
  }

  /** `xs.filter((_, j) => j !== i)`: drop position `i`, keep the rest in order;
      an index outside the sequence changes nothing. */
  function RemoveAt<T>(xs: seq<T>, i: int): (r: seq<T>)
    ensures 0 <= i < |xs| ==>
              && |r| == |xs| - 1
              && (forall k :: 0 <= k < i ==> r[k] == xs[k])
              && (forall k :: i <= k < |r| ==> r[k] == xs[k + 1])
    ensures !(0 <= i < |xs|) ==> r == xs
  {
    if 0 <= i < |xs| then xs[..i] + xs[i + 1..] else xs
  }

  /** No element occurs twice. */
  predicate NoDups<T(==)>(xs: seq<T>) {
    forall i, j :: 0 <= i < j < |xs| ==> xs[i] != xs[j]
  }

  /** An element occurs at most once in a sequence without repeats. */
  lemma {:induction false} NoDupsCount<T>(xs: seq<T>, x: T)
    requires NoDups(xs)
    ensures multiset(xs)[x] <= 1
    decreases |xs|
  {
    if |xs| > 0 {
      assert xs == [xs[0]] + xs[1..];
      assert NoDups(xs[1..]) by {
        assert forall i :: 0 <= i < |xs[1..]| ==> xs[1..][i] == xs[i + 1];
      }
      NoDupsCount(xs[1..], x);
      if x == xs[0] {
        assert x !in xs[1..];
      }
    }
  }

  /** Rearranging a sequence without repeats cannot create one. */
  lemma NoDupsPermutation<T>(a: seq<T>, b: seq<T>)
    requires multiset(a) == multiset(b) && NoDups(b)
    ensures NoDups(a)
  {
    forall i, j | 0 <= i < j < |a|
      ensures a[i] != a[j]
    {
      if a[i] == a[j] {
        assert a == a[..i] + [a[i]] + a[i + 1..j] + [a[j]] + a[j + 1..];
        assert multiset(a)[a[i]] >= 2;
        NoDupsCount(b, a[i]);
      }
    }
  }

  /** Index of the first occurrence of `x`. */
  function FirstIndex<T(==)>(xs: seq<T>, x: T): (i: nat)
    requires x in xs
    ensures i < |xs| && xs[i] == x && x !in xs[..i]
    decreases |xs|
  {
    if xs[0] == x then 0
    else
      assert x in xs[1..];
      var j := FirstIndex(xs[1..], x);
      assert xs[..j + 1] == [xs[0]] + xs[1..][..j];
      j + 1
  }

  lemma FirstIndexOfPrefix<T>(xs: seq<T>, n: nat, x: T)
    requires n <= |xs| && x in xs[..n]
    ensures x in xs && FirstIndex(xs, x) == FirstIndex(xs[..n], x)
  {
    var i := FirstIndex(xs[..n], x);
    var j := FirstIndex(xs, x);
    assert xs[..n][..i] == xs[..i];
  }

  /** The distinct elements in order of first occurrence (`[...new Set(xs)]`). */
  function Dedup<T(==,!new)>(xs: seq<T>): (r: seq<T>)
    ensures NoDups(r)
    ensures forall x :: x in r <==> x in xs
    decreases |xs|
  {
    if |xs| == 0 then []
    else
      var n := |xs| - 1;
      var init := xs[..n];
      var d := Dedup(init);
      assert forall x :: x in xs <==> x in init || x == xs[n] by {
        assert xs == init + [xs[n]];
      }
      if xs[n] in d then d else d + [xs[n]]
  }

  /** `Dedup` grows one element at a time from the front. */
  lemma DedupSnoc<T(!new)>(init: seq<T>, x: T)
    ensures Dedup(init + [x]) == if x in Dedup(init) then Dedup(init) else Dedup(init) + [x]
  {
    var xs := init + [x];
    assert xs[..|xs| - 1] == init;
  }

  /** `Dedup` lists the elements in the order of their first occurrence. */
  lemma {:induction false} DedupOrder<T(!new)>(xs: seq<T>)
    ensures forall i, j :: 0 <= i < j < |Dedup(xs)| ==> FirstIndex(xs, Dedup(xs)[i]) < FirstIndex(xs, Dedup(xs)[j])
    decreases |xs|
  {
    if |xs| > 0 {
      var n := |xs| - 1;
      var init := xs[..n];
      var d := Dedup(init);
      DedupOrder(init);
      DedupSnoc(init, xs[n]);
      assert xs == init + [xs[n]];
      forall x | x in init
        ensures FirstIndex(xs, x) == FirstIndex(init, x)
      {
        FirstIndexOfPrefix(xs, n, x);
      }
      if xs[n] !in d {
        assert FirstIndex(xs, xs[n]) == n;
        var r := d + [xs[n]];
        forall i, j | 0 <= i < j < |r| ensures FirstIndex(xs, r[i]) < FirstIndex(xs, r[j]) {
          assert r[i] in d && r[i] in init;
          if j < |d| {
            assert r[j] in d && r[j] in init;
          }
        }
      }
    }
  }

  // ---------------------------------------------------------------- sorting

  predicate SortedBy<T>(xs: seq<T>, key: T -> real) {
    forall i, j :: 0 <= i < j < |xs| ==> key(xs[i]) <= key(xs[j])
  }

  /** Insert `x` before the first element with a larger key. */
  function InsertBy<T>(x: T, xs: seq<T>, key: T -> real): (r: seq<T>)
    requires SortedBy(xs, key)
    ensures SortedBy(r, key)
    ensures multiset(r) == multiset(xs) + multiset{x}
    decreases |xs|
  {
    if |xs| == 0 then [x]
    else if key(x) <= key(xs[0]) then
      SortedCons(x, xs, key);
      [x] + xs
    else
      var rest := InsertBy(x, xs[1..], key);
      assert xs == [xs[0]] + xs[1..];
      BoundedByMultiset(xs[0], xs[1..], x, rest, key);
      SortedCons(xs[0], rest, key);
      [xs[0]] + rest
  }

  /** A head no larger than anything after it keeps a sorted list sorted. */
  lemma SortedCons<T>(h: T, xs: seq<T>, key: T -> real)
    requires SortedBy(xs, key)
    requires forall k :: 0 <= k < |xs| ==> key(h) <= key(xs[k])
    ensures SortedBy([h] + xs, key)
  {
    var r := [h] + xs;
    forall i, j | 0 <= i < j < |r| ensures key(r[i]) <= key(r[j]) {
      assert r[j] == xs[j - 1];
      if i > 0 {
        assert r[i] == xs[i - 1];
      }
    }
  }

  /** A rearrangement of `xs` plus `x` stays above a bound `xs` and `x` are
      above. */
  lemma BoundedByMultiset<T>(h: T, xs: seq<T>, x: T, rest: seq<T>, key: T -> real)
    requires SortedBy([h] + xs, key) && key(h) < key(x)
    requires multiset(rest) == multiset(xs) + multiset{x}
    ensures forall k :: 0 <= k < |rest| ==> key(h) <= key(rest[k])
  {
    forall k | 0 <= k < |rest|
      ensures key(h) <= key(rest[k])
    {
      assert rest[k] in multiset(rest);
      if rest[k] != x {
        assert rest[k] in multiset(xs);
        var j :| 0 <= j < |xs| && xs[j] == rest[k];
        var all := [h] + xs;
        assert all[0] == h && all[j + 1] == xs[j];
        assert key(all[0]) <= key(all[j + 1]);
      }
    }
  }

  /** A stable sort by `key` (`[...xs].sort((a, b) => key(a) - key(b))`). */
  function SortBy<T>(xs: seq<T>, key: T -> real): (r: seq<T>)
    ensures SortedBy(r, key)
    ensures multiset(r) == multiset(xs)
    decreases |xs|
  {
    if |xs| == 0 then []
    else
      assert xs == [xs[0]] + xs[1..];
      InsertBy(xs[0], SortBy(xs[1..], key), key)
  }

  /** `xs.map(f)` where `f` may throw: the first failure, in order, or all
      the results. */
  function MapAll<A, B, E>(xs: seq<A>, f: A -> Result<B, E>): (r: Result<seq<B>, E>)
    ensures r.Ok? ==> |r.value| == |xs|
    decreases |xs|
  {
    if |xs| == 0 then Ok([])
    else
      var head := f(xs[0]);
      var tail := MapAll(xs[1..], f);
      if head.Err? then Err(head.error)
      else if tail.Err? then Err(tail.error)
      else Ok([head.value] + tail.value)
  }

  /** The mapping succeeds exactly when every element maps, and then holds
      each element's result in order. */
  lemma {:induction false} MapAllOk<A, B, E>(xs: seq<A>, f: A -> Result<B, E>)
    ensures MapAll(xs, f).Ok? <==> forall i :: 0 <= i < |xs| ==> f(xs[i]).Ok?
    ensures MapAll(xs, f).Ok? ==> forall i :: 0 <= i < |xs| ==> MapAll(xs, f).value[i] == f(xs[i]).value
    decreases |xs|
  {
    if |xs| > 0 {
      var tail := xs[1..];
      MapAllOk(tail, f);
      assert forall i :: 1 <= i < |xs| ==> xs[i] == tail[i - 1];
      var head := f(xs[0]);
      var rest := MapAll(tail, f);
      if head.Ok? && rest.Ok? {
        var r := [head.value] + rest.value;
        assert MapAll(xs, f) == Ok(r);
        assert forall i :: 1 <= i < |xs| ==> r[i] == rest.value[i - 1];
      } else if head.Ok? {
        var j :| 0 <= j < |tail| && f(tail[j]).Err?;
        assert f(xs[j + 1]).Err?;
      }
    }
  }
}
