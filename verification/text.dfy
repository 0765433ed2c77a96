/** String helpers shared by the Python pipeline and the TypeScript front end:
    whitespace trimming, ASCII lower-casing, prefix/suffix/substring tests,
    splitting on one character, and decimal numerals. */
module Text {
  import opened Wrappers

  /** Python's `str.strip()` and ECMAScript's `String.prototype.trim()` remove
      slightly different sets of characters; the trimming functions take the
      language whose set they use. */
  datatype Runtime = Python | EcmaScript

  /** The Unicode space separators (general category Zs). */
  predicate SpaceSeparator(c: char) {
    c == ' ' || c == '\U{00A0}' || c == '\U{1680}' || '\U{2000}' <= c <= '\U{200A}'
    || c == '\U{202F}' || c == '\U{205F}' || c == '\U{3000}'
  }

  /** `c.isspace()` in Python 3: tab to carriage return, the information
      separators U+001C-U+001F, NEXT LINE, the space separators and the line and
      paragraph separators. */
  predicate PythonSpace(c: char) {
    '\t' <= c <= '\r' || '\U{001C}' <= c <= '\U{001F}' || c == '\U{0085}'
    || SpaceSeparator(c) || c == '\U{2028}' || c == '\U{2029}'
  }

  /** ECMAScript WhiteSpace and LineTerminator (sections 12.2 and 12.3 of
      ECMA-262): tab to carriage return, the byte-order mark, the space
      separators and the line and paragraph separators. */
  predicate EcmaScriptSpace(c: char) {
    '\t' <= c <= '\r' || c == '\U{FEFF}' || SpaceSeparator(c)
    || c == '\U{2028}' || c == '\U{2029}'
  }

  /** The whitespace that `rt`'s trimming removes. */
  predicate IsSpace(rt: Runtime, c: char) {
    match rt
    case Python => PythonSpace(c)
    case EcmaScript => EcmaScriptSpace(c)
  }

  predicate IsDigit(c: char) {
    '0' <= c <= '9'
  }

  predicate AllDigits(s: string) {
    forall i :: 0 <= i < |s| ==> IsDigit(s[i])
  }

  function DigitValue(c: char): nat
    requires IsDigit(c)
  {
    c as int - '0' as int
  }

  function DigitChar(d: nat): (c: char)
    requires d < 10
    ensures IsDigit(c) && DigitValue(c) == d
  {
    ('0' as int + d) as char
  }

  // ---------------------------------------------------------------- case

  function LowerChar(c: char): char {
    if 'A' <= c <= 'Z' then (c as int + 32) as char else c
  }

  /** `s.lower()` / `s.toLowerCase()` on ASCII letters. */
  function Lower(s: string): (r: string)
    ensures |r| == |s|
    ensures forall i :: 0 <= i < |s| ==> r[i] == LowerChar(s[i])
  {
    seq(|s|, i requires 0 <= i < |s| => LowerChar(s[i]))
  }

  lemma LowerIdempotent(s: string)
    ensures Lower(Lower(s)) == Lower(s)
  {
  }

  // ---------------------------------------------------------------- trimming

  function TrimStart(rt: Runtime, s: string): (r: string)
    ensures |r| <= |s| && r == s[|s| - |r|..]
    ensures forall i :: 0 <= i < |s| - |r| ==> IsSpace(rt, s[i])
    ensures |r| > 0 ==> !IsSpace(rt, r[0])
    decreases |s|
  {
    if |s| > 0 && IsSpace(rt, s[0]) then TrimStart(rt, s[1..]) else s
  }

  function TrimEnd(rt: Runtime, s: string): (r: string)
    ensures |r| <= |s| && r == s[..|r|]
    ensures forall i :: |r| <= i < |s| ==> IsSpace(rt, s[i])
    ensures |r| > 0 ==> !IsSpace(rt, r[|r| - 1])
    decreases |s|
  {
    if |s| > 0 && IsSpace(rt, s[|s| - 1]) then TrimEnd(rt, s[..|s| - 1]) else s
  }

  /** `s.strip()` in Python, `s.trim()` in ECMAScript. */
  function Trim(rt: Runtime, s: string): string {
    TrimEnd(rt, TrimStart(rt, s))
  }

  /** No whitespace at either end. */
  predicate Trimmed(rt: Runtime, s: string) {
    |s| > 0 ==> !IsSpace(rt, s[0]) && !IsSpace(rt, s[|s| - 1])
  }

  lemma TrimStartOfTrimmed(rt: Runtime, s: string)
    requires |s| == 0 || !IsSpace(rt, s[0])
    ensures TrimStart(rt, s) == s
  {
  }

  lemma TrimEndOfTrimmed(rt: Runtime, s: string)
    requires |s| == 0 || !IsSpace(rt, s[|s| - 1])
    ensures TrimEnd(rt, s) == s
  {
  }

  /** A trimmed text has no whitespace at either end. */
  lemma TrimTrimmed(rt: Runtime, s: string)
    ensures Trimmed(rt, Trim(rt, s))
  {
    var a := TrimStart(rt, s);
    var r := TrimEnd(rt, a);
    if |r| > 0 {
      assert r[0] == a[0];
    }
  }

  /** Trimming removes exactly a whitespace prefix and a whitespace suffix. */
  lemma TrimShape(rt: Runtime, s: string)
    ensures Trimmed(rt, Trim(rt, s))
    ensures exists i :: (0 <= i <= |s| - |Trim(rt, s)| && OccursAt(s, Trim(rt, s), i)
                         && (forall k :: 0 <= k < i ==> IsSpace(rt, s[k]))
                         && (forall k :: i + |Trim(rt, s)| <= k < |s| ==> IsSpace(rt, s[k])))
  {
    TrimTrimmed(rt, s);
    var a := TrimStart(rt, s);
    var r := TrimEnd(rt, a);
    var i := |s| - |a|;
    assert OccursAt(s, r, i) by {
      assert a == s[i..];
      assert r == s[i..i + |r|];
    }
    assert forall k :: i + |r| <= k < |s| ==> IsSpace(rt, s[k]) by {
      assert forall k :: i + |r| <= k < |s| ==> s[k] == a[k - i];
    }
  }

  lemma TrimOfTrimmed(rt: Runtime, s: string)
    requires Trimmed(rt, s)
    ensures Trim(rt, s) == s
  {
    TrimStartOfTrimmed(rt, s);
    TrimEndOfTrimmed(rt, s);
  }

  lemma TrimIdempotent(rt: Runtime, s: string)
    ensures Trim(rt, Trim(rt, s)) == Trim(rt, s)
  {
    TrimTrimmed(rt, s);
    TrimOfTrimmed(rt, Trim(rt, s));
  }

  /** NO-BREAK SPACE is whitespace to both languages, so it trims away. */
  lemma NoBreakSpaceTrims(rt: Runtime)
    ensures Trim(rt, "\U{00A0}") == ""
  {
    assert IsSpace(rt, "\U{00A0}"[0]);
    assert "\U{00A0}"[1..] == "";
  }

  // ---------------------------------------------------------------- search

  predicate StartsWith(s: string, p: string) {
    |p| <= |s| && s[..|p|] == p
  }

  predicate EndsWith(s: string, p: string) {
    |p| <= |s| && s[|s| - |p|..] == p
  }

  /** Whether `stem + ext` ends with a suffix no longer than `ext` depends on `ext` alone. */
  lemma EndsWithAppend(stem: string, ext: string, p: string)
    requires |p| <= |ext|
    ensures EndsWith(stem + ext, p) <==> EndsWith(ext, p)
  {
    var s := stem + ext;
    assert s[|s| - |p|..] == ext[|ext| - |p|..];
  }

  /** Whether `pre + rest` starts with a prefix no longer than `pre` depends on `pre` alone. */
  lemma StartsWithPrepend(pre: string, rest: string, p: string)
    requires |p| <= |pre|
    ensures StartsWith(pre + rest, p) <==> StartsWith(pre, p)
  {
    assert (pre + rest)[..|p|] == pre[..|p|];
  }

  /** `s.includes(t)`. */
  predicate Contains(s: string, t: string) {
    exists i :: 0 <= i <= |s| - |t| && OccursAt(s, t, i)
  }

  /** `t` occurs in `s` starting at position `i`. */
  predicate OccursAt(s: string, t: string, i: int) {
    0 <= i && i + |t| <= |s| && s[i..i + |t|] == t
  }

  lemma ContainsEmpty(s: string)
    ensures Contains(s, "")
  {
    assert OccursAt(s, "", 0);
  }

  /** Position of the last occurrence of `c`, if any. */
  function LastIndexOf(s: string, c: char): (r: Option<nat>)
    ensures r.Some? ==> r.value < |s| && s[r.value] == c
                        && forall k :: r.value < k < |s| ==> s[k] != c
    ensures r.None? ==> c !in s
    decreases |s|
  {
    if |s| == 0 then None
    else if s[|s| - 1] == c then Some(|s| - 1)
    else LastIndexOf(s[..|s| - 1], c)
  }

  // ---------------------------------------------------------------- replacing

  /** Every `a` becomes `b` (pandas `str.replace(' ', '_')`). */
  function ReplaceAll(s: string, a: char, b: char): (r: string)
    ensures |r| == |s|
    ensures forall i :: 0 <= i < |s| ==> r[i] == (if s[i] == a then b else s[i])
  {
    seq(|s|, i requires 0 <= i < |s| => if s[i] == a then b else s[i])
  }

  /** `s.indexOf(c)`: the first position of `c`, if any. */
  function IndexOf(s: string, c: char): (r: Option<nat>)
    ensures r.None? <==> c !in s
    ensures r.Some? ==> r.value < |s| && s[r.value] == c && c !in s[..r.value]
    decreases |s|
  {
    if |s| == 0 then None
    else if s[0] == c then Some(0)
    else
      match IndexOf(s[1..], c)
      case None => None
      case Some(j) =>
        assert s[..j + 1] == [s[0]] + s[1..][..j];
        Some(j + 1)
  }

  /** `s.replace(c, '')` with a string pattern: only the first `c` goes. */
  function RemoveFirst(s: string, c: char): (r: string)
    ensures c !in s ==> r == s
    ensures c in s ==> exists i :: 0 <= i < |s| && s[i] == c && c !in s[..i] && r == s[..i] + s[i + 1..]
  {
    match IndexOf(s, c)
    case None => s
    case Some(i) => s[..i] + s[i + 1..]
  }

  // ---------------------------------------------------------------- split / join

  /** `s.split(c)` for a one-character separator: the pieces between
      separators, always at least one. */
  function Split(s: string, c: char): (r: seq<string>)
    ensures |r| >= 1
    ensures forall i :: 0 <= i < |r| ==> c !in r[i]
    decreases |s|
  {
    if |s| == 0 then [""]
    else
      var rest := Split(s[1..], c);
      if s[0] == c then [""] + rest
      else [[s[0]] + rest[0]] + rest[1..]
  }

  /** `parts.join(c)`. */
  function Join(parts: seq<string>, c: char): string
    decreases |parts|
  {
    if |parts| == 0 then ""
    else if |parts| == 1 then parts[0]
    else parts[0] + [c] + Join(parts[1..], c)
  }

  /** Splitting loses nothing: joining the pieces gives the string back. */
  lemma {:induction false} SplitJoin(s: string, c: char)
    ensures Join(Split(s, c), c) == s
    decreases |s|
  {
    if |s| > 0 {
      var rest := Split(s[1..], c);
      SplitJoin(s[1..], c);
      if s[0] == c {
        assert Split(s, c) == [""] + rest;
        if |rest| == 1 {
          assert Join([""] + rest, c) == "" + [c] + rest[0];
        } else {
          assert ([""] + rest)[1..] == rest;
        }
      } else {
        var h := [s[0]] + rest[0];
        assert Split(s, c) == [h] + rest[1..];
        if |rest| == 1 {
          assert Join([h] + rest[1..], c) == h;
        } else {
          assert Join(rest, c) == rest[0] + [c] + Join(rest[1..], c);
          assert ([h] + rest[1..])[1..] == rest[1..];
        }
      }
    }
  }

  /** Splitting a string with no separator in it yields the string alone. */
  lemma {:induction false} SplitNoSeparator(s: string, c: char)
    requires c !in s
    ensures Split(s, c) == [s]
    decreases |s|
  {
    if |s| > 0 {
      SplitNoSeparator(s[1..], c);
      assert [s[0]] + s[1..] == s;
    }
  }

  /** A separator-free piece followed by the separator splits off as one piece. */
  lemma {:induction false} SplitCons(a: string, b: string, c: char)
    requires c !in a
    ensures Split(a + [c] + b, c) == [a] + Split(b, c)
    decreases |a|
  {
    var s := a + [c] + b;
    if |a| == 0 {
      assert s == [c] + b && s[1..] == b;
    } else {
      assert s[1..] == a[1..] + [c] + b;
      SplitCons(a[1..], b, c);
      assert [a[0]] + a[1..] == a;
    }
  }

  /** Joining separator-free pieces and splitting again gives the pieces back. */
  lemma {:induction false} SplitOfJoin(parts: seq<string>, c: char)
    requires |parts| >= 1
    requires forall i :: 0 <= i < |parts| ==> c !in parts[i]
    ensures Split(Join(parts, c), c) == parts
    decreases |parts|
  {
    if |parts| == 1 {
      SplitNoSeparator(parts[0], c);
    } else {
      SplitOfJoin(parts[1..], c);
      SplitCons(parts[0], Join(parts[1..], c), c);
      assert parts == [parts[0]] + parts[1..];
    }
  }

  /** The last piece of a split is what follows the last separator. */
  lemma {:induction false} SplitLastPiece(a: string, b: string, c: char)
    requires c !in b
    ensures |Split(a + [c] + b, c)| >= 2
    ensures Split(a + [c] + b, c)[|Split(a + [c] + b, c)| - 1] == b
    decreases |a|
  {
    var s := a + [c] + b;
    if |a| == 0 {
      assert s == [c] + b && s[1..] == b;
      SplitNoSeparator(b, c);
    } else {
      assert s[1..] == a[1..] + [c] + b;
      SplitLastPiece(a[1..], b, c);
    }
  }

  /** `s.split(c).pop()`: the text after the last `c`, or all of `s`. */
  function LastPiece(s: string, c: char): (r: string)
    ensures c !in r
    ensures c !in s ==> r == s
    ensures c in s ==> exists k :: 0 <= k < |s| && s[k] == c && r == s[k + 1..]
  {
    var parts := Split(s, c);
    match LastIndexOf(s, c)
    case None =>
      SplitNoSeparator(s, c);
      parts[|parts| - 1]
    case Some(k) =>
      assert s == s[..k] + [c] + s[k + 1..];
      SplitLastPiece(s[..k], s[k + 1..], c);
      parts[|parts| - 1]
  }

  // ---------------------------------------------------------------- numerals

  function Pow10(n: nat): (r: nat)
    ensures r >= 1
  {
    if n == 0 then 1 else 10 * Pow10(n - 1)
  }

  /** The value of a run of decimal digits (`parseInt(d, 10)` on digits). */
  function ParseNat(d: string): nat
    requires AllDigits(d)
    decreases |d|
  {
    if |d| == 0 then 0 else ParseNat(d[..|d| - 1]) * 10 + DigitValue(d[|d| - 1])
  }

  /** The decimal numeral of `n`, without leading zeros. */
  function NatToString(n: nat): (r: string)
    ensures |r| >= 1 && AllDigits(r)
    ensures |r| > 1 ==> r[0] != '0'
  {
    if n < 10 then [DigitChar(n)] else NatToString(n / 10) + [DigitChar(n % 10)]
  }

  lemma {:induction false} ParseNatToString(n: nat)
    ensures ParseNat(NatToString(n)) == n
  {
    if n >= 10 {
      var s := NatToString(n);
      ParseNatToString(n / 10);
      assert s[..|s| - 1] == NatToString(n / 10);
    }
  }

  function IntToString(i: int): string {
    if i < 0 then "-" + NatToString(-i) else NatToString(i)
  }

  /** Length of the maximal digit run starting at `i`. */
  function DigitRun(s: string, i: nat): (n: nat)
    requires i <= |s|
    ensures i + n <= |s|
    ensures AllDigits(s[i..i + n])
    ensures i + n == |s| || !IsDigit(s[i + n])
    decreases |s| - i
  {
    if i < |s| && IsDigit(s[i]) then
      var k := DigitRun(s, i + 1);
      assert s[i..i + 1 + k] == [s[i]] + s[i + 1..i + 1 + k];
      1 + k
    else 0
  }

  /** A decimal prefix found by a scan: how many characters it spans, and its value. */
  datatype Scan = Scan(len: nat, value: real)

  /** The longest prefix of `s` of the form `[+-] digits [. digits]` with at
      least one digit; `len == 0` when there is none. */
  function ScanDecimal(s: string): (r: Scan)
    ensures r.len <= |s|
  {
    var sg := if |s| > 0 && (s[0] == '+' || s[0] == '-') then 1 else 0;
    var a := DigitRun(s, sg);
    var ip := ParseNat(s[sg..sg + a]);
    var hasDot := sg + a < |s| && s[sg + a] == '.';
    var b := if hasDot then DigitRun(s, sg + a + 1) else 0;
    var fp := if hasDot then ParseNat(s[sg + a + 1..sg + a + 1 + b]) else 0;
    var mag := ip as real + fp as real / Pow10(b) as real;
    if a + b == 0 then Scan(0, 0.0)
    else Scan(sg + a + (if hasDot then 1 + b else 0), if sg == 1 && s[0] == '-' then -mag else mag)
  }

  /** `Number(s)` for a string: blank is 0, otherwise the whole trimmed text must
      be a decimal literal; `None` stands for NaN. */
  function StringToNumber(s: string): Option<real> {
    var t := Trim(EcmaScript, s);
    if t == "" then Some(0.0)
    else
      var sc := ScanDecimal(t);
      if sc.len == |t| then Some(sc.value) else None
  }

  /** `parseFloat(s)`: the longest decimal prefix after leading whitespace. */
  function ParseFloatText(s: string): Option<real> {
    var sc := ScanDecimal(TrimStart(EcmaScript, s));
    if sc.len > 0 then Some(sc.value) else None
  }

  /** `parseInt(s)`: optional sign and the digits that follow, after leading
      whitespace; `None` stands for NaN. */
  function ParseIntText(s: string): Option<int> {
    var t := TrimStart(EcmaScript, s);
    var sg := if |t| > 0 && (t[0] == '+' || t[0] == '-') then 1 else 0;
    var a := DigitRun(t, sg);
    if a == 0 then None
    else
      var n: int := ParseNat(t[sg..sg + a]);
      Some(if sg == 1 && t[0] == '-' then -n else n)
  }

  lemma ScanNumeral(n: nat)
    ensures ScanDecimal(NatToString(n)) == Scan(|NatToString(n)|, n as real)
  {
    var s := NatToString(n);
    var a := DigitRun(s, 0);
    DigitRunAll(s, 0);
    assert s[0..a] == s;
    ParseNatToString(n);
  }

  lemma {:induction false} DigitRunAll(s: string, i: nat)
    requires i <= |s| && AllDigits(s[i..])
    ensures DigitRun(s, i) == |s| - i
    decreases |s| - i
  {
    if i < |s| {
      assert IsDigit(s[i..][0]);
      assert s[i + 1..] == s[i..][1..];
      DigitRunAll(s, i + 1);
    }
  }

  /** `parseFloat(String(n))` gives `n` back for a natural number. */
  lemma ParseFloatOfNumeral(n: nat)
    ensures ParseFloatText(NatToString(n)) == Some(n as real)
  {
    var s := NatToString(n);
    assert !IsSpace(EcmaScript, s[0]);
    assert TrimStart(EcmaScript, s) == s;
    ScanNumeral(n);
  }

  /** `parseFloat` of text that starts with a letter is NaN. */
  lemma ParseFloatOfWord(s: string)
    requires |s| > 0 && !IsSpace(EcmaScript, s[0]) && !IsDigit(s[0]) && s[0] !in "+-."
    ensures ParseFloatText(s) == None
  {
    assert TrimStart(EcmaScript, s) == s;
    assert DigitRun(s, 0) == 0;
  }

  /** `Number(String(n))` gives `n` back for a natural number. */
  lemma NumberOfNumeral(n: nat)
    ensures StringToNumber(NatToString(n)) == Some(n as real)
  {
    var s := NatToString(n);
    TrimOfTrimmed(EcmaScript, s);
    ScanNumeral(n);
  }

  /** `parseInt(String(n))` gives `n` back for a natural number. */
  lemma ParseIntOfNumeral(n: nat)
    ensures ParseIntText(NatToString(n)) == Some(n)
  {
    var s := NatToString(n);
    TrimStartOfTrimmed(EcmaScript, s);
    assert s[0..] == s;
    DigitRunAll(s, 0);
    assert s[0..|s|] == s;
    ParseNatToString(n);
    assert s[0] != '+' && s[0] != '-';
  }

  // ---------------------------------------------------------------- number display

  /** Digits of a fraction `0 <= f < 1`, at most `k` of them, without trailing zeros. */
  function FracDigits(f: real, k: nat): string
    requires 0.0 <= f < 1.0
    decreases k
  {
    if k == 0 || f == 0.0 then ""
    else
      var d := (f * 10.0).Floor;
      assert 0 <= d < 10;
      var rest := f * 10.0 - d as real;
      [DigitChar(d)] + FracDigits(rest, k - 1)
  }

  /** `String(x)` for a finite number: integers exactly; other values with up
      to twenty fraction digits. */
  function ShowNumber(x: real): string {
    var m := if x < 0.0 then -x else x;
    var ip := m.Floor;
    var frac := m - ip as real;
    var body := NatToString(ip) + (if frac == 0.0 then "" else "." + FracDigits(frac, 20));
    if x < 0.0 && m != 0.0 then "-" + body else body
  }

  lemma ShowNatural(n: nat)
    ensures ShowNumber(n as real) == NatToString(n)
  {
    assert (n as real).Floor == n;
  }
}
