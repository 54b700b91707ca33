/**
 * String operations the Python server and the TypeScript client rely on:
 * whitespace classes and trimming, `split`/`join`, single-character replacement,
 * ASCII lower-casing, substring search and decimal rendering of integers.
 */
module Text {

  /** JavaScript's `\s` class, which is also the set `String.prototype.trim` removes. */
  predicate IsJsSpace(c: char) {
    var n := c as int;
    (0x09 <= n <= 0x0D) || n == 0x20 || n == 0xA0 || n == 0x1680 ||
    (0x2000 <= n <= 0x200A) || n == 0x2028 || n == 0x2029 || n == 0x202F ||
    n == 0x205F || n == 0x3000 || n == 0xFEFF
  }

  /** Python's `str.isspace`, the set removed by `str.strip()` without arguments. */
  predicate IsPySpace(c: char) {
    var n := c as int;
    (0x09 <= n <= 0x0D) || (0x1C <= n <= 0x20) || n == 0x85 || n == 0xA0 ||
    n == 0x1680 || (0x2000 <= n <= 0x200A) || n == 0x2028 || n == 0x2029 ||
    n == 0x202F || n == 0x205F || n == 0x3000
  }

  predicate AllSpace(s: string, ws: char -> bool) {
    forall i :: 0 <= i < |s| ==> ws(s[i])
  }

  /** Drops the leading characters that satisfy `ws`. */
  function TrimStart(s: string, ws: char -> bool): (r: string)
    ensures |r| <= |s| && r == s[|s| - |r|..]
    ensures AllSpace(s[..|s| - |r|], ws)
    ensures r == [] || !ws(r[0])
    decreases |s|
  {
    if s != [] && ws(s[0]) then TrimStart(s[1..], ws) else s
  }

  /** Drops the trailing characters that satisfy `ws`. */
  function TrimEnd(s: string, ws: char -> bool): (r: string)
    ensures |r| <= |s| && r == s[..|r|]
    ensures AllSpace(s[|r|..], ws)
    ensures r == [] || !ws(r[|r| - 1])
    decreases |s|
  {
    if s != [] && ws(s[|s| - 1]) then TrimEnd(s[..|s| - 1], ws) else s
  }

  /** Drops whitespace at both ends: the common core of `strip()` and `trim()`. */
  function Trim(s: string, ws: char -> bool): (r: string)
    ensures r == [] <==> AllSpace(s, ws)
    ensures r != [] ==> !ws(r[0]) && !ws(r[|r| - 1])
    ensures |r| <= |s|
  {
    var a := TrimStart(s, ws);
    var r := TrimEnd(a, ws);
    TrimBoth(s, a, r, ws);
    r
  }

  lemma TrimBoth(s: string, a: string, r: string, ws: char -> bool)
    requires |a| <= |s| && a == s[|s| - |a|..] && AllSpace(s[..|s| - |a|], ws)
    requires a == [] || !ws(a[0])
    requires |r| <= |a| && r == a[..|r|] && AllSpace(a[|r|..], ws)
    requires r == [] || !ws(r[|r| - 1])
    ensures r == [] <==> AllSpace(s, ws)
    ensures r != [] ==> !ws(r[0])
  {
    var k := |s| - |a|;
    if r == [] {
      assert a == [];
      forall i | 0 <= i < |s| ensures ws(s[i]) {
        assert s[i] == s[..k][i];
      }
    } else {
      assert r[0] == a[0];
      assert s[k] == a[0];
    }
  }

  /** Python's `str.strip()`. */
  function PyStrip(s: string): string {
    Trim(s, IsPySpace)
  }

  /** JavaScript's `String.prototype.trim()`. */
  function JsTrim(s: string): string {
    Trim(s, IsJsSpace)
  }

  /**
   * `s.trim() === ""` in JavaScript: by the contract of `Trim`, exactly the
   * strings made of JavaScript whitespace only.
   */
  predicate JsBlank(s: string) {
    AllSpace(s, IsJsSpace)
  }

  /** Position of the first occurrence of `c` in `s`. */
  function IndexOf(s: string, c: char): (i: nat)
    requires c in s
    ensures i < |s| && s[i] == c && c !in s[..i]
  {
    if s[0] == c then 0
    else
      var k := IndexOf(s[1..], c);
      assert s[..k + 1] == [s[0]] + s[1..][..k];
      k + 1
  }

  /** Python's `sep.join(parts)`. */
  function Join(parts: seq<string>, sep: string): string
  {
    if parts == [] then []
    else if |parts| == 1 then parts[0]
    else parts[0] + sep + Join(parts[1..], sep)
  }

  /**
   * JavaScript's `s.split(sep)` for a one-character separator: the pieces between
   * the separators, in order, always at least one.
   */
  function Split(s: string, sep: char): (parts: seq<string>)
    ensures |parts| >= 1
    ensures sep in s ==> |parts| >= 2
    ensures forall k :: 0 <= k < |parts| ==> sep !in parts[k]
    decreases |s|
  {
    if sep !in s then [s]
    else [s[..IndexOf(s, sep)]] + Split(s[IndexOf(s, sep) + 1..], sep)
  }

  /** Joining the pieces of a split with the separator gives the string back. */
  lemma {:induction false} JoinSplit(s: string, sep: char)
    ensures Join(Split(s, sep), [sep]) == s
    decreases |s|
  {
    if sep in s {
      var i := IndexOf(s, sep);
      JoinSplit(s[i + 1..], sep);
      assert s == s[..i] + [sep] + s[i + 1..];
      var rest := Split(s[i + 1..], sep);
      assert Split(s, sep) == [s[..i]] + rest;
      assert ([s[..i]] + rest)[1..] == rest;
    }
  }

  /** Splitting a string that joins separator-free pieces gives those pieces back. */
  lemma {:induction false} SplitJoin(parts: seq<string>, sep: char)
    requires |parts| >= 1
    requires forall k :: 0 <= k < |parts| ==> sep !in parts[k]
    ensures Split(Join(parts, [sep]), sep) == parts
    decreases |parts|
  {
    if |parts| > 1 {
      var s := Join(parts, [sep]);
      var tail := Join(parts[1..], [sep]);
      assert s == parts[0] + [sep] + tail;
      assert s[|parts[0]|] == sep;
      assert s[..|parts[0]|] == parts[0];
      assert sep in s;
      var i := IndexOf(s, sep);
      assert i == |parts[0]|;
      assert s[i + 1..] == tail;
      SplitJoin(parts[1..], sep);
    } else {
      assert Join(parts, [sep]) == parts[0];
    }
  }

  /** The first separator of `x + y` is that of `x` when `x` has one. */
  lemma IndexOfAppendLeft(x: string, y: string, sep: char)
    requires sep in x
    ensures sep in x + y && IndexOf(x + y, sep) == IndexOf(x, sep)
  {
    var i := IndexOf(x, sep);
    assert (x + y)[i] == sep;
  }

  /** The first separator of `x + y` lies in `y` when `x` has none. */
  lemma IndexOfAppendRight(x: string, y: string, sep: char)
    requires sep !in x && sep in y
    ensures sep in x + y && IndexOf(x + y, sep) == |x| + IndexOf(y, sep)
  {
    var i := IndexOf(y, sep);
    assert (x + y)[|x| + i] == sep;
  }

  /** The pieces of two strings, with the last piece of the first fused to the first of the second. */
  function Fuse(px: seq<string>, py: seq<string>): seq<string>
    requires |px| >= 1 && |py| >= 1
  {
    px[..|px| - 1] + [px[|px| - 1] + py[0]] + py[1..]
  }

  /**
   * How splitting distributes over concatenation: the last piece of `x` and the
   * first piece of `y` fuse, every other piece is kept.
   */
  lemma {:induction false} SplitAppend(x: string, y: string, sep: char)
    ensures Split(x + y, sep) == Fuse(Split(x, sep), Split(y, sep))
    decreases |x|
  {
    if sep in x {
      SplitAppendLeft(x, y, sep);
    } else if sep in y {
      SplitAppendRight(x, y, sep);
    } else {
      assert sep !in x + y;
    }
  }

  lemma SplitAppendRight(x: string, y: string, sep: char)
    requires sep !in x && sep in y
    ensures Split(x + y, sep) == Fuse(Split(x, sep), Split(y, sep))
  {
    IndexOfAppendRight(x, y, sep);
    var i := IndexOf(y, sep);
    SliceOfAppend(x, y, i);
    var rest := y[i + 1..];
    assert (x + y)[|x| + i + 1..] == rest;
    SplitUnfold(x + y, sep, |x| + i, x + y[..i], rest);
    SplitUnfold(y, sep, i, y[..i], rest);
    assert Split(x, sep) == [x];
    FuseSingle(x, y[..i], Split(rest, sep));
  }

  lemma FuseSingle(x: string, h: string, t: seq<string>)
    ensures Fuse([x], [h] + t) == [x + h] + t
  {
    assert ([h] + t)[1..] == t;
  }

  lemma SliceOfAppend<T>(x: seq<T>, y: seq<T>, i: nat)
    requires i < |y|
    ensures (x + y)[..|x| + i] == x + y[..i]
    ensures (x + y)[|x| + i + 1..] == y[i + 1..]
  {
  }

  lemma {:induction false} SplitAppendLeft(x: string, y: string, sep: char)
    requires sep in x
    ensures Split(x + y, sep) == Fuse(Split(x, sep), Split(y, sep))
    decreases |x|, 0
  {
    IndexOfAppendLeft(x, y, sep);
    var i := IndexOf(x, sep);
    var x' := x[i + 1..];
    var head := x[..i];
    assert (x + y)[..i] == head;
    assert (x + y)[i + 1..] == x' + y;
    var pt, py := Split(x', sep), Split(y, sep);
    SplitAppend(x', y, sep);
    SplitUnfold(x + y, sep, i, head, x' + y);
    SplitUnfold(x, sep, i, head, x');
    FuseCons(head, pt, py);
  }

  lemma FuseAppend(pre: seq<string>, px: seq<string>, py: seq<string>)
    requires |px| >= 1 && |py| >= 1
    ensures Fuse(pre + px, py) == pre + Fuse(px, py)
  {
    var q := pre + px;
    assert q[..|q| - 1] == pre + px[..|px| - 1];
  }

  lemma FuseCons(h: string, pt: seq<string>, py: seq<string>)
    requires |pt| >= 1 && |py| >= 1
    ensures Fuse([h] + pt, py) == [h] + Fuse(pt, py)
  {
    var px := [h] + pt;
    assert px[..|px| - 1] == [h] + pt[..|pt| - 1];
  }

  /** One step of `Split` when the string holds a separator. */
  lemma SplitUnfold(s: string, sep: char, i: nat, head: string, rest: string)
    requires sep in s && i == IndexOf(s, sep)
    requires head == s[..i] && rest == s[i + 1..]
    ensures Split(s, sep) == [head] + Split(rest, sep)
  {
  }

  /** Replaces every `from` by `to` (Python's `replace` for one character). */
  function ReplaceChar(s: string, from: char, to: char): (r: string)
    ensures |r| == |s|
    ensures forall i :: 0 <= i < |s| ==> r[i] == (if s[i] == from then to else s[i])
    ensures from != to ==> from !in r
  {
    seq(|s|, i requires 0 <= i < |s| => if s[i] == from then to else s[i])
  }

  /** Lower-casing of one ASCII letter; any other character is kept. */
  function LowerChar(c: char): char {
    if 'A' <= c <= 'Z' then (c as int + 32) as char else c
  }

  /** Lower-casing of the ASCII letters; other characters are kept. */
  function LowerAscii(s: string): (r: string)
    ensures |r| == |s|
    ensures forall i :: 0 <= i < |s| ==> r[i] == LowerChar(s[i])
  {
    seq(|s|, i requires 0 <= i < |s| => LowerChar(s[i]))
  }

  /** Python's `sub in s`. */
  predicate Contains(s: string, sub: string)
    decreases |s|
  {
    sub <= s || (s != [] && Contains(s[1..], sub))
  }

  lemma {:induction false} ContainsAt(s: string, sub: string, k: nat)
    requires k + |sub| <= |s| && s[k..k + |sub|] == sub
    ensures Contains(s, sub)
    decreases k
  {
    if k == 0 {
      assert s[..|sub|] == sub;
    } else {
      assert s[1..][k - 1..k - 1 + |sub|] == s[k..k + |sub|];
      ContainsAt(s[1..], sub, k - 1);
    }
  }

  predicate IsDigit(c: char) {
    '0' <= c <= '9'
  }

  predicate AllDigits(s: string) {
    forall i :: 0 <= i < |s| ==> IsDigit(s[i])
  }

  /** The value of a string of decimal digits. */
  function DigitsValue(d: string): nat
    requires AllDigits(d)
  {
    if d == [] then 0
    else DigitsValue(d[..|d| - 1]) * 10 + (d[|d| - 1] as int - '0' as int)
  }

  function DigitChar(n: nat): (c: char)
    requires n < 10
    ensures IsDigit(c) && c as int - '0' as int == n
  {
    ('0' as int + n) as char
  }

  /** Decimal rendering of a natural number: Python's `str(n)`, JavaScript's `${n}`. */
  function NatToString(n: nat): (r: string)
    ensures |r| >= 1 && AllDigits(r)
    ensures DigitsValue(r) == n
    ensures |r| > 1 ==> r[0] != '0'
  {
    if n < 10 then [DigitChar(n)]
    else
      var r := NatToString(n / 10) + [DigitChar(n % 10)];
      assert r[..|r| - 1] == NatToString(n / 10);
      r
  }

  /** Decimal rendering of an integer, with a leading `-` when negative. */
  function IntToString(n: int): (r: string)
    ensures |r| >= 1
    ensures n >= 0 ==> r == NatToString(n)
    ensures n < 0 ==> r == "-" + NatToString(-n)
  {
    if n < 0 then "-" + NatToString(-n) else NatToString(n)
  }
}
