/** String primitives of JavaScript that the core relies on: the white-space
    class shared by `\s` and `String.prototype.trim`, `trim` itself,
    `startsWith` / `endsWith` / `includes`, `toLowerCase` / `toUpperCase`
    (restricted to the letters listed below) and `length`, which counts UTF-16
    code units rather than characters. */
module Text {

  /** ECMAScript WhiteSpace and LineTerminator code points: what `\s` matches
      and what `trim` removes. */
  predicate IsSpace(c: char) {
    var n := c as int;
    (9 <= n <= 13) || n == 0x20 || n == 0xA0 || n == 0x1680 || (0x2000 <= n <= 0x200A)
    || n == 0x2028 || n == 0x2029 || n == 0x202F || n == 0x205F || n == 0x3000 || n == 0xFEFF
  }

  predicate AllSpace(s: string) {
    forall i :: 0 <= i < |s| ==> IsSpace(s[i])
  }

  predicate NoSpace(s: string) {
    forall i :: 0 <= i < |s| ==> !IsSpace(s[i])
  }

  /** `trimStart`: the longest suffix of `s` that does not start with white space. */
  function TrimStart(s: string): (r: string)
    ensures |r| <= |s| && r == s[|s| - |r|..]
    ensures r == [] || !IsSpace(r[0])
    ensures AllSpace(s[..|s| - |r|])
  {
    if s != [] && IsSpace(s[0]) then
      var t := TrimStart(s[1..]);
      assert s[..|s| - |t|] == [s[0]] + s[1..][..|s| - 1 - |t|];
      t
    else s
  }

  /** `trimEnd`: the longest prefix of `s` that does not end with white space. */
  function TrimEnd(s: string): (r: string)
    ensures |r| <= |s| && r == s[..|r|]
    ensures r == [] || !IsSpace(r[|r| - 1])
    ensures AllSpace(s[|r|..])
  {
    if s != [] && IsSpace(s[|s| - 1]) then
      var t := TrimEnd(s[..|s| - 1]);
      assert s[|t|..] == s[..|s| - 1][|t|..] + [s[|s| - 1]];
      t
    else s
  }

  /** `trim`: `s` without its leading and trailing white space. It is empty
      exactly when `s` is all white space, and otherwise starts and ends with
      a character that is not white space. */
  function Trim(s: string): (r: string)
    ensures |r| <= |s|
    ensures r == [] <==> AllSpace(s)
    ensures r != [] ==> !IsSpace(r[0]) && !IsSpace(r[|r| - 1])
  {
    var t := TrimStart(s);
    TrimEmpty(s, t);
    TrimEnd(t)
  }

  lemma TrimEmpty(s: string, t: string)
    requires t == TrimStart(s)
    ensures TrimEnd(t) == [] <==> AllSpace(s)
    ensures TrimEnd(t) != [] ==> TrimEnd(t)[0] == t[0]
  {
    if t == [] {
      assert s[..|s| - |t|] == s;
    } else {
      assert !IsSpace(s[|s| - |t|]);
    }
  }

  /** Trimming the end of `a + b` keeps all of `a` when `b` has a character
      that is not white space. */
  lemma {:induction false} TrimEndKeepsPrefix(a: string, b: string)
    requires !AllSpace(b)
    ensures TrimEnd(a + b) == a + TrimEnd(b)
  {
    if IsSpace(b[|b| - 1]) {
      assert (a + b)[..|a + b| - 1] == a + b[..|b| - 1];
      var i :| 0 <= i < |b| && !IsSpace(b[i]);
      assert i < |b| - 1;
      assert b[..|b| - 1][i] == b[i];
      TrimEndKeepsPrefix(a, b[..|b| - 1]);
    }
  }

  /** Trimming the start of `a + b` keeps all of `b` when `a` has a character
      that is not white space. */
  lemma {:induction false} TrimStartKeepsSuffix(a: string, b: string)
    requires !AllSpace(a)
    ensures TrimStart(a + b) == TrimStart(a) + b
  {
    if IsSpace(a[0]) {
      assert (a + b)[1..] == a[1..] + b;
      var i :| 0 <= i < |a| && !IsSpace(a[i]);
      assert i > 0;
      assert a[1..][i - 1] == a[i];
      TrimStartKeepsSuffix(a[1..], b);
    }
  }

  /** Trimming the end of `a + b` keeps all of `a` when `a` ends with a
      character that is not white space. */
  lemma TrimEndKeepsSolidPrefix(a: string, b: string)
    requires a != [] && !IsSpace(a[|a| - 1])
    ensures |a| <= |TrimEnd(a + b)| && TrimEnd(a + b)[..|a|] == a
  {
    var s := a + b;
    var r := TrimEnd(s);
    assert s[|a| - 1] == a[|a| - 1];
  }

  predicate StartsWith(s: string, p: string) {
    |p| <= |s| && s[..|p|] == p
  }

  predicate EndsWith(s: string, p: string) {
    |p| <= |s| && s[|s| - |p|..] == p
  }

  /** `s.includes(t)`. */
  predicate Contains(s: string, t: string) {
    exists i :: 0 <= i <= |s| && StartsWith(s[i..], t)
  }

  lemma ContainsInfix(a: string, t: string, b: string)
    ensures Contains(a + t + b, t)
  {
    var s := a + t + b;
    assert s[|a|..][..|t|] == t;
    assert StartsWith(s[|a|..], t);
  }

  /** `toLowerCase` on Basic Latin and on the basic Cyrillic block; other
      characters are returned unchanged. */
  function LowerChar(c: char): char {
    var n := c as int;
    if 'A' <= c <= 'Z' || 0x410 <= n <= 0x42F then (n + 32) as char
    else if 0x400 <= n <= 0x40F then (n + 80) as char
    else c
  }

  function Lower(s: string): string {
    seq(|s|, i requires 0 <= i < |s| => LowerChar(s[i]))
  }

  /** `toUpperCase` on Basic Latin; other characters are returned unchanged. */
  function UpperChar(c: char): char {
    if 'a' <= c <= 'z' then (c as int - 32) as char else c
  }

  function Upper(s: string): string {
    seq(|s|, i requires 0 <= i < |s| => UpperChar(s[i]))
  }

  /** Number of UTF-16 code units JavaScript uses for `c`. */
  function Utf16Width(c: char): nat {
    if c as int >= 0x10000 then 2 else 1
  }

  /** JavaScript's `length`: UTF-16 code units, never fewer than the
      characters and never more than twice as many. */
  function Utf16Length(s: string): (n: nat)
    ensures |s| <= n <= 2 * |s|
    ensures (forall i :: 0 <= i < |s| ==> s[i] as int < 0x10000) ==> n == |s|
  {
    if s == [] then 0 else Utf16Width(s[0]) + Utf16Length(s[1..])
  }

  /** The UTF-16 code units of `c`: the character itself in the Basic
      Multilingual Plane, a surrogate pair above it. */
  function CharUnits(c: char): (u: seq<int>)
    ensures |u| == Utf16Width(c)
    ensures forall k :: 0 <= k < |u| ==> 0 <= u[k] < 0x10000
    ensures c as int < 0x10000 ==> u == [c as int]
  {
    var n := c as int;
    if n < 0x10000 then [n] else [0xD800 + (n - 0x10000) / 0x400, 0xDC00 + (n - 0x10000) % 0x400]
  }

  /** `s.split('')` read through `charCodeAt(0)`: the UTF-16 code units of `s`.
      There are `length` of them, and for text in the Basic Multilingual
      Plane they are the characters' own codes. */
  function Utf16Units(s: string): (u: seq<int>)
    ensures |u| == Utf16Length(s)
    ensures forall k :: 0 <= k < |u| ==> 0 <= u[k] < 0x10000
    ensures (forall i :: 0 <= i < |s| ==> s[i] as int < 0x10000) ==> |u| == |s| && forall i :: 0 <= i < |s| ==> u[i] == s[i] as int
  {
    if s == [] then [] else CharUnits(s[0]) + Utf16Units(s[1..])
  }

  /** `p.repeat(n)`. */
  function Repeat(p: string, n: nat): (r: string)
    ensures |r| == n * |p|
    ensures forall i :: 0 <= i < |r| ==> r[i] in p
  {
    if n == 0 then [] else p + Repeat(p, n - 1)
  }

  /** `p.repeat(n)` is `n` copies of `p` one after the other: copy `k`
      occupies positions `k·|p|` to `k·|p| + |p| - 1`. */
  lemma {:induction false} RepeatAt(p: string, n: nat, k: nat, j: nat)
    requires k < n && j < |p|
    ensures k * |p| + j < |Repeat(p, n)| && Repeat(p, n)[k * |p| + j] == p[j]
    decreases n
  {
    if k > 0 {
      RepeatAt(p, n - 1, k - 1, j);
      assert k * |p| == (k - 1) * |p| + |p|;
    }
  }
}
