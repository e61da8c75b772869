/** The handful of Python `str` operations the loaders rely on, as pure
    functions over `seq<char>`: ASCII lower-casing, `startswith`, the `in`
    substring test, `split(c)[-1]` and `split(c)[0]`, `strip()` and `str(n)` for
    a natural number. Each one is characterised by its contract rather than by
    its body, so that callers reason about what it means. */
module Text {

  /** `str.lower` on one character, restricted to ASCII: only 'A'..'Z' change. */
  function LowerChar(c: char): char {
    if 'A' <= c <= 'Z' then (c as int - 'A' as int + 'a' as int) as char else c
  }

  function Lower(s: string): (r: string)
    ensures |r| == |s|
    ensures forall i :: 0 <= i < |s| ==> r[i] == LowerChar(s[i])
  {
    if s == [] then [] else [LowerChar(s[0])] + Lower(s[1..])
  }

  lemma LowerIdempotent(s: string)
    ensures Lower(Lower(s)) == Lower(s)
  {
  }

  lemma LowerAppend(a: string, b: string)
    ensures Lower(a + b) == Lower(a) + Lower(b)
  {
  }

  /** Lower-casing never produces nor removes a character that is not a letter. */
  lemma LowerKeepsNonLetter(x: char, c: char)
    requires !('A' <= c <= 'Z') && !('a' <= c <= 'z')
    ensures LowerChar(x) == c <==> x == c
  {
  }

  /** `s.startswith(p)` */
  predicate StartsWith(s: string, p: string) {
    |p| <= |s| && s[..|p|] == p
  }

  /** `s.endswith(p)` */
  predicate EndsWith(s: string, p: string) {
    |p| <= |s| && s[|s| - |p|..] == p
  }

  /** Python's `t in s` for strings: `t` occurs as a contiguous piece of `s`. */
  predicate Contains(s: string, t: string) {
    exists i :: 0 <= i <= |s| && StartsWith(s[i..], t)
  }

  /** Whatever surrounds `t`, the result contains it. */
  lemma ContainsJoined(a: string, t: string, b: string)
    ensures Contains(a + t + b, t) && Contains(a + t, t)
  {
    var s := a + t + b;
    assert s[|a|..][..|t|] == t;
    assert (a + t)[|a|..][..|t|] == t;
  }

  /** The second and the last of four joined parts both occur in the result. */
  lemma ContainsBoth(a: string, t: string, b: string, u: string)
    ensures Contains(a + t + b + u, t) && Contains(a + t + b + u, u)
  {
    var s := a + t + b + u;
    assert s[|a|..][..|t|] == t;
    assert s[|a + t + b|..][..|u|] == u;
  }

  /** A string joined from three parts starts with the first and ends with the last. */
  lemma JoinedEnds(a: string, b: string, c: string)
    ensures StartsWith(a + b + c, a) && EndsWith(a + b + c, c)
  {
    var s := a + b + c;
    assert s[..|a|] == a;
    assert s[|a + b|..] == c;
  }

  /** Two prefixes of one string agree wherever both are defined. */
  lemma PrefixesAgree(s: string, p: string, q: string, i: nat)
    requires StartsWith(s, p) && StartsWith(s, q) && i < |p| && i < |q|
    ensures p[i] == q[i]
  {
    assert s[..|p|][i] == s[i] == s[..|q|][i];
  }

  /** A string does not start with a `p` it differs from at some position. */
  lemma DiffersAt(s: string, p: string, i: nat)
    requires i < |s| && i < |p| && s[i] != p[i]
    ensures !StartsWith(s, p)
  {
    if |p| <= |s| {
      assert s[..|p|][i] == s[i];
    }
  }

  /** `s.split(c)[-1]`: the text after the last `c`, or all of `s` when there is
      no `c`. The contract pins the result down: it is the suffix of `s` that
      holds no `c` and is either all of `s` or preceded by a `c`. */
  function AfterLast(s: string, c: char): (r: string)
    ensures |r| <= |s| && r == s[|s| - |r|..]
    ensures c !in r
    ensures |r| < |s| ==> s[|s| - |r| - 1] == c
    decreases |s|
  {
    if |s| == 0 then ""
    else if s[|s| - 1] == c then ""
    else
      var init := s[..|s| - 1];
      var x := s[|s| - 1];
      assert s == init + [x];
      var r' := AfterLast(init, c);
      var k := |init| - |r'|;
      assert s[k..] == init[k..] + [x];
      assert c !in r' + [x] by {
        assert forall y :: y in r' + [x] ==> y in r' || y == x;
      }
      assert k > 0 ==> s[k - 1] == init[k - 1];
      r' + [x]
  }

  /** The tail after the last `c` of `p + [c] + x` is `x` whenever `x` has no `c`. */
  lemma {:induction false} AfterLastOfJoined(p: string, c: char, x: string)
    requires c !in x
    ensures AfterLast(p + [c] + x, c) == x
  {
    var s := p + [c] + x;
    assert s[|s| - |x| - 1] == c;
    assert s[|s| - |x|..] == x;
  }

  /** Adding one character at the end: a `c` empties the tail, anything else
      extends it. */
  lemma AfterLastSnoc(p: string, y: char, c: char)
    ensures AfterLast(p + [y], c) == if y == c then "" else AfterLast(p, c) + [y]
  {
    assert (p + [y])[..|p|] == p;
  }

  lemma {:induction false} AfterLastWithout(s: string, c: char)
    requires c !in s
    ensures AfterLast(s, c) == s
  {
  }

  /** `s.split(c)[0]`: the text before the first `c`, or all of `s`. */
  function BeforeFirst(s: string, c: char): (r: string)
    ensures |r| <= |s| && r == s[..|r|]
    ensures c !in r
    ensures |r| < |s| ==> s[|r|] == c
    decreases |s|
  {
    if |s| == 0 then ""
    else if s[0] == c then ""
    else [s[0]] + BeforeFirst(s[1..], c)
  }

  lemma {:induction false} BeforeFirstOfJoined(x: string, c: char, q: string)
    requires c !in x
    ensures BeforeFirst(x + [c] + q, c) == x
  {
    var s := x + [c] + q;
    assert s[|x|] == c;
    assert s[..|x|] == x;
  }

  lemma {:induction false} BeforeFirstWithout(s: string, c: char)
    requires c !in s
    ensures BeforeFirst(s, c) == s
  {
  }

  /** The characters Python's `str.isspace` accepts, which is what a bare
      `str.strip()` removes. */
  predicate IsSpace(c: char) {
    || ('\t' <= c <= '\r')
    || ('\U{001C}' <= c <= '\U{001F}')
    || c == ' '
    || c == '\U{0085}'
    || c == '\U{00A0}'
    || c == '\U{1680}'
    || ('\U{2000}' <= c <= '\U{200A}')
    || c == '\U{2028}'
    || c == '\U{2029}'
    || c == '\U{202F}'
    || c == '\U{205F}'
    || c == '\U{3000}'
  }

  predicate IsBlank(s: string) {
    forall i :: 0 <= i < |s| ==> IsSpace(s[i])
  }

  /** `s.lstrip()`: the suffix left after dropping the leading whitespace. */
  function TrimStart(s: string): (r: string)
    ensures |r| <= |s| && r == s[|s| - |r|..]
    ensures IsBlank(s[..|s| - |r|])
    ensures |r| > 0 ==> !IsSpace(r[0])
    decreases |s|
  {
    if |s| > 0 && IsSpace(s[0]) then
      var r := TrimStart(s[1..]);
      assert s[..|s| - |r|] == [s[0]] + s[1..][..|s| - 1 - |r|];
      r
    else s
  }

  /** `s.rstrip()`: the prefix left after dropping the trailing whitespace. */
  function TrimEnd(s: string): (r: string)
    ensures |r| <= |s| && r == s[..|r|]
    ensures IsBlank(s[|r|..])
    ensures |r| > 0 ==> !IsSpace(r[|r| - 1])
    decreases |s|
  {
    if |s| > 0 && IsSpace(s[|s| - 1]) then
      var init := s[..|s| - 1];
      var r := TrimEnd(init);
      assert s[|r|..] == init[|r|..] + [s[|s| - 1]];
      r
    else s
  }

  /** `s.strip()`: `s` without its leading and trailing whitespace. */
  function Strip(s: string): (r: string)
    ensures |r| <= |s|
    ensures exists k :: 0 <= k <= |s| - |r| && IsBlank(s[..k]) && r == s[k..][..|r|] && IsBlank(s[k..][|r|..])
    ensures |r| > 0 ==> !IsSpace(r[0]) && !IsSpace(r[|r| - 1])
  {
    var t := TrimStart(s);
    var r := TrimEnd(t);
    var k := |s| - |t|;
    assert t == s[k..];
    r
  }

  /** A string strips to nothing exactly when every character is whitespace. */
  lemma {:induction false} StripEmptyIffBlank(s: string)
    ensures Strip(s) == "" <==> IsBlank(s)
  {
    var t := TrimStart(s);
    var r := TrimEnd(t);
    if r == "" {
      assert t[0..] == t;
      assert t == "";
      assert s[..|s|] == s;
    } else {
      assert r[0] == t[0];
      assert t[0] == s[|s| - |t|];
    }
  }

  /** Stripping twice is stripping once. */
  lemma {:induction false} StripIdempotent(s: string)
    ensures Strip(Strip(s)) == Strip(s)
  {
    var r := Strip(s);
    if |r| > 0 {
      assert TrimStart(r) == r;
      assert TrimEnd(r) == r;
    }
  }

  predicate IsDigits(s: string) {
    forall i :: 0 <= i < |s| ==> '0' <= s[i] <= '9'
  }

  function DigitChar(d: nat): (c: char)
    requires d < 10
    ensures '0' <= c <= '9'
  {
    ('0' as int + d) as char
  }

  /** `str(n)` for a natural number: its decimal digits, with no leading zero. */
  function Decimal(n: nat): (r: string)
    ensures |r| >= 1 && IsDigits(r)
    ensures r[0] == '0' <==> n == 0
    decreases n
  {
    if n < 10 then [DigitChar(n)] else Decimal(n / 10) + [DigitChar(n % 10)]
  }

  /** The value a string of decimal digits denotes (`int(s)`). */
  function DecimalValue(s: string): nat
    requires IsDigits(s)
    decreases |s|
  {
    if s == [] then 0
    else DecimalValue(s[..|s| - 1]) * 10 + (s[|s| - 1] as int - '0' as int)
  }

  lemma {:induction false} DecimalRoundTrip(n: nat)
    ensures DecimalValue(Decimal(n)) == n
    decreases n
  {
    if n >= 10 {
      DecimalRoundTrip(n / 10);
      var r := Decimal(n);
      assert r[..|r| - 1] == Decimal(n / 10);
    }
  }

  /** Different numbers print differently. */
  lemma DecimalInjective(a: nat, b: nat)
    requires Decimal(a) == Decimal(b)
    ensures a == b
  {
    DecimalRoundTrip(a);
    DecimalRoundTrip(b);
  }
}
