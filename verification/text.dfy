/** String helpers shared by the scenario builders: decimal rendering of indices
    (Python's `f"{i}"`), Python's `str.replace`, substring search (`t in s`),
    ASCII lower-casing and `os.path.basename`. */
module Text {

  predicate IsDigit(c: char) {
    '0' <= c <= '9'
  }

  function DigitChar(d: nat): (c: char)
    requires d < 10
    ensures IsDigit(c)
    ensures DigitValue(c) == d
  {
    (('0' as int) + d) as char
  }

  function DigitValue(c: char): nat
    requires IsDigit(c)
  {
    (c as int) - ('0' as int)
  }

  /** Decimal rendering of a natural number, most significant digit first, no
      leading zeros. */
  function NatToString(n: nat): (s: string)
    ensures 1 <= |s|
    ensures forall k | 0 <= k < |s| :: IsDigit(s[k])
    decreases n
  {
    if n < 10 then [DigitChar(n)] else NatToString(n / 10) + [DigitChar(n % 10)]
  }

  /** Reads a string of decimal digits back as a number (the inverse of NatToString). */
  function ParseDecimal(s: string): nat
    requires forall k | 0 <= k < |s| :: IsDigit(s[k])
    decreases |s|
  {
    if s == [] then 0 else ParseDecimal(s[..|s| - 1]) * 10 + DigitValue(s[|s| - 1])
  }

  lemma {:induction false} ParseRendered(n: nat)
    ensures ParseDecimal(NatToString(n)) == n
    decreases n
  {
    var s := NatToString(n);
    if n >= 10 {
      ParseRendered(n / 10);
      assert s[..|s| - 1] == NatToString(n / 10);
    }
  }

  /** Distinct indices render to distinct strings. */
  lemma RenderInjective(a: nat, b: nat)
    requires NatToString(a) == NatToString(b)
    ensures a == b
  {
    ParseRendered(a);
    ParseRendered(b);
  }

  /** `t` occurs in `s` starting at position `k`. */
  predicate OccursAt(s: string, t: string, k: nat) {
    k + |t| <= |s| && s[k..k + |t|] == t
  }

  /** Python's `t in s`. */
  predicate Contains(s: string, t: string) {
    exists k: nat | k <= |s| :: OccursAt(s, t, k)
  }

  /** Python's `s.replace(pat, rep)`: every non-overlapping occurrence of `pat`,
      scanning left to right, is replaced by `rep`; an empty `pat` inserts `rep`
      before every character and at the end. */
  function Replace(s: string, pat: string, rep: string): string
    decreases |s|
  {
    if |pat| == 0 then
      if s == [] then rep else rep + [s[0]] + Replace(s[1..], pat, rep)
    else if |s| < |pat| then s
    else if s[..|pat|] == pat then rep + Replace(s[|pat|..], pat, rep)
    else [s[0]] + Replace(s[1..], pat, rep)
  }

  /** Replacing a non-empty string that does not occur changes nothing. */
  lemma {:induction false} ReplaceAbsent(s: string, pat: string, rep: string)
    requires |pat| > 0 && !Contains(s, pat)
    ensures Replace(s, pat, rep) == s
    decreases |s|
  {
    if |s| >= |pat| {
      assert !OccursAt(s, pat, 0);
      assert s[..|pat|] != pat;
      forall k: nat | OccursAt(s[1..], pat, k)
        ensures false
      {
        assert s[1..][k..k + |pat|] == s[k + 1..k + 1 + |pat|];
        assert OccursAt(s, pat, k + 1);
      }
      ReplaceAbsent(s[1..], pat, rep);
    }
  }

  /** A string longer than `s` cannot occur in it. */
  lemma LongerAbsent(s: string, t: string)
    requires |t| > |s|
    ensures !Contains(s, t)
  {
  }

  /** A string that is exactly the searched-for token becomes the replacement. */
  lemma ReplaceWhole(pat: string, rep: string)
    requires |pat| > 0
    ensures Replace(pat, pat, rep) == rep
  {
    assert pat[..|pat|] == pat;
    assert pat[|pat|..] == [];
  }

  /** A token that is a prefix of `s` is replaced at the start, and the scan resumes
      after it. */
  lemma ReplacePrefix(s: string, pat: string, rep: string)
    requires |pat| > 0 && |pat| <= |s| && s[..|pat|] == pat
    ensures Replace(s, pat, rep) == rep + Replace(s[|pat|..], pat, rep)
  {
  }

  function LowerChar(c: char): (r: char)
    ensures !('A' <= r <= 'Z')
    ensures !('A' <= c <= 'Z') ==> r == c
    ensures 'A' <= c <= 'Z' ==> r as int - c as int == 32
  {
    if 'A' <= c <= 'Z' then ((c as int) + 32) as char else c
  }

  /** Python's `s.lower()` restricted to ASCII letters. */
  function Lower(s: string): (r: string)
    ensures |r| == |s|
    ensures forall k | 0 <= k < |s| :: r[k] == LowerChar(s[k])
  {
    seq(|s|, k requires 0 <= k < |s| => LowerChar(s[k]))
  }

  /** An occurrence survives lower-casing both strings: `t in s` implies
      `t.lower() in s.lower()`. */
  lemma ContainsLower(s: string, t: string)
    requires Contains(s, t)
    ensures Contains(Lower(s), Lower(t))
  {
    var k: nat :| k <= |s| && OccursAt(s, t, k);
    forall m | 0 <= m < |t| ensures Lower(s)[k..k + |t|][m] == Lower(t)[m] {
      assert s[k + m] == t[m];
    }
    assert OccursAt(Lower(s), Lower(t), k);
  }

  /** `style` in lower or upper case survives `lower()`. */
  lemma StyleAnyCase(name: string)
    ensures Contains(name, "style") ==> Contains(Lower(name), "style")
    ensures Contains(name, "STYLE") ==> Contains(Lower(name), "style")
  {
    assert Lower("style") == "style";
    assert Lower("STYLE") == "style";
    if Contains(name, "style") {
      ContainsLower(name, "style");
    }
    if Contains(name, "STYLE") {
      ContainsLower(name, "STYLE");
    }
  }

  /** The position just after the last `/` of `p`, or 0 when `p` has none. */
  function BaseStart(p: string): (k: nat)
    ensures k <= |p|
    ensures forall j | k <= j < |p| :: p[j] != '/'
    ensures k > 0 ==> p[k - 1] == '/'
    decreases |p|
  {
    if p == [] then 0
    else if p[|p| - 1] == '/' then |p|
    else BaseStart(p[..|p| - 1])
  }

  /** `os.path.basename(p)`: the part of `p` after its last `/`. */
  function Basename(p: string): string {
    p[BaseStart(p)..]
  }

  /** The model name the scripts derive from a model path:
      `os.path.basename(path).replace('.tflite', '')`. */
  function ModelName(path: string): string {
    Replace(Basename(path), ".tflite", "")
  }

  /** `a + x == b + x` only if `a == b`. */
  lemma SuffixCancel(a: string, b: string, x: string)
    requires a + x == b + x
    ensures a == b
  {
    assert a == (a + x)[..|a|];
    assert b == (b + x)[..|b|];
  }

  /** `p + a == p + b` only if `a == b`. */
  lemma PrefixCancel(p: string, a: string, b: string)
    requires p + a == p + b
    ensures a == b
  {
    assert a == (p + a)[|p|..];
    assert b == (p + b)[|p|..];
  }

  /** Two strings with different last characters differ, whatever precedes them. */
  lemma LastCharDiffers(a: string, x: string, b: string, y: string)
    requires |x| > 0 && |y| > 0 && x[|x| - 1] != y[|y| - 1]
    ensures a + x != b + y
  {
    var l := a + x;
    var r := b + y;
    assert l[|l| - 1] == x[|x| - 1];
    assert r[|r| - 1] == y[|y| - 1];
  }
}
