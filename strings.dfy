/** The JavaScript string semantics the server relies on: `trim()`,
    `toLowerCase()`, the `||` fallback on strings, string ordering (as used by the
    store's sort), `parseInt(s, 10)`, `String(n)` and `padStart`. */
module Strings {
  import opened Common

  // ----- whitespace, trim and lowercase -----

  /** The characters `String.prototype.trim` removes (white space and line terminators). */
  predicate IsSpace(c: char) {
    var n := c as int;
    (9 <= n <= 13) || n == 32 || n == 0xA0 || n == 0x1680 || (0x2000 <= n <= 0x200A)
    || n == 0x2028 || n == 0x2029 || n == 0x202F || n == 0x205F || n == 0x3000 || n == 0xFEFF
  }

  function TrimStart(s: string): (r: string)
    ensures |r| <= |s| && r == s[|s| - |r|..]
    ensures r == [] || !IsSpace(r[0])
    ensures forall k :: 0 <= k < |s| - |r| ==> IsSpace(s[k])
  {
    if s != [] && IsSpace(s[0]) then
      var r := TrimStart(s[1..]);
      assert forall k :: 1 <= k < |s| ==> s[k] == s[1..][k - 1];
      r
    else s
  }

  function TrimEnd(s: string): (r: string)
    ensures |r| <= |s| && r == s[..|r|]
    ensures r == [] || !IsSpace(r[|r| - 1])
    ensures forall k :: |r| <= k < |s| ==> IsSpace(s[k])
  {
    if s != [] && IsSpace(s[|s| - 1]) then
      var r := TrimEnd(s[..|s| - 1]);
      assert forall k :: 0 <= k < |s| - 1 ==> s[k] == s[..|s| - 1][k];
      r
    else s
  }

  /** Neither starts nor ends with white space. */
  predicate Trimmed(s: string) {
    s == [] || (!IsSpace(s[0]) && !IsSpace(s[|s| - 1]))
  }

  /** `r` is the slice of `s` from `a` on, and only white space lies around it. */
  predicate SliceInSpace(s: string, r: string, a: nat) {
    && a + |r| <= |s| && r == s[a..a + |r|]
    && (forall k :: 0 <= k < a ==> IsSpace(s[k]))
    && (forall k :: a + |r| <= k < |s| ==> IsSpace(s[k]))
  }

  /** `s.trim()`: the slice of `s` that only white space surrounds and that neither starts
      nor ends with white space. */
  function Trim(s: string): (r: string)
    ensures |r| <= |s|
    ensures Trimmed(r)
    ensures exists a: nat :: SliceInSpace(s, r, a)
    ensures r == [] <==> forall k :: 0 <= k < |s| ==> IsSpace(s[k])
  {
    TrimIsSlice(s);
    TrimEnd(TrimStart(s))
  }

  lemma TrimIsSlice(s: string)
    ensures SliceInSpace(s, TrimEnd(TrimStart(s)), |s| - |TrimStart(s)|)
  {
    var t := TrimStart(s);
    SliceInSpaceIntro(s, t, TrimEnd(t), |s| - |t|);
  }

  /** A prefix `r` of the suffix `t` of `s` lies in white space when what `t` drops from
      `s` and what `r` drops from `t` are white space. */
  lemma SliceInSpaceIntro(s: string, t: string, r: string, a: nat)
    requires a <= |s| && t == s[a..] && |r| <= |t| && r == t[..|r|]
    requires forall k :: 0 <= k < a ==> IsSpace(s[k])
    requires forall k :: |r| <= k < |t| ==> IsSpace(t[k])
    ensures SliceInSpace(s, r, a)
  {
    assert r == s[a..a + |r|];
    forall k | a + |r| <= k < |s| ensures IsSpace(s[k]) {
      assert s[k] == t[k - a];
    }
  }

  /** Trimming twice is trimming once: the Mongoose `trim` setter applied to a value
      the validator already trimmed changes nothing. */
  lemma TrimIdempotent(s: string)
    ensures Trim(Trim(s)) == Trim(s)
  {
    TrimOfTrimmed(Trim(s));
  }

  /** A value without edge white space is its own trim. */
  lemma TrimOfTrimmed(s: string)
    requires Trimmed(s)
    ensures Trim(s) == s
  {
    assert TrimStart(s) == s;
    assert TrimEnd(s) == s;
  }

  function LowerChar(c: char): (d: char)
    ensures 'A' <= c <= 'Z' ==> d as int == c as int + 32
    ensures !('A' <= c <= 'Z') ==> d == c
  {
    if 'A' <= c <= 'Z' then (c as int + 32) as char else c
  }

  /** `s.toLowerCase()` restricted to the ASCII letters. */
  function ToLower(s: string): (r: string)
    ensures |r| == |s|
    ensures forall k :: 0 <= k < |s| ==> r[k] == LowerChar(s[k])
    ensures forall k :: 0 <= k < |r| ==> !('A' <= r[k] <= 'Z')
  {
    seq(|s|, k requires 0 <= k < |s| => LowerChar(s[k]))
  }

  predicate IsLower(s: string) {
    forall k :: 0 <= k < |s| ==> !('A' <= s[k] <= 'Z')
  }

  /** The `trim` + `lowercase` options of a schema string path, applied to a value. */
  function NormalizeStored(s: string): (r: string)
    ensures IsLower(r) && Trimmed(r)
    ensures |r| == |Trim(s)| && forall k :: 0 <= k < |r| ==> r[k] == LowerChar(Trim(s)[k])
  {
    var t := Trim(s);
    LowerKeepsSpace();
    ToLower(t)
  }

  lemma LowerKeepsSpace()
    ensures forall c: char :: IsSpace(LowerChar(c)) <==> IsSpace(c)
  {
  }

  /** Storing an already stored email again changes nothing. */
  lemma NormalizeStoredIdempotent(s: string)
    ensures NormalizeStored(NormalizeStored(s)) == NormalizeStored(s)
  {
    NormalizeOfNormal(NormalizeStored(s));
  }

  /** A trimmed lower-case value is stored unchanged. */
  lemma NormalizeOfNormal(s: string)
    requires Trimmed(s) && IsLower(s)
    ensures NormalizeStored(s) == s
  {
    TrimOfTrimmed(s);
    var l := ToLower(s);
    assert forall k :: 0 <= k < |s| ==> l[k] == s[k];
    assert l == s;
  }

  // ----- the `||` fallback -----

  /** `a || b` for a string `a` that may be absent: `a` unless it is missing or empty. */
  function Or(a: Option<string>, b: string): (r: string)
    ensures a.Some? && a.value != "" ==> r == a.value
    ensures a.None? || a.value == "" ==> r == b
  {
    if a.Some? && a.value != "" then a.value else b
  }

  /** The first non-empty candidate, else `fallback`: a chain `c0 || c1 || ... || fallback`. */
  function FirstNonEmpty(candidates: seq<Option<string>>, fallback: string): (r: string)
    ensures (forall k :: 0 <= k < |candidates| ==> candidates[k].None? || candidates[k].value == "")
            ==> r == fallback
    ensures r == fallback ||
            exists k :: 0 <= k < |candidates| && candidates[k] == Some(r) && r != "" &&
              (forall j :: 0 <= j < k ==> candidates[j].None? || candidates[j].value == "")
  {
    if candidates == [] then fallback
    else if candidates[0].Some? && candidates[0].value != "" then candidates[0].value
    else
      var r := FirstNonEmpty(candidates[1..], fallback);
      assert r != fallback ==>
        (exists k :: 0 <= k < |candidates| && candidates[k] == Some(r) && r != "" &&
           (forall j :: 0 <= j < k ==> candidates[j].None? || candidates[j].value == "")) by {
        if r != fallback {
          var k :| 0 <= k < |candidates| - 1 && candidates[1..][k] == Some(r) && r != "" &&
                   (forall j :: 0 <= j < k ==> candidates[1..][j].None? || candidates[1..][j].value == "");
          assert candidates[k + 1] == Some(r);
          forall j | 0 <= j < k + 1 ensures candidates[j].None? || candidates[j].value == "" {
            if j > 0 { assert candidates[j] == candidates[1..][j - 1]; }
          }
        }
      }
      r
  }

  /** A chain of two candidates is `c0 || (c1 || fallback)`. */
  lemma FirstOfTwo(c0: Option<string>, c1: Option<string>, fallback: string)
    ensures FirstNonEmpty([c0, c1], fallback) == Or(c0, Or(c1, fallback))
  {
    assert [c0, c1][1..] == [c1];
    assert [c1][1..] == [];
  }

  /** A chain of three candidates is `c0 || (c1 || (c2 || fallback))`. */
  lemma FirstOfThree(c0: Option<string>, c1: Option<string>, c2: Option<string>, fallback: string)
    ensures FirstNonEmpty([c0, c1, c2], fallback) == Or(c0, Or(c1, Or(c2, fallback)))
  {
    assert [c0, c1, c2][1..] == [c1, c2];
    FirstOfTwo(c1, c2, fallback);
  }

  // ----- string order -----

  /** `a < b` on strings: lexicographic order on characters, a proper prefix first. */
  predicate LexLess(a: string, b: string) {
    if a == [] then b != []
    else if b == [] then false
    else a[0] < b[0] || (a[0] == b[0] && LexLess(a[1..], b[1..]))
  }

  lemma {:induction false} LexLessIrreflexive(a: string)
    ensures !LexLess(a, a)
  {
    if a != [] { LexLessIrreflexive(a[1..]); }
  }

  lemma {:induction false} LexLessTransitive(a: string, b: string, c: string)
    requires LexLess(a, b) && LexLess(b, c)
    ensures LexLess(a, c)
  {
    if a != [] && b != [] && c != [] && a[0] == b[0] && b[0] == c[0] {
      LexLessTransitive(a[1..], b[1..], c[1..]);
    }
  }

  /** Any two different strings are ordered one way or the other. */
  lemma {:induction false} LexLessTotal(a: string, b: string)
    requires a != b
    ensures LexLess(a, b) || LexLess(b, a)
  {
    if a != [] && b != [] && a[0] == b[0] {
      LexLessTotal(a[1..], b[1..]);
    }
  }

  /** A common prefix does not affect the order. */
  lemma {:induction false} LexLessCommonPrefix(p: string, s: string, t: string)
    ensures LexLess(p + s, p + t) <==> LexLess(s, t)
  {
    if p != [] {
      assert (p + s)[1..] == p[1..] + s;
      assert (p + t)[1..] == p[1..] + t;
      LexLessCommonPrefix(p[1..], s, t);
    } else {
      assert p + s == s && p + t == t;
    }
  }

  /** For two strings of the same length, `a < b` is decided either on everything but the
      last character, or, when those agree, on the last character. */
  lemma {:induction false} LexLessLast(a: string, b: string)
    requires |a| == |b| > 0 && LexLess(a, b)
    ensures LexLess(a[..|a| - 1], b[..|b| - 1]) ||
            (a[..|a| - 1] == b[..|b| - 1] && a[|a| - 1] < b[|b| - 1])
  {
    var n := |a|;
    if a[0] < b[0] {
      if n == 1 {
        assert a[..0] == [] == b[..0];
      } else {
        assert a[..n - 1][0] == a[0] && b[..n - 1][0] == b[0];
      }
    } else {
      assert a[0] == b[0] && LexLess(a[1..], b[1..]);
      LexLessLast(a[1..], b[1..]);
      var a', b' := a[1..], b[1..];
      assert a'[..n - 2] == a[1..n - 1] && b'[..n - 2] == b[1..n - 1];
      assert a[..n - 1] == [a[0]] + a[1..n - 1];
      assert b[..n - 1] == [b[0]] + b[1..n - 1];
      if LexLess(a'[..n - 2], b'[..n - 2]) {
        assert a[..n - 1][1..] == a[1..n - 1] && b[..n - 1][1..] == b[1..n - 1];
      }
    }
  }

  // ----- decimal digits -----

  predicate IsDigit(c: char) { '0' <= c <= '9' }

  predicate AllDigits(s: string) { forall k :: 0 <= k < |s| ==> IsDigit(s[k]) }

  function DigitValue(c: char): (v: nat)
    requires IsDigit(c)
    ensures v <= 9
  {
    c as int - '0' as int
  }

  function DigitChar(v: nat): (c: char)
    requires v <= 9
    ensures IsDigit(c) && DigitValue(c) == v
  {
    ('0' as int + v) as char
  }

  /** `parseInt(s, 10)` of a string made of decimal digits only. */
  function ParseDigits(s: string): (v: nat)
    requires AllDigits(s)
    ensures v < Pow10(|s|)
  {
    if s == [] then 0
    else
      var high := ParseDigits(s[..|s| - 1]);
      assert Pow10(|s|) == 10 * Pow10(|s| - 1);
      10 * high + DigitValue(s[|s| - 1])
  }

  /** `String(n)` for a natural number: its decimal digits, without leading zeros. */
  function ToDigits(n: nat): (r: string)
    ensures AllDigits(r) && |r| >= 1
    ensures r[0] == '0' ==> n == 0
  {
    if n < 10 then [DigitChar(n)] else ToDigits(n / 10) + [DigitChar(n % 10)]
  }

  lemma {:induction false} ParseToDigits(n: nat)
    ensures ParseDigits(ToDigits(n)) == n
  {
    var s := ToDigits(n);
    if n < 10 {
      assert s[..0] == [];
    } else {
      ParseToDigits(n / 10);
      assert s[..|s| - 1] == ToDigits(n / 10);
    }
  }

  /** Below `10^k` the decimal rendering has at most `k` digits. */
  lemma {:induction false} ToDigitsLength(n: nat, k: nat)
    requires k >= 1 && n < Pow10(k)
    ensures |ToDigits(n)| <= k
  {
    if n >= 10 {
      assert Pow10(k) == 10 * Pow10(k - 1);
      ToDigitsLength(n / 10, k - 1);
    }
  }

  function Pow10(k: nat): (p: nat)
    ensures p >= 1
  {
    if k == 0 then 1 else 10 * Pow10(k - 1)
  }

  predicate AllZeros(z: string) { forall k :: 0 <= k < |z| ==> z[k] == '0' }

  lemma {:induction false} ParseZeros(z: string)
    requires AllZeros(z)
    ensures AllDigits(z) && ParseDigits(z) == 0
  {
    if z != [] { ParseZeros(z[..|z| - 1]); }
  }

  /** Leading zeros do not change the parsed value. */
  lemma {:induction false} ParseLeadingZeros(z: string, s: string)
    requires AllZeros(z) && AllDigits(s)
    ensures AllDigits(z + s) && ParseDigits(z + s) == ParseDigits(s)
  {
    if s == [] {
      assert z + s == z;
      ParseZeros(z);
    } else {
      ParseLeadingZeros(z, s[..|s| - 1]);
      assert (z + s)[..|z + s| - 1] == z + s[..|s| - 1];
    }
  }

  /** On digit strings of one length, string order and numeric order agree. */
  lemma {:induction false} LexLessDigits(a: string, b: string)
    requires |a| == |b| && AllDigits(a) && AllDigits(b) && LexLess(a, b)
    ensures ParseDigits(a) < ParseDigits(b)
  {
    var n := |a|;
    LexLessLast(a, b);
    if LexLess(a[..n - 1], b[..n - 1]) {
      LexLessDigits(a[..n - 1], b[..n - 1]);
    }
  }

  // ----- padding -----

  function Repeat(c: char, n: nat): (r: string)
    ensures |r| == n && forall k :: 0 <= k < n ==> r[k] == c
  {
    seq(n, _ => c)
  }

  /** `s.padStart(width, fill)`: prepends copies of `fill` up to `width`; never truncates. */
  function PadStart(s: string, width: nat, fill: char): (r: string)
    ensures |r| == if |s| >= width then |s| else width
    ensures r[|r| - |s|..] == s
    ensures forall k :: 0 <= k < |r| - |s| ==> r[k] == fill
  {
    if |s| >= width then s else Repeat(fill, width - |s|) + s
  }
}
