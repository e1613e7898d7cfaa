/**
 * The string operations of Python's `str` that the job-search pipeline relies on:
 * whitespace stripping, lower-casing, prefix and substring tests, `rstrip` of one
 * character and the decimal rendering of integers; and the length of a list slice.
 */
module Text {

  /** Python's `str.isspace()` for one character, which is also what the regular
    * expression class `\s` matches in a `str` pattern. */
  predicate IsSpace(c: char) {
    ('\t' <= c <= '\r') || ('\U{1c}' <= c <= ' ') || c == '\U{85}' || c == '\U{a0}' ||
    c == '\U{1680}' || ('\U{2000}' <= c <= '\U{200a}') || c == '\U{2028}' || c == '\U{2029}' ||
    c == '\U{202f}' || c == '\U{205f}' || c == '\U{3000}'
  }

  predicate IsDigit(c: char) { '0' <= c <= '9' }

  predicate IsAsciiLetter(c: char) { ('a' <= c <= 'z') || ('A' <= c <= 'Z') }

  predicate IsAsciiAlnum(c: char) { IsAsciiLetter(c) || IsDigit(c) }

  predicate AllSpace(s: string) { forall i :: 0 <= i < |s| ==> IsSpace(s[i]) }

  /** `s.lstrip()` */
  function LStrip(s: string): (r: string)
    decreases |s|
  {
    if |s| > 0 && IsSpace(s[0]) then LStrip(s[1..]) else s
  }

  /** `s.rstrip()` */
  function RStrip(s: string): (r: string)
    decreases |s|
  {
    if |s| > 0 && IsSpace(s[|s| - 1]) then RStrip(s[..|s| - 1]) else s
  }

  /** `s.strip()` */
  function Strip(s: string): string {
    RStrip(LStrip(s))
  }

  /** True when `s` neither starts nor ends with whitespace. */
  predicate Trimmed(s: string) {
    s == [] || (!IsSpace(s[0]) && !IsSpace(s[|s| - 1]))
  }

  lemma {:induction false} LStripIsSuffix(s: string)
    ensures |LStrip(s)| <= |s| && LStrip(s) == s[|s| - |LStrip(s)|..]
    ensures LStrip(s) == [] || !IsSpace(LStrip(s)[0])
    ensures AllSpace(s[..|s| - |LStrip(s)|])
    decreases |s|
  {
    if |s| > 0 && IsSpace(s[0]) {
      LStripIsSuffix(s[1..]);
      assert s[1..][|s[1..]| - |LStrip(s)|..] == s[|s| - |LStrip(s)|..];
      var k := |s| - |LStrip(s)|;
      assert forall i :: 1 <= i < k ==> s[i] == s[1..][..k - 1][i - 1];
    }
  }

  lemma {:induction false} RStripIsPrefix(s: string)
    ensures |RStrip(s)| <= |s| && RStrip(s) == s[..|RStrip(s)|]
    ensures RStrip(s) == [] || !IsSpace(RStrip(s)[|RStrip(s)| - 1])
    ensures AllSpace(s[|RStrip(s)|..])
    decreases |s|
  {
    if |s| > 0 && IsSpace(s[|s| - 1]) {
      RStripIsPrefix(s[..|s| - 1]);
      var k := |RStrip(s)|;
      assert s[..|s| - 1][..k] == s[..k];
      assert forall i :: k <= i < |s| - 1 ==> s[i] == s[..|s| - 1][k..][i - k];
    }
  }

  /** RStrip never exposes a leading space: it only removes characters at the end. */
  lemma {:induction false} RStripKeepsFirst(s: string)
    requires s != [] && !IsSpace(s[0])
    ensures RStrip(s) != [] && RStrip(s)[0] == s[0]
    decreases |s|
  {
    if IsSpace(s[|s| - 1]) {
      RStripKeepsFirst(s[..|s| - 1]);
    }
  }

  /** Whatever `str.strip()` returns has no whitespace at either end, and is a
    * contiguous piece of its argument with only whitespace cut away. */
  lemma StripTrimmed(s: string)
    ensures Trimmed(Strip(s))
    ensures |Strip(s)| <= |s|
  {
    LStripIsSuffix(s);
    RStripIsPrefix(LStrip(s));
    if Strip(s) != [] {
      RStripKeepsFirst(LStrip(s));
    }
  }

  /** Stripping text that is whitespace around a trimmed core gives back the core. */
  lemma {:induction false} StripAround(lead: string, core: string, trail: string)
    requires AllSpace(lead) && AllSpace(trail)
    requires core != [] && Trimmed(core)
    ensures Strip(lead + core + trail) == core
  {
    LStripSpaces(lead, core + trail);
    assert lead + core + trail == lead + (core + trail);
    RStripSpaces(core, trail);
  }

  lemma {:induction false} LStripSpaces(lead: string, rest: string)
    requires AllSpace(lead)
    requires rest != [] && !IsSpace(rest[0])
    ensures LStrip(lead + rest) == rest
    decreases |lead|
  {
    if lead != [] {
      assert (lead + rest)[1..] == lead[1..] + rest;
      LStripSpaces(lead[1..], rest);
    } else {
      assert lead + rest == rest;
    }
  }

  lemma {:induction false} RStripSpaces(core: string, trail: string)
    requires AllSpace(trail)
    requires core != [] && !IsSpace(core[|core| - 1])
    ensures RStrip(core + trail) == core
    decreases |trail|
  {
    if trail != [] {
      var t' := trail[..|trail| - 1];
      assert (core + trail)[..|core + trail| - 1] == core + t';
      RStripSpaces(core, t');
    } else {
      assert core + trail == core;
    }
  }

  /** `s.rstrip(c)`: drop every trailing `c`. */
  function RStripChar(s: string, c: char): (r: string)
    decreases |s|
  {
    if |s| > 0 && s[|s| - 1] == c then RStripChar(s[..|s| - 1], c) else s
  }

  /** `s.rstrip(c)` is `s` with exactly its run of trailing `c` removed. */
  lemma {:induction false} RStripCharSpec(s: string, c: char)
    ensures var r := RStripChar(s, c);
      |r| <= |s| && s[..|r|] == r && (r == [] || r[|r| - 1] != c) &&
      forall i :: |r| <= i < |s| ==> s[i] == c
    decreases |s|
  {
    if |s| > 0 && s[|s| - 1] == c {
      RStripCharSpec(s[..|s| - 1], c);
      var r := RStripChar(s, c);
      assert s[..|s| - 1][..|r|] == s[..|r|];
      assert forall i :: |r| <= i < |s| - 1 ==> s[i] == s[..|s| - 1][i];
    }
  }

  /** ASCII lower-casing of one character. */
  function LowerChar(c: char): char {
    if 'A' <= c <= 'Z' then (c as int + 32) as char else c
  }

  /** `s.lower()`, restricted to ASCII letters. */
  function Lower(s: string): string {
    seq(|s|, i requires 0 <= i < |s| => LowerChar(s[i]))
  }

  /** Lower-casing keeps the length, leaves no capital, turns every capital into a
    * lower-case letter and keeps every other character in place. */
  lemma LowerSpec(s: string)
    ensures |Lower(s)| == |s|
    ensures forall c :: c in Lower(s) ==> !('A' <= c <= 'Z')
    ensures forall i :: 0 <= i < |s| && !('A' <= s[i] <= 'Z') ==> Lower(s)[i] == s[i]
    ensures forall i :: 0 <= i < |s| && 'A' <= s[i] <= 'Z' ==> 'a' <= Lower(s)[i] <= 'z'
  {
  }

  /** Lower-casing leaves a string without capital letters unchanged. */
  lemma LowerOfLowercase(s: string)
    requires forall c :: c in s ==> !('A' <= c <= 'Z')
    ensures Lower(s) == s
  {
    assert forall j :: 0 <= j < |s| ==> s[j] in s;
  }

  /** Lower-casing twice is lower-casing once. */
  lemma LowerIdempotent(s: string)
    ensures Lower(Lower(s)) == Lower(s)
  {
    LowerSpec(s);
    LowerOfLowercase(Lower(s));
  }

  /** `s.startswith(p)` */
  predicate StartsWith(s: string, p: string) {
    |p| <= |s| && s[..|p|] == p
  }

  /** `t in s` for strings: `t` occurs in `s` at some position. */
  predicate Contains(s: string, t: string)
    decreases |s|
  {
    StartsWith(s, t) || (|s| > 0 && Contains(s[1..], t))
  }

  /** A string cannot contain a piece with a character it lacks. */
  lemma {:induction false} NotContainsWithout(s: string, t: string, c: char)
    requires c in t && c !in s
    ensures !Contains(s, t)
    decreases |s|
  {
    var j :| 0 <= j < |t| && t[j] == c;
    if |t| <= |s| {
      assert s[j] in s;
    }
    if |s| > 0 {
      assert forall d :: d in s[1..] ==> d in s;
      NotContainsWithout(s[1..], t, c);
    }
  }

  function DigitChar(d: nat): char
    requires d < 10
  {
    "0123456789"[d]
  }

  /** `str(n)` for a natural number: its decimal digits, no leading zeros. */
  function NatToString(n: nat): (r: string)
    ensures |r| >= 1 && forall i :: 0 <= i < |r| ==> IsDigit(r[i])
    ensures (r[0] == '0') <==> n == 0
  {
    if n < 10 then [DigitChar(n)] else NatToString(n / 10) + [DigitChar(n % 10)]
  }

  /** `str(i)` for a Python `int`. */
  function IntToString(i: int): string {
    if i < 0 then "-" + NatToString(-i) else NatToString(i)
  }

  /** `min(a, b)` */
  function Min(a: int, b: int): int {
    if a <= b then a else b
  }

  /** The length of `xs[:k]` for a list of length `n`: a non-negative stop keeps at
    * most `k` elements, a negative one drops the last `-k`. */
  function SliceLength(k: int, n: nat): (r: nat)
    ensures r <= n
    ensures 0 <= k ==> r == Min(k, n)
    ensures k < 0 ==> r == if n + k > 0 then n + k else 0
  {
    if k >= 0 then Min(k, n) else if n + k > 0 then n + k else 0
  }
}
