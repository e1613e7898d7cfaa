/**
 * Company contact discovery: the e-mail and phone scanners run over a company web
 * page's text, the search for a "contact" link among its anchors, and the update
 * that copies what was found into a posting dictionary.
 *
 * The two regular expressions are modelled by scanners that reproduce what
 * `re.findall` returns for these particular patterns (leftmost match, the
 * backtracking of each pattern worked out by hand, scanning on after each match).
 * Fetching and parsing a web page is the function parameter `fetch`.
 */
module ContactFinder {
  import opened Options
  import opened Text
  import opened PyValues
  import opened Scraper

  /** The character classes of the two e-mail pattern pieces that repeat. */
  datatype CharClass =
    | LocalChars    // [a-zA-Z0-9._%+-]
    | DomainChars   // [a-zA-Z0-9.-]
    | Letters       // [a-zA-Z]

  predicate InClass(c: char, p: CharClass) {
    match p
    case LocalChars => IsAsciiAlnum(c) || c == '.' || c == '_' || c == '%' || c == '+' || c == '-'
    case DomainChars => IsAsciiAlnum(c) || c == '.' || c == '-'
    case Letters => IsAsciiLetter(c)
  }

  /** Every character of `s` is in class `p`. */
  predicate AllChars(s: string, p: CharClass) {
    forall j :: 0 <= j < |s| ==> InClass(s[j], p)
  }

  /** `s` lists no element twice. */
  predicate NoDuplicates<T(==)>(s: seq<T>) {
    forall i, j :: 0 <= i < j < |s| ==> s[i] != s[j]
  }

  /** `x` occurs in `text` starting at position `p`. */
  predicate OccursAt(text: string, x: string, p: nat) {
    p + |x| <= |text| && text[p..p + |x|] == x
  }

  predicate Occurs(text: string, x: string) {
    exists p: nat :: p <= |text| && OccursAt(text, x, p)
  }

  /** The end of the longest run of class-`p` characters of `t` that starts at `i`. */
  function RunEnd(t: string, i: nat, p: CharClass): (r: nat)
    requires i <= |t|
    ensures i <= r <= |t|
    ensures forall j :: i <= j < r ==> InClass(t[j], p)
    ensures r == |t| || !InClass(t[r], p)
    decreases |t| - i
  {
    if i < |t| && InClass(t[i], p) then RunEnd(t, i + 1, p) else i
  }

  /** A run is determined by where it stops. */
  lemma RunEndIs(t: string, i: nat, p: CharClass, m: nat)
    requires i <= m <= |t|
    requires forall j :: i <= j < m ==> InClass(t[j], p)
    requires m == |t| || !InClass(t[m], p)
    ensures RunEnd(t, i, p) == m
  {
    var r := RunEnd(t, i, p);
    assert r < |t| ==> !InClass(t[r], p);
  }

  // ---------------------------------------------------------------------------
  // E-mail addresses: [a-zA-Z0-9._%+-]+@[a-zA-Z0-9.-]+\.[a-zA-Z]{2,}
  // ---------------------------------------------------------------------------

  /** `\.[a-zA-Z]{2}` matches at `k`: a dot followed by at least two letters. */
  predicate TldDot(t: string, k: nat) {
    k + 2 < |t| && t[k] == '.' && IsAsciiLetter(t[k + 1]) && IsAsciiLetter(t[k + 2])
  }

  /** `x` is `local@domain.tld`, the `@` at `a` and the last dot at `k`: a non-empty
    * local part, a non-empty domain, and a top-level domain of two or more letters. */
  predicate EmailParts(x: string, a: nat, k: nat) {
    && 0 < a && a + 1 < k && k + 2 < |x|
    && x[a] == '@' && x[k] == '.'
    && (forall j :: 0 <= j < a ==> InClass(x[j], LocalChars))
    && (forall j :: a < j < k ==> InClass(x[j], DomainChars))
    && (forall j :: k < j < |x| ==> InClass(x[j], Letters))
  }

  predicate IsEmailShape(x: string) {
    exists a: nat, k: nat :: a < |x| && k < |x| && EmailParts(x, a, k)
  }

  /** The largest `k` with `lo < k < hi` at which a top-level domain can start. */
  function LastTldDot(t: string, lo: nat, hi: nat): (r: Option<nat>)
    ensures r.Some? ==> lo < r.value < hi && TldDot(t, r.value)
    ensures r.Some? ==> forall k :: r.value < k < hi ==> !TldDot(t, k)
    ensures r.None? ==> forall k :: lo < k < hi ==> !TldDot(t, k)
    decreases hi
  {
    if hi <= lo + 1 then None
    else if TldDot(t, hi - 1) then Some(hi - 1)
    else LastTldDot(t, lo, hi - 1)
  }

  /** The length of the e-mail match at the start of `t`, if the pattern matches
    * there.  The local part is the whole run of local characters and must be
    * followed by `@` (no shorter run ends at an `@`); the domain backtracks from the
    * end of its run to the last dot that two letters follow; the top-level domain is
    * then the whole run of letters after that dot. */
  function MatchEmail(t: string): (r: Option<nat>)
    ensures r.Some? ==> 0 < r.value <= |t| && IsEmailShape(t[..r.value])
  {
    var at := RunEnd(t, 0, LocalChars);
    if at == 0 || at == |t| || t[at] != '@' then None
    else
      var domainEnd := RunEnd(t, at + 1, DomainChars);
      match LastTldDot(t, at + 1, domainEnd)
      case None => None
      case Some(k) =>
        var e := RunEnd(t, k + 1, Letters);
        EmailMatchShape(t, at, domainEnd, k, e);
        Some(e)
  }

  lemma EmailMatchShape(t: string, at: nat, domainEnd: nat, k: nat, e: nat)
    requires 0 < at < |t| && at == RunEnd(t, 0, LocalChars) && t[at] == '@'
    requires domainEnd == RunEnd(t, at + 1, DomainChars)
    requires at + 1 < k < domainEnd && TldDot(t, k)
    requires e == RunEnd(t, k + 1, Letters)
    ensures IsEmailShape(t[..e])
  {
    var x := t[..e];
    assert forall j :: 0 <= j < e ==> x[j] == t[j];
    assert EmailParts(x, at, k);
  }

  /** `re.findall(email_pattern, s)`: the matches, left to right, each search
    * resuming where the previous match ended. */
  function EmailMatches(s: string): (r: seq<string>)
    decreases |s|
  {
    if s == [] then []
    else
      match MatchEmail(s)
      case Some(e) => [s[..e]] + EmailMatches(s[e..])
      case None => EmailMatches(s[1..])
  }

  /** What occurs in a suffix occurs in the whole. */
  lemma OccursInSuffix(s: string, e: nat, x: string)
    requires e <= |s| && Occurs(s[e..], x)
    ensures Occurs(s, x)
  {
    var p: nat :| p <= |s[e..]| && OccursAt(s[e..], x, p);
    assert s[e..][p..p + |x|] == s[p + e..p + e + |x|];
    assert OccursAt(s, x, p + e);
  }

  /** Every e-mail match has the address shape and is a piece of the text. */
  lemma {:induction false} EmailMatchesSound(s: string)
    ensures forall x :: x in EmailMatches(s) ==> IsEmailShape(x) && Occurs(s, x)
    decreases |s|
  {
    if s != [] {
      match MatchEmail(s)
      case Some(e) =>
        EmailMatchesSound(s[e..]);
        assert OccursAt(s, s[..e], 0);
        forall x | x in EmailMatches(s[e..]) ensures Occurs(s, x) {
          OccursInSuffix(s, e, x);
        }
      case None =>
        EmailMatchesSound(s[1..]);
        forall x | x in EmailMatches(s[1..]) ensures Occurs(s, x) {
          OccursInSuffix(s, 1, x);
        }
    }
  }

  /** Text in which no character is `@` holds no e-mail address. */
  lemma {:induction false} NoAtNoEmails(s: string)
    requires '@' !in s
    ensures EmailMatches(s) == []
    decreases |s|
  {
    if s != [] {
      var at := RunEnd(s, 0, LocalChars);
      assert at < |s| ==> s[at] in s;
      assert MatchEmail(s).None?;
      assert forall c :: c in s[1..] ==> c in s;
      NoAtNoEmails(s[1..]);
    }
  }

  /** The scan passes over text without `@` that ends in a character no local part
    * contains: no match starts in it. */
  lemma {:induction false} SkipWithoutAt(pre: string, rest: string)
    requires '@' !in pre
    requires pre != [] ==> !InClass(pre[|pre| - 1], LocalChars)
    ensures EmailMatches(pre + rest) == EmailMatches(rest)
    decreases |pre|
  {
    if pre != [] {
      var s := pre + rest;
      var at := RunEnd(s, 0, LocalChars);
      assert s[|pre| - 1] == pre[|pre| - 1];
      assert at < |pre| && s[at] == pre[at] && pre[at] in pre;
      assert s[1..] == pre[1..] + rest;
      assert forall c :: c in pre[1..] ==> c in pre;
      SkipWithoutAt(pre[1..], rest);
    } else {
      assert pre + rest == rest;
    }
  }

  /** The match at the front of `s` is `s[..e]` when the characters up to `e` have
    * the address layout, with the `@` at `at` and the only dot after it that can
    * start a top-level domain at `k`, and `s[e]` cannot continue the domain. */
  lemma MatchAtLayout(s: string, at: nat, k: nat, e: nat)
    requires 0 < at && at + 1 < k && k + 2 < e <= |s|
    requires forall j :: 0 <= j < at ==> InClass(s[j], LocalChars)
    requires s[at] == '@' && s[k] == '.'
    requires forall j :: at < j < k ==> InClass(s[j], DomainChars)
    requires forall j :: k < j < e ==> InClass(s[j], Letters)
    requires e == |s| || !InClass(s[e], DomainChars)
    ensures MatchEmail(s) == Some(e)
  {
    RunEndIs(s, 0, LocalChars, at);
    RunEndIs(s, at + 1, DomainChars, e);
    RunEndIs(s, k + 1, Letters, e);
    assert TldDot(s, k);
    assert forall j :: k < j < e ==> !TldDot(s, j);
  }

  /** An address `local@domain.tld` followed by a character that cannot continue
    * its domain is matched whole. */
  lemma MatchWholeAddress(local: string, domain: string, tld: string, rest: string)
    requires local != [] && AllChars(local, LocalChars)
    requires domain != [] && AllChars(domain, DomainChars)
    requires |tld| >= 2 && AllChars(tld, Letters)
    requires rest == [] || !InClass(rest[0], DomainChars)
    ensures var x := local + "@" + domain + "." + tld;
      EmailMatches(x + rest) == [x] + EmailMatches(rest)
  {
    var p1 := local + "@";
    var p2 := p1 + domain;
    var p3 := p2 + ".";
    var x := p3 + tld;
    var s := x + rest;
    var at, k := |local|, |p2|;
    assert forall j :: 0 <= j < |x| ==> s[j] == x[j];
    assert forall j :: 0 <= j < k + 1 ==> x[j] == p3[j];
    assert forall j :: 0 <= j < k ==> p3[j] == p2[j];
    assert forall j :: 0 <= j <= at ==> p2[j] == p1[j];
    assert forall j :: at < j < k ==> p2[j] == domain[j - at - 1];
    assert forall j :: k < j < |x| ==> x[j] == tld[j - k - 1];
    assert |x| < |s| ==> s[|x|] == rest[0];
    MatchAtLayout(s, at, k, |x|);
    assert s[..|x|] == x;
    assert s[|x|..] == rest;
  }

  /** `any(x in e.lower() for x in ['noreply', 'notification', 'bot'])` */
  predicate IsNoise(e: string) {
    Contains(Lower(e), "noreply") || Contains(Lower(e), "notification") || Contains(Lower(e), "bot")
  }

  /** The comprehension that drops the noise addresses, keeping the order. */
  function Clean(es: seq<string>): (r: seq<string>)
    ensures |r| <= |es|
  {
    if es == [] then []
    else
      var last := es[|es| - 1];
      Clean(es[..|es| - 1]) + (if IsNoise(last) then [] else [last])
  }

  /** The filter keeps exactly the addresses that are not noise. */
  lemma {:induction false} CleanMembers(es: seq<string>)
    ensures forall x :: x in Clean(es) <==> x in es && !IsNoise(x)
    decreases |es|
  {
    if es != [] {
      CleanMembers(es[..|es| - 1]);
      assert es == es[..|es| - 1] + [es[|es| - 1]];
    }
  }

  /** The addresses of `text` that survive the noise filter. */
  function CleanEmails(text: string): seq<string> {
    Clean(EmailMatches(text))
  }

  /** `list(set(items))[:limit]`.  The order in which a set is listed is not
    * specified, so any choice of distinct elements is allowed: what is determined is
    * that no element repeats, each comes from `items`, there are as many as the
    * slice keeps (a negative limit drops that many from the end), and all of them
    * when they fit. */
  method TakeUnique<T(==)>(items: seq<T>, limit: int) returns (r: seq<T>)
    ensures NoDuplicates(r)
    ensures forall x :: x in r ==> x in items
    ensures |r| == SliceLength(limit, |set x | x in items|)
    ensures |set x | x in items| <= limit ==> forall x :: x in items ==> x in r
    ensures 0 < limit ==> (r == [] <==> items == [])
  {
    ghost var all := set x | x in items;
    if items != [] {
      assert items[0] in all;
    }
    var pool := set x | x in items;
    var n := SliceLength(limit, |pool|);
    r := [];
    while |r| < n
      invariant pool <= all
      invariant forall x :: x in r ==> x in all && x !in pool
      invariant forall x :: x in all ==> x in pool || x in r
      invariant NoDuplicates(r)
      invariant |r| <= n
      invariant |r| + |pool| == |all|
      decreases |pool|
    {
      var x :| x in pool;
      r := r + [x];
      pool := pool - {x};
    }
  }

  // ---------------------------------------------------------------------------
  // Phone numbers: \+?33[0-9]{9}|\+?33\s?[0-9]{9}|0[0-9]{9}
  // ---------------------------------------------------------------------------

  /** Nine ASCII digits start at `q`. */
  predicate NineDigits(t: string, q: nat) {
    q + 9 <= |t| && forall j :: q <= j < q + 9 ==> IsDigit(t[j])
  }

  /** Where the `33` of a number starting at the front of `t` has to be: after the
    * optional `+`. */
  function CountryCodeAt(t: string): nat {
    if t != [] && t[0] == '+' then 1 else 0
  }

  /** A phone number: `0` and nine digits, or an optional `+`, `33`, an optional
    * whitespace character and nine digits. */
  predicate IsPhoneShape(x: string) {
    || (|x| == 10 && x[0] == '0' && NineDigits(x, 1))
    || (var p := CountryCodeAt(x);
        && p + 2 <= |x| && x[p] == '3' && x[p + 1] == '3'
        && ((|x| == p + 11 && NineDigits(x, p + 2)) || (|x| == p + 12 && IsSpace(x[p + 2]) && NineDigits(x, p + 3))))
  }

  /** The length of the phone match at the start of `t`, if there is one.  Both
    * `33` alternatives take the optional `+` when it is there; the second adds the
    * optional whitespace; the third needs a `0`, which neither `+` nor `3` is. */
  function MatchPhone(t: string): (r: Option<nat>)
    ensures r.Some? ==> 0 < r.value <= |t| && IsPhoneShape(t[..r.value])
  {
    var p := CountryCodeAt(t);
    if p + 2 <= |t| && t[p] == '3' && t[p + 1] == '3' then
      if NineDigits(t, p + 2) then
        PhoneMatchShape(t, p + 11);
        Some(p + 11)
      else if p + 2 < |t| && IsSpace(t[p + 2]) && NineDigits(t, p + 3) then
        PhoneMatchShape(t, p + 12);
        Some(p + 12)
      else None
    else if t != [] && t[0] == '0' && NineDigits(t, 1) then
      PhoneMatchShape(t, 10);
      Some(10)
    else None
  }

  /** Cutting the text after a phone-shaped prefix keeps its shape. */
  lemma PhoneMatchShape(t: string, e: nat)
    requires 0 < e <= |t|
    requires var p := CountryCodeAt(t);
      || (e == 10 && t[0] == '0' && NineDigits(t, 1))
      || (p + 2 <= |t| && t[p] == '3' && t[p + 1] == '3' &&
          ((e == p + 11 && NineDigits(t, p + 2)) || (e == p + 12 && IsSpace(t[p + 2]) && NineDigits(t, p + 3))))
    ensures IsPhoneShape(t[..e])
  {
    assert forall j :: 0 <= j < e ==> t[..e][j] == t[j];
  }

  /** `re.findall(phone_pattern, s)` */
  function PhoneMatches(s: string): (r: seq<string>)
    decreases |s|
  {
    if s == [] then []
    else
      match MatchPhone(s)
      case Some(e) => [s[..e]] + PhoneMatches(s[e..])
      case None => PhoneMatches(s[1..])
  }

  /** Every phone match has one of the three shapes and is a piece of the text. */
  lemma {:induction false} PhoneMatchesSound(s: string)
    ensures forall x :: x in PhoneMatches(s) ==> IsPhoneShape(x) && Occurs(s, x)
    decreases |s|
  {
    if s != [] {
      match MatchPhone(s)
      case Some(e) =>
        PhoneMatchesSound(s[e..]);
        assert OccursAt(s, s[..e], 0);
        forall x | x in PhoneMatches(s[e..]) ensures Occurs(s, x) {
          OccursInSuffix(s, e, x);
        }
      case None =>
        PhoneMatchesSound(s[1..]);
        forall x | x in PhoneMatches(s[1..]) ensures Occurs(s, x) {
          OccursInSuffix(s, 1, x);
        }
    }
  }

  /** A text that starts with a phone-shaped piece has a match at its start. */
  lemma PhoneShapeMatches(s: string, x: string)
    requires IsPhoneShape(x) && |x| <= |s| && s[..|x|] == x
    ensures MatchPhone(s).Some?
  {
    assert forall j :: 0 <= j < |x| ==> s[j] == x[j];
  }

  /** Whenever a phone-shaped piece occurs in the text, at least one number is found
    * (it, or an earlier match that overlaps it). */
  lemma {:induction false} PhoneFoundIfPresent(s: string, x: string, p: nat)
    requires IsPhoneShape(x) && OccursAt(s, x, p)
    ensures PhoneMatches(s) != []
    decreases p
  {
    if MatchPhone(s).None? {
      if p == 0 {
        assert s[..|x|] == x;
        PhoneShapeMatches(s, x);
      } else {
        assert s[1..][p - 1..p - 1 + |x|] == s[p..p + |x|];
        PhoneFoundIfPresent(s[1..], x, p - 1);
      }
    }
  }
  // ---------------------------------------------------------------------------
  // The two extractors
  // ---------------------------------------------------------------------------

  /** `ContactFinder._extract_emails(text)`: at most five distinct addresses, each a
    * match of the e-mail pattern found in `text` and none of them noise; all of
    * them when there are no more than five. */
  method ExtractEmails(text: string) returns (emails: seq<string>)
    ensures |emails| <= 5 && NoDuplicates(emails)
    ensures forall e :: e in emails ==> e in CleanEmails(text)
    ensures forall e :: e in emails ==> IsEmailShape(e) && Occurs(text, e) && !IsNoise(e)
    ensures |emails| == Min(5, |set e | e in CleanEmails(text)|)
    ensures |set e | e in CleanEmails(text)| <= 5 ==> forall e :: e in CleanEmails(text) ==> e in emails
    ensures emails == [] <==> CleanEmails(text) == []
  {
    EmailMatchesSound(text);
    CleanMembers(EmailMatches(text));
    emails := TakeUnique(CleanEmails(text), 5);
  }

  /** `ContactFinder._extract_phone_numbers(text)`: at most three distinct numbers,
    * each a match of the phone pattern found in `text`. */
  method ExtractPhoneNumbers(text: string) returns (phones: seq<string>)
    ensures |phones| <= 3 && NoDuplicates(phones)
    ensures forall x :: x in phones ==> x in PhoneMatches(text)
    ensures forall x :: x in phones ==> IsPhoneShape(x) && Occurs(text, x)
    ensures |phones| == Min(3, |set x | x in PhoneMatches(text)|)
    ensures |set x | x in PhoneMatches(text)| <= 3 ==> forall x :: x in PhoneMatches(text) ==> x in phones
    ensures phones == [] <==> PhoneMatches(text) == []
  {
    PhoneMatchesSound(text);
    phones := TakeUnique(PhoneMatches(text), 3);
  }

  /** An address after a stretch of text without `@` that ends in a separator is
    * the first match, and the scan resumes right after it. */
  lemma AddressAfter(pre: string, l: string, d: string, t: string, rest: string)
    requires '@' !in pre && pre != [] && !InClass(pre[|pre| - 1], LocalChars)
    requires l != [] && AllChars(l, LocalChars) && d != [] && AllChars(d, DomainChars)
    requires |t| >= 2 && AllChars(t, Letters)
    requires rest == [] || !InClass(rest[0], DomainChars)
    ensures var a := l + "@" + d + "." + t;
      EmailMatches(pre + a + rest) == [a] + EmailMatches(rest)
  {
    var a := l + "@" + d + "." + t;
    assert pre + a + rest == pre + (a + rest);
    SkipWithoutAt(pre, a + rest);
    MatchWholeAddress(l, d, t, rest);
  }

  /** One address after a stretch of text without `@` that ends in a separator is
    * found, and nothing else is. */
  lemma OneAddressFound(pre: string, l: string, d: string, t: string)
    requires '@' !in pre && pre != [] && !InClass(pre[|pre| - 1], LocalChars)
    requires l != [] && AllChars(l, LocalChars) && d != [] && AllChars(d, DomainChars)
    requires |t| >= 2 && AllChars(t, Letters)
    ensures EmailMatches(pre + (l + "@" + d + "." + t)) == [l + "@" + d + "." + t]
  {
    var a := l + "@" + d + "." + t;
    AddressAfter(pre, l, d, t, "");
    assert pre + a + "" == pre + a;
    assert [a] + [] == [a];
  }

  /** Two addresses, each after a stretch of text without `@` that ends in a
    * separator, are found, in order, and nothing else is. */
  lemma TwoAddressesFound(pre: string, l1: string, d1: string, t1: string,
                          sep: string, l2: string, d2: string, t2: string)
    requires '@' !in pre && pre != [] && !InClass(pre[|pre| - 1], LocalChars)
    requires '@' !in sep && sep != [] && !InClass(sep[|sep| - 1], LocalChars) && !InClass(sep[0], DomainChars)
    requires l1 != [] && AllChars(l1, LocalChars) && d1 != [] && AllChars(d1, DomainChars)
    requires |t1| >= 2 && AllChars(t1, Letters)
    requires l2 != [] && AllChars(l2, LocalChars) && d2 != [] && AllChars(d2, DomainChars)
    requires |t2| >= 2 && AllChars(t2, Letters)
    ensures var a1, a2 := l1 + "@" + d1 + "." + t1, l2 + "@" + d2 + "." + t2;
      EmailMatches(pre + a1 + sep + a2) == [a1, a2]
  {
    var a1, a2 := l1 + "@" + d1 + "." + t1, l2 + "@" + d2 + "." + t2;
    assert (sep + a2)[0] == sep[0];
    AddressAfter(pre, l1, d1, t1, sep + a2);
    assert pre + a1 + sep + a2 == pre + a1 + (sep + a2);
    OneAddressFound(sep, l2, d2, t2);
    assert [a1] + [a2] == [a1, a2];
  }

  /** The noise filter keeps a list of addresses none of which is noise as it is. */
  lemma {:induction false} CleanKeepsGenuine(es: seq<string>)
    requires forall i :: 0 <= i < |es| ==> !IsNoise(es[i])
    ensures Clean(es) == es
    decreases |es|
  {
    if es != [] {
      var init, last := es[..|es| - 1], es[|es| - 1];
      assert forall i :: 0 <= i < |init| ==> init[i] == es[i];
      CleanKeepsGenuine(init);
      assert !IsNoise(last);
      assert es == init + [last];
    }
  }

  /** A lower-case address that lacks a letter of each noise word is no noise. */
  lemma GenuineWithout(e: string, c1: char, c2: char, c3: char)
    requires forall c :: c in e ==> !('A' <= c <= 'Z')
    requires c1 in "noreply" && c1 !in e
    requires c2 in "notification" && c2 !in e
    requires c3 in "bot" && c3 !in e
    ensures !IsNoise(e)
  {
    LowerOfLowercase(e);
    NotContainsWithout(e, "noreply", c1);
    NotContainsWithout(e, "notification", c2);
    NotContainsWithout(e, "bot", c3);
  }

  lemma FirstTestAddressGenuine()
    ensures !IsNoise("test" + "@" + "example" + "." + "com")
  {
    GenuineWithout("test" + "@" + "example" + "." + "com", 'n', 'n', 'b');
  }

  lemma SecondTestAddressGenuine()
    ensures !IsNoise("support" + "@" + "company" + "." + "fr")
  {
    GenuineWithout("support" + "@" + "company" + "." + "fr", 'e', 'i', 'b');
  }

  /** The text of the extraction test: both of its addresses are matched and
    * neither is noise, so `_extract_emails` returns both of them (in some order). */
  lemma ExtractEmailsTestText()
    ensures var a1, a2 := "test" + "@" + "example" + "." + "com", "support" + "@" + "company" + "." + "fr";
      CleanEmails("Contact us at " + a1 + " or " + a2) == [a1, a2]
  {
    TwoAddressesFound("Contact us at ", "test", "example", "com", " or ", "support", "company", "fr");
    FirstTestAddressGenuine();
    SecondTestAddressGenuine();
    CleanKeepsGenuine(["test" + "@" + "example" + "." + "com", "support" + "@" + "company" + "." + "fr"]);
  }

  /** The text of the second e-mail test: its one address is found. */
  lemma ExtractEmailTestText()
    ensures EmailMatches("Email: " + ("test" + "@" + "example" + "." + "com")) == ["test" + "@" + "example" + "." + "com"]
  {
    OneAddressFound("Email: ", "test", "example", "com");
  }

  /** The text of the phone test: the bare number `0123456789` has the phone shape,
    * so at least one number is returned. */
  lemma ExtractPhoneNumbersTestText()
    ensures PhoneMatches("Call us at +33 1 23 45 67 89 or " + "0123456789") != []
  {
    var pre, x := "Call us at +33 1 23 45 67 89 or ", "0123456789";
    assert IsPhoneShape(x);
    assert (pre + x)[|pre|..|pre| + |x|] == x;
    PhoneFoundIfPresent(pre + x, x, |pre|);
  }

  // ---------------------------------------------------------------------------
  // The contact page
  // ---------------------------------------------------------------------------

  /** An `<a>` element: its `href` attribute, if any, and its content. */
  datatype Anchor = Anchor(href: Option<string>, content: Element)

  /** A fetched and parsed company page: `soup.get_text()` and `soup.find_all('a')`. */
  datatype Page = Page(text: string, anchors: seq<Anchor>)

  /** The link text or the link target mentions "contact", ignoring case. */
  predicate MentionsContact(a: Anchor) {
    Contains(Lower(GetText(a.content)), "contact") || Contains(Lower(a.href.GetOr("")), "contact")
  }

  /** The URL a contact link leads to: an absolute `http` link as it is, a
    * root-relative one after the base URL without its trailing slashes, and none for
    * any other link. */
  function Resolve(href: string, baseUrl: string): (r: Option<string>)
    ensures r.Some? ==> r.value != []
  {
    if StartsWith(href, "http") then Some(href)
    else if StartsWith(href, "/") then Some(RStripChar(baseUrl, '/') + href)
    else None
  }

  /** The resolution rules spelled out: `base_url.rstrip('/')` is `base_url` up to
    * its run of trailing slashes. */
  lemma ResolveRules(href: string, baseUrl: string)
    ensures StartsWith(href, "http") ==> Resolve(href, baseUrl) == Some(href)
    ensures !StartsWith(href, "http") && StartsWith(href, "/") ==>
      exists n: nat ::
        && n <= |baseUrl| && Resolve(href, baseUrl) == Some(baseUrl[..n] + href)
        && (n == 0 || baseUrl[n - 1] != '/')
        && (forall i :: n <= i < |baseUrl| ==> baseUrl[i] == '/')
    ensures !StartsWith(href, "http") && !StartsWith(href, "/") ==> Resolve(href, baseUrl).None?
  {
    RStripCharSpec(baseUrl, '/');
    var n := |RStripChar(baseUrl, '/')|;
    assert baseUrl[..n] == RStripChar(baseUrl, '/');
  }

  /** An anchor that `_find_contact_page` returns on. */
  predicate Usable(a: Anchor, baseUrl: string) {
    MentionsContact(a) && Resolve(a.href.GetOr(""), baseUrl).Some?
  }

  /** The result of `_find_contact_page`: the resolved link of the first usable
    * anchor in document order, if there is one. */
  function ContactPage(anchors: seq<Anchor>, baseUrl: string): (r: Option<string>)
    ensures r.None? <==> forall i :: 0 <= i < |anchors| ==> !Usable(anchors[i], baseUrl)
    ensures r.Some? ==> exists i ::
      && 0 <= i < |anchors| && Usable(anchors[i], baseUrl)
      && (forall j :: 0 <= j < i ==> !Usable(anchors[j], baseUrl))
      && r == Resolve(anchors[i].href.GetOr(""), baseUrl)
    decreases |anchors|
  {
    if anchors == [] then None
    else if Usable(anchors[0], baseUrl) then Resolve(anchors[0].href.GetOr(""), baseUrl)
    else
      var r := ContactPage(anchors[1..], baseUrl);
      assert forall i :: 1 <= i < |anchors| ==> anchors[i] == anchors[1..][i - 1];
      assert r.Some? ==> exists i ::
        && 1 <= i < |anchors| && Usable(anchors[i], baseUrl)
        && (forall j :: 0 <= j < i ==> !Usable(anchors[j], baseUrl))
        && r == Resolve(anchors[i].href.GetOr(""), baseUrl) by {
        if r.Some? {
          var i :| && 0 <= i < |anchors[1..]| && Usable(anchors[1..][i], baseUrl)
                   && (forall j :: 0 <= j < i ==> !Usable(anchors[1..][j], baseUrl))
                   && r == Resolve(anchors[1..][i].href.GetOr(""), baseUrl);
          assert forall j :: 0 <= j < i + 1 ==> !Usable(anchors[j], baseUrl) by {
            forall j | 0 <= j < i + 1 ensures !Usable(anchors[j], baseUrl) {
              if j > 0 {
                assert anchors[j] == anchors[1..][j - 1];
              }
            }
          }
        }
      }
      r
  }

  /** The search from anchor `i` on either stops at it or goes on after it. */
  lemma ContactPageFrom(anchors: seq<Anchor>, i: nat, baseUrl: string)
    requires i < |anchors|
    ensures ContactPage(anchors[i..], baseUrl) ==
      if Usable(anchors[i], baseUrl) then Resolve(anchors[i].href.GetOr(""), baseUrl)
      else ContactPage(anchors[i + 1..], baseUrl)
  {
    assert anchors[i..][1..] == anchors[i + 1..];
  }

  /** `ContactFinder._find_contact_page(soup, base_url)`: the loop over the anchors
    * that returns at the first one that mentions "contact" and resolves. */
  method FindContactPage(anchors: seq<Anchor>, baseUrl: string) returns (r: Option<string>)
    ensures r == ContactPage(anchors, baseUrl)
  {
    var i := 0;
    while i < |anchors|
      invariant 0 <= i <= |anchors|
      invariant ContactPage(anchors, baseUrl) == ContactPage(anchors[i..], baseUrl)
    {
      ContactPageFrom(anchors, i, baseUrl);
      var link := anchors[i];
      if MentionsContact(link) {
        var url := Resolve(link.href.GetOr(""), baseUrl);
        if url.Some? {
          return url;
        }
      }
      i := i + 1;
    }
    return None;
  }

  // ---------------------------------------------------------------------------
  // Company information and enrichment
  // ---------------------------------------------------------------------------

  /** `emails[0] if emails else None` for a list drawn from `candidates` that is
    * empty only when `candidates` is: `None` exactly when nothing was found,
    * otherwise one of the candidates. */
  predicate FoundAmong(v: Value, candidates: seq<string>) {
    && (v == Null <==> candidates == [])
    && (v != Null ==> v.Str? && v.s in candidates)
  }

  /** The page `find_company_info` scrapes: only a non-empty website string is
    * requested, and `fetch` answers `None` when the request, the HTTP status or the
    * parse fails. */
  function ScrapedPage(website: Value, fetch: string -> Option<Page>): Option<Page> {
    if website.Str? && website.s != "" then fetch(website.s) else None
  }

  const ScrapeKeys: set<string> := {"email", "phone", "has_contact_page", "contact_page_url"}

  /** The entries `_scrape_company_website` returns for a fetched page. */
  predicate ScrapeOf(d: Fields, page: Page, websiteUrl: string) {
    && ScrapeKeys <= d.Keys
    && FoundAmong(d["email"], CleanEmails(page.text))
    && FoundAmong(d["phone"], PhoneMatches(page.text))
    && d["contact_page_url"] == FromOption(ContactPage(page.anchors, websiteUrl))
    && d["has_contact_page"] == Bool(ContactPage(page.anchors, websiteUrl).Some?)
  }

  /** `emails[0] if emails else None` after `emails = self._extract_emails(text)`. */
  method FirstEmail(text: string) returns (v: Value)
    ensures FoundAmong(v, CleanEmails(text))
  {
    var emails := ExtractEmails(text);
    v := if emails != [] then Str(emails[0]) else Null;
  }

  /** `phones[0] if phones else None` after `phones = self._extract_phone_numbers(text)`. */
  method FirstPhone(text: string) returns (v: Value)
    ensures FoundAmong(v, PhoneMatches(text))
  {
    var phones := ExtractPhoneNumbers(text);
    v := if phones != [] then Str(phones[0]) else Null;
  }

  /** `ContactFinder._scrape_company_website(website_url)`: the first address and
    * number found and the contact page, or `{}` when fetching or parsing fails. */
  method ScrapeCompanyWebsite(websiteUrl: string, fetch: string -> Option<Page>) returns (d: Fields)
    ensures fetch(websiteUrl).None? ==> d == map[]
    ensures fetch(websiteUrl).Some? ==> d.Keys == ScrapeKeys && ScrapeOf(d, fetch(websiteUrl).value, websiteUrl)
  {
    var response := fetch(websiteUrl);
    if response.None? {
      return map[];
    }
    var page := response.value;
    var email := FirstEmail(page.text);
    var phone := FirstPhone(page.text);
    var contactPage := FindContactPage(page.anchors, websiteUrl);
    d := map[
      "email" := email,
      "phone" := phone,
      "has_contact_page" := Bool(Truthy(FromOption(contactPage))),
      "contact_page_url" := FromOption(contactPage)];
  }

  /** The dictionary `find_company_info` starts from (its empty `social_media`
    * entry aside). */
  function InfoDefaults(companyName: Value, website: Value): Fields {
    map["company_name" := companyName, "email" := Null, "phone" := Null, "website" := website]
  }

  /** `ContactFinder.find_company_info(company_name, company_website)`: the name and
    * website as given, and email and phone `None` unless the website was scraped,
    * in which case the scrape's entries are added. */
  method FindCompanyInfo(companyName: Value, website: Value, fetch: string -> Option<Page>) returns (info: Fields)
    ensures InfoDefaults(companyName, website).Keys <= info.Keys
    ensures info["company_name"] == companyName && info["website"] == website
    ensures ScrapedPage(website, fetch).None? ==> info == InfoDefaults(companyName, website)
    ensures ScrapedPage(website, fetch).Some? ==>
      && info.Keys == InfoDefaults(companyName, website).Keys + ScrapeKeys
      && ScrapeOf(info, ScrapedPage(website, fetch).value, website.s)
  {
    info := InfoDefaults(companyName, website);
    if Truthy(website) {
      if website.Str? {
        var scraped := ScrapeCompanyWebsite(website.s, fetch);
        info := info + scraped;
      }
    }
  }
  /** The three entries `enrich_job_posting` writes. */
  const EnrichKeys: set<string> := {"company_contact_email", "company_contact_phone", "company_website"}

  /** What the e-mail and phone entries of a posting hold after enrichment with
    * the given website: `None` when the website is not scraped, and otherwise one
    * of the page's genuine addresses and one of its numbers, or `None` when the
    * page has none. */
  predicate ContactEntries(email: Value, phone: Value, website: Value, fetch: string -> Option<Page>) {
    match ScrapedPage(website, fetch)
    case None => email == Null && phone == Null
    case Some(page) => FoundAmong(email, CleanEmails(page.text)) && FoundAmong(phone, PhoneMatches(page.text))
  }

  /** `after` is `before` enriched: the three contact entries are set, the website
    * is kept, and every other entry is untouched. */
  predicate EnrichmentOf(before: Fields, after: Fields, fetch: string -> Option<Page>) {
    var website := Get(before, "company_website");
    && after.Keys == before.Keys + EnrichKeys
    && (forall k :: k in before && k !in EnrichKeys ==> after[k] == before[k])
    && after["company_website"] == website
    && ContactEntries(after["company_contact_email"], after["company_contact_phone"], website, fetch)
  }

  /** `ContactFinder.enrich_job_posting(job_data)`: updates the posting in place and
    * returns it. */
  method EnrichJobPosting(job: JobData, fetch: string -> Option<Page>) returns (result: JobData)
    modifies job
    ensures result == job
    ensures EnrichmentOf(old(job.fields), job.fields, fetch)
  {
    var info := FindCompanyInfo(Get(job.fields, "company_name"), Get(job.fields, "company_website"), fetch);
    job.fields := job.fields["company_contact_email" := Get(info, "email")]
                            ["company_contact_phone" := Get(info, "phone")]
                            ["company_website" := Get(info, "website")];
    result := job;
  }

  /** Enriching an enriched posting again can give exactly the postings that enriching
    * the original could: the website it reads is the one the first pass kept. */
  lemma EnrichmentIdempotent(before: Fields, after: Fields, again: Fields, fetch: string -> Option<Page>)
    requires EnrichmentOf(before, after, fetch)
    ensures EnrichmentOf(after, again, fetch) <==> EnrichmentOf(before, again, fetch)
  {
    assert Get(after, "company_website") == Get(before, "company_website");
  }

  /** A posting as the scrapers build it has no `company_website` entry, so
    * enrichment leaves it without an e-mail, a phone or a website. */
  lemma ScrapedPostingGetsNoContact(before: Fields, after: Fields, fetch: string -> Option<Page>)
    requires before.Keys == PostingKeys
    requires EnrichmentOf(before, after, fetch)
    ensures after["company_contact_email"] == Null
    ensures after["company_contact_phone"] == Null
    ensures after["company_website"] == Null
  {
  }
}
