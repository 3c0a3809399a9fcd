/** Models of the C runtime and std::string primitives that the tool's
    string code is built from: character classes of the "C" locale,
    the find family of std::string (npos is None), "%u"-style decimal
    text and the saturating atoi family of the Microsoft C runtime. */
module Text {

  datatype Option<T> = None | Some(value: T)

  const UINT32_MODULUS: int := 0x1_0000_0000
  const INT32_MIN: int := -0x8000_0000
  const INT32_MAX: int := 0x7FFF_FFFF
  const INT64_MIN: int := -0x8000_0000_0000_0000
  const INT64_MAX: int := 0x7FFF_FFFF_FFFF_FFFF

  /** The characters " \t\n\r" that the trimming routines strip. */
  const TrimChars: set<char> := {' ', '\t', '\n', '\r'}

  predicate IsUpper(c: char) { 'A' <= c <= 'Z' }
  predicate IsLower(c: char) { 'a' <= c <= 'z' }
  predicate IsDigit(c: char) { '0' <= c <= '9' }

  /** ::tolower in the "C" locale: only 'A'..'Z' change. */
  function LowerChar(c: char): char {
    if IsUpper(c) then (c as int + 32) as char else c
  }

  /** ::toupper in the "C" locale: only 'a'..'z' change. */
  function UpperChar(c: char): char {
    if IsLower(c) then (c as int - 32) as char else c
  }

  /** Truncation to an unsigned 32-bit value, as a C cast does. */
  function U32(x: int): (r: nat)
    ensures r < UINT32_MODULUS
    ensures 0 <= x < UINT32_MODULUS ==> r == x
  {
    x % UINT32_MODULUS
  }

  /** C's `/` on integers: truncation toward zero. */
  function TruncDiv(a: int, b: int): int
    requires b > 0
  {
    if a >= 0 then a / b else -((-a) / b)
  }

  // ---------------------------------------------------------------------
  // std::string search

  function FindFirstNotOfFrom(s: string, cs: set<char>, from: nat): (r: Option<nat>)
    requires from <= |s|
    ensures r.Some? ==> from <= r.value < |s| && s[r.value] !in cs
    ensures r.Some? ==> forall j :: from <= j < r.value ==> s[j] in cs
    ensures r.None? ==> forall j :: from <= j < |s| ==> s[j] in cs
    decreases |s| - from
  {
    if from == |s| then None
    else if s[from] !in cs then Some(from)
    else FindFirstNotOfFrom(s, cs, from + 1)
  }

  /** s.find_first_not_of(cs): the first index whose character is not in cs. */
  function FindFirstNotOf(s: string, cs: set<char>): (r: Option<nat>)
    ensures r.Some? ==> r.value < |s| && s[r.value] !in cs
    ensures r.Some? ==> forall j :: 0 <= j < r.value ==> s[j] in cs
    ensures r.None? ==> forall j :: 0 <= j < |s| ==> s[j] in cs
  {
    FindFirstNotOfFrom(s, cs, 0)
  }

  /** s.find_last_not_of(cs): the last index whose character is not in cs. */
  function FindLastNotOf(s: string, cs: set<char>): (r: Option<nat>)
    ensures r.Some? ==> r.value < |s| && s[r.value] !in cs
    ensures r.Some? ==> forall j :: r.value < j < |s| ==> s[j] in cs
    ensures r.None? ==> forall j :: 0 <= j < |s| ==> s[j] in cs
  {
    if s == [] then None
    else if s[|s| - 1] !in cs then Some(|s| - 1)
    else FindLastNotOf(s[..|s| - 1], cs)
  }

  /** The index find_first_not_of reports is the only one with its property. */
  lemma {:induction false} FindFirstNotOfFromIs(s: string, cs: set<char>, from: nat, k: nat)
    requires from <= k < |s| && s[k] !in cs
    requires forall j :: from <= j < k ==> s[j] in cs
    ensures FindFirstNotOfFrom(s, cs, from) == Some(k)
    decreases k - from
  {
    if from < k {
      FindFirstNotOfFromIs(s, cs, from + 1, k);
    }
  }

  lemma FindFirstNotOfIs(s: string, cs: set<char>, k: nat)
    requires k < |s| && s[k] !in cs
    requires forall j :: 0 <= j < k ==> s[j] in cs
    ensures FindFirstNotOf(s, cs) == Some(k)
  {
    FindFirstNotOfFromIs(s, cs, 0, k);
  }

  /** The index find_last_not_of reports is the only one with its property. */
  lemma {:induction false} FindLastNotOfIs(s: string, cs: set<char>, k: nat)
    requires k < |s| && s[k] !in cs
    requires forall j :: k < j < |s| ==> s[j] in cs
    ensures FindLastNotOf(s, cs) == Some(k)
  {
    if k < |s| - 1 {
      assert s[|s| - 1] in cs;
      var t := s[..|s| - 1];
      assert forall j :: k < j < |t| ==> t[j] == s[j];
      FindLastNotOfIs(t, cs, k);
    }
  }

  /** erase(find_last_not_of(cs) + 1): an npos result wraps to 0 and
      erases everything. */
  function TrimEnd(s: string, cs: set<char>): (r: string)
    ensures |r| <= |s|
  {
    match FindLastNotOf(s, cs)
    case None => []
    case Some(k) => s[..k + 1]
  }

  /** TrimEnd removes the trailing run of characters of cs and nothing
      else. */
  lemma TrimEndCharacterisation(s: string, cs: set<char>)
    ensures var r := TrimEnd(s, cs);
      r == s[..|r|] &&
      (forall i :: |r| <= i < |s| ==> s[i] in cs) &&
      (r == [] || r[|r| - 1] !in cs)
  {
  }

  /** Not empty and not ending in a character of cs. */
  predicate EndsOutside(s: string, cs: set<char>) {
    |s| > 0 && s[|s| - 1] !in cs
  }

  /** The items with `sep` after each, as a chain of `+=` leaves them. */
  function Trailing(items: seq<string>, sep: string): string {
    if items == [] then "" else Trailing(items[..|items| - 1], sep) + items[|items| - 1] + sep
  }

  /** The items with `sep` between them. */
  function Join(items: seq<string>, sep: string): string {
    if items == [] then ""
    else if |items| == 1 then items[0]
    else Join(items[..|items| - 1], sep) + sep + items[|items| - 1]
  }

  lemma TrailingSnoc(items: seq<string>, x: string, sep: string)
    ensures Trailing(items + [x], sep) == Trailing(items, sep) + x + sep
  {
    assert (items + [x])[..|items|] == items;
  }

  lemma {:induction false} TrailingIsJoin(items: seq<string>, sep: string)
    requires items != []
    ensures Trailing(items, sep) == Join(items, sep) + sep
    decreases |items|
  {
    var init := items[..|items| - 1];
    if init != [] {
      TrailingIsJoin(init, sep);
    }
  }

  lemma TrimEndOfSeparator(j: string, sep: string, cs: set<char>)
    requires EndsOutside(j, cs)
    requires forall i :: 0 <= i < |sep| ==> sep[i] in cs
    ensures TrimEnd(j + sep, cs) == j
  {
    FindLastNotOfIs(j + sep, cs, |j| - 1);
    assert (j + sep)[..|j|] == j;
  }

  /** A joined list of items that end outside cs ends outside cs. */
  lemma JoinEndsOutside(items: seq<string>, sep: string, cs: set<char>)
    requires items != []
    requires forall i :: 0 <= i < |items| ==> EndsOutside(items[i], cs)
    ensures EndsOutside(Join(items, sep), cs)
  {
    var last := items[|items| - 1];
    assert EndsOutside(last, cs);
    if |items| > 1 {
      var j := Join(items[..|items| - 1], sep) + sep + last;
      assert j[|j| - 1] == last[|last| - 1];
    }
  }

  /** Appending each item with a separator and then erasing the trailing
      run of separator characters gives the items joined by the
      separator. */
  lemma TrimTrailingSeparator(items: seq<string>, sep: string, cs: set<char>)
    requires forall i :: 0 <= i < |items| ==> EndsOutside(items[i], cs)
    requires forall i :: 0 <= i < |sep| ==> sep[i] in cs
    ensures TrimEnd(Trailing(items, sep), cs) == Join(items, sep)
  {
    if items != [] {
      TrailingIsJoin(items, sep);
      JoinEndsOutside(items, sep, cs);
      TrimEndOfSeparator(Join(items, sep), sep, cs);
    }
  }

  /** s.find_first_of(cs, from): the first index at or after `from` whose character is in cs. */
  function FindFirstOf(s: string, cs: set<char>, from: nat): (r: Option<nat>)
    ensures r.Some? ==> from <= r.value < |s| && s[r.value] in cs
    ensures r.Some? ==> forall j :: from <= j < r.value ==> s[j] !in cs
    ensures r.None? ==> forall j :: from <= j < |s| ==> s[j] !in cs
    decreases |s| - from
  {
    if from >= |s| then None
    else if s[from] in cs then Some(from)
    else FindFirstOf(s, cs, from + 1)
  }

  predicate OccursAt(s: string, pat: string, i: nat) {
    i + |pat| <= |s| && s[i..i + |pat|] == pat
  }

  /** s.find(pat) != npos. */
  predicate Contains(s: string, pat: string) {
    exists i: nat :: i <= |s| && OccursAt(s, pat, i)
  }

  function FindFrom(s: string, pat: string, from: nat): (r: Option<nat>)
    ensures r.Some? ==> from <= r.value && OccursAt(s, pat, r.value)
    ensures r.Some? ==> forall j: nat :: from <= j < r.value ==> !OccursAt(s, pat, j)
    ensures r.None? ==> forall j: nat :: from <= j ==> !OccursAt(s, pat, j)
    decreases |s| - from
  {
    if from + |pat| > |s| then None
    else if s[from..from + |pat|] == pat then Some(from)
    else FindFrom(s, pat, from + 1)
  }

  /** s.find(pat): the first index where pat occurs. */
  function Find(s: string, pat: string): (r: Option<nat>)
    ensures r.Some? <==> Contains(s, pat)
    ensures r.Some? ==> OccursAt(s, pat, r.value)
    ensures r.Some? ==> forall j: nat :: j < r.value ==> !OccursAt(s, pat, j)
  {
    FindFrom(s, pat, 0)
  }

  predicate StartsWith(s: string, p: string) { |p| <= |s| && s[..|p|] == p }
  predicate EndsWith(s: string, p: string) { |p| <= |s| && s[|s| - |p|..] == p }

  /** s.substr(0, n), which clamps n to the length. */
  function Prefix(s: string, n: nat): string {
    if n <= |s| then s[..n] else s
  }

  // ---------------------------------------------------------------------
  // "%u" and friends

  function DigitChar(d: nat): char
    requires d < 10
  {
    ('0' as int + d) as char
  }

  /** The decimal text "%u" prints for n. */
  function Decimal(n: nat): (r: string)
    ensures |r| >= 1
    ensures forall i :: 0 <= i < |r| ==> IsDigit(r[i])
    ensures n >= 10 ==> r[0] != '0'
    decreases n
  {
    if n < 10 then [DigitChar(n)] else Decimal(n / 10) + [DigitChar(n % 10)]
  }

  /** The value of a string of decimal digits. */
  function DigitsValue(s: string): nat
    requires forall i :: 0 <= i < |s| ==> IsDigit(s[i])
  {
    if s == [] then 0
    else
      assert IsDigit(s[|s| - 1]);
      DigitsValue(s[..|s| - 1]) * 10 + (s[|s| - 1] as int - '0' as int)
  }

  lemma {:induction false} DecimalRoundTrip(n: nat)
    ensures DigitsValue(Decimal(n)) == n
    decreases n
  {
    if n >= 10 {
      DecimalRoundTrip(n / 10);
      var d := Decimal(n);
      assert d[..|d| - 1] == Decimal(n / 10);
    }
  }

  /** Decimal(n) has exactly k digits when 10^(k-1) <= n < 10^k. */
  function Pow10(k: nat): (r: nat)
    ensures r >= 1
  {
    if k == 0 then 1 else 10 * Pow10(k - 1)
  }

  lemma Pow10Values()
    ensures Pow10(2) == 100 && Pow10(3) == 1000 && Pow10(5) == 100000 && Pow10(10) == 10000000000
  {
  }

  lemma {:induction false} DecimalLength(n: nat, k: nat)
    requires k >= 1 && n < Pow10(k)
    ensures |Decimal(n)| <= k
    decreases k
  {
    if n >= 10 {
      assert Pow10(1) == 10;
      DecimalLength(n / 10, k - 1);
    }
  }

  predicate AllDigits(s: string) {
    forall i :: 0 <= i < |s| ==> IsDigit(s[i])
  }

  lemma {:induction false} DigitsValueConcat(a: string, b: string)
    requires AllDigits(a) && AllDigits(b)
    ensures DigitsValue(a + b) == DigitsValue(a) * Pow10(|b|) + DigitsValue(b)
    decreases |b|
  {
    if b == [] {
      assert a + b == a;
    } else {
      var b' := b[..|b| - 1];
      assert (a + b)[..|a + b| - 1] == a + b';
      DigitsValueConcat(a, b');
      var last := b[|b| - 1] as int - '0' as int;
      assert DigitsValue(a + b) == DigitsValue(a + b') * 10 + last;
      assert Pow10(|b|) == Pow10(|b'|) * 10;
      ShiftDigit(DigitsValue(a), Pow10(|b'|), DigitsValue(b'), last);
    }
  }

  lemma ShiftDigit(x: int, p: int, y: int, d: int)
    ensures (x * p + y) * 10 + d == x * (p * 10) + (y * 10 + d)
  {
  }

  lemma {:induction false} ZerosValue(n: nat)
    ensures DigitsValue(Repeat('0', n)) == 0
  {
    if n > 0 {
      assert Repeat('0', n)[..n - 1] == Repeat('0', n - 1);
      ZerosValue(n - 1);
    }
  }

  /** "%0wu": zero padding does not change the value read back. */
  lemma ZeroPaddedValue(n: nat, width: nat)
    ensures AllDigits(PadLeft(Decimal(n), width, '0'))
    ensures DigitsValue(PadLeft(Decimal(n), width, '0')) == n
  {
    var d := Decimal(n);
    DecimalRoundTrip(n);
    if |d| < width {
      assert PadLeft(d, width, '0') == Repeat('0', width - |d|) + d;
      ZerosPrefixValue(width - |d|, d);
    }
  }

  /** Leading zeros do not change the value of a digit string. */
  lemma ZerosPrefixValue(k: nat, d: string)
    requires AllDigits(d)
    ensures AllDigits(Repeat('0', k) + d)
    ensures DigitsValue(Repeat('0', k) + d) == DigitsValue(d)
  {
    var z := Repeat('0', k);
    assert AllDigits(z);
    DigitsValueConcat(z, d);
    ZerosValue(k);
  }

  /** n copies of c. */
  function Repeat(c: char, n: nat): (r: string)
    ensures |r| == n
    ensures forall i :: 0 <= i < n ==> r[i] == c
  {
    seq(n, _ => c)
  }

  /** Left padding to `width` with `c`; never truncates ("%0wu", "%wu"). */
  function PadLeft(s: string, width: nat, c: char): (r: string)
    ensures |r| == if |s| >= width then |s| else width
    ensures r[|r| - |s|..] == s
    ensures forall i :: 0 <= i < |r| - |s| ==> r[i] == c
  {
    if |s| >= width then s else Repeat(c, width - |s|) + s
  }

  // ---------------------------------------------------------------------
  // atoi / atol / _atoi64

  predicate IsCSpace(c: char) { c == ' ' || c == '\t' || c == '\n' || c == '\r' || c == '\U{000B}' || c == '\U{000C}' }

  /** The length of the run of digits at the start of s. */
  function DigitRun(s: string): (n: nat)
    ensures n <= |s|
    ensures forall i :: 0 <= i < n ==> IsDigit(s[i])
    ensures n < |s| ==> !IsDigit(s[n])
  {
    if s == [] || !IsDigit(s[0]) then 0 else 1 + DigitRun(s[1..])
  }

  /** The unbounded value strtol would parse: leading white space, an
      optional sign, then the longest run of digits (0 when there is none). */
  function ParseLeadingInt(s: string): int {
    if s != [] && IsCSpace(s[0]) then ParseLeadingInt(s[1..])
    else if s != [] && (s[0] == '-' || s[0] == '+') then
      var t := s[1..];
      var v: int := DigitsValue(t[..DigitRun(t)]);
      if s[0] == '-' then -v else v
    else DigitsValue(s[..DigitRun(s)])
  }

  function Clamp(x: int, lo: int, hi: int): int
    requires lo <= hi
  {
    if x < lo then lo else if x > hi then hi else x
  }

  /** atoi and atol (long is 32 bits on Windows): saturate on overflow. */
  function Atoi(s: string): (r: int)
    ensures INT32_MIN <= r <= INT32_MAX
  {
    Clamp(ParseLeadingInt(s), INT32_MIN, INT32_MAX)
  }

  /** _atoi64: saturates to the 64-bit range. */
  function Atoi64(s: string): (r: int)
    ensures INT64_MIN <= r <= INT64_MAX
  {
    Clamp(ParseLeadingInt(s), INT64_MIN, INT64_MAX)
  }
}
