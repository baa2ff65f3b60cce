/**
 * The three built-in string behaviours the modelled code relies on:
 *  - `String.prototype.trim` of the JavaScript runtime (the summary is trimmed before it is stored);
 *  - the decimal rendering of a number inside a template literal (`${novelId}` in a file path);
 *  - SQLite's BINARY collation, which orders the TEXT timestamps that `MAX(...)` compares.
 */
module Strings {

  // ---------------------------------------------------------------------------
  // JavaScript whitespace and trim
  // ---------------------------------------------------------------------------

  /** The WhiteSpace and LineTerminator code points that ECMAScript's `trim` removes. */
  predicate IsJsWhitespace(c: char) {
    || c == '\t' || c == '\n' || c == '\U{000B}' || c == '\U{000C}' || c == '\r'
    || c == ' ' || c == '\U{00A0}' || c == '\U{1680}'
    || ('\U{2000}' <= c <= '\U{200A}')
    || c == '\U{2028}' || c == '\U{2029}' || c == '\U{202F}' || c == '\U{205F}'
    || c == '\U{3000}' || c == '\U{FEFF}'
  }

  predicate AllSpace(t: string) {
    forall i :: 0 <= i < |t| ==> IsJsWhitespace(t[i])
  }

  /** Neither end of `r` is whitespace (an empty string qualifies). */
  predicate NoEdgeSpace(r: string) {
    r == [] || (!IsJsWhitespace(r[0]) && !IsJsWhitespace(r[|r| - 1]))
  }

  /** `r` sits in `s` at offset `k`, and everything around it is whitespace. */
  predicate StrippedAt(s: string, r: string, k: nat) {
    && k + |r| <= |s|
    && s[k..k + |r|] == r
    && AllSpace(s[..k])
    && AllSpace(s[k + |r|..])
  }

  /** The number of whitespace characters that start `s`. */
  function LeadingSpace(s: string): (k: nat)
    ensures k <= |s|
    ensures forall i :: 0 <= i < k ==> IsJsWhitespace(s[i])
    ensures k < |s| ==> !IsJsWhitespace(s[k])
    decreases |s|
  {
    if s == [] || !IsJsWhitespace(s[0]) then 0 else 1 + LeadingSpace(s[1..])
  }

  /** The number of whitespace characters that end `s`. */
  function TrailingSpace(s: string): (k: nat)
    ensures k <= |s|
    ensures forall i :: |s| - k <= i < |s| ==> IsJsWhitespace(s[i])
    ensures k < |s| ==> !IsJsWhitespace(s[|s| - 1 - k])
    decreases |s|
  {
    if s == [] || !IsJsWhitespace(s[|s| - 1]) then 0 else 1 + TrailingSpace(s[..|s| - 1])
  }

  /** `s.trim()`: `s` without its leading and trailing whitespace. */
  function Trim(s: string): (r: string)
    ensures NoEdgeSpace(r)
    ensures StrippedAt(s, r, LeadingSpace(s))
  {
    var rest := s[LeadingSpace(s)..];
    rest[..|rest| - TrailingSpace(rest)]
  }

  lemma SpaceHead(s: string, k: nat)
    requires k <= |s| && AllSpace(s[..k])
    ensures forall i :: 0 <= i < k ==> IsJsWhitespace(s[i])
  {
    forall i | 0 <= i < k ensures IsJsWhitespace(s[i]) { assert s[..k][i] == s[i]; }
  }

  lemma SpaceTail(s: string, k: nat)
    requires k <= |s| && AllSpace(s[k..])
    ensures forall i :: k <= i < |s| ==> IsJsWhitespace(s[i])
  {
    forall i | k <= i < |s| ensures IsJsWhitespace(s[i]) { assert s[k..][i - k] == s[i]; }
  }

  /** Trim is determined by its contract: the only string without edge whitespace that `s` wraps in whitespace. */
  lemma TrimUnique(s: string, r: string, k: nat)
    requires StrippedAt(s, r, k) && NoEdgeSpace(r)
    ensures r == Trim(s)
  {
    SpaceHead(s, k);
    SpaceTail(s, k + |r|);
    var a := LeadingSpace(s);
    if r == [] {
      assert a == |s|;
    } else {
      assert s[k] == r[0];
      assert a == k;
      var rest := s[k..];
      var b := TrailingSpace(rest);
      assert rest[..|r|] == r;
      assert !IsJsWhitespace(rest[|r| - 1]);
      assert forall i :: |r| <= i < |rest| ==> IsJsWhitespace(rest[i]);
      assert b == |rest| - |r|;
    }
  }

  /** Trimming twice is trimming once. */
  lemma TrimIdempotent(s: string)
    ensures Trim(Trim(s)) == Trim(s)
  {
    var r := Trim(s);
    assert r[..0] == [] && r[|r|..] == [] && r[0..|r|] == r;
    TrimUnique(r, r, 0);
  }

  /** Trim gives the empty string exactly for all-whitespace input. */
  lemma TrimEmptyIffAllSpace(s: string)
    ensures Trim(s) == [] <==> AllSpace(s)
  {
    var a := LeadingSpace(s);
    if Trim(s) == [] {
      SpaceTail(s, a);
    }
    if AllSpace(s) {
      assert s[..0] == [] && s[0..0] == [];
      assert s[0..] == s;
      TrimUnique(s, [], 0);
    }
  }

  // ---------------------------------------------------------------------------
  // Decimal rendering of numbers
  // ---------------------------------------------------------------------------

  predicate IsDigit(c: char) {
    '0' <= c <= '9'
  }

  function DigitChar(d: nat): (c: char)
    requires d < 10
    ensures IsDigit(c)
  {
    ('0' as int + d) as char
  }

  function DigitValue(c: char): nat {
    if IsDigit(c) then c as int - '0' as int else 0
  }

  /** The decimal digits of `n`, most significant first, without leading zeros. */
  function NatDigits(n: nat): (s: string)
    ensures |s| >= 1
    ensures forall i :: 0 <= i < |s| ==> IsDigit(s[i])
    decreases n
  {
    if n < 10 then [DigitChar(n)] else NatDigits(n / 10) + [DigitChar(n % 10)]
  }

  /** `String(n)` for an integer `n`. */
  function DecimalString(n: int): string {
    if n < 0 then "-" + NatDigits(-n) else NatDigits(n)
  }

  /** The value of a string of decimal digits (the partner of NatDigits). */
  function ParseDigits(s: string): nat
    decreases |s|
  {
    if s == [] then 0 else ParseDigits(s[..|s| - 1]) * 10 + DigitValue(s[|s| - 1])
  }

  function ParseDecimal(s: string): int {
    if |s| > 0 && s[0] == '-' then -(ParseDigits(s[1..]) as int) else ParseDigits(s)
  }

  lemma {:induction false} ParseNatDigits(n: nat)
    ensures ParseDigits(NatDigits(n)) == n
    decreases n
  {
    var s := NatDigits(n);
    if n < 10 {
      assert s[..|s| - 1] == [];
    } else {
      ParseNatDigits(n / 10);
      assert s[..|s| - 1] == NatDigits(n / 10);
      assert DigitValue(s[|s| - 1]) == n % 10;
    }
  }

  /** Reading back the decimal rendering gives the number: the rendering loses nothing. */
  lemma DecimalRoundTrip(n: int)
    ensures ParseDecimal(DecimalString(n)) == n
  {
    if n < 0 {
      ParseNatDigits(-n);
      assert DecimalString(n)[1..] == NatDigits(-n);
    } else {
      ParseNatDigits(n);
      assert IsDigit(NatDigits(n)[0]);
    }
  }

  /** Distinct numbers render as distinct strings. */
  lemma DecimalStringInjective(a: int, b: int)
    ensures DecimalString(a) == DecimalString(b) ==> a == b
  {
    DecimalRoundTrip(a);
    DecimalRoundTrip(b);
  }

  // ---------------------------------------------------------------------------
  // SQLite's BINARY collation on TEXT values
  // ---------------------------------------------------------------------------

  /**
   * `a <= b` under SQLite's BINARY collation: byte-wise comparison of the UTF-8
   * encodings, a proper prefix first. UTF-8 preserves code-point order, so this is
   * the lexicographic order on code points.
   */
  predicate TextLe(a: string, b: string)
    decreases |a|
  {
    if a == [] then true
    else if b == [] then false
    else if a[0] != b[0] then a[0] < b[0]
    else TextLe(a[1..], b[1..])
  }

  lemma {:induction false} TextLeReflexive(a: string)
    ensures TextLe(a, a)
    decreases |a|
  {
    if a != [] { TextLeReflexive(a[1..]); }
  }

  lemma {:induction false} TextLeTotal(a: string, b: string)
    ensures TextLe(a, b) || TextLe(b, a)
    decreases |a|
  {
    if a != [] && b != [] && a[0] == b[0] { TextLeTotal(a[1..], b[1..]); }
  }

  lemma {:induction false} TextLeTransitive(a: string, b: string, c: string)
    requires TextLe(a, b) && TextLe(b, c)
    ensures TextLe(a, c)
    decreases |a|
  {
    if a != [] && b != [] && c != [] && a[0] == b[0] && b[0] == c[0] {
      TextLeTransitive(a[1..], b[1..], c[1..]);
    }
  }

  lemma {:induction false} TextLeAntisymmetric(a: string, b: string)
    requires TextLe(a, b) && TextLe(b, a)
    ensures a == b
    decreases |a|
  {
    if a != [] {
      TextLeAntisymmetric(a[1..], b[1..]);
      assert a == [a[0]] + a[1..] && b == [b[0]] + b[1..];
    }
  }

  /** The larger of two TEXT values, as SQLite's `MAX` keeps it. */
  function TextMax(a: string, b: string): (m: string)
    ensures m == a || m == b
    ensures TextLe(a, m) && TextLe(b, m)
  {
    TextLeTotal(a, b);
    TextLeReflexive(a);
    TextLeReflexive(b);
    if TextLe(a, b) then b else a
  }
}
