/**
 * String helpers that stand for the JavaScript string operations the
 * extension uses: truthiness of strings, `includes`, `startsWith`,
 * `replace` with a string pattern, ASCII `toLowerCase`, `join`, and the
 * decimal rendering of integers in template literals.
 */
module Text {
  import opened Wrappers

  /** JavaScript truthiness of a possibly absent string: absent and "" are falsy. */
  predicate Truthy(o: Option<string>) {
    o.Some? && o.value != ""
  }

  /** `a || b` on possibly absent strings, rendered into a template literal. */
  function OrElse(a: Option<string>, b: Option<string>): (r: string)
    ensures Truthy(a) ==> r == a.value
    ensures !Truthy(a) && b.Some? ==> r == b.value
    ensures !Truthy(a) && b.None? ==> r == "undefined"
  {
    if Truthy(a) then a.value else if b.Some? then b.value else "undefined"
  }

  // ---------------------------------------------------------------- search

  /** `p` occurs in `s` at index `i`. */
  predicate ContainsAt(s: string, p: string, i: int) {
    0 <= i && i + |p| <= |s| && s[i..i + |p|] == p
  }

  /** `s.includes(p)`. */
  predicate Contains(s: string, p: string) {
    exists i | 0 <= i <= |s| :: ContainsAt(s, p, i)
  }

  /** `s.startsWith(p)`. */
  predicate StartsWith(s: string, p: string) {
    ContainsAt(s, p, 0)
  }

  /** A string that occurs in `s` occurs in any string that extends `s` on either side. */
  lemma ContainsExtended(s: string, p: string, before: string, after: string)
    requires Contains(s, p)
    ensures Contains(before + s + after, p)
  {
    var i :| 0 <= i <= |s| && ContainsAt(s, p, i);
    var t := before + s + after;
    var j := |before| + i;
    assert t[j..j + |p|] == s[i..i + |p|];
    assert ContainsAt(t, p, j);
  }

  /** Containment needs the first character of the pattern somewhere in `s`. */
  lemma ContainsFirstChar(s: string, p: string)
    requires |p| >= 1 && Contains(s, p)
    ensures p[0] in s
  {
    var i :| 0 <= i <= |s| && ContainsAt(s, p, i);
    assert s[i..i + |p|][0] == s[i];
  }

  /**
   * The first index at which `p` occurs in `s` at or after `from`, or -1
   * (`indexOf`).
   */
  function IndexOf(s: string, p: string, from: nat): (r: int)
    requires from <= |s|
    ensures r == -1 || (from <= r <= |s| && ContainsAt(s, p, r))
    ensures r == -1 ==> forall j | from <= j <= |s| :: !ContainsAt(s, p, j)
    ensures r != -1 ==> forall j | from <= j < r :: !ContainsAt(s, p, j)
    decreases |s| - from
  {
    if ContainsAt(s, p, from) then from
    else if from == |s| then -1
    else IndexOf(s, p, from + 1)
  }

  /** `s.replace(p, q)` with a string pattern: only the first occurrence is replaced. */
  function ReplaceFirst(s: string, p: string, q: string): (r: string)
    ensures !Contains(s, p) ==> r == s
    ensures Contains(s, p) ==> exists i | 0 <= i <= |s| - |p| ::
      && ContainsAt(s, p, i)
      && (forall j | 0 <= j < i :: !ContainsAt(s, p, j))
      && r == s[..i] + q + s[i + |p|..]
  {
    var i := IndexOf(s, p, 0);
    if i == -1 then s else s[..i] + q + s[i + |p|..]
  }

  /** ASCII case folding (`toLowerCase` on the letters A to Z). */
  function LowerChar(c: char): char {
    if 'A' <= c <= 'Z' then (c as int - 'A' as int + 'a' as int) as char else c
  }

  function ToLower(s: string): (r: string)
    ensures |r| == |s| && forall i | 0 <= i < |s| :: r[i] == LowerChar(s[i])
  {
    if s == [] then [] else [LowerChar(s[0])] + ToLower(s[1..])
  }

  /** `parts.join(sep)`. */
  function Join(parts: seq<string>, sep: string): string {
    if |parts| == 0 then ""
    else if |parts| == 1 then parts[0]
    else parts[0] + sep + Join(parts[1..], sep)
  }

  // ---------------------------------------------------------------- numbers

  predicate IsDigit(c: char) {
    '0' <= c <= '9'
  }

  predicate AllDigits(s: string) {
    forall i | 0 <= i < |s| :: IsDigit(s[i])
  }

  function DigitChar(d: nat): (c: char)
    requires d < 10
    ensures IsDigit(c)
  {
    ('0' as int + d) as char
  }

  function DigitValue(c: char): nat
    requires IsDigit(c)
  {
    c as int - '0' as int
  }

  /** Decimal rendering of a natural number in a template literal. */
  function NatToString(n: nat): (r: string)
    ensures |r| > 0 && AllDigits(r)
    ensures n < 10 <==> |r| == 1
  {
    if n < 10 then [DigitChar(n)] else NatToString(n / 10) + [DigitChar(n % 10)]
  }

  /** Decimal rendering of an integer in a template literal (`${n}`), with a leading '-'. */
  function IntToString(n: int): (r: string)
    ensures |r| > 0
    ensures n >= 0 ==> r == NatToString(n)
    ensures n < 0 ==> r == "-" + NatToString(-n)
  {
    if n < 0 then "-" + NatToString(-n) else NatToString(n)
  }

  /** The value of a string of decimal digits: the inverse of NatToString. */
  function DigitsValue(s: string): nat
    requires AllDigits(s)
  {
    if s == [] then 0 else DigitsValue(s[..|s| - 1]) * 10 + DigitValue(s[|s| - 1])
  }

  lemma {:induction false} NatToStringRoundTrip(n: nat)
    ensures DigitsValue(NatToString(n)) == n
  {
    if n >= 10 {
      var s := NatToString(n);
      assert s[..|s| - 1] == NatToString(n / 10);
      NatToStringRoundTrip(n / 10);
    }
  }

  /** Only the number one renders as the digit string "1". */
  lemma NatToStringIsOne(n: nat)
    ensures NatToString(n) == "1" <==> n == 1
  {
    if NatToString(n) == "1" {
      NatToStringRoundTrip(n);
      assert DigitsValue("1") == 1;
    }
  }
}
