/**
 * PKCE helpers of background.js: the code verifier alphabet and the
 * base64url post-processing of the S256 code challenge (RFC 7636,
 * sections 4.1 and 4.2; RFC 4648, section 5).
 *
 * The SHA-256 digest and `btoa` are foreign primitives: Base64UrlEncode
 * takes the standard base64 text that `btoa` produced, and RandomString
 * takes the indices `Math.floor(Math.random() * 66)` drew.
 */
module Pkce {

  /** The verifier alphabet, written in the order of the source's literal. */
  const Upper := "ABCDEFGHIJKLMNOPQRSTUVWXYZ"
  const Lower := "abcdefghijklmnopqrstuvwxyz"
  const Digits := "0123456789"
  const Marks := "-._~"
  const Charset := Upper + Lower + Digits + Marks

  /** The length makePkcePair asks for. */
  const VerifierLength := 43

  /** The unreserved characters of section 4.1 of RFC 7636: ALPHA / DIGIT / "-" / "." / "_" / "~". */
  predicate Unreserved(c: char) {
    'A' <= c <= 'Z' || 'a' <= c <= 'z' || '0' <= c <= '9' || c == '-' || c == '.' || c == '_' || c == '~'
  }

  predicate AllUnreserved(s: string) {
    forall i | 0 <= i < |s| :: Unreserved(s[i])
  }

  lemma UnreservedConcat(a: string, b: string)
    requires AllUnreserved(a) && AllUnreserved(b)
    ensures AllUnreserved(a + b)
  {
    forall i | 0 <= i < |a + b| ensures Unreserved((a + b)[i]) {
      if i < |a| { assert (a + b)[i] == a[i]; } else { assert (a + b)[i] == b[i - |a|]; }
    }
  }

  /** The charset has 66 characters and they are exactly the unreserved characters. */
  lemma CharsetIsUnreserved()
    ensures |Charset| == 66
    ensures AllUnreserved(Charset)
    ensures forall c: char | Unreserved(c) :: c in Charset
  {
    assert AllUnreserved("ABCDEFGHIJKLMNOPQRSTUVWXYZ");
    assert AllUnreserved("abcdefghijklmnopqrstuvwxyz");
    assert AllUnreserved("0123456789");
    assert AllUnreserved("-._~");
    UnreservedConcat(Upper, Lower);
    UnreservedConcat(Upper + Lower, Digits);
    UnreservedConcat(Upper + Lower + Digits, Marks);
    forall c: char | Unreserved(c) ensures c in Charset {
      if 'A' <= c <= 'Z' {
        assert c in Upper;
      } else if 'a' <= c <= 'z' {
        assert c in Lower;
      } else if '0' <= c <= '9' {
        assert c in Digits;
      } else {
        assert c in Marks;
      }
    }
  }

  /** The characters that the given random indices pick from the charset. */
  function Picked(choices: seq<nat>): (s: string)
    requires forall k | 0 <= k < |choices| :: choices[k] < |Charset|
  {
    seq(|choices|, k requires 0 <= k < |choices| => Charset[choices[k]])
  }

  /**
   * randomString(length): `length` characters, the k-th being
   * `charset.charAt(choices[k])`, each of them unreserved.
   */
  method RandomString(length: nat, choices: seq<nat>) returns (s: string)
    requires |choices| == length
    requires forall k | 0 <= k < |choices| :: choices[k] < |Charset|
    ensures |s| == length
    ensures AllUnreserved(s)
    ensures s == Picked(choices)
  {
    CharsetIsUnreserved();
    s := "";
    for i := 0 to length
      invariant |s| == i
      invariant forall k | 0 <= k < i :: s[k] == Charset[choices[k]]
      invariant AllUnreserved(s)
    {
      s := s + [Charset[choices[i]]];
    }
  }

  // ------------------------------------------------------------ base64url

  /** `s.replace(/<from>/g, to)` for a single character. */
  function ReplaceChar(s: string, from: char, to: char): (r: string)
    ensures |r| == |s|
    ensures forall i | 0 <= i < |s| :: r[i] == (if s[i] == from then to else s[i])
  {
    if s == [] then [] else [if s[0] == from then to else s[0]] + ReplaceChar(s[1..], from, to)
  }

  /** `s.replace(/<c>+$/, '')`: drop the run of `c` at the end. */
  function TrimTrailing(s: string, c: char): (r: string)
    ensures |r| <= |s| && r == s[..|r|]
    ensures forall i | |r| <= i < |s| :: s[i] == c
    ensures |r| == 0 || r[|r| - 1] != c
  {
    if |s| > 0 && s[|s| - 1] == c then TrimTrailing(s[..|s| - 1], c) else s
  }

  /** The character that section 5 of RFC 4648 puts in place of a standard base64 character. */
  function UrlSafe(c: char): char {
    if c == '+' then '-' else if c == '/' then '_' else c
  }

  /**
   * base64UrlEncode: the standard base64 text with '+' turned into '-',
   * '/' into '_' and the trailing '=' padding removed.
   */
  function Base64UrlEncode(b64: string): (r: string)
    ensures '+' !in r && '/' !in r
    ensures |r| == 0 || r[|r| - 1] != '='
    ensures |r| <= |b64|
    ensures forall i | 0 <= i < |r| :: r[i] == UrlSafe(b64[i])
    ensures forall i | |r| <= i < |b64| :: b64[i] == '='
  {
    TrimTrailing(ToUrlSafe(b64), '=')
  }

  /** '+' into '-' and '/' into '_'. */
  function ToUrlSafe(b64: string): (t: string)
    ensures |t| == |b64| && forall i | 0 <= i < |b64| :: t[i] == UrlSafe(b64[i])
  {
    ReplaceChar(ReplaceChar(b64, '+', '-'), '/', '_')
  }

  /** The alphabet of standard base64 (section 4 of RFC 4648), without the pad. */
  predicate Base64Char(c: char) {
    'A' <= c <= 'Z' || 'a' <= c <= 'z' || '0' <= c <= '9' || c == '+' || c == '/'
  }

  function Padding(n: nat): (r: string)
    ensures |r| == n && forall i | 0 <= i < n :: r[i] == '='
  {
    seq(n, _ => '=')
  }

  /** The character of standard base64 that a URL-safe character stands for. */
  function UrlUnsafe(c: char): char {
    if c == '-' then '+' else if c == '_' then '/' else c
  }

  /** '-' back into '+' and '_' back into '/'. */
  function FromUrlSafe(r: string): (s: string)
    ensures |s| == |r| && forall i | 0 <= i < |r| :: s[i] == UrlUnsafe(r[i])
  {
    ReplaceChar(ReplaceChar(r, '-', '+'), '_', '/')
  }

  /** The inverse of Base64UrlEncode: back to the standard alphabet, padded to a multiple of four. */
  function Base64FromUrl(r: string): (s: string)
    ensures |s| % 4 == 0
  {
    FromUrlSafe(r) + Padding((4 - |r| % 4) % 4)
  }

  /** Base64UrlEncode drops exactly the padding of a padded standard base64 text. */
  lemma EncodeDropsPadding(body: string, pad: nat)
    requires forall i | 0 <= i < |body| :: Base64Char(body[i])
    ensures |Base64UrlEncode(body + Padding(pad))| == |body|
  {
    var s := body + Padding(pad);
    var r := Base64UrlEncode(s);
    assert |body| > 0 ==> s[|body| - 1] == body[|body| - 1] && s[|body| - 1] != '=';
  }

  /** Mapping '-' and '_' back undoes UrlSafe on standard base64 characters. */
  lemma UrlSafeUndone(r: string, body: string)
    requires |r| == |body|
    requires forall i | 0 <= i < |body| :: Base64Char(body[i]) && r[i] == UrlSafe(body[i])
    ensures FromUrlSafe(r) == body
  {
  }

  /**
   * For the output of `btoa` (standard characters followed by at most two
   * '=' making a multiple of four), Base64FromUrl recovers the input of
   * Base64UrlEncode.
   */
  lemma Base64UrlRoundTrip(body: string, pad: nat)
    requires forall i | 0 <= i < |body| :: Base64Char(body[i])
    requires pad <= 2 && (|body| + pad) % 4 == 0
    ensures Base64FromUrl(Base64UrlEncode(body + Padding(pad))) == body + Padding(pad)
  {
    var r := Base64UrlEncode(body + Padding(pad));
    assert |r| == |body| && FromUrlSafe(r) == body by {
      EncodedBody(body, pad);
      UrlSafeUndone(r, body);
    }
    RestoredFromUrl(r, body, pad);
  }

  /** Base64FromUrl restores the characters and exactly `pad` padding characters. */
  lemma RestoredFromUrl(r: string, body: string, pad: nat)
    requires FromUrlSafe(r) == body
    requires |r| == |body| && pad <= 2 && (|body| + pad) % 4 == 0
    ensures Base64FromUrl(r) == body + Padding(pad)
  {
    PaddingCount(|r|, pad);
  }

  /** The encoding of a padded text is its body, character by character made URL-safe. */
  lemma EncodedBody(body: string, pad: nat)
    requires forall i | 0 <= i < |body| :: Base64Char(body[i])
    ensures var r := Base64UrlEncode(body + Padding(pad));
      |r| == |body| && forall i | 0 <= i < |body| :: r[i] == UrlSafe(body[i])
  {
    var s := body + Padding(pad);
    var r := Base64UrlEncode(s);
    EncodeDropsPadding(body, pad);
    forall i | 0 <= i < |body| ensures r[i] == UrlSafe(body[i]) {
      assert s[i] == body[i];
    }
  }

  /** The pad Base64FromUrl restores is the pad Base64UrlEncode removed. */
  lemma PaddingCount(n: nat, pad: nat)
    requires pad <= 2 && (n + pad) % 4 == 0
    ensures (4 - n % 4) % 4 == pad
  {
  }

  /** An S256 challenge (32 digest bytes, 44 base64 characters with one pad) is 43 characters long. */
  lemma ChallengeLength(b64: string)
    requires |b64| == 44 && b64[43] == '='
    requires forall i | 0 <= i < 43 :: Base64Char(b64[i])
    ensures |Base64UrlEncode(b64)| == 43
  {
    assert b64 == b64[..43] + Padding(1);
    EncodeDropsPadding(b64[..43], 1);
  }
}
