/** E-mail addresses are stored only as a keyed hash of their normalised
    form, so that lookups ignore surrounding white space and letter case. */
module Privacy {
  import opened Basics
  import opened JsStrings

  /** `normalizeEmail`: `email.trim().toLowerCase()`. The result has no white
      space at either end, no upper-case ASCII letter, and is no longer than
      the input. */
  function NormalizeEmail(email: string): (r: string)
    ensures Trimmed(r)
    ensures forall i :: 0 <= i < |r| ==> !IsAsciiUpper(r[i])
    ensures |r| <= |email|
  {
    ToLowerAscii(Trim(email))
  }

  /** `hmacEmail`: no pepper configured (absent or "") means no hash; otherwise
      the HMAC-SHA-256 hex digest, keyed by the pepper, of the normalised
      address. The keyed hash itself is the parameter `hmac`. */
  function HmacEmail(email: string, pepper: Option<string>, hmac: (string, string) -> string): (r: Option<string>)
    ensures r.None? <==> pepper.None? || pepper.value == []
  {
    if pepper.None? || pepper.value == [] then None
    else Some(hmac(pepper.value, NormalizeEmail(email)))
  }

  /** Lower-casing changes nothing in a string without upper-case ASCII letters. */
  lemma LowerOfLower(s: string)
    requires forall i :: 0 <= i < |s| ==> !IsAsciiUpper(s[i])
    ensures ToLowerAscii(s) == s
  {
  }

  /** Normalising twice is normalising once. */
  lemma NormalizeIdempotent(email: string)
    ensures NormalizeEmail(NormalizeEmail(email)) == NormalizeEmail(email)
  {
    var r := NormalizeEmail(email);
    TrimOfPadded([], r, []);
    assert [] + r + [] == r;
    LowerOfLower(r);
  }

  /** White space around an address makes no difference. */
  lemma SurroundingWhiteSpaceIgnored(before: string, email: string, after: string)
    requires AllWhiteSpace(before) && AllWhiteSpace(after)
    ensures NormalizeEmail(before + email + after) == NormalizeEmail(email)
  {
    var a, b := TrimSplit(email);
    var t := Trim(email);
    AllWhiteSpaceConcat(before, a);
    AllWhiteSpaceConcat(b, after);
    Regroup(before, a, t, b, after);
    TrimOfPadded(before + a, t, b + after);
  }

  /** Proved in an empty context: stated inline, this regrouping costs more
      than the rest of `SurroundingWhiteSpaceIgnored`. */
  lemma Regroup(v: string, w: string, x: string, y: string, z: string)
    ensures v + (w + x + y) + z == (v + w) + x + (y + z)
  {
  }

  /** The case of ASCII letters makes no difference. */
  lemma AsciiCaseIgnored(email: string, email2: string)
    requires ToLowerAscii(email) == ToLowerAscii(email2)
    ensures NormalizeEmail(email) == NormalizeEmail(email2)
  {
    TrimLower(email);
    TrimLower(email2);
  }

  /** Two addresses that differ only in surrounding white space and ASCII
      letter case get the same hash. */
  lemma SameAddressSameHash(before: string, email: string, after: string, email2: string,
                            pepper: Option<string>, hmac: (string, string) -> string)
    requires AllWhiteSpace(before) && AllWhiteSpace(after)
    requires ToLowerAscii(email) == ToLowerAscii(email2)
    ensures HmacEmail(before + email + after, pepper, hmac) == HmacEmail(email2, pepper, hmac)
  {
    SurroundingWhiteSpaceIgnored(before, email, after);
    AsciiCaseIgnored(email, email2);
  }
}
