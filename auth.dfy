/** The pure parts of session handling: the signing key taken from the
    configured secret, the claims read back from a verified token, and the
    client address taken from proxy headers. */
module Auth {
  import opened Basics
  import opened JsStrings
  import Encoding

  const MinSecretBytes := 32
  const SecretTooShort := "AUTH_JWT_SECRET must be at least 32 bytes"

  /** `getJwtSecret`: the secret read as base64 when that gives at least 32
      bytes, otherwise its UTF-8 bytes; fewer than 32 bytes is an error. */
  function JwtSecret(secret: string): (r: Result<seq<byte>>)
    ensures r.Success? ==> |r.value| >= MinSecretBytes
    ensures r.Success? ==> r.value == Encoding.Base64Decode(secret) || r.value == Encoding.Utf8Encode(secret)
    ensures r.Failure? <==>
      |Encoding.Base64Decode(secret)| < MinSecretBytes && |Encoding.Utf8Encode(secret)| < MinSecretBytes
    ensures r.Failure? ==> r.error == SecretTooShort
  {
    var maybeBase64 := Encoding.Base64Decode(secret);
    var key := if |maybeBase64| >= MinSecretBytes then maybeBase64 else Encoding.Utf8Encode(secret);
    if |key| < MinSecretBytes then Failure(SecretTooShort) else Success(key)
  }

  /** The base64 reading wins whenever it is long enough. */
  lemma Base64Preferred(secret: string)
    requires |Encoding.Base64Decode(secret)| >= MinSecretBytes
    ensures JwtSecret(secret) == Success(Encoding.Base64Decode(secret))
  {
  }

  /** A key generated as random bytes and configured in base64 is used as
      exactly those bytes. */
  lemma GeneratedKeyUsedAsIs(key: seq<byte>)
    requires |key| >= MinSecretBytes
    ensures JwtSecret(Encoding.Base64Encode(key)) == Success(key)
  {
    Encoding.Base64RoundTrip(key);
  }

  /** Any secret of at least 32 characters is accepted. */
  lemma LongSecretAccepted(secret: string)
    requires |secret| >= MinSecretBytes
    ensures JwtSecret(secret).Success?
  {
  }

  datatype SessionClaims = SessionClaims(sub: string, isAnonymous: bool)

  /** The verified payload: the registered `sub` claim (a string when present)
      and the custom `isAnonymous` claim, which may hold any JSON value. */
  datatype JwtPayload = JwtPayload(sub: Option<string>, isAnonymous: Json)

  /** The claims `verifyToken` returns for a payload whose signature and
      expiry `jwtVerify` has accepted. */
  function ClaimsOf(payload: JwtPayload): (r: Result<SessionClaims>)
    ensures r.Success? <==> payload.sub.Some? && payload.sub.value != []
    ensures r.Success? ==> r.value.sub == payload.sub.value
    ensures r.Success? ==> (r.value.isAnonymous <==> payload.isAnonymous == Bool(true))
    ensures r.Failure? ==> r.error == "Missing sub"
  {
    if payload.sub.None? || payload.sub.value == [] then Failure("Missing sub")
    else Success(SessionClaims(payload.sub.value, payload.isAnonymous == Bool(true)))
  }

  /** The payload `signToken` writes: subject and `isAnonymous` flag. Claims
      signed by this server read back unchanged, provided the user id is not
      empty; a token signed for "" is refused when read. */
  function SignedPayload(claims: SessionClaims): (r: JwtPayload)
    ensures claims.sub != [] ==> ClaimsOf(r) == Success(claims)
    ensures claims.sub == [] ==> ClaimsOf(r).Failure?
  {
    JwtPayload(Some(claims.sub), Bool(claims.isAnonymous))
  }

  /** Only the JSON boolean `true` marks a session anonymous; the string
      "true", the number 1 and a missing claim do not. */
  lemma OnlyBooleanTrueIsAnonymous(sub: string)
    requires sub != []
    ensures ClaimsOf(JwtPayload(Some(sub), Bool(true))).value.isAnonymous
    ensures !ClaimsOf(JwtPayload(Some(sub), Str("true"))).value.isAnonymous
    ensures !ClaimsOf(JwtPayload(Some(sub), Num(1.0))).value.isAnonymous
    ensures !ClaimsOf(JwtPayload(Some(sub), Undefined)).value.isAnonymous
  {
  }

  // ---------------------------------------------------------------------------
  // Client address.
  // ---------------------------------------------------------------------------

  const Unknown := "unknown"

  /** `getClientIp` given the `x-forwarded-for` and `x-real-ip` headers
      (`None` when a header is missing). */
  function ClientIp(forwardedFor: Option<string>, realIp: Option<string>): (ip: string)
    ensures ip != []
    ensures forwardedFor.Some? && forwardedFor.value != [] ==> ',' !in ip && Trimmed(ip)
  {
    if forwardedFor.Some? && forwardedFor.value != [] then
      var first := Trim(FirstSegment(forwardedFor.value, ','));
      if first != [] then first else Unknown
    else if realIp.Some? && realIp.value != [] then realIp.value
    else Unknown
  }

  /** `s.split(",")[0]` of a string that starts with `x` followed by a comma
      or by nothing is `x`, when `x` holds no comma. */
  lemma {:induction false} FirstSegmentOf(x: string, rest: string)
    requires ',' !in x
    requires rest == [] || rest[0] == ','
    ensures FirstSegment(x + rest, ',') == x
  {
    if x == [] {
      assert x + rest == rest;
    } else {
      assert (x + rest)[0] == x[0];
      assert (x + rest)[1..] == x[1..] + rest;
      FirstSegmentOf(x[1..], rest);
    }
  }

  /** With a forwarded-for list, the client is its first hop with the white
      space around it removed, and `x-real-ip` is not looked at. */
  lemma FirstHopIsClient(before: string, hop: string, after: string, rest: string, realIp: Option<string>)
    requires AllWhiteSpace(before) && AllWhiteSpace(after)
    requires hop != [] && Trimmed(hop) && ',' !in hop && ',' !in before && ',' !in after
    requires rest == [] || rest[0] == ','
    ensures ClientIp(Some(before + hop + after + rest), realIp) == hop
  {
    var fwd := before + hop + after + rest;
    assert fwd == (before + hop + after) + rest;
    assert ',' !in before + hop + after;
    FirstSegmentOf(before + hop + after, rest);
    TrimOfPadded(before, hop, after);
  }

  /** A forwarded-for list whose first hop is blank gives "unknown", even when
      `x-real-ip` is set. */
  lemma BlankFirstHopIsUnknown(blank: string, rest: string, realIp: Option<string>)
    requires AllWhiteSpace(blank) && ',' !in blank
    requires rest == [] || rest[0] == ','
    requires blank + rest != []
    ensures ClientIp(Some(blank + rest), realIp) == Unknown
  {
    FirstSegmentOf(blank, rest);
    TrimOfPadded(blank, [], []);
    assert blank + [] + [] == blank;
  }

  /** Without a forwarded-for list, `x-real-ip` is used when it is not empty. */
  lemma RealIpFallback(forwardedFor: Option<string>, realIp: Option<string>)
    requires forwardedFor.None? || forwardedFor.value == []
    ensures realIp.Some? && realIp.value != [] ==> ClientIp(forwardedFor, realIp) == realIp.value
    ensures realIp.None? || realIp.value == [] ==> ClientIp(forwardedFor, realIp) == Unknown
  {
  }
}
