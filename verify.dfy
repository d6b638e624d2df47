/** `verify_decode_jwt` (auth.py:156-234) around its two library calls.

    The key set arrives as the result of the download, the token's unverified
    header comes from an oracle `getHeader` standing for `jwt.get_unverified_header`,
    and signature and claim checking come from an oracle `decode` standing for
    `jwt.decode`. What the model fixes is everything around those calls: which key
    is handed to the decoder, with which arguments, and how each outcome is
    reported. */
module Verification {
  import opened AuthResults
  import opened JsonValues
  import opened KeySelection

  // The Auth0 configuration (auth.py:15-17).
  const Auth0Domain := "dev-0m5vk9lb.us.auth0.com"
  const Algorithms := ["RS256"]
  const ApiAudience := "coffee"
  const Issuer := "https://" + Auth0Domain + "/"

  /** The downloaded key set's `keys` list, or a download or parse failure. */
  datatype KeySetFetch = Fetched(keys: seq<Jwk>) | FetchFailed

  /** `jwt.get_unverified_header(token)`: the header's entries, or a `JWTError`. */
  datatype HeaderOutcome = Header(entries: map<string, string>) | HeaderUnreadable

  /** The arguments of one `jwt.decode` call. */
  datatype DecodeRequest = DecodeRequest(
    token: string, key: RsaKey, algorithms: seq<string>, audience: string, issuer: string)

  /** What `jwt.decode` does: return the claims, or raise `ExpiredSignatureError`,
      `JWTClaimsError`, or any other exception. */
  datatype DecodeOutcome = Decoded(payload: Payload) | SignatureExpired | ClaimsRejected | DecodeFailed

  /** The decoder call made with `key`: algorithms, audience and issuer come from
      the configuration. */
  function Request(token: string, key: RsaKey): DecodeRequest
  {
    DecodeRequest(token, key, Algorithms, ApiAudience, Issuer)
  }

  /** The `try`/`except` of auth.py:183-225: each decoder outcome as reported. */
  function ReportDecode(d: DecodeOutcome): (r: Outcome<Payload>)
    ensures !r.Raise?
    ensures d.Decoded? ==> r == Ok(d.payload)
    ensures r.Ok? ==> d == Decoded(r.value)
    ensures r.Fail? ==> r.error.code in {"token_expired", "invalid_claims", "invalid_header"}
    ensures r.Fail? && r.error.statusCode == 400 <==> d == DecodeFailed
  {
    match d
    case Decoded(p) => Ok(p)
    case SignatureExpired => Fail(TokenExpired)
    case ClaimsRejected => Fail(BadClaims)
    case DecodeFailed => Fail(UnparsableToken)
  }

  /** The errors `verify_decode_jwt` raises itself. */
  predicate IsVerificationError(e: AuthError)
  {
    e in {AuthError("invalid_header", 401), AuthError("invalid_header", 400),
          AuthError("token_expired", 401), AuthError("invalid_claims", 401)}
  }

  /** `verify_decode_jwt(token)`: download the keys, read the header, require its
      `kid`, pick the last matching key, decode with it and report the outcome. */
  function VerifyDecode(token: string, fetch: KeySetFetch,
                         getHeader: string -> HeaderOutcome,
                         decode: DecodeRequest -> DecodeOutcome): (r: Outcome<Payload>)
    ensures r.Fail? ==> IsVerificationError(r.error)
    ensures r.Raise? ==> r.exception in {FetchError, JwtError, KeyError}
  {
    match fetch
    case FetchFailed => Raise(FetchError)
    case Fetched(keys) =>
      match getHeader(token)
      case HeaderUnreadable => Raise(JwtError)
      case Header(header) =>
        if "kid" !in header then Fail(NoKeyId)
        else
          match KeySearch(keys, header["kid"])
          case MissingEntry => Raise(KeyError)
          case NoMatch => Fail(NoMatchingKey)
          case Selected(key) => ReportDecode(decode(Request(token, key)))
  }

  /** A readable header without `kid` fails with `invalid_header`/401. */
  lemma MissingKidRejected(token: string, keys: seq<Jwk>, getHeader: string -> HeaderOutcome,
                           decode: DecodeRequest -> DecodeOutcome)
    requires getHeader(token).Header? && "kid" !in getHeader(token).entries
    ensures VerifyDecode(token, Fetched(keys), getHeader, decode) == Fail(AuthError("invalid_header", 401))
  {
  }

  /** A `kid` that no entry of a well-formed key set carries fails with
      `invalid_header`/400, and the decoder is not consulted. */
  lemma UnknownKidRejected(token: string, keys: seq<Jwk>, getHeader: string -> HeaderOutcome,
                           decode: DecodeRequest -> DecodeOutcome)
    requires getHeader(token).Header? && "kid" in getHeader(token).entries
    requires forall i :: 0 <= i < |keys| ==> "kid" in keys[i] && keys[i]["kid"] != getHeader(token).entries["kid"]
    ensures VerifyDecode(token, Fetched(keys), getHeader, decode) == Fail(AuthError("invalid_header", 400))
  {
    var kid := getHeader(token).entries["kid"];
    assert NoFault(keys, kid);
    SelectedIsLastMatch(keys, kid);
  }

  /** Once a key is selected, the decoder's outcome decides: expiry is
      `token_expired`/401, wrong claims `invalid_claims`/401, any other failure
      `invalid_header`/400, and decoded claims are returned unchanged. */
  lemma DecodeOutcomeReported(token: string, keys: seq<Jwk>, getHeader: string -> HeaderOutcome,
                              decode: DecodeRequest -> DecodeOutcome, key: RsaKey)
    requires getHeader(token).Header? && "kid" in getHeader(token).entries
    requires KeySearch(keys, getHeader(token).entries["kid"]) == Selected(key)
    ensures var d := decode(Request(token, key));
            var r := VerifyDecode(token, Fetched(keys), getHeader, decode);
            && (d == SignatureExpired ==> r == Fail(AuthError("token_expired", 401)))
            && (d == ClaimsRejected ==> r == Fail(AuthError("invalid_claims", 401)))
            && (d == DecodeFailed ==> r == Fail(AuthError("invalid_header", 400)))
            && (d.Decoded? ==> r == Ok(d.payload))
  {
  }

  /** The decoder is only ever asked with algorithms ["RS256"], audience "coffee"
      and the issuer "https://dev-0m5vk9lb.us.auth0.com/": two decoders that agree
      on such requests for this token give the same verification outcome. */
  lemma DecodeUsesConfiguredArguments(token: string, fetch: KeySetFetch,
                                      getHeader: string -> HeaderOutcome,
                                      d1: DecodeRequest -> DecodeOutcome, d2: DecodeRequest -> DecodeOutcome)
    requires forall key: RsaKey ::
      d1(DecodeRequest(token, key, ["RS256"], "coffee", "https://dev-0m5vk9lb.us.auth0.com/")) ==
      d2(DecodeRequest(token, key, ["RS256"], "coffee", "https://dev-0m5vk9lb.us.auth0.com/"))
    ensures VerifyDecode(token, fetch, getHeader, d1) == VerifyDecode(token, fetch, getHeader, d2)
  {
    assert Issuer == "https://dev-0m5vk9lb.us.auth0.com/";
  }

  /** A successful verification returns exactly the claims the decoder produced for
      the last key of the set whose `kid` is the header's. */
  lemma VerifiedPayloadIsDecoded(token: string, fetch: KeySetFetch,
                                 getHeader: string -> HeaderOutcome,
                                 decode: DecodeRequest -> DecodeOutcome)
    requires VerifyDecode(token, fetch, getHeader, decode).Ok?
    ensures fetch.Fetched? && getHeader(token).Header? && "kid" in getHeader(token).entries
    ensures var kid := getHeader(token).entries["kid"];
            exists j :: IsLastMatch(fetch.keys, kid, j) && HasRsaEntries(fetch.keys[j])
                     && decode(Request(token, Project(fetch.keys[j])))
                        == Decoded(VerifyDecode(token, fetch, getHeader, decode).value)
  {
    SelectedIsLastMatch(fetch.keys, getHeader(token).entries["kid"]);
  }

  /** The scenario of a token signed with key "abc" against a key set holding only
      key "xyz". */
  lemma ForeignKeyExample(token: string, getHeader: string -> HeaderOutcome,
                          decode: DecodeRequest -> DecodeOutcome, xyz: Jwk)
    requires getHeader(token) == Header(map["alg" := "RS256", "kid" := "abc"])
    requires xyz == map["kty" := "RSA", "kid" := "xyz", "use" := "sig", "n" := "n", "e" := "AQAB"]
    ensures VerifyDecode(token, Fetched([xyz]), getHeader, decode) == Fail(AuthError("invalid_header", 400))
  {
    UnknownKidRejected(token, [xyz], getHeader, decode);
  }
}
