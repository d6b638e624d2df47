/** The wrapper built by `requires_auth(permission)` (auth.py:250-268), as a plain
    function of the request: extract the token, verify it, check the permission
    and only then run the handler on the decoded claims. */
module Gate {
  import opened AuthResults
  import opened JsonValues
  import opened HeaderExtraction
  import opened Permissions
  import opened Verification

  /** The outcome of a protected request. `handler` is the decorated route with its
      own arguments already supplied; it receives the claims as its first one. */
  function RequiresAuth<R>(permission: string, headers: map<string, string>, fetch: KeySetFetch,
                           getHeader: string -> HeaderOutcome, decode: DecodeRequest -> DecodeOutcome,
                           handler: Payload -> R): (r: Outcome<R>)
    ensures r.Ok? <==> Admitted(permission, headers, fetch, getHeader, decode)
    ensures r.Raise? ==> r.exception == TypeError
  {
    match ExtractToken(headers)
    case Fail(e) => Fail(e)
    case Raise(x) => Raise(x)
    case Ok(token) =>
      match VerifyDecode(token, fetch, getHeader, decode)
      case Ok(payload) =>
        (match CheckPermissions(permission, payload)
         case Ok(_) => Ok(handler(payload))
         case Fail(e) => Fail(e)
         case Raise(x) => Raise(x))
      case _ => Fail(VerificationRejected)
  }

  /** Token, verified claims and permission all pass. */
  predicate Admitted(permission: string, headers: map<string, string>, fetch: KeySetFetch,
                     getHeader: string -> HeaderOutcome, decode: DecodeRequest -> DecodeOutcome)
  {
    && ExtractToken(headers).Ok?
    && VerifyDecode(ExtractToken(headers).value, fetch, getHeader, decode).Ok?
    && CheckPermissions(permission, VerifyDecode(ExtractToken(headers).value, fetch, getHeader, decode).value) == Ok(true)
  }

  /** The handler runs exactly when all three stages pass, and then on the claims
      the verification returned. */
  lemma HandlerRunsOnlyWhenAdmitted<R>(permission: string, headers: map<string, string>, fetch: KeySetFetch,
                                       getHeader: string -> HeaderOutcome, decode: DecodeRequest -> DecodeOutcome,
                                       handler: Payload -> R)
    ensures RequiresAuth(permission, headers, fetch, getHeader, decode, handler).Ok?
            <==> Admitted(permission, headers, fetch, getHeader, decode)
    ensures Admitted(permission, headers, fetch, getHeader, decode) ==>
            RequiresAuth(permission, headers, fetch, getHeader, decode, handler)
            == Ok(handler(VerifyDecode(ExtractToken(headers).value, fetch, getHeader, decode).value))
  {
  }

  /** When a request is not admitted its outcome does not depend on the handler:
      the handler was not called. */
  lemma RejectionIgnoresHandler<R>(permission: string, headers: map<string, string>, fetch: KeySetFetch,
                                   getHeader: string -> HeaderOutcome, decode: DecodeRequest -> DecodeOutcome,
                                   h1: Payload -> R, h2: Payload -> R)
    requires !Admitted(permission, headers, fetch, getHeader, decode)
    ensures RequiresAuth(permission, headers, fetch, getHeader, decode, h1)
            == RequiresAuth(permission, headers, fetch, getHeader, decode, h2)
  {
    HandlerRunsOnlyWhenAdmitted(permission, headers, fetch, getHeader, decode, h1);
    HandlerRunsOnlyWhenAdmitted(permission, headers, fetch, getHeader, decode, h2);
  }

  /** Extraction errors reach the caller unchanged. */
  lemma ExtractionErrorPropagates<R>(permission: string, headers: map<string, string>, fetch: KeySetFetch,
                                     getHeader: string -> HeaderOutcome, decode: DecodeRequest -> DecodeOutcome,
                                     handler: Payload -> R)
    requires ExtractToken(headers).Fail?
    ensures RequiresAuth(permission, headers, fetch, getHeader, decode, handler) == Fail(ExtractToken(headers).error)
  {
  }

  /** Every failure of verification, an `AuthError` or any other exception, is
      replaced by `unauthorized`/401. */
  lemma VerificationFailureCollapses<R>(permission: string, headers: map<string, string>, fetch: KeySetFetch,
                                        getHeader: string -> HeaderOutcome, decode: DecodeRequest -> DecodeOutcome,
                                        handler: Payload -> R)
    requires ExtractToken(headers).Ok?
    requires !VerifyDecode(ExtractToken(headers).value, fetch, getHeader, decode).Ok?
    ensures RequiresAuth(permission, headers, fetch, getHeader, decode, handler) == Fail(AuthError("unauthorized", 401))
  {
  }

  /** The permission check's outcome, failure or `TypeError`, reaches the caller
      unchanged. */
  lemma PermissionErrorPropagates<R>(permission: string, headers: map<string, string>, fetch: KeySetFetch,
                                     getHeader: string -> HeaderOutcome, decode: DecodeRequest -> DecodeOutcome,
                                     handler: Payload -> R)
    requires ExtractToken(headers).Ok?
    requires VerifyDecode(ExtractToken(headers).value, fetch, getHeader, decode).Ok?
    requires !CheckPermissions(permission, VerifyDecode(ExtractToken(headers).value, fetch, getHeader, decode).value).Ok?
    ensures var c := CheckPermissions(permission, VerifyDecode(ExtractToken(headers).value, fetch, getHeader, decode).value);
            RequiresAuth(permission, headers, fetch, getHeader, decode, handler)
            == if c.Fail? then Fail(c.error) else Raise(c.exception)
  {
  }

  /** A caller of the gate never sees the verification's own errors: no
      `token_expired`, no `invalid_claims`/401 and no `invalid_header`/400. The
      only exception that escapes is the permission check's `TypeError`. */
  lemma GateHidesVerificationErrors<R>(permission: string, headers: map<string, string>, fetch: KeySetFetch,
                                       getHeader: string -> HeaderOutcome, decode: DecodeRequest -> DecodeOutcome,
                                       handler: Payload -> R)
    ensures var r := RequiresAuth(permission, headers, fetch, getHeader, decode, handler);
            && (r.Fail? ==> r.error in {AuthError("unauthorized", 401), AuthError("invalid_header", 401),
                                         AuthError("invalid_claims", 400), AuthError("forbidden", 403)})
            && (r.Fail? ==> r.error.code != "token_expired")
            && (r.Raise? ==> r.exception == TypeError)
  {
  }

  /** A request with a good bearer header whose verified claims grant
      ["get:drinks-detail"] reaches the handler of a route that requires
      "get:drinks-detail", with those claims intact. */
  lemma DrinksDetailAdmitted<R>(headers: map<string, string>, fetch: KeySetFetch,
                                getHeader: string -> HeaderOutcome, decode: DecodeRequest -> DecodeOutcome,
                                handler: Payload -> R, token: string, payload: Payload)
    requires AuthorizationHeader in headers && headers[AuthorizationHeader] == "Bearer " + token
    requires ' ' !in token
    requires VerifyDecode(token, fetch, getHeader, decode) == Ok(payload)
    requires PermissionsClaim in payload && payload[PermissionsClaim] == Strings(["get:drinks-detail"])
    ensures RequiresAuth("get:drinks-detail", headers, fetch, getHeader, decode, handler) == Ok(handler(payload))
  {
    assert Text.Lower("Bearer") == "bearer";
    BearerRoundTrip(headers, "Bearer", token);
    DrinksDetailExample(payload);
  }
}
