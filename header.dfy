/** `get_token_auth_header` (auth.py:45-91): the bearer token of a request.

    The request's headers are a map from header name to value. */
module HeaderExtraction {
  import opened AuthResults
  import opened Text

  const AuthorizationHeader := "Authorization"

  /** The token of an `Authorization: <scheme> <token>` header. The header is split
      on the single character ' ' (not on all whitespace), the number of parts is
      checked before the scheme, and the scheme is compared after lower-casing. */
  function ExtractToken(headers: map<string, string>): (r: Outcome<string>)
    ensures !r.Raise?
    ensures r.Fail? ==> r.error == MissingAuthorization || r.error == AuthError("invalid_header", 401)
    ensures r.Ok? ==> ' ' !in r.value
  {
    if AuthorizationHeader !in headers then Fail(MissingAuthorization)
    else
      var parts := Split(headers[AuthorizationHeader], ' ');
      if |parts| != 2 then Fail(WrongPartCount)
      else if Lower(parts[0]) != "bearer" then Fail(NotBearer)
      else Ok(parts[1])
  }

  /** Without an `Authorization` header, extraction fails with `unauthorized`/401. */
  lemma MissingHeaderIsUnauthorized(headers: map<string, string>)
    requires AuthorizationHeader !in headers
    ensures ExtractToken(headers) == Fail(AuthError("unauthorized", 401))
  {
  }

  /** A header that does not split on ' ' into exactly two parts fails with
      `invalid_header`/401, whatever its first part is. */
  lemma PartCountCheckedFirst(headers: map<string, string>)
    requires AuthorizationHeader in headers
    requires |Split(headers[AuthorizationHeader], ' ')| != 2
    ensures ExtractToken(headers) == Fail(AuthError("invalid_header", 401))
  {
  }

  /** A two-part header whose first part is not `bearer` in any letter case fails
      with `invalid_header`/401. */
  lemma SchemeMustBeBearer(headers: map<string, string>, scheme: string, token: string)
    requires AuthorizationHeader in headers
    requires headers[AuthorizationHeader] == scheme + " " + token
    requires ' ' !in scheme && ' ' !in token
    requires Lower(scheme) != "bearer"
    ensures ExtractToken(headers) == Fail(AuthError("invalid_header", 401))
  {
    SplitJoin([scheme, token], ' ');
  }

  /** Any scheme that lower-cases to `bearer`, one space and any token without
      spaces (the empty token included) yield that token verbatim. */
  lemma BearerRoundTrip(headers: map<string, string>, scheme: string, token: string)
    requires AuthorizationHeader in headers
    requires headers[AuthorizationHeader] == scheme + " " + token
    requires Lower(scheme) == "bearer"
    requires ' ' !in token
    ensures ExtractToken(headers) == Ok(token)
  {
    LowerWithoutSpace(scheme);
    SplitJoin([scheme, token], ' ');
  }

  /** Extraction returns `token` exactly when the header is a scheme that
      lower-cases to `bearer`, one space, and `token`, which has no spaces. */
  lemma ExtractsExactlyBearerTokens(headers: map<string, string>, token: string)
    ensures ExtractToken(headers) == Ok(token) <==>
      && AuthorizationHeader in headers
      && ' ' !in token
      && exists scheme :: Lower(scheme) == "bearer" && headers[AuthorizationHeader] == scheme + " " + token
  {
    if ExtractToken(headers) == Ok(token) {
      var parts := Split(headers[AuthorizationHeader], ' ');
      JoinSplit(headers[AuthorizationHeader], ' ');
      assert Join(parts, ' ') == parts[0] + " " + parts[1];
      assert Lower(parts[0]) == "bearer";
    }
    if AuthorizationHeader in headers && ' ' !in token
       && exists scheme :: Lower(scheme) == "bearer" && headers[AuthorizationHeader] == scheme + " " + token {
      var scheme :| Lower(scheme) == "bearer" && headers[AuthorizationHeader] == scheme + " " + token;
      BearerRoundTrip(headers, scheme, token);
    }
  }

  /** A bare scheme has one part. */
  lemma BareSchemeRejected(headers: map<string, string>)
    requires AuthorizationHeader in headers && headers[AuthorizationHeader] == "Bearer"
    ensures ExtractToken(headers) == Fail(AuthError("invalid_header", 401))
  {
    SplitWithoutSeparator("Bearer", ' ');
  }

  /** A token followed by another segment gives three parts. */
  lemma ExtraSegmentRejected(headers: map<string, string>)
    requires AuthorizationHeader in headers && headers[AuthorizationHeader] == "Bearer a b"
    ensures ExtractToken(headers) == Fail(AuthError("invalid_header", 401))
  {
    var parts := ["Bearer", "a", "b"];
    assert Join(parts, ' ') == "Bearer a b" by {
      assert Join(parts[1..], ' ') == "a b";
    }
    SplitJoin(parts, ' ');
  }

  /** A doubled space gives an empty middle part, so three parts. */
  lemma DoubledSpaceRejected(headers: map<string, string>)
    requires AuthorizationHeader in headers && headers[AuthorizationHeader] == "Bearer  a"
    ensures ExtractToken(headers) == Fail(AuthError("invalid_header", 401))
  {
    var parts := ["Bearer", "", "a"];
    assert Join(parts, ' ') == "Bearer  a" by {
      assert Join(parts[1..], ' ') == " a";
    }
    SplitJoin(parts, ' ');
  }

  /** A tab is not the separator, so a tab-separated header is a single part. */
  lemma TabSeparatorRejected(headers: map<string, string>)
    requires AuthorizationHeader in headers && headers[AuthorizationHeader] == "Bearer\ta"
    ensures ExtractToken(headers) == Fail(AuthError("invalid_header", 401))
  {
    SplitWithoutSeparator("Bearer\ta", ' ');
  }

  /** The scheme is matched in any letter case. */
  lemma UpperCaseSchemeAccepted(headers: map<string, string>)
    requires AuthorizationHeader in headers && headers[AuthorizationHeader] == "BEARER abc.def.ghi"
    ensures ExtractToken(headers) == Ok("abc.def.ghi")
  {
    assert Lower("BEARER") == "bearer";
    BearerRoundTrip(headers, "BEARER", "abc.def.ghi");
  }

  /** The token after the space may be empty. */
  lemma EmptyTokenAccepted(headers: map<string, string>)
    requires AuthorizationHeader in headers && headers[AuthorizationHeader] == "bearer "
    ensures ExtractToken(headers) == Ok("")
  {
    assert Lower("bearer") == "bearer";
    BearerRoundTrip(headers, "bearer", "");
  }
}
