/** The failure vocabulary of the authorization layer.

    The source raises `AuthError(error, status_code)`, where `error` is a dict whose
    only machine-readable entry is `code`; the other entries are human-readable text
    and are not modelled.  Besides `AuthError`, library calls can raise ordinary
    Python exceptions, which behave differently at the gate (a bare `except:` catches
    them during verification, nothing catches them during the permission check), so
    they are a separate kind of outcome. */
module AuthResults {

  /** `AuthError` reduced to its `code` entry and its HTTP status. */
  datatype AuthError = AuthError(code: string, statusCode: int)

  /** Python exceptions other than `AuthError` that the modelled code can raise. */
  datatype PyException =
    | FetchError  // the key-set download or its JSON parse failed
    | JwtError    // the token's header could not be read
    | KeyError    // a key record lacks an entry that is read
    | TypeError   // `in` applied to a claim that is not a container

  /** What a call of the source returns: a value, a raised `AuthError`, or another exception. */
  datatype Outcome<+T> = Ok(value: T) | Fail(error: AuthError) | Raise(exception: PyException)

  datatype Option<+T> = None | Some(value: T)

  // The errors raised in auth.py, one per raise site.

  /** No `Authorization` header (auth.py:51-61). */
  const MissingAuthorization := AuthError("unauthorized", 401)
  /** The header does not split into exactly two parts (auth.py:68-77). */
  const WrongPartCount := AuthError("invalid_header", 401)
  /** The scheme is not `bearer` in any letter case (auth.py:79-88). */
  const NotBearer := AuthError("invalid_header", 401)
  /** The payload has no `permissions` claim (auth.py:110-119). */
  const NoPermissionsClaim := AuthError("invalid_claims", 400)
  /** The required permission is not granted (auth.py:123-132). */
  const PermissionNotGranted := AuthError("forbidden", 403)
  /** The token header has no `kid` (auth.py:166-169). */
  const NoKeyId := AuthError("invalid_header", 401)
  /** The decoder reports an expired signature (auth.py:195-204). */
  const TokenExpired := AuthError("token_expired", 401)
  /** The decoder reports wrong claims (auth.py:206-215). */
  const BadClaims := AuthError("invalid_claims", 401)
  /** Any other decoder failure (auth.py:216-225). */
  const UnparsableToken := AuthError("invalid_header", 400)
  /** No key of the key set carries the token's `kid` (auth.py:226-234). */
  const NoMatchingKey := AuthError("invalid_header", 400)
  /** Whatever verification raised, as the gate reports it (auth.py:257-266). */
  const VerificationRejected := AuthError("unauthorized", 401)
}
