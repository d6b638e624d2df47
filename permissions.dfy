/** `check_permissions` (auth.py:107-133): is a required permission granted by the
    `permissions` claim of a decoded payload? The payload is a value and is never
    changed. */
module Permissions {
  import opened AuthResults
  import opened JsonValues

  const PermissionsClaim := "permissions"

  /** `true` when the claim grants the permission. A missing claim is reported
      before membership is looked at; membership is Python's `in`, so a claim
      that is not a container raises `TypeError`. */
  function CheckPermissions(permission: string, payload: Payload): (r: Outcome<bool>)
    ensures r.Ok? ==> r.value
    ensures r.Fail? ==> r.error == AuthError("invalid_claims", 400) || r.error == AuthError("forbidden", 403)
    ensures r.Raise? ==> r.exception == TypeError
  {
    if PermissionsClaim !in payload then Fail(NoPermissionsClaim)
    else
      match PyIn(permission, payload[PermissionsClaim])
      case Ok(granted) => if granted then Ok(true) else Fail(PermissionNotGranted)
      case Fail(e) => Fail(e)
      case Raise(x) => Raise(x)
  }

  /** A payload without a `permissions` claim fails with `invalid_claims`/400,
      whichever permission is asked for. */
  lemma MissingClaimWins(permission: string, payload: Payload)
    requires PermissionsClaim !in payload
    ensures CheckPermissions(permission, payload) == Fail(AuthError("invalid_claims", 400))
  {
  }

  /** For the usual claim, a list of strings, the check succeeds exactly when the
      permission is in the list and fails with `forbidden`/403 otherwise. */
  lemma GrantedIffListed(permission: string, payload: Payload, granted: seq<string>)
    requires PermissionsClaim in payload && payload[PermissionsClaim] == Strings(granted)
    ensures permission in granted ==> CheckPermissions(permission, payload) == Ok(true)
    ensures permission !in granted ==> CheckPermissions(permission, payload) == Fail(AuthError("forbidden", 403))
  {
    InStrings(permission, granted);
  }

  /** When the claim is a string, `in` tests for a substring: a claim
      "get:drinks-detail" grants "get:drinks". */
  lemma StringClaimGrantsSubstrings(payload: Payload)
    requires PermissionsClaim in payload && payload[PermissionsClaim] == JString("get:drinks-detail")
    ensures CheckPermissions("get:drinks", payload) == Ok(true)
  {
    assert "get:drinks" <= "get:drinks-detail";
  }

  /** A null, boolean or numeric claim makes `in` raise `TypeError`, which is not an
      `AuthError`. */
  lemma ScalarClaimRaises(permission: string, payload: Payload)
    requires PermissionsClaim in payload
    requires payload[PermissionsClaim].JNull? || payload[PermissionsClaim].JBool? || payload[PermissionsClaim].JNumber?
    ensures CheckPermissions(permission, payload) == Raise(TypeError)
  {
  }

  /** A token with permissions ["get:drinks-detail"] passes the check for
      "get:drinks-detail" and fails it for "post:drinks". */
  lemma DrinksDetailExample(payload: Payload)
    requires PermissionsClaim in payload && payload[PermissionsClaim] == Strings(["get:drinks-detail"])
    ensures CheckPermissions("get:drinks-detail", payload) == Ok(true)
    ensures CheckPermissions("post:drinks", payload) == Fail(AuthError("forbidden", 403))
  {
    GrantedIffListed("get:drinks-detail", payload, ["get:drinks-detail"]);
    GrantedIffListed("post:drinks", payload, ["get:drinks-detail"]);
  }
}
