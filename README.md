# Authorization layer of the coffee-shop backend, in Dafny

This project models the authorization layer of the coffee-shop REST backend
(`finished_code/backend/src/auth/auth.py`). Protected routes are wrapped by
`requires_auth(permission)`. The wrapper does four things in order:

1. It takes the bearer token out of the `Authorization` header (`get_token_auth_header`).
2. It verifies the token against the identity provider's key set (`verify_decode_jwt`).
3. It checks that the decoded claims grant the permission (`check_permissions`).
4. Only then does it call the route handler with the claims.

Every failure the gate reports is an `AuthError` carrying a `code` string and an
HTTP status. The one exception is the `TypeError` raised by `in` on a null, boolean
or numeric `permissions` claim.

The model is made of functions over values, with one exception: the key search in
`verify_decode_jwt` is a loop in the source. It is modelled as the method
`KeySelection.SelectKey`, which is proved equal to the function `KeySelection.KeySearch`.
The rest of the model uses that function.

Modules, leaf first:

- `AuthResults` (errors.dfy) holds the `AuthError` values raised at each site of the
  source. It also holds the other Python exceptions the code can raise, and the
  three-way `Outcome` (value, `AuthError`, other exception). The third case is
  needed because the gate treats the two kinds of exception differently.
- `Text` (text.dfy) models Python's `str.split(" ")`, proved against `str.join` in
  both directions. It also models ASCII `str.lower` and the substring test `x in s`.
- `JsonValues` (json.dfy) models decoded JSON claims and Python's `in` on them.
- `HeaderExtraction` (header.dfy) models `get_token_auth_header`.
- `Permissions` (permissions.dfy) models `check_permissions`.
- `KeySelection` (keys.dfy) models the scan of the key set. The last entry with
  the token's `kid` wins.
- `Verification` (verify.dfy) models `verify_decode_jwt`, with the JWKS download
  given as an input value. `jwt.get_unverified_header` and `jwt.decode` are oracle
  parameters. The decoder oracle receives the whole argument list (token, key,
  algorithms, audience, issuer), so the arguments of the call can be stated.
- `Gate` (gate.dfy) models the wrapper built by `requires_auth`.

Facts the model pins down:

- The header is split on the single character `' '`. So `"Bearer  a"` (two
  spaces) and `"Bearer\ta"` (a tab) are both rejected, while `"bearer "`
  yields the empty token.
- When several keys share the token's `kid`, the last one is used.
- A key record that lacks `kid`, or a matching record that lacks one of the copied
  entries, raises `KeyError`.
- A string-valued `permissions` claim is searched as a substring. So
  `"get:drinks-detail"` grants `"get:drinks"`.
- A numeric, boolean or null claim raises `TypeError`.
- The bare `except:` in the wrapper turns every verification failure into
  `unauthorized`/401. This includes `token_expired`, `invalid_claims`/401,
  `invalid_header`/400, and the non-`AuthError` exceptions. A caller never sees
  those codes.
- The `TypeError` from the permission check is not caught.
- A bad signature is reported like any decoder failure other than expiry and
  claim errors: as `invalid_header`/400.

## Model

| member | source | states |
|---|---|---|
| `Text.Split` | finished_code/backend/src/auth/auth.py:65 | `split(" ")` yields one more part than the string has spaces, and no part contains a space |
| `Text.JoinSplit` | finished_code/backend/src/auth/auth.py:65 | joining the parts of a split with the separator gives back the original header |
| `Text.SplitJoin` | finished_code/backend/src/auth/auth.py:65 | splitting a join of separator-free parts gives back exactly those parts |
| `Text.LowerChar` | finished_code/backend/src/auth/auth.py:79 | a character lower-cases to a letter only from that letter or its upper-case form, and to a space only from a space |
| `Text.Lower` | finished_code/backend/src/auth/auth.py:79 | `.lower()` keeps the length and lower-cases each character on its own |
| `Text.LowerIsBearer` | finished_code/backend/src/auth/auth.py:79 | the scheme test `lower() == "bearer"` holds exactly for the six-letter spellings of "bearer" with each letter in either case |
| `Text.OccursIn` | finished_code/backend/src/auth/auth.py:123 | `x in s` on strings can hold only when `x` is no longer than `s`; `OccursInAtOffset` fixes its meaning |
| `Text.OccursInAtOffset` | finished_code/backend/src/auth/auth.py:123 | `x in s` on strings holds exactly when `x` equals the slice of `s` at some position |
| `JsonValues.PyIn` | finished_code/backend/src/auth/auth.py:123 | `in` never raises an `AuthError`; it raises `TypeError` exactly for null, boolean and numeric values |
| `JsonValues.InStrings` | finished_code/backend/src/auth/auth.py:123 | on a JSON array of strings, `in` is membership in the list |
| `HeaderExtraction.ExtractToken` | finished_code/backend/src/auth/auth.py:45-91 | never raises a non-`AuthError` exception; fails only with `unauthorized`/401 or `invalid_header`/401; a returned token contains no space |
| `HeaderExtraction.MissingHeaderIsUnauthorized` | finished_code/backend/src/auth/auth.py:51-61 | without an `Authorization` header the result is `unauthorized`/401 |
| `HeaderExtraction.PartCountCheckedFirst` | finished_code/backend/src/auth/auth.py:65-77 | a header that does not split into exactly two parts fails with `invalid_header`/401, whatever its scheme |
| `HeaderExtraction.SchemeMustBeBearer` | finished_code/backend/src/auth/auth.py:79-88 | a two-part header whose scheme does not lower-case to `bearer` fails with `invalid_header`/401 |
| `HeaderExtraction.BearerRoundTrip` | finished_code/backend/src/auth/auth.py:79-91 | for any scheme that lower-cases to `bearer` and any token without spaces, the empty one included, `scheme + " " + token` yields `token` |
| `HeaderExtraction.ExtractsExactlyBearerTokens` | finished_code/backend/src/auth/auth.py:63-91 | extraction returns `t` if and only if the header is a `bearer` scheme in any case, one space, and `t`, which contains no space |
| `HeaderExtraction.BareSchemeRejected` | finished_code/backend/src/auth/auth.py:68-77 | `"Bearer"` alone fails with `invalid_header`/401 |
| `HeaderExtraction.ExtraSegmentRejected` | finished_code/backend/src/auth/auth.py:68-77 | `"Bearer a b"` fails with `invalid_header`/401 |
| `HeaderExtraction.DoubledSpaceRejected` | finished_code/backend/src/auth/auth.py:65-77 | `"Bearer  a"` (two spaces) fails with `invalid_header`/401 because of the empty middle part |
| `HeaderExtraction.TabSeparatorRejected` | finished_code/backend/src/auth/auth.py:65-77 | `"Bearer\ta"` fails with `invalid_header`/401; a tab does not separate |
| `HeaderExtraction.UpperCaseSchemeAccepted` | finished_code/backend/src/auth/auth.py:79-91 | `"BEARER abc.def.ghi"` yields `abc.def.ghi` |
| `HeaderExtraction.EmptyTokenAccepted` | finished_code/backend/src/auth/auth.py:79-91 | `"bearer "` yields the empty token |
| `Permissions.CheckPermissions` | finished_code/backend/src/auth/auth.py:107-133 | success is always `true`; failures are only `invalid_claims`/400 or `forbidden`/403; the only other exception is `TypeError` |
| `Permissions.MissingClaimWins` | finished_code/backend/src/auth/auth.py:110-119 | a payload without `permissions` fails with `invalid_claims`/400 for every permission |
| `Permissions.GrantedIffListed` | finished_code/backend/src/auth/auth.py:123-133 | for a list-of-strings claim: `true` if the permission is listed, otherwise `forbidden`/403 |
| `Permissions.StringClaimGrantsSubstrings` | finished_code/backend/src/auth/auth.py:123 | a string claim `"get:drinks-detail"` grants `"get:drinks"` |
| `Permissions.ScalarClaimRaises` | finished_code/backend/src/auth/auth.py:123 | a null, boolean or numeric claim raises `TypeError` |
| `Permissions.DrinksDetailExample` | finished_code/backend/src/auth/auth.py:121-133 | the claim `["get:drinks-detail"]` grants `get:drinks-detail` and refuses `post:drinks` with `forbidden`/403 |
| `KeySelection.LastMatch` | finished_code/backend/src/auth/auth.py:171-179 | the index found carries the `kid` and no later entry does; none is found exactly when no entry carries it |
| `KeySelection.KeySearch` | finished_code/backend/src/auth/auth.py:171-179 | a selected key carries the requested `kid`; no match means no entry carries it; the scan raises `KeyError` exactly when some entry lacks `kid` or is a match lacking a copied field (`SelectedIsLastMatch` adds that the last match is copied) |
| `KeySelection.SelectKey` | finished_code/backend/src/auth/auth.py:165-179 | the loop ends with exactly the selection `KeySearch` describes, including the early `KeyError` |
| `KeySelection.SelectedIsLastMatch` | finished_code/backend/src/auth/auth.py:171-179 | a key is selected if and only if no entry raises and some entry matches; it is then the copy `{kty, kid, use, n, e}` of the last match and carries the requested `kid`; nothing is selected if and only if no entry raises and none matches |
| `KeySelection.LaterMatchOverrides` | finished_code/backend/src/auth/auth.py:171-179 | appending a complete matching entry makes it the selected key, whatever matched before |
| `KeySelection.OtherKidIgnored` | finished_code/backend/src/auth/auth.py:171-172 | appending an entry with another `kid` leaves the selection unchanged |
| `KeySelection.DuplicateKidExample` | finished_code/backend/src/auth/auth.py:171-179 | of two entries with `kid` "a" the second is selected; an entry without `kid` makes the scan raise |
| `Verification.ReportDecode` | finished_code/backend/src/auth/auth.py:183-225 | the `try`/`except` raises no other exception; claims are returned exactly when decoding succeeded, unchanged; failures carry `token_expired`, `invalid_claims` or `invalid_header`, and status 400 exactly for a decoder failure other than expiry and claims |
| `Verification.VerifyDecode` | finished_code/backend/src/auth/auth.py:156-234 | its own failures are only `invalid_header`/401, `invalid_header`/400, `token_expired`/401 and `invalid_claims`/401; other exceptions are only fetch, header and `KeyError` failures |
| `Verification.MissingKidRejected` | finished_code/backend/src/auth/auth.py:166-169 | a header without `kid` fails with `invalid_header`/401 |
| `Verification.UnknownKidRejected` | finished_code/backend/src/auth/auth.py:226-234 | a `kid` that no well-formed entry carries fails with `invalid_header`/400 |
| `Verification.DecodeOutcomeReported` | finished_code/backend/src/auth/auth.py:182-225 | with a selected key: expired is `token_expired`/401, bad claims `invalid_claims`/401, any other decoder error `invalid_header`/400, success returns the claims unchanged |
| `Verification.DecodeUsesConfiguredArguments` | finished_code/backend/src/auth/auth.py:185-191 | the outcome depends on the decoder only at requests with algorithms `["RS256"]`, audience `coffee` and issuer `https://dev-0m5vk9lb.us.auth0.com/` |
| `Verification.VerifiedPayloadIsDecoded` | finished_code/backend/src/auth/auth.py:182-193 | a verified payload is exactly what the decoder returned for the copy of the last key with the header's `kid` |
| `Verification.ForeignKeyExample` | finished_code/backend/src/auth/auth.py:226-234 | a token with `kid` "abc" against a key set holding only "xyz" fails with `invalid_header`/400 |
| `Gate.RequiresAuth` | finished_code/backend/src/auth/auth.py:250-268 | the wrapper succeeds exactly when extraction, verification and the permission check all pass; the only non-`AuthError` exception it lets through is `TypeError` (the lemmas below state each path) |
| `Gate.HandlerRunsOnlyWhenAdmitted` | finished_code/backend/src/auth/auth.py:254-268 | the gate succeeds if and only if extraction, verification and the permission check all succeed, and then returns the handler's result on the verified claims |
| `Gate.RejectionIgnoresHandler` | finished_code/backend/src/auth/auth.py:267-268 | when not admitted, the outcome is the same for every handler |
| `Gate.ExtractionErrorPropagates` | finished_code/backend/src/auth/auth.py:254 | an extraction error reaches the caller unchanged |
| `Gate.VerificationFailureCollapses` | finished_code/backend/src/auth/auth.py:255-266 | any verification failure, `AuthError` or other exception, becomes `unauthorized`/401 |
| `Gate.PermissionErrorPropagates` | finished_code/backend/src/auth/auth.py:267 | a permission failure or `TypeError` reaches the caller unchanged |
| `Gate.GateHidesVerificationErrors` | finished_code/backend/src/auth/auth.py:254-268 | the caller sees only `unauthorized`/401, `invalid_header`/401, `invalid_claims`/400 or `forbidden`/403, never `token_expired`; the only exception that escapes is `TypeError` |
| `Gate.DrinksDetailAdmitted` | finished_code/backend/src/auth/auth.py:250-268 | a good bearer header with verified claims granting `get:drinks-detail` reaches that route's handler with the claims intact |

## Left out

- The JWKS download (`urlopen` and `json.loads`, auth.py:158-159) is network I/O. The model takes its result as an input: the `keys` list, or a failure. A document without `keys`, or with a non-list `keys`, is not modelled.
- `jwt.get_unverified_header` and `jwt.decode` are a foreign JOSE library. They are oracle parameters. RS256 signature checking, expiry and audience/issuer checks are not modelled; only how their outcomes are reported is.
- The Flask request context and the `functools.wraps` machinery are not modelled. Headers are a map, and the wrapped route is a function with its own arguments already applied.
- Werkzeug looks up header names case-insensitively. The model looks up the exact key `Authorization`.
- `Text.Lower`: does not model Python's full Unicode case mapping, only ASCII `A`-`Z`. No non-ASCII character lower-cases to a letter of `bearer`, so the scheme test is unaffected.
- JSON numbers are integers only. Key-set entries and token-header entries are strings only, so a `kid` of another JSON type is not modelled.
- Exceptions raised by the route handler itself are not modelled.
- The human-readable `message`/`description` texts and the `success`/`error` fields of the error dicts are not modelled. Only `code` and the status carry meaning.
- `finished_code/backend/src/api.py` (routes, persistence and JSON error handlers) is not part of this model.
