# ziqx-auth-js in Dafny

A model of the two pieces of logic in the ZIQX Auth JavaScript client:

- **`ZAuthClient`** (the authorization redirector). Its constructor rejects a
  configuration that lacks `authKey`, `redirectUrl` or `codeChallenge`.
  `login()` builds the gateway URL
  `BASE?key=…&redir=…&code_challenge=…[&challenge_method=…][&state=…]` by
  plain concatenation and navigates to it. The model is `AuthClient.NewClient`
  and `AuthClient.LoginUrl`: the navigation becomes
  the string `login()` assigns to `window.location.href`.
- **`ZAuthTokenService`**. `validate(token)` asks the validation endpoint
  about a token and maps every outcome to a boolean. `getAuthToken(params)`
  exchanges an authorization code for the gateway's token response. In the
  model (`TokenService.Validate`, `TokenService.GetAuthToken`), the `fetch`
  answer is an input value of type `Outcome`: a transport error, or a status
  code with a body that does or does not parse as JSON. Each operation returns
  a `Run`: the request it passes to `fetch` (`None` when it throws before
  calling `fetch`) and its result or thrown error.

JavaScript truthiness of a string field is modelled as `Js.Truthy` on
`Option<string>`: a missing value and the empty string are falsy.

To check `LoginUrl` against something other than its own body, the model has
an independent reference in module `QueryString`. The URL's parameters are
written as an ordered list (`AuthClient.LoginParams`). `QueryString.Join`
turns that list into a query string. `QueryString.Parse` reads one back the
way a receiver splits on `&` and `=`. The lemmas show that the login URL is
exactly `base?` followed by the joined list. They also show that the list is
recovered from the URL whenever no value contains `&`. Since nothing is
escaped, a redirect URL that contains `&` is misread, and a lemma shows how.

Files: `wrappers.dfy` (`Option`, `Result`), `js.dfy` (truthiness, JSON
values, property access), `query_string.dfy`, `auth_client.dfy`,
`token_service.dfy`.

Where the code and its own doc comments differ, the model follows the code:

- The constructor's doc comment (src/ZAuthClient.ts:39) gives
  `codeChallengeMethod` a default of `"plaintext"`. The code inserts no
  default: without a truthy method, no `challenge_method` segment is produced.
- The class's doc example (src/ZAuthClient.ts:22) calls `login(true)` for a
  development mode. In the code `login()` takes no argument
  (src/ZAuthClient.ts:71).

## Model

| member | source | states |
|---|---|---|
| AuthClient.NewClient | src/ZAuthClient.ts:56-65 | construction fails exactly when `authKey`, `redirectUrl` or `codeChallenge` is missing or empty, so an empty optional field never causes failure; on success the client is valid and stores every option exactly as given |
| AuthClient.NewClientRoundTrip | src/ZAuthClient.ts:61-65 | every valid client is accepted from its own options and rebuilt unchanged: no defaulting or normalisation |
| AuthClient.LoginUrl | src/ZAuthClient.ts:71-80 | the login URL always starts with `base?key=<authKey>&redir=<redirectUrl>&code_challenge=<codeChallenge>` |
| AuthClient.LoginParamsShape | src/ZAuthClient.ts:72-76 | the URL's parameter list starts with `key`, `redir`, `code_challenge`; `challenge_method` is present iff the method is truthy and comes right after them; `state` is present iff truthy and is last |
| AuthClient.LoginUrlIsQuery | src/ZAuthClient.ts:72-76 | the login URL equals `base` + `?` + the parameter list joined as `name=value` pairs with `&` |
| AuthClient.LoginUrlParses | src/ZAuthClient.ts:76 | when no value contains `&`, splitting the query on `&` and `=` recovers exactly the parameter list, in order |
| AuthClient.RedirectWithAmpersandIsMisread | src/ZAuthClient.ts:76 | values are not escaped: a redirect URL `front&back` is read as `redir=front` plus an extra parameter from `back`, giving four parameters where three were built |
| AuthClient.LoginUrlMinimal | src/ZAuthClient.ts:72-76 | with no truthy challenge method or state the URL is exactly the mandatory prefix (no `"plaintext"` default) |
| AuthClient.LoginUrlTail | src/ZAuthClient.ts:72-76 | a truthy state is the final `&state=` segment, a truthy method comes right before it, and a lone method is the final segment |
| AuthClient.LoginUrlLength | src/ZAuthClient.ts:72-76 | the URL length is the base plus the fixed literals plus the raw value lengths, so values are inserted verbatim |
| QueryString.ParseJoin | src/ZAuthClient.ts:76 | a non-empty parameter list whose names are free of `=` and `&` and whose values are free of `&` is joined as `name=value&…` and parses back as the same parameters, in order |
| Js.LastValue | src/ZAuthTokenService.ts:52 | the `success` member of a parsed object is absent iff no member has that name; otherwise it is the value of the last member with that name (JSON.parse keeps the last duplicate) |
| Js.Property | src/ZAuthTokenService.ts:51-52 | `data.success` throws exactly when the parsed body is `null`; on an object it is the value of the last member named `success` (undefined if there is none); on any other value it is undefined |
| TokenService.Validate | src/ZAuthTokenService.ts:36-57 | a falsy token throws without calling `fetch`; otherwise it passes `fetch` one GET to the V2 endpoint whose `Authorization` header argument is the raw token (no scheme prefix), and the call never throws; it returns true iff status is 200, the body parses, and its `success` member is the boolean `true` |
| TokenService.ValidateIgnoresBodyUnless200 | src/ZAuthTokenService.ts:49 | a status other than 200 gives `false` whatever the body |
| TokenService.ValidateFailsClosed | src/ZAuthTokenService.ts:49-56 | a network error, a body that is not JSON, a `null` body, or a `success` that is not exactly `true` (e.g. `1`, `"true"`) yields `false` |
| TokenService.TokenRequest | src/ZAuthTokenService.ts:81-94 | the exchange is a POST to the token URL whose JSON body has exactly `code`, `grant_type`, `code_verifier`, `redirect_uri` in that order, with `grant_type` always `authorization_code`; the headers are exactly `Content-Type: application/json`, `x-app-key` and `x-app-secret`, so the credentials travel in those two headers and nowhere else |
| TokenService.TokenBodyIndependentOfCredentials | src/ZAuthTokenService.ts:81-94 | the app key and secret never influence the request body |
| TokenService.GetAuthToken | src/ZAuthTokenService.ts:70-98 | if any of the five parameters is falsy it throws before calling `fetch`; otherwise it passes the token request to `fetch` and returns the parsed body unchanged; transport and JSON errors propagate |
| TokenService.GetAuthTokenIgnoresStatus | src/ZAuthTokenService.ts:96-97 | the result does not depend on the HTTP status |
| TokenService.TransportFailureAsymmetry | src/ZAuthTokenService.ts:53-56 | a network failure becomes `false` in `validate` but propagates from `getAuthToken` |

## Left out

- Browser navigation (`window.location.href = …`), `fetch` and `console.error` are side effects. The model returns the URL or request instead, and the transport's answer is an input.
- The values of `ZAUTH_BASE_URL`, `TOKEN_URL` and `VALIDATION_URL_V2` come from the module `"./constants"` (imported at src/ZAuthTokenService.ts:1 and src/ZAuthClient.ts:1), which is not part of this model. They are parameters (`base`, `Endpoints`), so every property holds for any value.
- `VALIDATION_URL` (V1) is imported but never used by the code, so there is no V1 variant.
- A dev-mode `login(true)` appears only in a doc example. The code's `login()` has no argument.
- The module `"./types"` (`GetAuthTokenParams`, imported at src/ZAuthTokenService.ts:2) is not part of this model. Its five fields are taken from the destructuring in `getAuthToken`.
- The internals of `response.json()` and `JSON.stringify` are not modelled. The response body is either unparsable or a `JsonValue`, and the request body is an ordered member list. JSON numbers are integers, since the client never reads them.
- The token response's shape is not interpreted: it is passed through as a `JsonValue`.
- `fetch`'s own header handling is not modelled: it trims surrounding whitespace from header values and rejects a value containing CR, LF, NUL or a character above U+00FF before sending anything. Such a rejection is the `TransportError` outcome, so `Run.request` is what the code passes to `fetch`, not what reaches the wire.
- The browser's URL parsing of the assigned string is not modelled: it strips tabs and newlines, trims surrounding spaces, percent-encodes spaces and non-ASCII characters, and treats the first `#` as the start of a fragment that is never sent. `LoginUrlParses` reads the assigned string, not what reaches the gateway.
- Strings are Dafny `string`s, sequences of Unicode scalar values, whereas a JavaScript string is a sequence of UTF-16 code units. The code only concatenates strings and tests them for emptiness, so no behaviour changes, but `LoginUrlLength` counts scalar values rather than `loginUrl.length`, and a lone surrogate cannot be represented.
- Async/Promise scheduling is left out: each operation awaits one request, so it is modelled as one function of that request's outcome.
- `QueryString.Parse` is a plain split on `&` and `=` without percent-decoding. It is a reference reader for the login URL, not a model of the gateway.
