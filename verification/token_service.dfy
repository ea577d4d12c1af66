/** The token service (`ZAuthTokenService`): `validate(token)` and
    `getAuthToken(params)`. `fetch` is replaced by an abstract transport
    outcome given as an input, and each operation returns the request it passes
    to `fetch` (None when it throws before calling `fetch`) together with its
    result. */
module TokenService {
  import opened Wrappers
  import opened Js

  /** The gateway endpoints, whose values are deployment constants. */
  datatype Endpoints = Endpoints(tokenUrl: string, validationUrlV2: string)

  datatype HttpMethod = Get | Post

  /** The arguments handed to `fetch`: ordered headers and an optional JSON
      body. */
  datatype Request = Request(
    verb: HttpMethod,
    url: string,
    headers: seq<(string, string)>,
    body: Option<JsonValue>)

  /** What `response.json()` produces: a value, or a rejection because the
      body is not JSON. */
  datatype Body = Unparsable | Parsed(data: JsonValue)

  /** What `fetch` produces for the request: a rejection (a network failure,
      or a header value `fetch` itself refuses) or a response with a status
      code and a body. */
  datatype Outcome = TransportError | Response(status: int, body: Body)

  /** Errors surfacing from the service. */
  datatype ServiceError =
    | TokenRequired          // validate: the token is missing
    | ParametersRequired     // getAuthToken: a parameter is missing
    | TransportFailure       // fetch rejected
    | InvalidJson            // response.json() rejected

  /** One call: the request passed to `fetch`, if any, and the value returned
      or error thrown. */
  datatype Run<T> = Run(request: Option<Request>, result: Result<T, ServiceError>)

  /** The validation request for `token`. */
  function ValidationRequest(ep: Endpoints, token: string): Request {
    Request(Get, ep.validationUrlV2, [("Authorization", token)], None)
  }

  /** The value the `try` block of `validate` settles on. A non-200 status
      returns before the body is read; a network error, a non-JSON body and
      the TypeError of reading a property of `null` are all caught and turned
      into `false`. */
  function Verdict(outcome: Outcome): bool {
    match outcome
    case TransportError => false
    case Response(status, body) =>
      if status != 200 then false
      else
        match body
        case Unparsable => false
        case Parsed(data) =>
          match Property(data, "success")
          case Failure(_) => false
          case Success(success) => StrictlyTrue(success)
  }

  /** The gateway accepted the token: status 200 and a JSON object whose
      `success` member is the boolean `true`. */
  predicate Accepted(outcome: Outcome) {
    && outcome.Response?
    && outcome.status == 200
    && outcome.body.Parsed?
    && outcome.body.data.JObject?
    && LastValue(outcome.body.data.fields, "success") == Some(JBool(true))
  }

  /** `validate(token)`. A falsy token throws before any request; otherwise a
      GET whose `Authorization` argument is the raw token is passed to `fetch`
      and the call
      always returns a boolean, true exactly when the gateway accepted. */
  function Validate(ep: Endpoints, token: Option<string>, outcome: Outcome): (r: Run<bool>)
    ensures r.request.None? <==> !Truthy(token)
    ensures r.result.Failure? <==> !Truthy(token)
    ensures r.result.Failure? ==> r.result.error == TokenRequired
    ensures r.request.Some? ==>
      && r.request.value.verb == Get
      && r.request.value.url == ep.validationUrlV2
      && r.request.value.headers == [("Authorization", token.value)]
      && r.request.value.body.None?
    ensures r.result == Success(true) <==> Truthy(token) && Accepted(outcome)
  {
    if !Truthy(token) then Run(None, Failure(TokenRequired))
    else Run(Some(ValidationRequest(ep, token.value)), Success(Verdict(outcome)))
  }

  /** The arguments of `getAuthToken`, each possibly missing. */
  datatype TokenParams = TokenParams(
    authAppKey: Option<string>,
    authSecret: Option<string>,
    code: Option<string>,
    codeVerifier: Option<string>,
    redirectUri: Option<string>)

  predicate AllPresent(p: TokenParams) {
    && Truthy(p.authAppKey) && Truthy(p.authSecret) && Truthy(p.code)
    && Truthy(p.codeVerifier) && Truthy(p.redirectUri)
  }

  /** The token-exchange POST: the code, verifier and redirect URI go in the
      JSON body next to the fixed grant type; the credentials go only in the
      headers. */
  function TokenRequest(ep: Endpoints, appKey: string, secret: string,
                        code: string, codeVerifier: string, redirectUri: string): (req: Request)
    ensures req.verb == Post && req.url == ep.tokenUrl
    ensures req.body.Some? && req.body.value.JObject?
    ensures Names(req.body.value.fields) == ["code", "grant_type", "code_verifier", "redirect_uri"]
    ensures LastValue(req.body.value.fields, "code") == Some(JString(code))
    ensures LastValue(req.body.value.fields, "grant_type") == Some(JString("authorization_code"))
    ensures LastValue(req.body.value.fields, "code_verifier") == Some(JString(codeVerifier))
    ensures LastValue(req.body.value.fields, "redirect_uri") == Some(JString(redirectUri))
    ensures req.headers == [("Content-Type", "application/json"), ("x-app-key", appKey), ("x-app-secret", secret)]
  {
    var fields := [
      ("code", JString(code)),
      ("grant_type", JString("authorization_code")),
      ("code_verifier", JString(codeVerifier)),
      ("redirect_uri", JString(redirectUri))];
    assert Names(fields) == ["code", "grant_type", "code_verifier", "redirect_uri"];
    assert fields[..3][..2] == fields[..2] && fields[..2][..1] == fields[..1];
    assert LastValue(fields[..2], "grant_type") == Some(JString("authorization_code"));
    assert LastValue(fields[..1], "code") == Some(JString(code));
    Request(Post, ep.tokenUrl,
      [("Content-Type", "application/json"), ("x-app-key", appKey), ("x-app-secret", secret)],
      Some(JObject(fields)))
  }

  /** `getAuthToken(params)`. A falsy parameter throws before any request;
      otherwise the POST is passed to `fetch` and the parsed body is returned as it is,
      whatever the status. Network and JSON errors are not caught. */
  function GetAuthToken(ep: Endpoints, p: TokenParams, outcome: Outcome): (r: Run<JsonValue>)
    ensures r.request.None? <==> !AllPresent(p)
    ensures !AllPresent(p) ==> r.result == Failure(ParametersRequired)
    ensures AllPresent(p) ==> r.request == Some(TokenRequest(ep, p.authAppKey.value, p.authSecret.value,
                                                             p.code.value, p.codeVerifier.value, p.redirectUri.value))
    ensures AllPresent(p) && outcome.TransportError? ==> r.result == Failure(TransportFailure)
    ensures AllPresent(p) && outcome.Response? && outcome.body.Unparsable? ==> r.result == Failure(InvalidJson)
    ensures r.result.Success? <==> AllPresent(p) && outcome.Response? && outcome.body.Parsed?
    ensures r.result.Success? ==> r.result.value == outcome.body.data
  {
    if !AllPresent(p) then Run(None, Failure(ParametersRequired))
    else
      var req := TokenRequest(ep, p.authAppKey.value, p.authSecret.value,
                              p.code.value, p.codeVerifier.value, p.redirectUri.value);
      match outcome
      case TransportError => Run(Some(req), Failure(TransportFailure))
      case Response(_, Unparsable) => Run(Some(req), Failure(InvalidJson))
      case Response(_, Parsed(data)) => Run(Some(req), Success(data))
  }

  /** A status other than 200 decides `validate` on its own: the body is
      never consulted and the answer is `false`. */
  lemma ValidateIgnoresBodyUnless200(ep: Endpoints, token: Option<string>, status: int, b1: Body, b2: Body)
    requires Truthy(token) && status != 200
    ensures Validate(ep, token, Response(status, b1)) == Validate(ep, token, Response(status, b2))
    ensures Validate(ep, token, Response(status, b1)).result == Success(false)
  {
  }

  /** `validate` fails closed: with a token, a network failure, a body that
      is not JSON, a `null` body, or a `success` member that is anything but
      the boolean `true` (for instance `1` or `"true"`) each yield `false`. */
  lemma ValidateFailsClosed(ep: Endpoints, token: string, status: int, data: JsonValue)
    requires token != ""
    ensures Validate(ep, Some(token), TransportError).result == Success(false)
    ensures Validate(ep, Some(token), Response(status, Unparsable)).result == Success(false)
    ensures Validate(ep, Some(token), Response(status, Parsed(JNull))).result == Success(false)
    ensures data.JObject? && LastValue(data.fields, "success") != Some(JBool(true)) ==>
      Validate(ep, Some(token), Response(status, Parsed(data))).result == Success(false)
  {
  }

  /** `getAuthToken` hands back the parsed body unchanged for every status,
      so two responses that differ only in status give the same result. */
  lemma GetAuthTokenIgnoresStatus(ep: Endpoints, p: TokenParams, s1: int, s2: int, body: Body)
    ensures GetAuthToken(ep, p, Response(s1, body)) == GetAuthToken(ep, p, Response(s2, body))
  {
  }

  /** The credentials never reach the JSON body: changing the app key or the
      secret changes the headers only. */
  lemma TokenBodyIndependentOfCredentials(ep: Endpoints, key1: string, secret1: string,
                                          key2: string, secret2: string,
                                          code: string, codeVerifier: string, redirectUri: string)
    ensures TokenRequest(ep, key1, secret1, code, codeVerifier, redirectUri).body
         == TokenRequest(ep, key2, secret2, code, codeVerifier, redirectUri).body
  {
  }

  /** Where `validate` swallows a network failure into `false`, `getAuthToken`
      lets it propagate. */
  lemma TransportFailureAsymmetry(ep: Endpoints, token: string, p: TokenParams)
    requires token != "" && AllPresent(p)
    ensures Validate(ep, Some(token), TransportError).result == Success(false)
    ensures GetAuthToken(ep, p, TransportError).result == Failure(TransportFailure)
  {
  }
}
