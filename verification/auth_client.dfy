/** The redirector (`ZAuthClient`): a fail-fast constructor over the five
    configuration fields, and `login()`, which builds the gateway's
    authorization URL by plain concatenation. The navigation itself is left
    out; `LoginUrl` is the string `login()` assigns to `window.location.href`. */
module AuthClient {
  import opened Wrappers
  import opened Js
  import QueryString

  /** The constructor's argument object, each field possibly missing. */
  datatype ClientOptions = ClientOptions(
    authKey: Option<string>,
    redirectUrl: Option<string>,
    codeChallenge: Option<string>,
    codeChallengeMethod: Option<string>,
    state: Option<string>)

  /** A constructed client: the three required fields are known to be present. */
  datatype Client = Client(
    authKey: string,
    redirectUrl: string,
    codeChallenge: string,
    codeChallengeMethod: Option<string>,
    state: Option<string>)
  {
    /** What a successful construction guarantees about the stored fields. */
    predicate Valid() {
      authKey != "" && redirectUrl != "" && codeChallenge != ""
    }

    /** The options object that describes this client. */
    function Options(): ClientOptions {
      ClientOptions(Some(authKey), Some(redirectUrl), Some(codeChallenge), codeChallengeMethod, state)
    }
  }

  /** The error thrown for missing required parameters. */
  datatype ClientError = MissingRequiredParameters

  /** `new ZAuthClient(options)`: throws unless `authKey`, `redirectUrl` and
      `codeChallenge` are all truthy; otherwise stores every field as given. */
  function NewClient(o: ClientOptions): (r: Result<Client, ClientError>)
    ensures r.Failure? <==> !Truthy(o.authKey) || !Truthy(o.redirectUrl) || !Truthy(o.codeChallenge)
    ensures r.Failure? ==> r.error == MissingRequiredParameters
    ensures r.Success? ==> r.value.Valid() && r.value.Options() == o
  {
    if !Truthy(o.authKey) || !Truthy(o.redirectUrl) || !Truthy(o.codeChallenge) then
      Failure(MissingRequiredParameters)
    else
      Success(Client(o.authKey.value, o.redirectUrl.value, o.codeChallenge.value,
                     o.codeChallengeMethod, o.state))
  }

  /** The part of the login URL that is always there, in its fixed order. */
  function MandatoryPrefix(base: string, c: Client): string {
    base + "?key=" + c.authKey + "&redir=" + c.redirectUrl + "&code_challenge=" + c.codeChallenge
  }

  /** `&name=value` for a truthy value, nothing otherwise. */
  function OptionalQuery(name: string, value: Option<string>): string {
    if Truthy(value) then "&" + name + "=" + value.value else ""
  }

  /** `login()`: the string assigned to `window.location.href`, for gateway
      base URL `base`. The optional segments are added only for truthy
      values; nothing is escaped. */
  function LoginUrl(base: string, c: Client): (url: string)
    ensures MandatoryPrefix(base, c) <= url
  {
    var stateQuery := OptionalQuery("state", c.state);
    var methodQuery := OptionalQuery("challenge_method", c.codeChallengeMethod);
    base + "?key=" + c.authKey + "&redir=" + c.redirectUrl + "&code_challenge=" + c.codeChallenge
      + methodQuery + stateQuery
  }

  /** The three parameters every login URL carries, in their fixed order. */
  function RequiredParams(c: Client): seq<QueryString.Param> {
    [("key", c.authKey), ("redir", c.redirectUrl), ("code_challenge", c.codeChallenge)]
  }

  /** The parameter `name=value` for a truthy value, none otherwise. */
  function OptionalParam(name: string, value: Option<string>): seq<QueryString.Param> {
    if Truthy(value) then [(name, value.value)] else []
  }

  /** The parameters the login URL is meant to carry, as an ordered list:
      the required three, then each optional one whose value is truthy. */
  function LoginParams(c: Client): seq<QueryString.Param> {
    RequiredParams(c)
    + OptionalParam("challenge_method", c.codeChallengeMethod)
    + OptionalParam("state", c.state)
  }

  /** The login parameters start with `key`, `redir`, `code_challenge`;
      `challenge_method` and `state` are present exactly when truthy, the
      challenge method right after the required three and the state last. */
  lemma LoginParamsShape(c: Client)
    ensures var ps := LoginParams(c);
      && |ps| >= 3
      && ps[..3] == [("key", c.authKey), ("redir", c.redirectUrl), ("code_challenge", c.codeChallenge)]
      && ("challenge_method" in Names(ps) <==> Truthy(c.codeChallengeMethod))
      && ("state" in Names(ps) <==> Truthy(c.state))
      && (Truthy(c.codeChallengeMethod) ==> ps[3] == ("challenge_method", c.codeChallengeMethod.value))
      && (Truthy(c.state) ==> ps[|ps| - 1] == ("state", c.state.value))
  {
    var ps := LoginParams(c);
    var names :=
      ["key", "redir", "code_challenge"]
      + (if Truthy(c.codeChallengeMethod) then ["challenge_method"] else [])
      + (if Truthy(c.state) then ["state"] else []);
    assert |Names(ps)| == |names|;
    assert forall i :: 0 <= i < |names| ==> Names(ps)[i] == names[i];
    assert Names(ps) == names;
  }

  /** `suffix` is the end of `s`. */
  predicate EndsWith(s: string, suffix: string) {
    |suffix| <= |s| && s[|s| - |suffix|..] == suffix
  }

  /** No configured value contains `&`, so the query string can be read back. */
  predicate AmpersandFree(c: Client) {
    && '&' !in c.authKey && '&' !in c.redirectUrl && '&' !in c.codeChallenge
    && (c.codeChallengeMethod.Some? ==> '&' !in c.codeChallengeMethod.value)
    && (c.state.Some? ==> '&' !in c.state.value)
  }

  /** Construction accepts every valid client's own options and rebuilds
      exactly that client: nothing is defaulted or normalised. */
  lemma NewClientRoundTrip(c: Client)
    requires c.Valid()
    ensures NewClient(c.Options()) == Success(c)
  {
  }

  /** The fixed literals of the mandatory prefix, each split into separator,
      name and `=`. */
  lemma PrefixLiterals()
    ensures "?key=" == "?" + "key" + "="
    ensures "&redir=" == "&" + "redir" + "="
    ensures "&code_challenge=" == "&" + "code_challenge" + "="
  {
  }

  /** The required parameters joined, one `name=value` segment each. */
  lemma JoinRequiredParams(c: Client)
    ensures QueryString.Join(RequiredParams(c))
      == QueryString.Segment(("key", c.authKey)) + "&" + QueryString.Segment(("redir", c.redirectUrl))
         + "&" + QueryString.Segment(("code_challenge", c.codeChallenge))
  {
    var required := RequiredParams(c);
    assert QueryString.Join(required[..1]) == QueryString.Segment(required[0]);
    QueryString.JoinAppend(required[..1], required[1]);
    assert required[..1] + [required[1]] == required[..2];
    QueryString.JoinAppend(required[..2], required[2]);
    assert required[..2] + [required[2]] == required;
  }

  /** The mandatory prefix is the base, `?` and the required parameters. */
  lemma PrefixIsRequiredQuery(base: string, c: Client)
    ensures MandatoryPrefix(base, c) == base + "?" + QueryString.Join(RequiredParams(c))
  {
    JoinRequiredParams(c);
    PrefixLiterals();
  }

  /** Appending an optional parameter appends its optional query segment. */
  lemma JoinOptional(ps: seq<QueryString.Param>, name: string, value: Option<string>)
    requires |ps| >= 1
    ensures QueryString.Join(ps + OptionalParam(name, value)) == QueryString.Join(ps) + OptionalQuery(name, value)
  {
    if Truthy(value) {
      QueryString.JoinAppend(ps, (name, value.value));
    } else {
      assert ps + OptionalParam(name, value) == ps;
    }
  }

  /** The login URL is the base, `?`, and the login parameters joined in
      order as `name=value` pairs separated by `&`. */
  lemma LoginUrlIsQuery(base: string, c: Client)
    ensures LoginUrl(base, c) == base + "?" + QueryString.Join(LoginParams(c))
  {
    var required := RequiredParams(c);
    var withMethod := required + OptionalParam("challenge_method", c.codeChallengeMethod);
    PrefixIsRequiredQuery(base, c);
    JoinOptional(required, "challenge_method", c.codeChallengeMethod);
    JoinOptional(withMethod, "state", c.state);
  }

  /** A receiver that reads the query after `base?` recovers exactly the
      login parameters, in order, as long as no value contains `&`. */
  lemma LoginUrlParses(base: string, c: Client)
    requires AmpersandFree(c)
    ensures |base| < |LoginUrl(base, c)|
    ensures QueryString.Parse(LoginUrl(base, c)[|base| + 1..]) == LoginParams(c)
  {
    LoginUrlIsQuery(base, c);
    var url := LoginUrl(base, c);
    var q := QueryString.Join(LoginParams(c));
    assert url[|base| + 1..] == q;
    QueryString.ParseJoin(LoginParams(c));
  }

  /** Because nothing is escaped, a redirect URL with an `&` of its own
      (`http://x/cb?a=1&b=2`, say) splits the login query: the receiver reads
      a redirect URL cut short at the `&` and an extra parameter made of the
      rest, four parameters where three were meant. */
  lemma RedirectWithAmpersandIsMisread(base: string, c: Client, front: string, back: string)
    requires c.redirectUrl == front + "&" + back
    requires '&' !in c.authKey && '&' !in c.codeChallenge && '&' !in front && '&' !in back
    requires !Truthy(c.codeChallengeMethod) && !Truthy(c.state)
    ensures |LoginParams(c)| == 3
    ensures |base| < |LoginUrl(base, c)|
    ensures QueryString.Parse(LoginUrl(base, c)[|base| + 1..])
      == [("key", c.authKey), ("redir", front), QueryString.SplitPair(back), ("code_challenge", c.codeChallenge)]
  {
    SplitRedirectQuery(base, c, front, back);
    QueryString.ParseAroundLoosePiece(("key", c.authKey), ("redir", front), back, ("code_challenge", c.codeChallenge));
  }

  /** The query of a three-parameter login URL whose redirect URL is
      `front&back`, written as the four `&`-separated pieces it consists of. */
  lemma SplitRedirectQuery(base: string, c: Client, front: string, back: string)
    requires c.redirectUrl == front + "&" + back
    requires !Truthy(c.codeChallengeMethod) && !Truthy(c.state)
    ensures |LoginParams(c)| == 3
    ensures |base| < |LoginUrl(base, c)|
    ensures LoginUrl(base, c)[|base| + 1..] == QueryString.JoinWith(
      [QueryString.Segment(("key", c.authKey)), QueryString.Segment(("redir", front)), back,
       QueryString.Segment(("code_challenge", c.codeChallenge))], '&')
  {
    var s0 := QueryString.Segment(("key", c.authKey));
    var redir := QueryString.Segment(("redir", front));
    var s2 := QueryString.Segment(("code_challenge", c.codeChallenge));
    assert LoginUrl(base, c) == base + "?" + (s0 + "&" + (redir + "&" + back) + "&" + s2) by {
      assert LoginParams(c) == RequiredParams(c);
      LoginUrlIsQuery(base, c);
      JoinRequiredParams(c);
    }
    QueryString.JoinWithFour(s0, redir, back, s2, '&');
  }

  /** Without a truthy challenge method or state the URL is exactly the
      mandatory prefix: no default challenge method is filled in. */
  lemma LoginUrlMinimal(base: string, c: Client)
    requires !Truthy(c.codeChallengeMethod) && !Truthy(c.state)
    ensures LoginUrl(base, c) == MandatoryPrefix(base, c)
  {
  }

  /** A truthy state is the final segment, and a truthy challenge method sits
      immediately before it; a lone challenge method is the final segment. */
  lemma LoginUrlTail(base: string, c: Client)
    ensures Truthy(c.state) && Truthy(c.codeChallengeMethod) ==>
      LoginUrl(base, c) == MandatoryPrefix(base, c)
        + "&challenge_method=" + c.codeChallengeMethod.value + "&state=" + c.state.value
    ensures Truthy(c.state) ==> EndsWith(LoginUrl(base, c), "&state=" + c.state.value)
    ensures Truthy(c.codeChallengeMethod) && !Truthy(c.state) ==>
      EndsWith(LoginUrl(base, c), "&challenge_method=" + c.codeChallengeMethod.value)
  {
    var methodQuery := OptionalQuery("challenge_method", c.codeChallengeMethod);
    var stateQuery := OptionalQuery("state", c.state);
    var head := MandatoryPrefix(base, c) + methodQuery;
    assert LoginUrl(base, c) == head + stateQuery;
    if Truthy(c.state) {
      assert stateQuery == "&state=" + c.state.value;
    } else if Truthy(c.codeChallengeMethod) {
      assert LoginUrl(base, c) == MandatoryPrefix(base, c) + methodQuery;
      assert methodQuery == "&challenge_method=" + c.codeChallengeMethod.value;
    }
  }

  /** Values go in verbatim: the URL is as long as the fixed literals plus the
      values, `?key=`, `&redir=`, `&code_challenge=`, `&challenge_method=` and
      `&state=` being 5, 7, 16, 18 and 7 characters. */
  lemma LoginUrlLength(base: string, c: Client)
    ensures |LoginUrl(base, c)| ==
      |base| + 28 + |c.authKey| + |c.redirectUrl| + |c.codeChallenge|
      + (if Truthy(c.codeChallengeMethod) then 18 + |c.codeChallengeMethod.value| else 0)
      + (if Truthy(c.state) then 7 + |c.state.value| else 0)
  {
  }
}
