/** `OAuth2Service` (ImageFeed/Services/OAuth2Service.swift): exchanges an
    authorization code for an access token (section 4.1.3 of RFC 6749) behind the
    keyed single-flight guard, and stores the token in `OAuth2TokenStorage` before
    handing it to the caller. */
module OAuth2Service {
  import opened Base
  import opened Foundation
  import opened Http
  import opened SingleFlight
  import opened UserDefaults
  import TS = OAuth2TokenStorage

  /** The application's registration: `Constants.accessKey`, `secretKey` and
      `redirectURI`. */
  datatype Credentials = Credentials(accessKey: string, secretKey: string, redirectURI: string)

  function TokenItems(c: Credentials, code: string): seq<QueryItem> {
    [ QueryItem("client_id", Some(c.accessKey)),
      QueryItem("client_secret", Some(c.secretKey)),
      QueryItem("redirect_uri", Some(c.redirectURI)),
      QueryItem("code", Some(code)),
      QueryItem("grant_type", Some("authorization_code")) ]
  }

  /** `makeOAuthTokenRequest(code:)`; `buildable` says whether `components.url`
      produced a URL. */
  function TokenRequest(c: Credentials, code: string, buildable: bool): (r: Option<Request>)
    ensures r.Some? <==> buildable
    ensures r.Some? ==> r.value.httpMethod == "POST" && r.value.headers == []
    ensures r.Some? ==> r.value.url.scheme == "https" && r.value.url.host == "unsplash.com"
                        && r.value.url.path == "/oauth/token"
    ensures r.Some? ==> FirstNamed(r.value.url.queryItems, "code") == Some(QueryItem("code", Some(code)))
    ensures r.Some? ==> FirstNamed(r.value.url.queryItems, "grant_type")
                          == Some(QueryItem("grant_type", Some("authorization_code")))
  {
    var items := TokenItems(c, code);
    TokenItemsDistinct(c, code);
    FirstNamedDistinct(items, 3);
    FirstNamedDistinct(items, 4);
    if buildable then
      Some(Request("POST", Components("https", "unsplash.com", "/oauth/token", items), []))
    else None
  }

  /** The request carries every parameter section 4.1.3 of RFC 6749 asks for, each
      once, plus the client secret. */
  lemma TokenRequestParameters(c: Credentials, code: string)
    ensures var items := TokenRequest(c, code, true).value.url.queryItems;
      && |items| == 5
      && DistinctNames(items)
      && FirstNamed(items, "client_id") == Some(QueryItem("client_id", Some(c.accessKey)))
      && FirstNamed(items, "client_secret") == Some(QueryItem("client_secret", Some(c.secretKey)))
      && FirstNamed(items, "redirect_uri") == Some(QueryItem("redirect_uri", Some(c.redirectURI)))
  {
    var items := TokenItems(c, code);
    TokenItemsDistinct(c, code);
    FirstNamedDistinct(items, 0);
    FirstNamedDistinct(items, 1);
    FirstNamedDistinct(items, 2);
  }

  lemma TokenItemsDistinct(c: Credentials, code: string)
    ensures DistinctNames(TokenItems(c, code))
  {
    var items := TokenItems(c, code);
    ConsDistinct(items[4], []);
    ConsDistinct(items[3], items[4..]);
    ConsDistinct(items[2], items[3..]);
    ConsDistinct(items[1], items[2..]);
    ConsDistinct(items[0], items[1..]);
  }

  /** Different codes give different requests. */
  lemma TokenRequestInjective(c: Credentials, a: string, b: string)
    requires TokenRequest(c, a, true) == TokenRequest(c, b, true)
    ensures a == b
  {
    assert FirstNamed(TokenRequest(c, a, true).value.url.queryItems, "code").value.value == Some(a);
  }

  /** `fetchOAuthToken(_:completion:)` up to the start of the transfer. A repeat of
      the code in flight, and a request that cannot be built, both fail with
      `AuthServiceError.invalidRequest`. */
  function FetchOAuthToken(g: Guard<string>, c: Credentials, code: string, buildable: bool, id: TaskId): (r: Step<string, string>)
    ensures g.lastKey == Some(code) ==> r == Step(g, [Deliver(Failure(AuthInvalidRequest))])
    ensures g.lastKey != Some(code) ==> r.guard.lastKey == (if buildable then Some(code) else None)
    ensures g.lastKey != Some(code) && buildable ==> r.effects == Cancels(g) + [Launch(id, TokenRequest(c, code, true).value)]
    ensures g.lastKey != Some(code) && !buildable ==> r.effects == Cancels(g) + [Deliver(Failure(AuthInvalidRequest))]
  {
    Fetch(g, code, TokenRequest(c, code, buildable), id, AuthInvalidRequest)
  }

  /** The guard, the defaults and the effects after a completion. */
  datatype Completed = Completed(guard: Guard<string>, defaults: Defaults, effects: seq<Effect<string>>)

  /** The completion of task `id`: the raw transport outcome, not `data(for:)`, so the
      HTTP status is never looked at. `decode` reads `access_token` out of the body.
      The caller's callback runs before the `defer` clears the guard; the step
      returns both, so a callback that re-entered the service is not modelled. */
  function CompleteOAuthToken(g: Guard<string>, d: Defaults, id: TaskId, data: Option<Bytes>, error: Option<TransportError>,
                              decode: Bytes -> Option<string>): (r: Completed)
    ensures r.guard == Idle()
    ensures |r.effects| == 1 && r.effects[0].Deliver?
    ensures error.Some? ==> r.effects[0].result == Failure(Transport(error.value)) && r.defaults == d
    ensures error.None? && data.None? ==> r.effects[0].result == Failure(Network(InvalidRequest)) && r.defaults == d
    ensures error.None? && data.Some? && decode(data.value).None? ==>
              r.effects[0].result == Failure(Network(HttpStatusCode(-2))) && r.defaults == d
    ensures r.effects[0].result.Success? <==> error.None? && data.Some? && decode(data.value).Some?
    ensures r.effects[0].result.Success? ==>
              r.effects[0].result.value == decode(data.value).value && TS.Token(r.defaults) == Some(r.effects[0].result.value)
  {
    var cleared := Finish(g, id);
    if error.Some? then Completed(cleared, d, [Deliver(Failure(Transport(error.value)))])
    else if data.None? then Completed(cleared, d, [Deliver(Failure(Network(InvalidRequest)))])
    else
      match decode(data.value)
      case None => Completed(cleared, d, [Deliver(Failure(Network(DecodingError(""))))])
      case Some(token) => Completed(cleared, TS.SetToken(d, Some(token)), [Deliver(Success(token))])
  }

  /** A token the caller receives is already stored: it is what `OAuth2TokenStorage`
      reads during the callback, and nothing but that key changed. */
  lemma TokenStoredBeforeDelivery(g: Guard<string>, d: Defaults, id: TaskId, data: Bytes, decode: Bytes -> Option<string>, other: string)
    requires decode(data).Some?
    requires other != TS.TokenKey
    ensures var r := CompleteOAuthToken(g, d, id, Some(data), None, decode);
      && r.effects == [Deliver(Success(decode(data).value))]
      && TS.Token(r.defaults) == decode(data)
      && StringFor(r.defaults, other) == StringFor(d, other)
  {
    OtherKeysUntouched(d, TS.TokenKey, Some(Text(decode(data).value)), other);
  }

  /** A failed exchange leaves whatever token was stored before. */
  lemma FailureKeepsToken(g: Guard<string>, d: Defaults, id: TaskId, data: Option<Bytes>, error: Option<TransportError>,
                          decode: Bytes -> Option<string>)
    requires !(error.None? && data.Some? && decode(data.value).Some?)
    ensures TS.Token(CompleteOAuthToken(g, d, id, data, error, decode).defaults) == TS.Token(d)
  {
  }

  /** Scenario: a repeated code fails at once; a new code cancels the running
      exchange and starts its own. */
  lemma OAuthScenario(c: Credentials)
    ensures var s1 := FetchOAuthToken(Idle(), c, "a", true, 1);
      var s2 := FetchOAuthToken(s1.guard, c, "a", true, 2);
      var s3 := FetchOAuthToken(s2.guard, c, "b", true, 3);
      && s1.effects == [Launch(1, TokenRequest(c, "a", true).value)]
      && s2.effects == [Deliver(Failure(AuthInvalidRequest))]
      && s3.effects == [Cancel(1), Launch(3, TokenRequest(c, "b", true).value)]
      && s3.guard == Guard(Some(3), Some("b"))
  {
    var g1 := Guard(Some(1), Some("a"));
    assert FetchOAuthToken(Idle(), c, "a", true, 1) == Step(g1, [Launch(1, TokenRequest(c, "a", true).value)]);
    assert FetchOAuthToken(g1, c, "a", true, 2) == Step(g1, [Deliver(Failure(AuthInvalidRequest))]);
  }

  /** Scenario, continued: the exchange's completion stores and delivers the token
      and reopens the guard, so the same code may be exchanged again. */
  lemma OAuthScenarioCompletes(c: Credentials, d: Defaults, body: Bytes, decode: Bytes -> Option<string>)
    requires decode(body) == Some("token-1")
    ensures var done := CompleteOAuthToken(Guard(Some(3), Some("b")), d, 3, Some(body), None, decode);
      && done.effects == [Deliver(Success("token-1"))]
      && TS.Token(done.defaults) == Some("token-1")
      && FetchOAuthToken(done.guard, c, "b", true, 4).effects == [Launch(4, TokenRequest(c, "b", true).value)]
  {
  }
}
