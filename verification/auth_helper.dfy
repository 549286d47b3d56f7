/** `AuthHelper` (ImageFeed/Helpers/AuthHelper.swift): builds the authorization
    request of the OAuth 2.0 authorization-code flow (section 4.1.1 of RFC 6749) and
    reads the code out of the redirect (section 4.1.2). URLs are held already split
    into components; parsing and percent-encoding are foreign. */
module AuthHelper {
  import opened Base
  import opened Foundation

  /** `AuthConfiguration`; the two URLs are given as their components, absent when
      the configured URL is `nil`. */
  datatype AuthConfiguration = AuthConfiguration(
    accessKey: string,
    secretKey: string,
    redirectURI: string,
    accessScope: string,
    baseURL: Option<Components>,
    authURL: Option<Components>)

  /** `AuthConfiguration.standard`, built from `Constants`; the credentials are the
      placeholders the repository ships. */
  const Standard: AuthConfiguration := AuthConfiguration(
    "YOUR_UNSPLASH_ACCESS_KEY_HERE",
    "YOUR_UNSPLASH_SECRET_KEY_HERE",
    "urn:ietf:wg:oauth:2.0:oob",
    "public+read_user+write_likes",
    Some(Components("https", "api.unsplash.com", "", [])),
    Some(Components("https", "unsplash.com", "/oauth/authorize", [])))

  /** The redirect path that carries the code. */
  const NativeRedirectPath: string := "/oauth/authorize/native"

  function AuthItems(c: AuthConfiguration): seq<QueryItem> {
    [ QueryItem("client_id", Some(c.accessKey)),
      QueryItem("redirect_uri", Some(c.redirectURI)),
      QueryItem("response_type", Some("code")),
      QueryItem("scope", Some(c.accessScope)) ]
  }

  /** `authRequest()`: `nil` without an auth URL, or when `components.url` fails
      (`buildable` false); otherwise the auth URL with its query replaced by the four
      authorization parameters. */
  function AuthRequest(c: AuthConfiguration, buildable: bool): (r: Option<Request>)
    ensures r.Some? <==> c.authURL.Some? && buildable
    ensures r.Some? ==> r.value.url.scheme == c.authURL.value.scheme && r.value.url.host == c.authURL.value.host
                        && r.value.url.path == c.authURL.value.path
    ensures r.Some? ==> |r.value.url.queryItems| == 4
    ensures r.Some? ==> forall i :: 0 <= i < 4 ==>
              r.value.url.queryItems[i].name == ["client_id", "redirect_uri", "response_type", "scope"][i]
    ensures r.Some? ==> r.value.url.queryItems[2].value == Some("code")
  {
    match c.authURL
    case None => None
    case Some(u) =>
      if buildable then Some(Request("GET", u.(queryItems := AuthItems(c)), [])) else None
  }

  /** Each parameter of section 4.1.1 of RFC 6749 is found under its name. */
  lemma AuthRequestParameters(c: AuthConfiguration)
    requires c.authURL.Some?
    ensures var items := AuthRequest(c, true).value.url.queryItems;
      && FirstNamed(items, "client_id") == Some(QueryItem("client_id", Some(c.accessKey)))
      && FirstNamed(items, "redirect_uri") == Some(QueryItem("redirect_uri", Some(c.redirectURI)))
      && FirstNamed(items, "response_type") == Some(QueryItem("response_type", Some("code")))
      && FirstNamed(items, "scope") == Some(QueryItem("scope", Some(c.accessScope)))
  {
    var items := AuthItems(c);
    AuthItemsDistinct(c);
    FirstNamedDistinct(items, 0);
    FirstNamedDistinct(items, 1);
    FirstNamedDistinct(items, 2);
    FirstNamedDistinct(items, 3);
  }

  lemma AuthItemsDistinct(c: AuthConfiguration)
    ensures DistinctNames(AuthItems(c))
  {
    var items := AuthItems(c);
    ConsDistinct(items[3], []);
    ConsDistinct(items[2], items[3..]);
    ConsDistinct(items[1], items[2..]);
    ConsDistinct(items[0], items[1..]);
  }

  /** The standard configuration asks unsplash.com for a code with its credentials. */
  lemma StandardAuthRequest()
    ensures AuthRequest(Standard, true).Some?
    ensures AuthRequest(Standard, true).value.url.host == "unsplash.com"
    ensures AuthRequest(Standard, true).value.url.path == "/oauth/authorize"
    ensures AuthRequest(Standard, true).value.url.queryItems == AuthItems(Standard)
  {
  }

  /** `code(from:)`: `components` is what `URLComponents(string:)` made of the URL.
      The code is the value of the first `code` item of a redirect to the native
      path; anything else yields `nil`. */
  function CodeFrom(components: Option<Components>): (r: Option<string>)
    ensures r.Some? ==> components.Some? && components.value.path == NativeRedirectPath
    ensures r.Some? ==> exists i :: 0 <= i < |components.value.queryItems|
                          && components.value.queryItems[i] == QueryItem("code", r)
                          && forall k :: 0 <= k < i ==> components.value.queryItems[k].name != "code"
    ensures components.Some? && components.value.path == NativeRedirectPath
            && FirstNamed(components.value.queryItems, "code").Some? ==>
              r == FirstNamed(components.value.queryItems, "code").value.value
  {
    match components
    case None => None
    case Some(u) =>
      if u.path != NativeRedirectPath then None
      else
        match FirstNamed(u.queryItems, "code")
        case None => None
        case Some(item) => item.value
  }

  /** Any other path, or no `code` item, gives no code. */
  lemma CodeRequiresRedirect(u: Components)
    ensures u.path != NativeRedirectPath ==> CodeFrom(Some(u)) == None
    ensures (forall i :: 0 <= i < |u.queryItems| ==> u.queryItems[i].name != "code") ==> CodeFrom(Some(u)) == None
    ensures CodeFrom(None) == None
  {
  }

  /** Only the first `code` item counts; a later one cannot replace it. */
  lemma FirstCodeWins(scheme: string, host: string, first: Option<string>, later: string, others: seq<QueryItem>)
    requires forall k :: 0 <= k < |others| ==> others[k].name != "code"
    ensures CodeFrom(Some(Components(scheme, host, NativeRedirectPath, others + [QueryItem("code", first), QueryItem("code", Some(later))])))
            == first
  {
    var items := others + [QueryItem("code", first), QueryItem("code", Some(later))];
    FirstNamedAt(items, "code", |others|);
  }

  /** The redirect the web view sees after authorization: its `code` item, once
      percent-decoded, is "test code". */
  lemma TestCodeFromURL()
    ensures CodeFrom(Some(Components("https", "unsplash.com", "/oauth/authorize/native",
                                     [QueryItem("code", Some("test code"))]))) == Some("test code")
  {
  }
}
