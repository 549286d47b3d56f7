/** `ProfileService` (ImageFeed/Services/ProfileService.swift): fetches the signed-in
    user's profile behind the keyed single-flight guard, keyed by the access token,
    and turns the decoded `ProfileResult` into a `Profile`. */
module ProfileService {
  import opened Base
  import opened Foundation
  import opened Http
  import opened SingleFlight

  /** The decoded body of `GET /me`. */
  datatype ProfileResult = ProfileResult(username: string, firstName: Option<string>, lastName: Option<string>, bio: Option<string>)

  datatype Profile = Profile(username: string, name: string, loginName: string, bio: Option<string>)

  /** Membership in `CharacterSet.whitespacesAndNewlines`: the Unicode space
      separators, line and paragraph separators, tab, U+000A to U+000D and U+0085. */
  predicate IsWhitespace(c: char) {
    || c == '\t' || c == '\n' || c == '\U{000B}' || c == '\U{000C}' || c == '\r'
    || c == ' ' || c == '\U{0085}' || c == '\U{00A0}' || c == '\U{1680}'
    || ('\U{2000}' <= c <= '\U{200A}')
    || c == '\U{2028}' || c == '\U{2029}' || c == '\U{202F}' || c == '\U{205F}' || c == '\U{3000}'
  }

  /** The trimming below is stated for any character class `ws`; the service
      trims with `IsWhitespace`. */
  type CharClass = char -> bool

  /** No character of the class at either end. */
  predicate Clean(ws: CharClass, s: string) {
    s == [] || (!ws(s[0]) && !ws(s[|s| - 1]))
  }

  /** The first index at or after `i` holding a character outside the class. */
  function LeadingEnd(ws: CharClass, s: string, i: nat): (n: nat)
    requires i <= |s|
    ensures i <= n <= |s|
    ensures forall k :: i <= k < n ==> ws(s[k])
    ensures n < |s| ==> !ws(s[n])
    decreases |s| - i
  {
    if i < |s| && ws(s[i]) then LeadingEnd(ws, s, i + 1) else i
  }

  /** The end of `s[lo..j]` once trailing characters of the class are dropped. */
  function TrailingEnd(ws: CharClass, s: string, lo: nat, j: nat): (n: nat)
    requires lo <= j <= |s|
    ensures lo <= n <= j
    ensures forall k :: n <= k < j ==> ws(s[k])
    ensures n > lo ==> !ws(s[n - 1])
  {
    if j > lo && ws(s[j - 1]) then TrailingEnd(ws, s, lo, j - 1) else j
  }

  /** `trimmingCharacters(in:)`: the middle slice left once every leading and
      trailing character of the class is dropped. */
  function Trim(ws: CharClass, s: string): (r: string)
    ensures Clean(ws, r)
    ensures exists i, j :: 0 <= i <= j <= |s| && r == s[i..j]
                           && (forall k :: 0 <= k < i ==> ws(s[k]))
                           && (forall k :: j <= k < |s| ==> ws(s[k]))
  {
    var i := LeadingEnd(ws, s, 0);
    var j := TrailingEnd(ws, s, i, |s|);
    assert i < j ==> s[i..j][0] == s[i] && s[i..j][j - i - 1] == s[j - 1];
    s[i..j]
  }

  /** Trimming a clean string changes nothing. */
  lemma TrimClean(ws: CharClass, s: string)
    requires Clean(ws, s)
    ensures Trim(ws, s) == s
  {
    assert LeadingEnd(ws, s, 0) == 0;
    assert TrailingEnd(ws, s, 0, |s|) == |s|;
    assert s[0..|s|] == s;
  }

  /** Trimming twice is trimming once. */
  lemma TrimIdempotent(ws: CharClass, s: string)
    ensures Trim(ws, Trim(ws, s)) == Trim(ws, s)
  {
    TrimClean(ws, Trim(ws, s));
  }

  /** A string made only of the class trims to nothing. */
  lemma TrimBlank(ws: CharClass, s: string)
    requires forall k :: 0 <= k < |s| ==> ws(s[k])
    ensures Trim(ws, s) == ""
  {
    assert LeadingEnd(ws, s, 0) == |s|;
  }

  /** `createProfile(from:)`: the name is the two parts joined by a space and
      trimmed of whitespace and newlines. */
  function CreateProfile(p: ProfileResult): (r: Profile)
    ensures r.username == p.username && r.bio == p.bio
    ensures |r.loginName| == |p.username| + 1 && r.loginName[0] == '@' && r.loginName[1..] == p.username
    ensures r.name == Trim(IsWhitespace, p.firstName.GetOr("") + " " + p.lastName.GetOr(""))
    ensures Clean(IsWhitespace, r.name)
  {
    Profile(p.username, Trim(IsWhitespace, p.firstName.GetOr("") + " " + p.lastName.GetOr("")), "@" + p.username, p.bio)
  }

  /** Both parts present and clean: "first last". */
  lemma NameBothParts(username: string, first: string, last: string, bio: Option<string>)
    requires Clean(IsWhitespace, first) && Clean(IsWhitespace, last) && first != "" && last != ""
    ensures CreateProfile(ProfileResult(username, Some(first), Some(last), bio)).name == first + " " + last
  {
    TrimClean(IsWhitespace, first + " " + last);
  }

  /** Only the first name: the trailing separator is trimmed away. */
  lemma NameFirstOnly(username: string, first: string, bio: Option<string>)
    requires Clean(IsWhitespace, first) && first != ""
    ensures CreateProfile(ProfileResult(username, Some(first), None, bio)).name == first
  {
    var a := first + " ";
    assert first + " " + "" == a;
    assert a[0] == first[0] && a[|a| - 2] == first[|first| - 1];
    assert LeadingEnd(IsWhitespace, a, 0) == 0;
    assert TrailingEnd(IsWhitespace, a, 0, |a| - 1) == |a| - 1;
    assert TrailingEnd(IsWhitespace, a, 0, |a|) == |a| - 1;
    assert a[0..|a| - 1] == first;
  }

  /** Only the last name: the leading separator is trimmed away. */
  lemma NameLastOnly(username: string, last: string, bio: Option<string>)
    requires Clean(IsWhitespace, last) && last != ""
    ensures CreateProfile(ProfileResult(username, None, Some(last), bio)).name == last
  {
    var b := " " + last;
    assert "" + " " + last == b;
    assert b[1] == last[0] && b[|b| - 1] == last[|last| - 1];
    assert LeadingEnd(IsWhitespace, b, 1) == 1;
    assert LeadingEnd(IsWhitespace, b, 0) == 1;
    assert TrailingEnd(IsWhitespace, b, 1, |b|) == |b|;
    assert b[1..|b|] == last;
  }

  /** Neither part: the empty name. */
  lemma NameNoParts(username: string, bio: Option<string>)
    ensures CreateProfile(ProfileResult(username, None, None, bio)).name == ""
  {
    TrimBlank(IsWhitespace, "" + " " + "");
  }

  /** The login name always reveals the user name. */
  lemma LoginNameInjective(a: ProfileResult, b: ProfileResult)
    requires CreateProfile(a).loginName == CreateProfile(b).loginName
    ensures a.username == b.username
  {
    assert CreateProfile(a).loginName[1..] == a.username;
  }

  /** `makeProfileRequest(token:)`; `buildable` says whether `components.url`
      produced a URL. */
  function ProfileRequest(token: string, buildable: bool): (r: Option<Request>)
    ensures r.Some? <==> buildable
    ensures r.Some? ==> r.value.httpMethod == "GET" && r.value.url.host == "api.unsplash.com"
                        && r.value.url.path == "/me" && r.value.headers == [BearerHeader(token)]
  {
    if buildable then Some(Request("GET", Components("https", "api.unsplash.com", "/me", []), [BearerHeader(token)]))
    else None
  }

  /** `fetchProfile(_:completion:)` up to the start of the transfer; a repeat of the
      token in flight, and a request that cannot be built, fail with
      `NetworkError.invalidRequest`. */
  function FetchProfile(g: Guard<string>, token: string, buildable: bool, id: TaskId): (r: Step<string, Profile>)
    ensures g.lastKey == Some(token) ==> r == Step(g, [Deliver(Failure(Network(InvalidRequest)))])
    ensures g.lastKey != Some(token) ==> r.guard.lastKey == (if buildable then Some(token) else None)
    ensures g.lastKey != Some(token) && buildable ==>
              r.effects == Cancels(g) + [Launch(id, ProfileRequest(token, true).value)]
    ensures g.lastKey != Some(token) && !buildable ==>
              r.effects == Cancels(g) + [Deliver(Failure(Network(InvalidRequest)))]
  {
    Fetch(g, token, ProfileRequest(token, buildable), id, Network(InvalidRequest))
  }

  /** The completion of task `id`, fed by `data(for:completion:)`: a decoded body
      becomes a profile, a body that does not decode gives `decodingError`, and a
      transfer failure reaches the caller unchanged. The delivery comes before the
      `defer` that clears the guard; the step returns both at once. */
  function CompleteProfile(g: Guard<string>, id: TaskId, raw: Result<Bytes, NetworkError>,
                           decode: Bytes -> Option<ProfileResult>): (r: Step<string, Profile>)
    ensures r.guard == Idle()
    ensures |r.effects| == 1 && r.effects[0].Deliver?
    ensures r.effects[0].result.Success? <==> raw.Success? && decode(raw.value).Some?
    ensures r.effects[0].result.Success? ==> r.effects[0].result.value == CreateProfile(decode(raw.value).value)
    ensures raw.Success? && decode(raw.value).None? ==> r.effects[0].result == Failure(Network(HttpStatusCode(-2)))
    ensures raw.Failure? ==> r.effects[0].result == Failure(Network(raw.error))
  {
    var delivered :=
      match raw
      case Failure(e) => Failure(Network(e))
      case Success(body) =>
        match decode(body)
        case Some(p) => Success(CreateProfile(p))
        case None => Failure(Network(DecodingError("")));
    Step(Finish(g, id), [Deliver(delivered)])
  }

  /** The HTTP status reaches the caller: a 401 answer is reported as status 401. */
  lemma UnauthorizedReported(g: Guard<string>, id: TaskId, body: Bytes, decode: Bytes -> Option<ProfileResult>)
    ensures CompleteProfile(g, id, DataResult(Some(body), Some(HttpResponse(401)), None), decode).effects
            == [Deliver(Failure(Network(HttpStatusCode(401))))]
  {
  }
}
