/** `ProfileImageService` (ImageFeed/Services/ProfileImageService.swift): fetches
    the avatar URLs of a user behind the keyed single-flight guard, keyed by the
    access token, and announces a new avatar with a change notification. */
module ProfileImageService {
  import opened Base
  import opened Foundation
  import opened Http
  import opened SingleFlight

  /** The `profile_image` part of the decoded `GET /users/{username}` body. */
  datatype UserResult = UserResult(small: string, medium: string, large: string)

  datatype ProfileImage = ProfileImage(small: string, medium: string, large: string)

  /** `createProfileImage(from:)`: the three sizes, copied as they are. */
  function CreateProfileImage(u: UserResult): (r: ProfileImage)
    ensures r.small == u.small && r.medium == u.medium && r.large == u.large
  {
    ProfileImage(u.small, u.medium, u.large)
  }

  function UserPath(username: string): string {
    "/users/" + username
  }

  /** `makeUserRequest(token:username:)`; `buildable` says whether `components.url`
      produced a URL. */
  function UserRequest(token: string, username: string, buildable: bool): (r: Option<Request>)
    ensures r.Some? <==> buildable
    ensures r.Some? ==> r.value.httpMethod == "GET" && r.value.url.host == "api.unsplash.com"
                        && r.value.url.path == UserPath(username) && r.value.headers == [BearerHeader(token)]
  {
    if buildable then Some(Request("GET", Components("https", "api.unsplash.com", UserPath(username), []), [BearerHeader(token)]))
    else None
  }

  /** The request path names exactly one user. */
  lemma UserPathInjective(a: string, b: string)
    requires UserPath(a) == UserPath(b)
    ensures a == b
  {
    assert UserPath(a)[7..] == a;
    assert UserPath(b)[7..] == b;
  }

  /** `fetchProfileImageURL(token:username:completion:)` up to the start of the
      transfer. The guard is keyed by the token alone, so a second call with the
      same token and another user name is refused too. */
  function FetchProfileImageURL(g: Guard<string>, token: string, username: string, buildable: bool, id: TaskId): (r: Step<string, ProfileImage>)
    ensures g.lastKey == Some(token) ==> r == Step(g, [Deliver(Failure(Network(InvalidRequest)))])
    ensures g.lastKey != Some(token) ==> r.guard.lastKey == (if buildable then Some(token) else None)
    ensures g.lastKey != Some(token) && buildable ==>
              r.effects == Cancels(g) + [Launch(id, UserRequest(token, username, true).value)]
    ensures g.lastKey != Some(token) && !buildable ==>
              r.effects == Cancels(g) + [Deliver(Failure(Network(InvalidRequest)))]
  {
    Fetch(g, token, UserRequest(token, username, buildable), id, Network(InvalidRequest))
  }

  /** The completion of task `id`, fed by `objectTask(for:completion:)`: on success
      the caller receives the avatar and then one notification carries the same
      value; on failure the error is passed on and nothing is posted. The delivery
      comes before the `defer` that clears the guard; the step returns both at once. */
  function CompleteProfileImage(g: Guard<string>, id: TaskId, result: Result<UserResult, Error>): (r: Step<string, ProfileImage>)
    ensures r.guard == Idle()
    ensures result.Failure? ==> r.effects == [Deliver(Failure(result.error))]
    ensures result.Success? ==> |r.effects| == 2 && r.effects[0].Deliver? && r.effects[0].result.Success?
                                && r.effects[1] == Post(r.effects[0].result.value)
    ensures result.Success? ==> r.effects[0].result.value == CreateProfileImage(result.value)
  {
    var cleared := Finish(g, id);
    match result
    case Success(u) =>
      var image := CreateProfileImage(u);
      Step(cleared, [Deliver(Success(image)), Post(image)])
    case Failure(e) => Step(cleared, [Deliver(Failure(e))])
  }

  /** Posted notifications and successful deliveries are in one-to-one
      correspondence within a completion, and carry the same avatar. */
  lemma PostMatchesDelivery(g: Guard<string>, id: TaskId, result: Result<UserResult, Error>)
    ensures var e := CompleteProfileImage(g, id, result).effects;
      && ((exists i :: 0 <= i < |e| && e[i].Post?) <==> result.Success?)
      && forall i :: 0 <= i < |e| && e[i].Post? ==>
           0 < i && e[i - 1] == Deliver(Success(e[i].value))
  {
    var e := CompleteProfileImage(g, id, result).effects;
    if result.Success? {
      assert e[1].Post?;
    }
  }

  /** From transport to caller: a 2xx body that decodes yields the avatar, one that
      does not yields `decodingError`, and a failed transfer its `NetworkError`. */
  lemma TransportToCaller(g: Guard<string>, id: TaskId, body: Bytes, code: int, decode: Bytes -> Option<UserResult>)
    ensures var r := CompleteProfileImage(g, id, ObjectResult(decode, DataResult(Some(body), Some(HttpResponse(code)), None)));
      && (IsSuccessStatus(code) && decode(body).Some? ==>
            r.effects == [Deliver(Success(CreateProfileImage(decode(body).value))), Post(CreateProfileImage(decode(body).value))])
      && (IsSuccessStatus(code) && decode(body).None? ==> r.effects == [Deliver(Failure(Network(HttpStatusCode(-2))))])
      && (!IsSuccessStatus(code) ==> r.effects == [Deliver(Failure(Network(HttpStatusCode(code))))])
  {
  }
}
