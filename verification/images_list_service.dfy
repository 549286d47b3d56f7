/** `ImagesListService` (ImageFeed/Services/ImagesListService.swift): pages through
    the photo feed one request at a time, converts each decoded `PhotoResult` into a
    `Photo`, keeps a bounded history of request durations, and sends like and
    unlike requests. Notifications are returned as a list of posted events. */
module ImagesListService {
  import opened Base
  import opened Foundation
  import opened Http
  import opened Photos
  import opened Seqs
  import opened Decimal
  import PE = PhotoEntities

  type TaskId = nat

  /** `requestHistoryLimit`. */
  const RequestHistoryLimit: nat := 5

  /** The initial `itemsPerPage`. */
  const InitialItemsPerPage: nat := 10

  datatype PhotoURLsResult = PhotoURLsResult(raw: string, full: string, regular: string, small: string, thumb: string)

  /** One decoded element of the `GET /photos` answer. */
  datatype PhotoResult = PhotoResult(
    id: string,
    createdAt: string,
    width: int,
    height: int,
    color: string,
    likes: int,
    likedByUser: Option<bool>,
    description: Option<string>,
    urls: PhotoURLsResult)

  /** `Photo.dateFormatter.date(from:)`, foreign: a date in whole seconds or `nil`. */
  type DateParser = string -> Option<int>

  /** `createPhoto(from:)`: `nil` when the date or one of the three used URLs does not
      parse; otherwise the photo, with a missing like flag read as false and a
      missing description as the empty string. */
  function CreatePhoto(syntax: UrlSyntax, parseDate: DateParser, r: PhotoResult): (p: Option<Photo>)
    ensures p.Some? <==> parseDate(r.createdAt).Some? && syntax(r.urls.small) && syntax(r.urls.regular) && syntax(r.urls.full)
    ensures p.Some? ==> p.value.id == r.id && p.value.createdAt == parseDate(r.createdAt)
    ensures p.Some? ==> p.value.size == Size(r.width, r.height) && p.value.color == r.color
    ensures p.Some? ==> p.value.isLiked == r.likedByUser.GetOr(false) && p.value.description == r.description.GetOr("")
    ensures p.Some? ==> p.value.urls == PhotoURLs(URL(r.urls.small), URL(r.urls.regular), URL(r.urls.full))
  {
    match parseDate(r.createdAt)
    case None => None
    case Some(date) =>
      match (ParseURL(syntax, r.urls.small), ParseURL(syntax, r.urls.regular), ParseURL(syntax, r.urls.full))
      case (Some(small), Some(regular), Some(full)) =>
        Some(Photo(r.id, Some(date), Size(r.width, r.height), r.color,
                   r.likedByUser.GetOr(false), r.description.GetOr(""), PhotoURLs(small, regular, full)))
      case _ => None
  }

  function Creator(syntax: UrlSyntax, parseDate: DateParser): PhotoResult -> Option<Photo> {
    (r: PhotoResult) => CreatePhoto(syntax, parseDate, r)
  }

  /** A photo made from the feed survives the Core Data cache unchanged: storing it
      and converting the record back gives it again. */
  lemma FeedPhotoCaches(syntax: UrlSyntax, parseDate: DateParser, r: PhotoResult, position: int, now: int)
    requires CreatePhoto(syntax, parseDate, r).Some?
    requires PE.FitsInt32(r.width) && PE.FitsInt32(r.height)
    ensures var p := CreatePhoto(syntax, parseDate, r).value;
      PE.Storable(p) && PE.ToPhoto(syntax, PE.Create(p, position, now)) == Some(p)
  {
    var p := CreatePhoto(syntax, parseDate, r).value;
    PE.RoundTrip(syntax, PE.Blank, p, position, now);
  }

  /** A page keeps the order of the answer and drops exactly the results that do not
      convert; when every result converts, the i-th photo comes from the i-th result. */
  lemma NewPhotosSpec(syntax: UrlSyntax, parseDate: DateParser, results: seq<PhotoResult>)
    ensures var photos := CompactMap(Creator(syntax, parseDate), results);
      && |photos| <= |results|
      && (forall p :: p in photos <==> exists r :: r in results && CreatePhoto(syntax, parseDate, r) == Some(p))
  {
  }

  lemma NewPhotosAllConvert(syntax: UrlSyntax, parseDate: DateParser, results: seq<PhotoResult>)
    requires forall i :: 0 <= i < |results| ==> CreatePhoto(syntax, parseDate, results[i]).Some?
    ensures var photos := CompactMap(Creator(syntax, parseDate), results);
      && |photos| == |results|
      && forall i :: 0 <= i < |results| ==> CreatePhoto(syntax, parseDate, results[i]) == Some(photos[i])
  {
    CompactMapTotal(Creator(syntax, parseDate), results);
  }

  // ---------------------------------------------------------------------------
  // Request-duration history

  /** The window step of `adaptRequestSize`: with the history full, the oldest entry
      goes before the new one is appended. */
  function Remember(history: seq<int>, duration: int): (r: seq<int>)
    ensures |r| == if |history| >= RequestHistoryLimit then |history| else |history| + 1
    ensures r[|r| - 1] == duration
    ensures forall k :: 0 <= k < |r| - 1 ==> r[k] == history[|history| - |r| + 1 + k]
  {
    if |history| >= RequestHistoryLimit then history[1..] + [duration] else history + [duration]
  }

  /** The history after recording `durations`, oldest first, from an empty start. */
  function History(durations: seq<int>): seq<int> {
    if durations == [] then []
    else Remember(History(durations[..|durations| - 1]), durations[|durations| - 1])
  }

  /** The last `RequestHistoryLimit` entries. */
  function LastFive(durations: seq<int>): (r: seq<int>)
    ensures |r| == if |durations| <= RequestHistoryLimit then |durations| else RequestHistoryLimit
    ensures forall k :: 0 <= k < |r| ==> r[k] == durations[|durations| - |r| + k]
  {
    if |durations| <= RequestHistoryLimit then durations else durations[|durations| - RequestHistoryLimit..]
  }

  /** Remembering one more duration moves the window by one. */
  lemma WindowStep(init: seq<int>, d: int)
    ensures Remember(LastFive(init), d) == LastFive(init + [d])
  {
    var h := LastFive(init);
    var r := Remember(h, d);
    var ds := init + [d];
    var w := LastFive(ds);
    assert |r| == |w|;
    forall k | 0 <= k < |r| ensures r[k] == w[k] {
      if k < |r| - 1 {
        assert r[k] == h[|h| - |r| + 1 + k];
        assert h[|h| - |r| + 1 + k] == init[|init| - |r| + 1 + k];
        assert ds[|ds| - |w| + k] == init[|init| - |r| + 1 + k];
      }
    }
  }

  /** The history holds exactly the five most recent durations, oldest first. */
  lemma {:induction false} HistoryIsLastFive(durations: seq<int>)
    ensures History(durations) == LastFive(durations)
  {
    if durations != [] {
      var n := |durations|;
      var init := durations[..n - 1];
      HistoryIsLastFive(init);
      WindowStep(init, durations[n - 1]);
      assert init + [durations[n - 1]] == durations;
    }
  }

  // ---------------------------------------------------------------------------
  // Paging

  /** A running page request: its task, the page it asks for and when it started
      (all captured by the completion closure). */
  datatype InFlight = InFlight(id: TaskId, page: nat, startedAt: int)

  /** The service's state. `token` is read from `OAuth2Storage` once, at creation. */
  datatype Feed = Feed(
    task: Option<InFlight>,
    lastLoadedPage: nat,
    token: Option<string>,
    itemsPerPage: nat,
    durations: seq<int>)

  function Init(storedToken: Option<string>): Feed {
    Feed(None, 0, storedToken, InitialItemsPerPage, [])
  }

  /** The notifications the service posts. */
  datatype Event = DidChange(newPhotos: seq<Photo>) | DidChangeLikeStatus(photo: Photo)

  /** The state after an event, the request started (if any) and the posts. */
  datatype Step = Step(feed: Feed, request: Option<Request>, posts: seq<Event>)

  /** `makePhotoRequest(token:page:perPage:)`; `buildable` says whether
      `components.url` produced a URL. */
  function PhotosRequest(token: string, page: nat, perPage: nat, buildable: bool): (r: Option<Request>)
    ensures r.Some? <==> buildable
    ensures r.Some? ==> r.value.httpMethod == "GET" && r.value.url.host == "api.unsplash.com"
                        && r.value.url.path == "/photos" && r.value.headers == [BearerHeader(token)]
  {
    if buildable then
      Some(Request("GET", Components("https", "api.unsplash.com", "/photos",
                                     [QueryItem("page", Some(Show(page))), QueryItem("per_page", Some(Show(perPage)))]),
                   [BearerHeader(token)]))
    else None
  }

  /** The query asks for `page` and `perPage`, read back from their decimal form. */
  lemma PhotosRequestAsks(token: string, page: nat, perPage: nat)
    ensures var items := PhotosRequest(token, page, perPage, true).value.url.queryItems;
      && FirstNamed(items, "page").Some? && FirstNamed(items, "page").value.value.Some?
      && Read(FirstNamed(items, "page").value.value.value) == Some(page)
      && FirstNamed(items, "per_page").Some? && FirstNamed(items, "per_page").value.value.Some?
      && Read(FirstNamed(items, "per_page").value.value.value) == Some(perPage)
  {
    var items := PhotosRequest(token, page, perPage, true).value.url.queryItems;
    assert |items[0].name| == 4;
    FirstNamedAt(items, "page", 0);
    FirstNamedAt(items, "per_page", 1);
    ReadShow(page);
    ReadShow(perPage);
  }

  /** `fetchPhotosNextPage()` up to the start of the transfer: nothing happens while
      a request runs, without a token, or when the request cannot be built; otherwise
      the next page is requested with the current page size. */
  function FetchPhotosNextPage(f: Feed, buildable: bool, id: TaskId, now: int): (r: Step)
    ensures r.posts == []
    ensures r.request.None? <==> f.task.Some? || f.token.None? || !buildable
    ensures r.request.None? ==> r.feed == f
    ensures r.request.Some? ==>
              && r.request == PhotosRequest(f.token.value, f.lastLoadedPage + 1, f.itemsPerPage, true)
              && r.feed == f.(task := Some(InFlight(id, f.lastLoadedPage + 1, now)))
  {
    if f.task.Some? then Step(f, None, [])
    else if f.token.None? then Step(f, None, [])
    else
      var nextPage := f.lastLoadedPage + 1;
      match PhotosRequest(f.token.value, nextPage, f.itemsPerPage, buildable)
      case None => Step(f, None, [])
      case Some(request) => Step(f.(task := Some(InFlight(id, nextPage, now))), Some(request), [])
  }

  /** The completion of the request `flight`, at time `now`. The duration is
      recorded first; `adapted` is the page size `adaptRequestSize` computes from the
      history in floating point. Then the task is cleared; a success sets the loaded
      page to the requested one and posts the converted photos, a failure posts
      nothing. */
  function CompletePage(f: Feed, flight: InFlight, now: int, adapted: nat, result: Result<seq<PhotoResult>, Error>,
                        syntax: UrlSyntax, parseDate: DateParser): (r: Step)
    ensures r.request.None? && r.feed.task.None? && r.feed.token == f.token
    ensures r.feed.durations == Remember(f.durations, now - flight.startedAt) && r.feed.itemsPerPage == adapted
    ensures result.Success? ==> r.feed.lastLoadedPage == flight.page
                                && r.posts == [DidChange(CompactMap(Creator(syntax, parseDate), result.value))]
    ensures result.Failure? ==> r.feed.lastLoadedPage == f.lastLoadedPage && r.posts == []
  {
    var adapted := f.(durations := Remember(f.durations, now - flight.startedAt), itemsPerPage := adapted);
    var cleared := adapted.(task := None);
    match result
    case Success(results) =>
      Step(cleared.(lastLoadedPage := flight.page), None, [DidChange(CompactMap(Creator(syntax, parseDate), results))])
    case Failure(_) => Step(cleared, None, [])
  }

  /** The token is captured once: no event changes it. */
  lemma TokenCapturedOnce(f: Feed, buildable: bool, id: TaskId, now: int, flight: InFlight, adapted: nat,
                          result: Result<seq<PhotoResult>, Error>, syntax: UrlSyntax, parseDate: DateParser)
    ensures FetchPhotosNextPage(f, buildable, id, now).feed.token == f.token
    ensures CompletePage(f, flight, now, adapted, result, syntax, parseDate).feed.token == f.token
  {
  }

  /** A successful page moves the feed on by exactly one page and reopens it; while
      it runs, further calls start nothing. */
  lemma SuccessAdvances(f: Feed, id: TaskId, t0: int, t1: int, adapted: nat, results: seq<PhotoResult>,
                        syntax: UrlSyntax, parseDate: DateParser, other: TaskId, t: int)
    requires f.task.None? && f.token.Some?
    ensures var s := FetchPhotosNextPage(f, true, id, t0);
      var c := CompletePage(s.feed, s.feed.task.value, t1, adapted, Success(results), syntax, parseDate);
      && s.request == PhotosRequest(f.token.value, f.lastLoadedPage + 1, f.itemsPerPage, true)
      && FetchPhotosNextPage(s.feed, true, other, t).request.None?
      && c.feed == Feed(None, f.lastLoadedPage + 1, f.token, adapted, Remember(f.durations, t1 - t0))
      && |c.posts| == 1
  {
  }

  /** After a failure the next call asks for the same page again. */
  lemma RetryAsksSamePage(f: Feed, id: TaskId, t0: int, t1: int, adapted: nat, e: Error,
                          syntax: UrlSyntax, parseDate: DateParser, retry: TaskId, t2: int)
    requires f.task.None? && f.token.Some?
    ensures var s := FetchPhotosNextPage(f, true, id, t0);
      var c := CompletePage(s.feed, s.feed.task.value, t1, adapted, Failure(e), syntax, parseDate);
      var again := FetchPhotosNextPage(c.feed, true, retry, t2);
      && c.posts == []
      && again.request == PhotosRequest(f.token.value, f.lastLoadedPage + 1, adapted, true)
  {
  }

  /** With no token nothing is ever requested. */
  lemma NoTokenNoRequest(buildable: bool, id: TaskId, now: int)
    ensures FetchPhotosNextPage(Init(None), buildable, id, now) == Step(Init(None), None, [])
  {
  }

  // ---------------------------------------------------------------------------
  // Likes

  function LikePath(photoId: string): string {
    "/photos/" + photoId + "/like"
  }

  /** `makeLikeRequest(token:photoId:isLike:)`: POST to like, DELETE to unlike. */
  function LikeRequest(token: string, photoId: string, isLike: bool, buildable: bool): (r: Option<Request>)
    ensures r.Some? <==> buildable
    ensures r.Some? ==> r.value.httpMethod == (if isLike then "POST" else "DELETE")
    ensures r.Some? ==> r.value.url.host == "api.unsplash.com" && r.value.url.path == LikePath(photoId)
                        && r.value.headers == [BearerHeader(token)]
  {
    if buildable then
      Some(Request(if isLike then "POST" else "DELETE", Components("https", "api.unsplash.com", LikePath(photoId), []),
                   [BearerHeader(token)]))
    else None
  }

  /** A like request names its photo and its direction unambiguously. */
  lemma LikeRequestInjective(token: string, a: string, b: string, likeA: bool, likeB: bool)
    requires LikeRequest(token, a, likeA, true) == LikeRequest(token, b, likeB, true)
    ensures a == b && likeA == likeB
  {
    var pa := LikePath(a);
    var pb := LikePath(b);
    assert |pa| == |pb|;
    assert pa[8..|pa| - 5] == a;
    assert pb[8..|pb| - 5] == b;
  }

  /** `changeLikeStatus(photoId:isLike:)` up to the start of the transfer: without a
      token, or when the request cannot be built, nothing is sent. The feed's state
      is not touched either way. */
  function ChangeLikeStatus(f: Feed, photoId: string, isLike: bool, buildable: bool): (r: Option<Request>)
    ensures r.Some? <==> f.token.Some? && buildable
    ensures r.Some? ==> r == LikeRequest(f.token.value, photoId, isLike, true)
  {
    if f.token.None? then None else LikeRequest(f.token.value, photoId, isLike, buildable)
  }

  /** The like completion: a photo that converts is announced; a failure, or a photo
      that does not convert, posts nothing. */
  function CompleteLike(result: Result<PhotoResult, Error>, syntax: UrlSyntax, parseDate: DateParser): (r: seq<Event>)
    ensures |r| <= 1
    ensures r != [] <==> result.Success? && CreatePhoto(syntax, parseDate, result.value).Some?
    ensures r != [] ==> r[0] == DidChangeLikeStatus(CreatePhoto(syntax, parseDate, result.value).value)
  {
    match result
    case Failure(_) => []
    case Success(p) =>
      match CreatePhoto(syntax, parseDate, p)
      case Some(photo) => [DidChangeLikeStatus(photo)]
      case None => []
  }
}
