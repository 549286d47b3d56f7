/** The in-memory cache the unit tests run against (`MockPhotoCacheService` in
    ImageFeedTests/PhotoCacheServiceTests.swift): an array of (photo, position) pairs
    kept sorted by position, and one `lastUpdateTime` for the whole cache. `now`
    stands for `Date()`. */
module MockPhotoCache {
  import opened Base
  import opened Photos
  import opened Seqs
  import opened Sorting

  const CacheExpirationInterval: int := 10 * 60

  /** The mock's private `CachedPhoto` struct. */
  datatype CachedPhoto = CachedPhoto(photo: Photo, position: int)

  datatype Mock = Mock(cached: seq<CachedPhoto>, lastUpdateTime: Option<int>)

  /** A freshly constructed mock. */
  const Initial: Mock := Mock([], None)

  function Pos(c: CachedPhoto): int {
    c.position
  }

  function IdOf(c: CachedPhoto): string {
    c.photo.id
  }

  function PhotoOf(c: CachedPhoto): Photo {
    c.photo
  }

  /** No two entries share a photo id: the invariant every operation keeps. */
  ghost predicate Valid(m: Mock) {
    DistinctKeys(m.cached, IdOf)
  }

  function Ids(cached: seq<CachedPhoto>): set<string> {
    set i | 0 <= i < |cached| :: cached[i].photo.id
  }

  function NotId(id: string): CachedPhoto -> bool {
    (c: CachedPhoto) => c.photo.id != id
  }

  // ---------------------------------------------------------------------------

  /** One iteration of the save loop: `removeAll { $0.photo.id == photo.id }`, then
      `append`. */
  function Place(cached: seq<CachedPhoto>, p: Photo, position: int): seq<CachedPhoto> {
    Filter(NotId(p.id), cached) + [CachedPhoto(p, position)]
  }

  /** The loop over `photos.enumerated()` with `position + index`. */
  function PlaceAll(cached: seq<CachedPhoto>, photos: seq<Photo>, position: int): seq<CachedPhoto>
    decreases |photos|
  {
    if photos == [] then cached
    else PlaceAll(Place(cached, photos[0], position), photos[1..], position + 1)
  }

  /** `savePhotos(_:startingFromPosition:)`: place every photo, sort by position, and
      stamp the whole cache, even for an empty batch. */
  function SavePhotos(m: Mock, photos: seq<Photo>, position: int, now: int): Mock {
    Mock(Sort(PlaceAll(m.cached, photos, position), Pos), Some(now))
  }

  function ShiftedBy(offset: int): CachedPhoto -> CachedPhoto {
    (c: CachedPhoto) => CachedPhoto(c.photo, c.position + offset)
  }

  /** `shiftCachedPhotosPositions(by:)`: an offset of zero returns at once. */
  function ShiftCachedPhotosPositions(m: Mock, offset: int): Mock {
    if offset == 0 then m
    else Mock(Sort(Map(ShiftedBy(offset), m.cached), Pos), m.lastUpdateTime)
  }

  /** `fetchAllCachedPhotos()`. */
  function FetchAllCachedPhotos(m: Mock): seq<Photo> {
    Map(PhotoOf, Sort(m.cached, Pos))
  }

  /** `needsCacheRefresh()`: no stamp, or a stamp more than ten minutes old. */
  function NeedsCacheRefresh(m: Mock, now: int): bool {
    match m.lastUpdateTime
    case None => true
    case Some(t) => now - t > CacheExpirationInterval
  }

  /** `firstIndex(where: { $0.photo.id == id })`. */
  function FirstIndex(cached: seq<CachedPhoto>, id: string): (r: Option<nat>)
    ensures r.Some? ==> r.value < |cached| && cached[r.value].photo.id == id
    ensures r.Some? ==> forall k :: 0 <= k < r.value ==> cached[k].photo.id != id
    ensures r.None? <==> id !in Ids(cached)
  {
    if cached == [] then None
    else if cached[0].photo.id == id then Some(0)
    else
      var r := FirstIndex(cached[1..], id);
      assert forall k :: 1 <= k < |cached| ==> cached[k] == cached[1..][k - 1];
      assert id in Ids(cached) <==> id in Ids(cached[1..]) by {
        if id in Ids(cached) {
          var k :| 0 <= k < |cached| && cached[k].photo.id == id;
          assert cached[1..][k - 1].photo.id == id;
        }
      }
      if r.Some? then Some(r.value + 1) else None
  }

  /** `photoExists(withId:)`. */
  function PhotoExists(m: Mock, id: string): (r: bool)
    ensures r <==> exists k :: 0 <= k < |m.cached| && m.cached[k].photo.id == id
  {
    FirstIndex(m.cached, id).Some?
  }

  /** `getCachedPhotosCount()`. */
  function GetCachedPhotosCount(m: Mock): nat {
    |m.cached|
  }

  /** `updatePhotoLikeStatus(photoId:isLiked:)`: the first entry with the id gets a
      copy of its photo with the new flag, at the same position. */
  function UpdatePhotoLikeStatus(m: Mock, id: string, isLiked: bool): Mock {
    match FirstIndex(m.cached, id)
    case None => m
    case Some(i) =>
      m.(cached := m.cached[i := CachedPhoto(WithLike(m.cached[i].photo, isLiked), m.cached[i].position)])
  }

  /** `clearCache()`. */
  function ClearCache(m: Mock): Mock {
    Mock([], None)
  }

  /** `position >= startPosition && position <= endPosition`. */
  function InRange(start: int, count: int): CachedPhoto -> bool {
    (c: CachedPhoto) => start <= c.position <= start + count - 1
  }

  /** `getCachedPhotos(from:count:)`. */
  function GetCachedPhotos(m: Mock, start: int, count: int): seq<Photo> {
    Map(PhotoOf, Sort(Filter(InRange(start, count), m.cached), Pos))
  }

  /** `setLastUpdateTime(_:)`, the tests' hook for back-dating the cache. */
  function SetLastUpdateTime(m: Mock, t: int): Mock {
    m.(lastUpdateTime := Some(t))
  }
}
