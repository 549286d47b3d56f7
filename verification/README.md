# ImageFeed core in Dafny

A model of the sequential core of ImageFeed, an iOS client for the Unsplash photo
service. The model covers:

- **The position-ordered photo cache.** Both implementations of
  `PhotoCacheServiceProtocol` are modelled: the Core Data `PhotoCacheService` and the
  in-memory `MockPhotoCacheService` that the unit tests run against. The
  `PhotoEntity` conversions are included, and so is the id-only equality of `Photo`.
  A refinement relation relates the mock to the Core Data version. They read back
  the same way after:
  - a non-empty save, on a clock that does not go backwards;
  - a shift that does not fail on both paths;
  - a like update and a successful clear.

  Every `fetchPhoto` lookup and every context save must succeed, and the full and
  range reads assume distinct positions.
- **The feed paging state machine of `ImagesListService`.** This covers the
  single in-flight task, the page counter, the token captured once, the bounded
  history of request durations, the request builders and `createPhoto`.
- **The keyed single-flight guards** of `OAuth2Service`, `ProfileService` and
  `ProfileImageService`. The guard is written once (`SingleFlight`) and each service
  instantiates it.
- **The OAuth 2.0 authorization-code helpers.** These build the authorization
  request (section 4.1.1 of RFC 6749) and the token request (section 4.1.3). They
  also extract the code from the redirect (section 4.1.2).
- **The classification of an HTTP outcome** in `URLSession.data(for:completion:)`,
  and the decode step of `objectTask`.
- **The memoising stores over `UserDefaults`**: `ProfileStorage`,
  `ProfileImageStorage`, `OAuth2Storage` and `OAuth2TokenStorage`.

Every component is an immutable value stepped by pure functions.

- Time is an integer `now` in seconds.
- A network completion is an event carrying its outcome.
- A task has a numeric identity.
- Side effects are sequences of effects: cancel a task, launch a request, deliver a
  result to the caller, post a notification.
- Foreign library code becomes a parameter:
  - `URL(string:)` is a `UrlSyntax` predicate;
  - the ISO 8601 parser is a `DateParser`;
  - JSON decoding and encoding are partial functions;
  - whether `URLComponents.url` yields a URL is a `buildable` flag.

Modules, one per file:

- `Base`: Option and Result.
- `Seqs`, `Sorting`: Map, Filter, CompactMap, and a stable sort by integer key.
- `Foundation`: URLs, query items, requests.
- `Decimal`: the `"\(n)"` rendering.
- `Photos`, `PhotoEntities`, `PhotoCache`, `PhotoCacheLaws`: the Core Data cache and
  its properties.
- `MockPhotoCache`, `MockPhotoCacheLaws`: the mock, its properties and the
  unit-test scenarios.
- `CacheRefinement`: the mock and the Core Data cache agree.
- `Http`, `SingleFlight`, `OAuth2Service`, `AuthHelper`, `ProfileService`,
  `ProfileImageService`, `ImagesListService`.
- `UserDefaults`, `MemoStorage`, `ProfileStorage`, `ProfileImageStorage`,
  `OAuth2Storage`, `OAuth2TokenStorage`.

### Behaviour worth knowing

- **Like updates do not touch `lastUpdated`.** `updatePhotoLikeStatus` sets only
  `isLiked` (ImageFeed/CoreData/PhotoCacheService.swift:143-148).
  `PhotoCacheLaws.LikeSpec` and `CacheRefinement.StoreLiked` state that the stamps
  stay as they were.
- **A failed lookup duplicates a photo.** `fetchPhoto` answers nil when its fetch
  throws (ImageFeed/CoreData/PhotoCacheService.swift:195-200). The save loop then
  creates a second record with an id already stored.
  `PhotoCacheLaws.FailedLookupDuplicates` and
  `PhotoCacheLaws.SaveFailedLookupDuplicates` show this. The uniqueness and count
  laws are stated for lookups that succeed. In a like update the same failure makes
  the call a no-op.
- **An empty save diverges.** The mock stamps `lastUpdateTime` even for an empty
  batch. Core Data writes nothing for one.
  `CacheRefinement.EmptySaveDiverges` exhibits this, so the refinement is stated for
  non-empty batches only.
- **A stale completion reopens the guard.** Each single-flight guard clears
  `task` and its key on *every* completion, without checking which task finished.
  A completion of a cancelled task therefore reopens the guard for the key in
  flight. `SingleFlight.StaleCompletionReopens` shows this; no stronger property is
  claimed.
- **The OAuth token completion ignores the HTTP status.** It reads only `data` and
  `error` (ImageFeed/Services/OAuth2Service.swift:73-95), so a non-2xx body that
  decodes is taken as a token.

## Model

| member | source | states |
|---|---|---|
| Photos.WithLike | ImageFeedTests/PhotoCacheServiceTests.swift:244-252 | A like change builds a new `Photo` with the new flag and every other field copied. |
| Photos.WithLikeUndo | ImageFeedTests/PhotoCacheServiceTests.swift:244-252 | Re-applying the original flag gives back exactly the original photo. |
| Photos.Equal | ImageFeed/Models/Photo.swift:31-35 | `==` compares ids only (see `EqualIgnoresContent`). |
| Photos.EqualIsEquivalence | ImageFeed/Models/Photo.swift:31-35 | Id-only equality is reflexive, symmetric and transitive. |
| Photos.EqualIgnoresContent | ImageFeed/Models/Photo.swift:31-35 | Two photos are equal iff their ids are equal. A like-toggled copy equals the original. Equal photos can still differ in content. |
| Photos.LastOccurrenceExists | ImageFeed/CoreData/PhotoCacheService.swift:18-28 | Every id of a batch has a last occurrence: the entry whose values a save loop leaves behind. |
| PhotoEntities.UpdateFrom | ImageFeed/CoreData/PhotoEntity+CoreDataClass.swift:38-51 | Every field is overwritten from the photo. `position` is the argument and `lastUpdated` is `now`. Width and height go through `Int32`. |
| PhotoEntities.Create | ImageFeed/CoreData/PhotoEntity+CoreDataClass.swift:53-57 | A created record equals `updateFrom` applied to any record whatever. |
| PhotoEntities.ToPhoto | ImageFeed/CoreData/PhotoEntity+CoreDataClass.swift:9-36 | nil iff the id or colour is missing, or one of the three URL strings is missing or unparseable. A missing description reads as `""`. `createdAt`, `isLiked` and the size pass through. |
| PhotoEntities.RoundTrip | ImageFeed/CoreData/PhotoEntity+CoreDataClass.swift:9-51 | `toPhoto` after `updateFrom(p, pos)` gives back `p`, for a photo whose size fits `Int32` and whose URLs reparse. |
| PhotoEntities.UpdateForgetsPrevious | ImageFeed/CoreData/PhotoEntity+CoreDataClass.swift:38-57 | A new record and an updated record are field-for-field identical. |
| PhotoCache.FindById | ImageFeed/CoreData/PhotoCacheService.swift:191-196 | The id lookup finds a record with the id exactly when one exists. |
| PhotoCache.FetchPhoto | ImageFeed/CoreData/PhotoCacheService.swift:190-201 | A successful fetch finds a row with the id iff one exists. A fetch that throws answers nil even when a row has the id. |
| PhotoCache.LatestUpdate | ImageFeed/CoreData/PhotoCacheService.swift:100-118 | The stamp that the descending fetch with limit 1 reads is the maximum `lastUpdated`, or none when no row has one. |
| PhotoCache.Upsert | ImageFeed/CoreData/PhotoCacheService.swift:22-27 | One loop iteration: the row the lookup found is updated in place, or a record is appended. After a lookup that throws, it always appends. |
| PhotoCache.SaveAll | ImageFeed/CoreData/PhotoCacheService.swift:19-28 | The loop puts photo `i` at `position + i`. Each photo adds at most one row. A store that grew by the whole batch keeps the old rows as its prefix. |
| PhotoCache.SavePhotos | ImageFeed/CoreData/PhotoCacheService.swift:15-32 | The loop then `saveContext`. A failed save leaves the store as it was. The store grows by at most the batch size. |
| PhotoCache.ShiftBatch | ImageFeed/CoreData/PhotoCacheService.swift:40-47 | The batch update adds the offset to every row's position (see `FallbackMatchesBatch`). |
| PhotoCache.ShiftFallback | ImageFeed/CoreData/PhotoCacheService.swift:66-79 | The fallback adds the offset row by row (see `FallbackMatchesBatch`). |
| PhotoCache.ShiftCachedPhotosPositions | ImageFeed/CoreData/PhotoCacheService.swift:35-63 | The batch update runs first. If it fails, the fallback runs when its fetch and save succeed. Otherwise nothing changes. `ShiftSpec` states the effect. |
| PhotoCache.FetchAllCachedPhotos | ImageFeed/CoreData/PhotoCacheService.swift:82-97 | Rows sorted by position and converted, with failures dropped, or `[]` on an error. `FetchAllSpec` and `FetchAllOrdered` state the result. |
| PhotoCache.NeedsCacheRefresh | ImageFeed/CoreData/PhotoCacheService.swift:100-118 | True on an error, without a stamp, or when the newest stamp is more than 600 seconds old. `NeedsRefreshSpec` states it. |
| PhotoCache.GetCachedPhotos | ImageFeed/CoreData/PhotoCacheService.swift:170-186 | Both bounds must fit `Int32`, because the conversions trap otherwise. `RangeSpec` states the result. |
| PhotoCache.UpdatePhotoLikeStatus | ImageFeed/CoreData/PhotoCacheService.swift:140-149 | The like flag of the looked-up row is set, followed by a save. `LikeSpec` states the effect. |
| PhotoCache.ClearCache | ImageFeed/CoreData/PhotoCacheService.swift:152-167 | A batch delete that succeeds empties the store. One that fails changes nothing. `ClearSpec` states the effect. |
| PhotoCache.PhotoExists | ImageFeed/CoreData/PhotoCacheService.swift:121-124 | True iff the fetch succeeds and some row has the id. |
| PhotoCache.GetCachedPhotosCount | ImageFeed/CoreData/PhotoCacheService.swift:127-137 | The number of rows, or 0 on a fetch error. |
| PhotoCacheLaws.KeyedCount | ImageFeed/CoreData/PhotoCacheService.swift:23-27 | With unique ids, the count equals the number of ids. |
| PhotoCacheLaws.UpsertKeyed | ImageFeed/CoreData/PhotoCacheService.swift:23-27 | When the lookup succeeds, one upsert keeps ids unique and adds the photo's id. The count grows only for a new id. |
| PhotoCacheLaws.UpsertKeepsOthers | ImageFeed/CoreData/PhotoCacheService.swift:23-27 | Whatever the lookup answers, an upsert leaves rows with other ids untouched. |
| PhotoCacheLaws.UpsertIds | ImageFeed/CoreData/PhotoCacheService.swift:23-27 | Whatever the lookup answers, an upsert stores the photo's id and keeps every other id. |
| PhotoCacheLaws.FailedLookupDuplicates | ImageFeed/CoreData/PhotoCacheService.swift:23-26 | A lookup that throws for a stored id inserts a second row with that id. The store gains one row, its ids stay the same, and they are no longer unique. |
| PhotoCacheLaws.UpsertWrites | ImageFeed/CoreData/PhotoCacheService.swift:19-27 | When the lookup succeeds, the row with the photo's id after an upsert is exactly the created record at that position. |
| PhotoCacheLaws.UpsertSpec | ImageFeed/CoreData/PhotoCacheService.swift:19-27 | When the lookup succeeds: unique ids, the photo's id added, other rows untouched, and the photo's row written. |
| PhotoCacheLaws.SaveKeyed | ImageFeed/CoreData/PhotoCacheService.swift:15-32 | When every lookup succeeds, a save keeps ids unique, and the ids after it are the old ids plus the batch's. |
| PhotoCacheLaws.SaveIds | ImageFeed/CoreData/PhotoCacheService.swift:19-28 | Whatever the lookups answer, the ids after the loop are the old ids plus the batch's. |
| PhotoCacheLaws.SaveKeepsOthers | ImageFeed/CoreData/PhotoCacheService.swift:15-32 | Whatever the lookups answer, a row whose id the batch does not mention is kept in place. |
| PhotoCacheLaws.SavePlacesLast | ImageFeed/CoreData/PhotoCacheService.swift:19-20 | The last photo of the batch with a given id is stored at position `start + i`. |
| PhotoCacheLaws.SavePhotosSpec | ImageFeed/CoreData/PhotoCacheService.swift:15-32 | The store after a save whose lookups and context save succeed: unique ids, old ids plus the batch's ids, untouched other rows, and each photo at `start + i`. |
| PhotoCacheLaws.SaveRowsOrigin | ImageFeed/CoreData/PhotoCacheService.swift:15-32 | Every row after a save is an untouched old row or the record of a batch photo at `start + i`. |
| PhotoCacheLaws.SaveCount | ImageFeed/CoreData/PhotoCacheService.swift:15-32 | When every lookup and the context save succeed, the count grows by exactly the number of new ids. |
| PhotoCacheLaws.SaveFailedLookupDuplicates | ImageFeed/CoreData/PhotoCacheService.swift:15-30 | Re-saving a stored photo whose lookup throws leaves one row more than the number of distinct ids. The ids stay the same and are no longer unique. |
| PhotoCacheLaws.FallbackMatchesBatch | ImageFeed/CoreData/PhotoCacheService.swift:35-79 | The fallback path of a shift has the same effect as the batch update. |
| PhotoCacheLaws.ShiftSpec | ImageFeed/CoreData/PhotoCacheService.swift:35-79 | A shift that reaches the store adds `offset` to every position and changes nothing else, `lastUpdated` included. It does nothing when the batch update fails and the fallback's fetch or save fails too. |
| PhotoCacheLaws.FetchAllOrdered | ImageFeed/CoreData/PhotoCacheService.swift:82-97 | A full read lists photos in ascending position. |
| PhotoCacheLaws.FetchAllSpec | ImageFeed/CoreData/PhotoCacheService.swift:82-97 | A full read returns `[]` on a fetch error. It returns exactly the rows that convert. |
| PhotoCacheLaws.FetchAllLength | ImageFeed/CoreData/PhotoCacheService.swift:82-97 | When every row converts, a full read has one photo per row. |
| PhotoCacheLaws.RangeOrdered | ImageFeed/CoreData/PhotoCacheService.swift:170-186 | A range read lists photos in ascending position. |
| PhotoCacheLaws.RangeSound | ImageFeed/CoreData/PhotoCacheService.swift:174-181 | Every photo of a range read comes from a row with `start <= position <= start + count - 1`. |
| PhotoCacheLaws.RangeComplete | ImageFeed/CoreData/PhotoCacheService.swift:174-181 | Every convertible row in the inclusive range is in the read. |
| PhotoCacheLaws.RangeEmpty | ImageFeed/CoreData/PhotoCacheService.swift:170-186 | A range read with `count <= 0`, or after a fetch error, is empty. |
| PhotoCacheLaws.RangeSpec | ImageFeed/CoreData/PhotoCacheService.swift:170-186 | The combination of the four range laws above. |
| PhotoCacheLaws.NeedsRefreshSpec | ImageFeed/CoreData/PhotoCacheService.swift:100-118 | No refresh is due iff the fetch succeeds and some row was written at most 600 seconds ago. An empty store always needs one. |
| PhotoCacheLaws.FreshnessBoundary | ImageFeed/CoreData/PhotoCacheService.swift:100-118 | Exactly 600 seconds after a write the cache is still fresh; at 601 it is stale. |
| PhotoCacheLaws.LikeSpec | ImageFeed/CoreData/PhotoCacheService.swift:140-149 | Only `isLiked` of the row with the id changes, and `lastUpdated` is not refreshed. An unknown id changes nothing. So does a lookup that throws, or a failed save. |
| PhotoCacheLaws.ClearSpec | ImageFeed/CoreData/PhotoCacheService.swift:152-167 | After a clear, the count is 0, no id exists and a refresh is due. |
| MockPhotoCache.FirstIndex | ImageFeedTests/PhotoCacheServiceTests.swift:240-243 | `firstIndex(where:)` finds the first entry with the id, and none iff no entry has it. |
| MockPhotoCache.PhotoExists | ImageFeedTests/PhotoCacheServiceTests.swift:232-234 | True iff some entry has the id. |
| MockPhotoCache.Place | ImageFeedTests/PhotoCacheServiceTests.swift:202-204 | Removes every entry with the photo's id, then appends the new entry (see `PlaceSpec`). |
| MockPhotoCache.PlaceAll | ImageFeedTests/PhotoCacheServiceTests.swift:201-205 | Places photo `i` at `position + i` (see `PlaceAllSpec`). |
| MockPhotoCache.SavePhotos | ImageFeedTests/PhotoCacheServiceTests.swift:200-208 | Places the batch, sorts by position and stamps `now`, even for an empty batch (see `MockSaveSpec`). |
| MockPhotoCache.ShiftCachedPhotosPositions | ImageFeedTests/PhotoCacheServiceTests.swift:210-220 | Offset 0 returns at once. Any other offset moves every entry and re-sorts (see `MockShiftSpec`). |
| MockPhotoCache.FetchAllCachedPhotos | ImageFeedTests/PhotoCacheServiceTests.swift:222-224 | The photos sorted by position (see `ShiftKeepsOrder` and `FetchAllAgrees`). |
| MockPhotoCache.NeedsCacheRefresh | ImageFeedTests/PhotoCacheServiceTests.swift:226-230 | True without a stamp or with one more than 600 seconds old (see `RefreshAgrees`). |
| MockPhotoCache.GetCachedPhotosCount | ImageFeedTests/PhotoCacheServiceTests.swift:236-238 | The number of entries (see `MockSaveCount`). |
| MockPhotoCache.UpdatePhotoLikeStatus | ImageFeedTests/PhotoCacheServiceTests.swift:240-255 | The first entry with the id gets a copy of its photo with the new flag (see `MockLikeSpec`). |
| MockPhotoCache.ClearCache | ImageFeedTests/PhotoCacheServiceTests.swift:257-260 | No entries and no stamp (see `TestClear`). |
| MockPhotoCache.GetCachedPhotos | ImageFeedTests/PhotoCacheServiceTests.swift:262-268 | The entries in the inclusive range, sorted by position (see `RangeOfRun`). |
| MockPhotoCache.SetLastUpdateTime | ImageFeedTests/PhotoCacheServiceTests.swift:270-272 | Sets the stamp that `needsCacheRefresh` reads (see `TestRefresh`). |
| MockPhotoCacheLaws.PlaceSpec | ImageFeedTests/PhotoCacheServiceTests.swift:202-205 | One step of the save loop removes the entry with the id and appends the new one, keeping ids unique. |
| MockPhotoCacheLaws.PlaceAllSpec | ImageFeedTests/PhotoCacheServiceTests.swift:200-208 | After the loop the entries are exactly the untouched old ones plus each photo's last occurrence at `position + i`. |
| MockPhotoCacheLaws.MockSaveSpec | ImageFeedTests/PhotoCacheServiceTests.swift:200-208 | A save keeps ids unique, sorts by position, holds exactly the saved entries, and stamps `now`. |
| MockPhotoCacheLaws.MockSaveIds | ImageFeedTests/PhotoCacheServiceTests.swift:200-208 | The ids after a save are the old ids plus the batch's. |
| MockPhotoCacheLaws.MockSaveCount | ImageFeedTests/PhotoCacheServiceTests.swift:88-99 | The count after a save is the number of distinct ids among the old entries and the batch. |
| MockPhotoCacheLaws.SaveAppendsPage | ImageFeedTests/PhotoCacheServiceTests.swift:200-208 | A batch of fresh ids saved after every cached position reads back after the cached photos, in batch order. |
| MockPhotoCacheLaws.SavePrependsPage | ImageFeedTests/PhotoCacheServiceTests.swift:200-208 | A batch of fresh ids saved before every cached position reads back first, in batch order. |
| MockPhotoCacheLaws.MockShiftSpec | ImageFeedTests/PhotoCacheServiceTests.swift:210-220 | A shift by 0 changes nothing. Any other offset re-sorts the entries by position and moves each by the offset. Ids and the stamp stay as they were. |
| MockPhotoCacheLaws.ShiftKeepsOrder | ImageFeedTests/PhotoCacheServiceTests.swift:210-224 | A shift never reorders what a full read returns. |
| MockPhotoCacheLaws.MockLikeSpec | ImageFeedTests/PhotoCacheServiceTests.swift:240-255 | Only the flag of the entry with the id changes, in place. An unknown id changes nothing. |
| MockPhotoCacheLaws.MockLikeUndo | ImageFeedTests/PhotoCacheServiceTests.swift:240-255 | Liking and then restoring the original flag gives back the same cache. |
| MockPhotoCacheLaws.RangeOfRun | ImageFeedTests/PhotoCacheServiceTests.swift:262-268 | A range read of a batch saved from 0 returns the matching slice of the batch. |
| MockPhotoCacheLaws.TwoPages | ImageFeedTests/PhotoCacheServiceTests.swift:64-78 | Two pages saved one after the other read back in page order. |
| MockPhotoCacheLaws.ShiftThenPrepend | ImageFeedTests/PhotoCacheServiceTests.swift:115-136 | After shifting a cached page down by the size of a new page, the new page saved at 0 reads back first. |
| MockPhotoCacheLaws.TestRefresh | ImageFeedTests/PhotoCacheServiceTests.swift:21-44 | An empty mock needs a refresh; right after a save it does not; an 11-minute-old stamp does. |
| MockPhotoCacheLaws.TestSaveAndFetch | ImageFeedTests/PhotoCacheServiceTests.swift:48-62 | Two photos saved at 0 read back in order. |
| MockPhotoCacheLaws.TestDifferentStartingPositions | ImageFeedTests/PhotoCacheServiceTests.swift:64-78 | Batches saved at 0 and at 2 read back as `batch1_1, batch1_2, batch2_1, batch2_2`. |
| MockPhotoCacheLaws.TestShift | ImageFeedTests/PhotoCacheServiceTests.swift:115-136 | `shift1` to `shift3` shifted by 2, then `new1` and `new2` saved at 0, read back as `new1, new2, shift1, shift2, shift3`. |
| MockPhotoCacheLaws.TestRange | ImageFeedTests/PhotoCacheServiceTests.swift:101-111 | Of `photo0` to `photo9`, a read from 2 with count 3 returns `photo2, photo3, photo4`. |
| MockPhotoCacheLaws.TestExistsAndCount | ImageFeedTests/PhotoCacheServiceTests.swift:80-99 | A saved id exists and an unsaved one does not. Three saved photos count 3. |
| MockPhotoCacheLaws.TestLike | ImageFeedTests/PhotoCacheServiceTests.swift:140-151 | After a like, the full read holds the liked copy. |
| MockPhotoCacheLaws.TestClear | ImageFeedTests/PhotoCacheServiceTests.swift:155-166 | After a clear: count 0, no id exists and a refresh is due. |
| CacheRefinement.InitialCorresponds | ImageFeedTests/PhotoCacheServiceTests.swift:189-198 | A fresh mock corresponds to an empty store. |
| CacheRefinement.CountAgrees | ImageFeed/CoreData/PhotoCacheService.swift:127-137 | Corresponding caches report the same count. |
| CacheRefinement.ExistsAgrees | ImageFeed/CoreData/PhotoCacheService.swift:121-124 | Corresponding caches agree on which ids exist. |
| CacheRefinement.RefreshAgrees | ImageFeed/CoreData/PhotoCacheService.swift:100-118 | Corresponding caches agree on whether a refresh is due. |
| CacheRefinement.FetchAllAgrees | ImageFeed/CoreData/PhotoCacheService.swift:82-97 | With distinct positions, corresponding caches return the same full read. |
| CacheRefinement.RangeAgrees | ImageFeed/CoreData/PhotoCacheService.swift:170-186 | With distinct positions, corresponding caches return the same range read. |
| CacheRefinement.SavePreserves | ImageFeed/CoreData/PhotoCacheService.swift:15-32 | A non-empty save keeps the caches corresponding, provided the clock has not gone backwards. |
| CacheRefinement.SaveStamp | ImageFeed/CoreData/PhotoCacheService.swift:15-32 | A non-empty save makes `now` the store's latest stamp. |
| CacheRefinement.ShiftPreserves | ImageFeed/CoreData/PhotoCacheService.swift:35-79 | A shift keeps the caches corresponding, unless it is a non-zero shift that fails on both paths. |
| CacheRefinement.StoreLiked | ImageFeed/CoreData/PhotoCacheService.swift:140-149 | A like update patches the flag of the views with the id and leaves the latest stamp as it was. |
| CacheRefinement.LikePreserves | ImageFeed/CoreData/PhotoCacheService.swift:140-149 | A like update keeps the caches corresponding. |
| CacheRefinement.ClearPreserves | ImageFeed/CoreData/PhotoCacheService.swift:152-167 | After a successful clear the two caches correspond, whatever they held before. |
| CacheRefinement.EmptySaveDiverges | ImageFeedTests/PhotoCacheServiceTests.swift:200-208 | Saving an empty batch freshens the mock but leaves a stale store stale. |
| Http.DataResult | ImageFeed/Network/URLSession+data.swift:11-26 | Data with an HTTP status in `[200, 300)` succeeds. Data with any other status fails with that status. Otherwise an error gives `urlRequestError`, and nothing gives `urlSessionError`. |
| Http.ObjectResult | ImageFeed/Helpers/URLSession+objectTask.swift:6-18 | A transport failure passes through. A body that does not decode gives `httpStatusCode(-2)`. |
| Http.OneOutcomePerCallback | ImageFeed/Network/URLSession+data.swift:11-26 | Each of the four callback shapes yields exactly its own kind of result. |
| Http.StatusWinsOverError | ImageFeed/Network/URLSession+data.swift:12-18 | With data and an HTTP response, a present error is ignored. |
| Http.IsSuccessStatus | ImageFeed/Network/URLSession+data.swift:13 | The range `200 ..< 300` (see `StatusBoundaries`). |
| Http.StatusBoundaries | ImageFeed/Network/URLSession+data.swift:13 | 200 and 299 succeed; 199 and 300 fail with their status. |
| Http.PseudoStatusCodes | ImageFeed/Services/OAuth2Service.swift:104-110 | `invalidRequest` and a decoding error are different pseudo-statuses. Neither counts as success. Every decoding error is the same value, whatever its cause. |
| SingleFlight.Begin | ImageFeed/Services/OAuth2Service.swift:48-62 | A repeat of the key in flight is rejected and changes nothing. Otherwise the old task is cancelled. An unbuildable request forgets the key; a launched one records the task and the key. |
| SingleFlight.Finish | ImageFeed/Services/OAuth2Service.swift:68-71 | Every completion clears both the task and the key. |
| SingleFlight.BeginKeepsConsistent | ImageFeed/Services/OAuth2Service.swift:48-71 | A key is recorded only while a task is in flight, and both steps keep this. |
| SingleFlight.RepeatRejected | ImageFeed/Services/OAuth2Service.swift:48-51 | Right after a launch, the same key is refused and the first task keeps running. |
| SingleFlight.NewKeyCancels | ImageFeed/Services/OAuth2Service.swift:53-55 | A different key cancels the running task and records the new key. |
| SingleFlight.FinishReopens | ImageFeed/Services/OAuth2Service.swift:68-71 | After any completion no key is refused and nothing is left to cancel. |
| SingleFlight.FinishIgnoresIdentity | ImageFeed/Services/OAuth2Service.swift:68-71 | The guard does not depend on which task completed. |
| SingleFlight.StaleCompletionReopens | ImageFeed/Services/OAuth2Service.swift:53-71 | The completion of a cancelled task reopens the guard, and the key in flight can be launched again. |
| SingleFlight.UnbuildableForgetsKey | ImageFeed/Services/OAuth2Service.swift:57-62 | When the request cannot be built, the key is forgotten and the same key is accepted next time. |
| SingleFlight.Fetch | ImageFeed/Services/ProfileService.swift:34-47 | A repeat of the key in flight is refused and changes nothing. Otherwise any running task is cancelled. The call then launches and records the key, or it is refused and the key is forgotten. |
| SingleFlight.FetchAnswersOnce | ImageFeed/Services/ProfileService.swift:34-47 | Every call ends in exactly one answer: a delivered result or a launch. Only cancels come before it. |
| SingleFlight.NoDuplicateLaunch | ImageFeed/Services/ProfileService.swift:34-37 | A repeat of the key in flight neither launches nor cancels. |
| OAuth2Service.TokenRequest | ImageFeed/Services/OAuth2Service.swift:16-38 | A POST to `https://unsplash.com/oauth/token` carrying the code and `grant_type=authorization_code`, when buildable. |
| OAuth2Service.TokenRequestParameters | ImageFeed/Services/OAuth2Service.swift:22-28 | Exactly five distinctly named parameters carry the client id, secret and redirect URI. |
| OAuth2Service.TokenRequestInjective | ImageFeed/Services/OAuth2Service.swift:22-28 | Different codes give different token requests. |
| OAuth2Service.FetchOAuthToken | ImageFeed/Services/OAuth2Service.swift:42-62 | The same code fails at once with `invalidRequest`. A new code cancels the old task and launches, or forgets the code when the request cannot be built. |
| OAuth2Service.CompleteOAuthToken | ImageFeed/Services/OAuth2Service.swift:64-96 | The guard is cleared, and one result is delivered: the transport error; `invalidRequest` for no data; -2 for a bad body; or the token. A delivered token has already been stored. |
| OAuth2Service.TokenStoredBeforeDelivery | ImageFeed/Services/OAuth2Service.swift:89-91 | On success the token is in `OAuth2TokenStorage` and no other key changes. |
| OAuth2Service.FailureKeepsToken | ImageFeed/Services/OAuth2Service.swift:73-95 | A failed completion leaves the stored token as it was. |
| OAuth2Service.OAuthScenario | ImageFeed/Services/OAuth2Service.swift:42-62 | Code `a` launches, a second `a` is refused, and `b` cancels the first task and launches. |
| OAuth2Service.OAuthScenarioCompletes | ImageFeed/Services/OAuth2Service.swift:64-96 | Completing `b` stores and delivers its token, after which `b` can be fetched again. |
| AuthHelper.AuthRequest | ImageFeed/Helpers/AuthHelper.swift:17-28 | nil without an auth URL or a buildable URL. Otherwise the auth URL with `client_id`, `redirect_uri`, `response_type=code` and `scope`, in that order. |
| AuthHelper.AuthRequestParameters | ImageFeed/Helpers/AuthHelper.swift:21-26 | Each parameter carries the configured value. |
| AuthHelper.StandardAuthRequest | ImageFeedTests/WebViewTests.swift:74-94 | The standard configuration authorizes at `unsplash.com/oauth/authorize` with the standard parameters. |
| AuthHelper.CodeFrom | ImageFeed/Helpers/AuthHelper.swift:32-40 | Only the native redirect path yields a code. It is the value of the first `code` item. |
| AuthHelper.CodeRequiresRedirect | ImageFeed/Helpers/AuthHelper.swift:33-37 | Another path, no `code` item or an unparseable URL gives nil. |
| AuthHelper.FirstCodeWins | ImageFeed/Helpers/AuthHelper.swift:35-39 | With two `code` items the first one's value is returned, even when it has none. |
| AuthHelper.TestCodeFromURL | ImageFeedTests/WebViewTests.swift:98-118 | The redirect carrying `code=test code` yields `"test code"`. |
| ProfileService.Trim | ImageFeed/Services/ProfileService.swift:104 | The result has no leading or trailing whitespace. It is a slice of the input with only whitespace cut from both ends. |
| ProfileService.TrimClean | ImageFeed/Services/ProfileService.swift:104 | Trimming a clean string changes nothing. |
| ProfileService.TrimIdempotent | ImageFeed/Services/ProfileService.swift:104 | Trimming twice is trimming once. |
| ProfileService.TrimBlank | ImageFeed/Services/ProfileService.swift:104 | An all-whitespace string trims to `""`. |
| ProfileService.CreateProfile | ImageFeed/Services/ProfileService.swift:101-113 | `username` and `bio` are copied. `loginName` is `@` plus the username. `name` is the first and last names, each `""` when missing, joined by one space and trimmed of whitespace and newlines. |
| ProfileService.NameBothParts | ImageFeed/Services/ProfileService.swift:102-104 | Clean first and last names join with one space. |
| ProfileService.NameFirstOnly | ImageFeed/Services/ProfileService.swift:102-104 | With no last name the name is the first name, without the trailing space. |
| ProfileService.NameLastOnly | ImageFeed/Services/ProfileService.swift:102-104 | With no first name the name is the last name, without the leading space. |
| ProfileService.NameNoParts | ImageFeed/Services/ProfileService.swift:102-104 | With neither part the name is `""`. |
| ProfileService.LoginNameInjective | ImageFeed/Services/ProfileService.swift:105 | Different usernames give different login names. |
| ProfileService.ProfileRequest | ImageFeed/Services/ProfileService.swift:82-97 | A bearer GET to `api.unsplash.com/me`, when buildable. |
| ProfileService.FetchProfile | ImageFeed/Services/ProfileService.swift:31-47 | The token in flight fails at once with `invalidRequest`. A new token cancels and launches, or is forgotten when the request cannot be built. |
| ProfileService.CompleteProfile | ImageFeed/Services/ProfileService.swift:49-74 | The guard is cleared, and one result is delivered: the profile; `decodingError` for a bad body; or the network error unchanged. |
| ProfileService.UnauthorizedReported | ImageFeed/Network/URLSession+data.swift:12-17 | A 401 response reaches the caller as `httpStatusCode(401)`. |
| ProfileImageService.CreateProfileImage | ImageFeed/Services/ProfileImageService.swift:104-110 | The three image URLs are copied. |
| ProfileImageService.UserRequest | ImageFeed/Services/ProfileImageService.swift:85-100 | A bearer GET to `api.unsplash.com/users/<username>`, when buildable. |
| ProfileImageService.UserPathInjective | ImageFeed/Services/ProfileImageService.swift:89 | Different usernames give different paths. |
| ProfileImageService.FetchProfileImageURL | ImageFeed/Services/ProfileImageService.swift:35-51 | The token in flight fails at once. A new token cancels and launches, or is forgotten when the request cannot be built. |
| ProfileImageService.CompleteProfileImage | ImageFeed/Services/ProfileImageService.swift:53-77 | The guard is cleared. On success the image is delivered and then posted; on failure the error is delivered and nothing is posted. |
| ProfileImageService.PostMatchesDelivery | ImageFeed/Services/ProfileImageService.swift:62-76 | A notification is posted iff the call succeeded, and it follows the delivery of the same value. |
| ProfileImageService.TransportToCaller | ImageFeed/Services/ProfileImageService.swift:53-77 | A 2xx body that decodes is delivered and posted. A bad body gives -2. A non-2xx status reaches the caller as that status. |
| ImagesListService.CreatePhoto | ImageFeed/Services/ImagesListService.swift:252-280 | nil iff the date or one of the URLs does not parse. Otherwise the id is kept, `isLiked` defaults to false and the description to `""`. |
| ImagesListService.FeedPhotoCaches | ImageFeed/Services/ImagesListService.swift:252-280 | A converted photo whose size fits `Int32` survives a round trip through the cache's record. |
| ImagesListService.NewPhotosSpec | ImageFeed/Services/ImagesListService.swift:107 | The posted photos are exactly the results that convert, never more than the results. |
| ImagesListService.NewPhotosAllConvert | ImageFeed/Services/ImagesListService.swift:107 | When every result converts, the photos are the results converted one by one, in order. |
| ImagesListService.Remember | ImageFeed/Services/ImagesListService.swift:204-208 | At the limit of 5 the oldest duration is dropped. The new one is appended last. The others keep their order. |
| ImagesListService.LastFive | ImageFeed/Services/ImagesListService.swift:204-208 | The last five durations, or all of them when there are fewer. |
| ImagesListService.History | ImageFeed/Services/ImagesListService.swift:204-208 | The history left by recording durations one by one from empty (see `HistoryIsLastFive`). |
| ImagesListService.WindowStep | ImageFeed/Services/ImagesListService.swift:204-208 | Recording one more duration in the last-five window gives the last five of the longer list. |
| ImagesListService.HistoryIsLastFive | ImageFeed/Services/ImagesListService.swift:204-208 | The history after any sequence of requests is the last five durations, so it never exceeds five. |
| ImagesListService.PhotosRequest | ImageFeed/Services/ImagesListService.swift:163-183 | A bearer GET to `api.unsplash.com/photos`, when buildable. |
| ImagesListService.PhotosRequestAsks | ImageFeed/Services/ImagesListService.swift:169-172 | The `page` and `per_page` items read back as the requested numbers. |
| ImagesListService.FetchPhotosNextPage | ImageFeed/Services/ImagesListService.swift:76-124 | No request and no change while a task is in flight, without a token or when the request cannot be built. Otherwise it asks for page `lastLoadedPage + 1` with `itemsPerPage`. |
| ImagesListService.CompletePage | ImageFeed/Services/ImagesListService.swift:94-120 | The task is cleared and the duration recorded. Success advances to the requested page and posts the converted photos once. Failure keeps the page and posts nothing. |
| ImagesListService.TokenCapturedOnce | ImageFeed/Services/ImagesListService.swift:20 | No step changes the token. |
| ImagesListService.SuccessAdvances | ImageFeed/Services/ImagesListService.swift:76-124 | A fetch then a successful completion advances exactly one page and posts once. A second fetch while busy is a no-op. |
| ImagesListService.RetryAsksSamePage | ImageFeed/Services/ImagesListService.swift:117-119 | After a failure, the next fetch asks for the same page. |
| ImagesListService.NoTokenNoRequest | ImageFeed/Services/ImagesListService.swift:81-84 | Without a token nothing happens. |
| ImagesListService.LikeRequest | ImageFeed/Services/ImagesListService.swift:185-200 | A bearer request to `/photos/<id>/like`: POST to like, DELETE to unlike. |
| ImagesListService.LikeRequestInjective | ImageFeed/Services/ImagesListService.swift:189-196 | Different photos or directions give different requests. |
| ImagesListService.ChangeLikeStatus | ImageFeed/Services/ImagesListService.swift:126-137 | A like request is sent iff there is a token and it can be built. |
| ImagesListService.CompleteLike | ImageFeed/Services/ImagesListService.swift:139-155 | One notification carries the converted photo, iff the call succeeded and the photo converts. |
| Decimal.Show | ImageFeed/Services/ImagesListService.swift:170-171 | The rendering is a non-empty string of digits without a leading zero. |
| Decimal.ReadShow | ImageFeed/Services/ImagesListService.swift:170-171 | Reading a rendered number gives the number back. |
| Foundation.FirstNamed | ImageFeed/Helpers/AuthHelper.swift:35-36 | `first(where:)` on the query items returns the first item with the name, and none iff no item has it. |
| Foundation.ParseURL | ImageFeed/CoreData/PhotoEntity+CoreDataClass.swift:15-17 | `URL(string:)` succeeds iff the string is accepted, and the URL keeps the string. |
| UserDefaults.Put | ImageFeed/Storage/OAuth2Storage.swift:23 | A write stores the value under its key, or removes the key for nil. Every other key is untouched. |
| UserDefaults.ReadYourWrite | ImageFeed/Storage/ProfileStorage.swift:26-35 | A typed read after a write of that type returns the value; after a removal it returns nil. |
| UserDefaults.OtherKeysUntouched | ImageFeed/Storage/ProfileStorage.swift:26-35 | A write to one key does not change any other key. |
| MemoStorage.Get | ImageFeed/Storage/ProfileStorage.swift:12-25 | The memo is returned when present, without reading the store. Otherwise the stored data is decoded and memoised; missing data gives nil. |
| MemoStorage.Set | ImageFeed/Storage/ProfileStorage.swift:26-35 | The memo becomes the value. An encodable value is written and stamped `now`. Otherwise the data is removed and the stamp kept. No other key changes. |
| MemoStorage.IsExpired | ImageFeed/Storage/ProfileStorage.swift:48-51 | True without a stamp. Otherwise true iff more than 900 seconds have passed. |
| MemoStorage.SetThenGet | ImageFeed/Storage/ProfileStorage.swift:12-35 | Getting after setting returns the value set. |
| MemoStorage.SetThenGetAfterRestart | ImageFeed/Storage/ProfileStorage.swift:12-35 | With an empty memo, what was stored reads back when encoding round-trips. |
| MemoStorage.MemoShadowsStore | ImageFeed/Storage/ProfileStorage.swift:14-16 | While memoised, the store's contents do not matter. |
| MemoStorage.FreshForInterval | ImageFeed/Storage/ProfileStorage.swift:48-51 | A value is fresh 900 seconds after it was set and expired at 901. |
| MemoStorage.ClearKeepsExpiry | ImageFeed/Storage/ProfileStorage.swift:33-35 | Setting nil does not change whether the storage has expired. |
| ProfileStorage.ProfileRoundTrip | ImageFeed/Storage/ProfileStorage.swift:12-51 | A stored profile reads back, with and without the memo, and stays fresh for 900 seconds. |
| ProfileStorage.ClearProfile | ImageFeed/Storage/ProfileStorage.swift:26-46 | Clearing reads back nil and keeps the timestamp. |
| ProfileImageStorage.ProfileImageRoundTrip | ImageFeed/Storage/ProfileImageStorage.swift:12-51 | A stored image reads back, with and without the memo, and stays fresh for 900 seconds. |
| ProfileImageStorage.StoragesIndependent | ImageFeed/Storage/ProfileImageStorage.swift:6-7 | The profile and image storages use separate keys. Neither write changes the other's data, expiry or the token. |
| OAuth2TokenStorage.Token | ImageFeed/Storage/OAuth2TokenStorage.swift:10-13 | The getter returns exactly the string stored under `OAuth2TokenStorage`. |
| OAuth2TokenStorage.SetToken | ImageFeed/Storage/OAuth2TokenStorage.swift:14-16 | After a set, the getter returns the value set, nil included. No other key changes. |
| OAuth2TokenStorage.TokenIsStored | ImageFeed/Storage/OAuth2TokenStorage.swift:6-16 | A string under the key is the token; no key means no token. |
| OAuth2Storage.Get | ImageFeed/Storage/OAuth2Storage.swift:11-20 | The memo is returned when present. Otherwise the store is read and memoised. |
| OAuth2Storage.Set | ImageFeed/Storage/OAuth2Storage.swift:21-24 | Both the memo and the store take the value; nil clears both. |
| OAuth2Storage.SetThenGet | ImageFeed/Storage/OAuth2Storage.swift:11-24 | Getting after setting returns the value set, and the memo agrees with the store. |
| OAuth2Storage.SetThenGetAfterRestart | ImageFeed/Storage/OAuth2Storage.swift:17-23 | With an empty memo, the stored token reads back. |
| OAuth2Storage.GetCoherent | ImageFeed/Storage/OAuth2Storage.swift:11-20 | While the memo agrees with the store, a get returns the stored token and keeps them in agreement. |
| OAuth2Storage.SharedKey | ImageFeed/Storage/OAuth2Storage.swift:6 | Both token classes use the same key, so an empty memo reads what `OAuth2TokenStorage` holds. |
| OAuth2Storage.OtherWriterShadowed | ImageFeed/Storage/OAuth2Storage.swift:13-19 | A write through `OAuth2TokenStorage` is seen only while the memo is empty. |
| OAuth2Storage.StaleMemoWitness | ImageFeed/Storage/OAuth2Storage.swift:13-15 | A memoised old token hides a newer token written through the other class. |

## Left out

- `adaptRequestSize`: the resize of `itemsPerPage` uses Double averages and a square
  root. The new page size is a parameter `adapted` of `CompletePage`; only the
  five-entry history window is modelled.
- Int32 overflow: positions are unbounded integers, so the trap of a shift that
  overflows `Int32` is not modelled. Some `Int32(_:)` conversions trap outside the
  range, and these are bounded by a `FitsInt32` precondition:
  - width and height in `UpdateFrom`;
  - the two range bounds in `PhotoCache.GetCachedPhotos` (PhotoCacheService.swift:174-175).

  The range laws and `CacheRefinement.RangeAgrees` carry the same precondition.
- PhotoCache.SaveAll: the `Int32(photoPosition)` conversions at
  PhotoCacheService.swift:24 and 26 are not bounded. A batch reaching a position
  outside `Int32` traps in the app, while the model stores the unbounded position.
- ImagesListService.CreatePhoto: the model follows release builds, where an
  unparseable date or URL gives nil. In debug builds `assertionFailure`
  (ImagesListService.swift:254, 263) traps instead.
- Core Data mechanics: background contexts, batch requests and
  `refreshAllObjects`. Each cache operation is one atomic step on a sequence of
  records. The order among rows with equal positions is left open, so
  `FetchAllAgrees` and `RangeAgrees` assume distinct positions.
- Store errors: every failure is a boolean input, defaulting to success:
  - a failed fetch, count or batch request: `ok`, `batchOk`, `fetchOk`;
  - a `fetchPhoto` lookup that throws: `lookupOk`, or the set `failed` of positions
    in a save;
  - a failed `saveContext`: `saveOk`.

  A failed save discards the background context's changes and leaves the store as
  it was; the error itself is only logged. The mock cannot fail, so
  `CacheRefinement` relates the two caches for lookups and saves that succeed.
- Foreign code: JSON, ISO 8601 dates, `URL(string:)` and `URLComponents`
  percent-encoding are parameters of the model. The percent-decoding in
  `TestCodeFromURL` is taken as already done.
- Threading: `DispatchQueue.main.async`, weak-self captures and task resumption
  are left out. Each completion is one step; a released service is not modelled.
- Notifications: `NotificationCenter` is modelled as a list of posted events;
  observers are not part of this model.
- Logging: `print` calls are left out.
- `ProfileLogoutService`: it is cookie, WebKit and window plumbing. It calls an
  `ImagesListService.reset()` that ImagesListService.swift does not define.
- UIKit: view controllers, cells, presenters, the zoom arithmetic and the web-view
  progress are left out.
- `AuthConfiguration.swift` is reduced to the fields the helpers read, and the
  standard configuration's URL and host.
- `ProfileService.Trim` is generic over a character class.
  `IsWhitespace` lists the Unicode white-space and newline characters that
  `.whitespacesAndNewlines` covers.
- `PhotoCache.LatestUpdate` takes the maximum stamp. That is what a descending
  sort with limit 1 returns on SQLite, which sorts NULL last in descending order.
