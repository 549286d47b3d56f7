/** The Core Data photo cache (ImageFeed/CoreData/PhotoCacheService.swift). The store
    is the sequence of `PhotoEntity` rows in insertion order; each public operation is
    one atomic step on it. Reads and deletes that can fail in Core Data take an `ok`
    flag saying whether the store answered; `now` stands for `Date()`. The writes
    take the outcome of each `fetchPhoto` lookup and of the final `saveContext`,
    both defaulting to success: a failed save discards every change the background
    context made, so the store is left as it was. */
module PhotoCache {
  import opened Base
  import opened Foundation
  import opened Photos
  import opened PhotoEntities
  import opened Seqs
  import opened Sorting

  /** `cacheExpirationInterval`: ten minutes. */
  const CacheExpirationInterval: int := 10 * 60

  datatype Store = Store(rows: seq<Entity>)

  const Empty: Store := Store([])

  function Position(e: Entity): int {
    e.position
  }

  /** Every row has an id and no id occurs twice: the invariant all operations keep. */
  ghost predicate Keyed(rows: seq<Entity>) {
    && (forall i :: 0 <= i < |rows| ==> rows[i].id.Some?)
    && (forall i, j :: 0 <= i < j < |rows| ==> rows[i].id != rows[j].id)
  }

  function Ids(rows: seq<Entity>): set<string> {
    set i | 0 <= i < |rows| && rows[i].id.Some? :: rows[i].id.value
  }

  /** The `id == %@` lookup with `fetchLimit = 1`: the first row carrying the id. */
  function FindById(rows: seq<Entity>, id: string): (r: Option<nat>)
    ensures r.Some? ==> r.value < |rows| && rows[r.value].id == Some(id)
    ensures r.None? <==> forall i :: 0 <= i < |rows| ==> rows[i].id != Some(id)
    ensures r.Some? <==> id in Ids(rows)
  {
    if rows == [] then None
    else if rows[0].id == Some(id) then Some(0)
    else
      var r := FindById(rows[1..], id);
      assert forall i :: 1 <= i < |rows| ==> rows[i] == rows[1..][i - 1];
      assert id in Ids(rows) <==> id in Ids(rows[1..]) by {
        if id in Ids(rows) {
          var i :| 0 <= i < |rows| && rows[i].id.Some? && rows[i].id.value == id;
          assert rows[1..][i - 1].id.value == id;
        }
        if id in Ids(rows[1..]) {
          var i :| 0 <= i < |rows[1..]| && rows[1..][i].id.Some? && rows[1..][i].id.value == id;
          assert rows[i + 1].id.value == id;
        }
      }
      if r.Some? then Some(r.value + 1) else None
  }

  /** `fetchPhoto(withId:in:)`: the lookup, or nil when `context.fetch` throws
      (`ok` false). A nil answer does not mean that no row has the id. */
  function FetchPhoto(rows: seq<Entity>, id: string, ok: bool): (r: Option<nat>)
    ensures !ok ==> r.None?
    ensures ok ==> (r.Some? <==> id in Ids(rows))
    ensures r.Some? ==> r.value < |rows| && rows[r.value].id == Some(id)
  {
    if ok then FindById(rows, id) else None
  }

  /** The position of the row carrying `id`, as Core Data would read it. */
  function PositionOf(rows: seq<Entity>, id: string): int {
    match FindById(rows, id)
    case Some(i) => rows[i].position
    case None => 0
  }

  // ---------------------------------------------------------------------------
  // savePhotos(_:startingFromPosition:)

  /** One iteration of the save loop: update the row the lookup found in place, or
      insert a new row when it found none. `lookupOk` false is a lookup that threw,
      after which a second row with the same id is inserted. */
  function Upsert(rows: seq<Entity>, p: Photo, position: int, now: int, lookupOk: bool := true): (r: seq<Entity>)
    requires Storable(p)
    ensures |r| == |rows| || r == rows + [Create(p, position, now)]
    ensures !lookupOk ==> r == rows + [Create(p, position, now)]
  {
    match FetchPhoto(rows, p.id, lookupOk)
    case Some(i) => rows[i := UpdateFrom(rows[i], p, position, now)]
    case None => rows + [Create(p, position, now)]
  }

  /** The loop `for (index, photo) in photos.enumerated()`, with `position + index`.
      `failed` holds the positions `position + index` whose lookup threw. Each photo
      adds at most one row, and only rows that are added grow the store. */
  function SaveAll(rows: seq<Entity>, photos: seq<Photo>, position: int, now: int, failed: set<int> := {}): (r: seq<Entity>)
    requires forall i :: 0 <= i < |photos| ==> Storable(photos[i])
    ensures |rows| <= |r| <= |rows| + |photos|
    ensures |r| == |rows| + |photos| ==> r[..|rows|] == rows
    decreases |photos|
  {
    if photos == [] then rows
    else SaveAll(Upsert(rows, photos[0], position, now, position !in failed), photos[1..], position + 1, now, failed)
  }

  /** `savePhotos(_:startingFromPosition:)`: the loop, then `saveContext`; when the
      save fails (`saveOk` false) none of the loop's writes reach the store. */
  function SavePhotos(s: Store, photos: seq<Photo>, position: int, now: int,
                      failed: set<int> := {}, saveOk: bool := true): (r: Store)
    requires forall i :: 0 <= i < |photos| ==> Storable(photos[i])
    ensures !saveOk ==> r == s
    ensures |s.rows| <= |r.rows| <= |s.rows| + |photos|
  {
    if saveOk then Store(SaveAll(s.rows, photos, position, now, failed)) else s
  }

  // ---------------------------------------------------------------------------
  // shiftCachedPhotosPositions(by:)

  function Shifted(e: Entity, offset: int): Entity {
    e.(position := e.position + offset)
  }

  /** The `NSBatchUpdateRequest` setting `position = position + offset` on every row. */
  function ShiftBatch(rows: seq<Entity>, offset: int): seq<Entity> {
    Map((e: Entity) => Shifted(e, offset), rows)
  }

  /** The fallback: fetch every entity and add the offset one by one. */
  function ShiftFallback(rows: seq<Entity>, offset: int): seq<Entity> {
    if rows == [] then [] else [Shifted(rows[0], offset)] + ShiftFallback(rows[1..], offset)
  }

  /** `batchOk`: the batch update succeeded; `fetchOk`: the fallback's fetch succeeded;
      `saveOk`: the fallback's `saveContext` succeeded. The batch request writes to the
      store directly and needs no save. */
  function ShiftCachedPhotosPositions(s: Store, offset: int, batchOk: bool, fetchOk: bool, saveOk: bool := true): Store {
    if batchOk then Store(ShiftBatch(s.rows, offset))
    else if fetchOk && saveOk then Store(ShiftFallback(s.rows, offset))
    else s
  }

  // ---------------------------------------------------------------------------
  // Reads

  /** `compactMap { $0.toPhoto() }` as a function value. */
  function Convert(syntax: UrlSyntax): Entity -> Option<Photo> {
    (e: Entity) => ToPhoto(syntax, e)
  }

  /** `fetchAllCachedPhotos()`: rows sorted by position, converted, failures dropped;
      `[]` when the fetch fails. */
  function FetchAllCachedPhotos(syntax: UrlSyntax, s: Store, ok: bool): seq<Photo> {
    if !ok then []
    else CompactMap(Convert(syntax), Sort(s.rows, Position))
  }

  /** The most recent `lastUpdated` of all rows. In a descending sort Core Data's
      SQLite store puts rows without a date last, so the first row of the sort holds
      this value, or no date at all when no row has one. */
  function LatestUpdate(rows: seq<Entity>): (r: Option<int>)
    ensures r.None? <==> forall i :: 0 <= i < |rows| ==> rows[i].lastUpdated.None?
    ensures r.Some? ==> exists i :: 0 <= i < |rows| && rows[i].lastUpdated == r
    ensures r.Some? ==> forall i :: 0 <= i < |rows| && rows[i].lastUpdated.Some? ==>
                                    rows[i].lastUpdated.value <= r.value
  {
    if rows == [] then None
    else
      var rest := LatestUpdate(rows[1..]);
      assert forall i :: 1 <= i < |rows| ==> rows[i] == rows[1..][i - 1];
      match (rows[0].lastUpdated, rest)
      case (None, _) => rest
      case (Some(t), None) => Some(t)
      case (Some(t), Some(u)) => if t >= u then Some(t) else Some(u)
  }

  /** `needsCacheRefresh()`: `ok` says whether the fetch succeeded. */
  function NeedsCacheRefresh(s: Store, now: int, ok: bool): bool {
    if !ok then true
    else match LatestUpdate(s.rows)
      case None => true
      case Some(t) => now - t > CacheExpirationInterval
  }

  /** `photoExists(withId:)`: a failed fetch reads as absent. */
  function PhotoExists(s: Store, id: string, ok: bool): (r: bool)
    ensures r <==> ok && exists i :: 0 <= i < |s.rows| && s.rows[i].id == Some(id)
  {
    ok && FindById(s.rows, id).Some?
  }

  /** `getCachedPhotosCount()`: a failed count reads as zero. */
  function GetCachedPhotosCount(s: Store, ok: bool): (r: nat)
    ensures ok ==> r == |s.rows|
    ensures !ok ==> r == 0
  {
    if ok then |s.rows| else 0
  }

  /** The predicate `position >= start AND position <= end`. */
  function InRange(start: int, count: int): Entity -> bool {
    (e: Entity) => start <= e.position <= start + count - 1
  }

  /** `getCachedPhotos(from:count:)`. Both bounds go through `Int32(...)`, which traps
      outside the 32-bit range. */
  function GetCachedPhotos(syntax: UrlSyntax, s: Store, start: int, count: int, ok: bool): seq<Photo>
    requires FitsInt32(start) && FitsInt32(start + count - 1)
  {
    if !ok then []
    else CompactMap(Convert(syntax), Sort(Filter(InRange(start, count), s.rows), Position))
  }

  // ---------------------------------------------------------------------------
  // Writes

  /** `updatePhotoLikeStatus(photoId:isLiked:)`: a lookup that throws or finds
      nothing is a no-op, and so is a failed `saveContext`. */
  function UpdatePhotoLikeStatus(s: Store, id: string, isLiked: bool,
                                 lookupOk: bool := true, saveOk: bool := true): Store {
    match FetchPhoto(s.rows, id, lookupOk)
    case Some(i) => if saveOk then Store(s.rows[i := s.rows[i].(isLiked := isLiked)]) else s
    case None => s
  }

  /** `clearCache()`: `ok` says whether the batch delete succeeded. */
  function ClearCache(s: Store, ok: bool): Store {
    if ok then Empty else s
  }
}
