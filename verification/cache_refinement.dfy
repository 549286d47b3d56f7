/** The in-memory mock and the Core Data cache implement the same
    `PhotoCacheServiceProtocol`. `Corresponds` relates a mock to a store holding the
    same (photo, position) entries under the same stamp. Each operation keeps the
    relation, on the paths where both implementations do the same thing, and every
    read answers alike. Where they differ, a lemma says how. */
module CacheRefinement {
  import opened Base
  import opened Foundation
  import opened Photos
  import opened PhotoEntities
  import opened Seqs
  import opened Sorting
  import PC = PhotoCache
  import PCL = PhotoCacheLaws
  import MC = MockPhotoCache
  import MCL = MockPhotoCacheLaws

  /** Stands in for the photo of a row that does not convert; related stores have
      no such rows. */
  const Placeholder: Photo := Photo("", None, Size(0, 0), "", false, "", PhotoURLs(URL(""), URL(""), URL("")))

  /** What the mock would hold for a row: the converted photo and the row's position. */
  function View(syntax: UrlSyntax, e: Entity): MC.CachedPhoto {
    MC.CachedPhoto(ToPhoto(syntax, e).GetOr(Placeholder), e.position)
  }

  function Viewer(syntax: UrlSyntax): Entity -> MC.CachedPhoto {
    (e: Entity) => View(syntax, e)
  }

  function Views(syntax: UrlSyntax, rows: seq<Entity>): seq<MC.CachedPhoto> {
    Map(Viewer(syntax), rows)
  }

  /** Every row converts back to a photo. */
  ghost predicate Readable(syntax: UrlSyntax, rows: seq<Entity>) {
    forall k :: 0 <= k < |rows| ==> ToPhoto(syntax, rows[k]).Some?
  }

  ghost predicate Corresponds(syntax: UrlSyntax, m: MC.Mock, s: PC.Store) {
    && PC.Keyed(s.rows)
    && Readable(syntax, s.rows)
    && MC.Valid(m)
    && (forall c :: c in m.cached <==> c in Views(syntax, s.rows))
    && m.lastUpdateTime == PC.LatestUpdate(s.rows)
  }

  // ---------------------------------------------------------------------------
  // Facts about single rows

  /** The record `create` writes reads back as the photo at its position. */
  lemma CreateView(syntax: UrlSyntax, p: Photo, position: int, now: int)
    requires Storable(p) && Reparses(syntax, p)
    ensures ToPhoto(syntax, Create(p, position, now)) == Some(p)
    ensures View(syntax, Create(p, position, now)) == MC.CachedPhoto(p, position)
  {
    RoundTrip(syntax, Blank, p, position, now);
  }

  /** Conversion does not look at the position. */
  lemma ToPhotoIgnoresPosition(syntax: UrlSyntax, e: Entity, position: int)
    ensures ToPhoto(syntax, e.(position := position)) == ToPhoto(syntax, e)
  {
  }

  /** Patching `isLiked` of a row patches the flag of the photo it converts to. */
  lemma ToPhotoLike(syntax: UrlSyntax, e: Entity, isLiked: bool)
    requires ToPhoto(syntax, e).Some?
    ensures ToPhoto(syntax, e.(isLiked := isLiked)) == Some(WithLike(ToPhoto(syntax, e).value, isLiked))
  {
  }

  lemma ViewsKeys(syntax: UrlSyntax, rows: seq<Entity>)
    requires PC.Keyed(rows) && Readable(syntax, rows)
    ensures |Views(syntax, rows)| == |rows|
    ensures forall k :: 0 <= k < |rows| ==>
      Views(syntax, rows)[k].photo.id == rows[k].id.value && Views(syntax, rows)[k].position == rows[k].position
    ensures DistinctKeys(Views(syntax, rows), MC.IdOf)
    ensures MC.Ids(Views(syntax, rows)) == PC.Ids(rows)
  {
    var v := Views(syntax, rows);
    assert forall k :: 0 <= k < |rows| ==> v[k] == View(syntax, rows[k]);
    forall x | x in PC.Ids(rows) ensures x in MC.Ids(v) {
      var k :| 0 <= k < |rows| && rows[k].id.Some? && rows[k].id.value == x;
      assert v[k].photo.id == x;
    }
  }

  lemma SameElementsIds(a: seq<MC.CachedPhoto>, b: seq<MC.CachedPhoto>)
    requires forall c :: c in a <==> c in b
    ensures MC.Ids(a) == MC.Ids(b)
  {
    forall x | x in MC.Ids(a) ensures x in MC.Ids(b) {
      var i :| 0 <= i < |a| && a[i].photo.id == x;
      assert a[i] in b;
    }
    forall x | x in MC.Ids(b) ensures x in MC.Ids(a) {
      var i :| 0 <= i < |b| && b[i].photo.id == x;
      assert b[i] in a;
    }
  }

  lemma {:induction false} LatestUpdateStamps(a: seq<Entity>, b: seq<Entity>)
    requires |a| == |b|
    requires forall k :: 0 <= k < |a| ==> a[k].lastUpdated == b[k].lastUpdated
    ensures PC.LatestUpdate(a) == PC.LatestUpdate(b)
  {
    if a != [] {
      LatestUpdateStamps(a[1..], b[1..]);
    }
  }

  // ---------------------------------------------------------------------------
  // Reads answer alike

  lemma InitialCorresponds(syntax: UrlSyntax)
    ensures Corresponds(syntax, MC.Initial, PC.Empty)
  {
  }

  /** Both caches report the same count. */
  lemma CountAgrees(syntax: UrlSyntax, m: MC.Mock, s: PC.Store)
    requires Corresponds(syntax, m, s)
    ensures MC.GetCachedPhotosCount(m) == PC.GetCachedPhotosCount(s, true)
  {
    ViewsKeys(syntax, s.rows);
    SameElementsIds(m.cached, Views(syntax, s.rows));
    MCL.IdsCount(m.cached);
    MCL.IdsCount(Views(syntax, s.rows));
  }

  /** Both caches agree on which ids are present. */
  lemma ExistsAgrees(syntax: UrlSyntax, m: MC.Mock, s: PC.Store, id: string)
    requires Corresponds(syntax, m, s)
    ensures MC.PhotoExists(m, id) == PC.PhotoExists(s, id, true)
  {
    ViewsKeys(syntax, s.rows);
    SameElementsIds(m.cached, Views(syntax, s.rows));
    assert MC.PhotoExists(m, id) <==> id in MC.Ids(m.cached);
    assert PC.PhotoExists(s, id, true) <==> id in PC.Ids(s.rows) by {
      if id in PC.Ids(s.rows) {
        var k :| 0 <= k < |s.rows| && s.rows[k].id.Some? && s.rows[k].id.value == id;
        assert s.rows[k].id == Some(id);
      }
    }
  }

  /** Both caches agree on whether a refresh is due. */
  lemma RefreshAgrees(syntax: UrlSyntax, m: MC.Mock, s: PC.Store, now: int)
    requires Corresponds(syntax, m, s)
    ensures MC.NeedsCacheRefresh(m, now) == PC.NeedsCacheRefresh(s, now, true)
  {
  }

  /** Over readable rows, converting is viewing and then taking the photo. */
  lemma {:induction false} ConvertAsView(syntax: UrlSyntax, x: seq<Entity>)
    requires forall e | e in x :: ToPhoto(syntax, e).Some?
    ensures CompactMap(PC.Convert(syntax), x) == Map(MC.PhotoOf, Views(syntax, x))
  {
    if x != [] {
      assert x[0] in x;
      ConvertAsView(syntax, x[1..]);
      assert Views(syntax, x)[1..] == Views(syntax, x[1..]);
    }
  }

  /** When rows hold distinct positions, so do the mock's entries. */
  lemma MockPositionsDistinct(syntax: UrlSyntax, m: MC.Mock, s: PC.Store)
    requires Corresponds(syntax, m, s)
    requires DistinctKeys(s.rows, PC.Position)
    ensures DistinctKeys(Views(syntax, s.rows), MC.Pos)
    ensures DistinctKeys(m.cached, MC.Pos)
  {
    var v := Views(syntax, s.rows);
    ViewsKeys(syntax, s.rows);
    forall i, j | 0 <= i < j < |m.cached| ensures MC.Pos(m.cached[i]) != MC.Pos(m.cached[j]) {
      assert m.cached[i] in v && m.cached[j] in v;
      var k := IndexOf(v, m.cached[i]);
      var l := IndexOf(v, m.cached[j]);
      assert MC.IdOf(m.cached[i]) != MC.IdOf(m.cached[j]);
      assert k != l;
    }
  }

  /** Sorting and viewing commute, and rows that all convert read back as views. */
  lemma SortedViews(syntax: UrlSyntax, x: seq<Entity>)
    requires forall e | e in x :: ToPhoto(syntax, e).Some?
    ensures CompactMap(PC.Convert(syntax), Sort(x, PC.Position))
            == Map(MC.PhotoOf, Sort(Views(syntax, x), MC.Pos))
  {
    var sorted := Sort(x, PC.Position);
    forall e | e in sorted ensures ToPhoto(syntax, e).Some? {
      assert e in multiset(x);
    }
    ConvertAsView(syntax, sorted);
    MapSort(Viewer(syntax), x, PC.Position, MC.Pos);
  }

  /** With distinct positions both caches return the same full listing. Equal
      positions are ordered arbitrarily by both implementations. */
  lemma FetchAllAgrees(syntax: UrlSyntax, m: MC.Mock, s: PC.Store)
    requires Corresponds(syntax, m, s)
    requires DistinctKeys(s.rows, PC.Position)
    ensures MC.FetchAllCachedPhotos(m) == PC.FetchAllCachedPhotos(syntax, s, true)
  {
    forall e | e in s.rows ensures ToPhoto(syntax, e).Some? { }
    SortedViews(syntax, s.rows);
    MockPositionsDistinct(syntax, m, s);
    SameElementsSameSort(m.cached, Views(syntax, s.rows), MC.Pos);
  }

  /** With distinct positions both caches return the same range listing. */
  lemma RangeAgrees(syntax: UrlSyntax, m: MC.Mock, s: PC.Store, start: int, count: int)
    requires Corresponds(syntax, m, s)
    requires DistinctKeys(s.rows, PC.Position)
    requires FitsInt32(start) && FitsInt32(start + count - 1)
    ensures MC.GetCachedPhotos(m, start, count) == PC.GetCachedPhotos(syntax, s, start, count, true)
  {
    var v := Views(syntax, s.rows);
    var sel := Filter(PC.InRange(start, count), s.rows);
    forall e | e in sel ensures ToPhoto(syntax, e).Some? {
      var k :| 0 <= k < |s.rows| && s.rows[k] == e;
    }
    SortedViews(syntax, sel);
    MapFilter(Viewer(syntax), PC.InRange(start, count), MC.InRange(start, count), s.rows);
    MockPositionsDistinct(syntax, m, s);
    FilterDistinctKeys(MC.InRange(start, count), m.cached, MC.Pos);
    FilterDistinctKeys(MC.InRange(start, count), v, MC.Pos);
    SameElementsSameSort(Filter(MC.InRange(start, count), m.cached), Filter(MC.InRange(start, count), v), MC.Pos);
  }

  // ---------------------------------------------------------------------------
  // Writes keep the correspondence

  /** A row the save leaves in place is still readable, and a row it writes reads
      back as the photo it came from. */
  lemma SavedRowView(syntax: UrlSyntax, rows: seq<Entity>, photos: seq<Photo>, position: int, now: int, e: Entity)
    requires Readable(syntax, rows)
    requires forall i :: 0 <= i < |photos| ==> Storable(photos[i]) && Reparses(syntax, photos[i])
    requires PCL.RowSaved(rows, photos, position, now, e)
    ensures ToPhoto(syntax, e).Some?
    ensures MCL.Saved(Views(syntax, rows), photos, position, View(syntax, e))
  {
    if e in rows && e.id.Some? && e.id.value !in BatchIds(photos) {
      var j :| 0 <= j < |rows| && rows[j] == e;
      assert Views(syntax, rows)[j] == View(syntax, e);
      assert ToPhoto(syntax, e).value.id == e.id.value;
    } else {
      var i :| LastOccurrence(photos, i) && Storable(photos[i]) && e == Create(photos[i], position + i, now);
      CreateView(syntax, photos[i], position + i, now);
    }
  }

  lemma SaveReadable(syntax: UrlSyntax, rows: seq<Entity>, photos: seq<Photo>, position: int, now: int)
    requires PC.Keyed(rows) && Readable(syntax, rows)
    requires forall i :: 0 <= i < |photos| ==> Storable(photos[i]) && Reparses(syntax, photos[i])
    ensures Readable(syntax, PC.SaveAll(rows, photos, position, now))
    ensures forall c | c in Views(syntax, PC.SaveAll(rows, photos, position, now)) ::
              MCL.Saved(Views(syntax, rows), photos, position, c)
  {
    var r := PC.SaveAll(rows, photos, position, now);
    PCL.SaveRowsOrigin(rows, photos, position, now);
    forall k | 0 <= k < |r|
      ensures ToPhoto(syntax, r[k]).Some?
      ensures MCL.Saved(Views(syntax, rows), photos, position, Views(syntax, r)[k])
    {
      assert r[k] in r;
      SavedRowView(syntax, rows, photos, position, now, r[k]);
    }
  }

  /** An entry the mock keeps through a save is still viewed after the Core Data save. */
  lemma SaveKeptView(syntax: UrlSyntax, rows: seq<Entity>, photos: seq<Photo>, position: int, now: int, c: MC.CachedPhoto)
    requires PC.Keyed(rows) && Readable(syntax, rows)
    requires forall i :: 0 <= i < |photos| ==> Storable(photos[i])
    requires c in Views(syntax, rows) && c.photo.id !in BatchIds(photos)
    ensures c in Views(syntax, PC.SaveAll(rows, photos, position, now))
  {
    var v := Views(syntax, rows);
    ViewsKeys(syntax, rows);
    var k :| 0 <= k < |v| && v[k] == c;
    PCL.SaveKeepsOthers(rows, photos, position, now, {}, k);
    assert Views(syntax, PC.SaveAll(rows, photos, position, now))[k] == c;
  }

  /** The entry the mock places for the last occurrence of an id is viewed after the
      Core Data save. */
  lemma SaveNewView(syntax: UrlSyntax, rows: seq<Entity>, photos: seq<Photo>, position: int, now: int, i: int)
    requires PC.Keyed(rows)
    requires forall i :: 0 <= i < |photos| ==> Storable(photos[i]) && Reparses(syntax, photos[i])
    requires LastOccurrence(photos, i)
    ensures MC.CachedPhoto(photos[i], position + i) in Views(syntax, PC.SaveAll(rows, photos, position, now))
  {
    var r := PC.SaveAll(rows, photos, position, now);
    PCL.SavePlacesLast(rows, photos, position, now, i);
    var k :| 0 <= k < |r| && r[k] == Create(photos[i], position + i, now);
    CreateView(syntax, photos[i], position + i, now);
    assert Views(syntax, r)[k] == MC.CachedPhoto(photos[i], position + i);
  }

  lemma SaveSameElements(syntax: UrlSyntax, m: MC.Mock, s: PC.Store, photos: seq<Photo>, position: int, now: int)
    requires Corresponds(syntax, m, s)
    requires forall i :: 0 <= i < |photos| ==> Storable(photos[i]) && Reparses(syntax, photos[i])
    ensures forall c :: c in MC.SavePhotos(m, photos, position, now).cached
                    <==> c in Views(syntax, PC.SaveAll(s.rows, photos, position, now))
  {
    var v := Views(syntax, s.rows);
    var w := Views(syntax, PC.SaveAll(s.rows, photos, position, now));
    MCL.MockSaveSpec(m, photos, position, now);
    SaveReadable(syntax, s.rows, photos, position, now);
    forall c ensures MCL.Saved(m.cached, photos, position, c) <==> MCL.Saved(v, photos, position, c) {
    }
    forall c | MCL.Saved(v, photos, position, c) ensures c in w {
      if c in v && c.photo.id !in BatchIds(photos) {
        SaveKeptView(syntax, s.rows, photos, position, now, c);
      } else {
        var i :| LastOccurrence(photos, i) && c == MC.CachedPhoto(photos[i], position + i);
        SaveNewView(syntax, s.rows, photos, position, now, i);
      }
    }
  }

  /** No row the save leaves behind is stamped later than `now`, provided none was
      before. */
  lemma SaveStampsBounded(rows: seq<Entity>, photos: seq<Photo>, position: int, now: int)
    requires PC.Keyed(rows)
    requires forall i :: 0 <= i < |photos| ==> Storable(photos[i])
    requires forall k :: 0 <= k < |rows| && rows[k].lastUpdated.Some? ==> rows[k].lastUpdated.value <= now
    ensures var r := PC.SaveAll(rows, photos, position, now);
      forall j :: 0 <= j < |r| && r[j].lastUpdated.Some? ==> r[j].lastUpdated.value <= now
  {
    var r := PC.SaveAll(rows, photos, position, now);
    PCL.SaveRowsOrigin(rows, photos, position, now);
    forall j | 0 <= j < |r| && r[j].lastUpdated.Some? ensures r[j].lastUpdated.value <= now {
      assert r[j] in r;
      if r[j] in rows && r[j].id.Some? && r[j].id.value !in BatchIds(photos) {
        var l :| 0 <= l < |rows| && rows[l] == r[j];
      }
    }
  }

  /** A non-empty save writes at least one row stamped `now`. */
  lemma SaveStampsNow(rows: seq<Entity>, photos: seq<Photo>, position: int, now: int)
    requires PC.Keyed(rows) && photos != []
    requires forall i :: 0 <= i < |photos| ==> Storable(photos[i])
    ensures var r := PC.SaveAll(rows, photos, position, now);
      exists k :: 0 <= k < |r| && r[k].lastUpdated == Some(now)
  {
    var r := PC.SaveAll(rows, photos, position, now);
    LastOccurrenceExists(photos, 0);
    var i :| LastOccurrence(photos, i) && photos[i].id == photos[0].id;
    PCL.SavePlacesLast(rows, photos, position, now, i);
    var k :| 0 <= k < |r| && r[k] == Create(photos[i], position + i, now);
    assert r[k].lastUpdated == Some(now);
  }

  /** The latest stamp is `now` when some row carries it and none is later. */
  lemma LatestIsNow(rows: seq<Entity>, now: int)
    requires forall j :: 0 <= j < |rows| && rows[j].lastUpdated.Some? ==> rows[j].lastUpdated.value <= now
    requires exists k :: 0 <= k < |rows| && rows[k].lastUpdated == Some(now)
    ensures PC.LatestUpdate(rows) == Some(now)
  {
    var k :| 0 <= k < |rows| && rows[k].lastUpdated == Some(now);
    var r := PC.LatestUpdate(rows);
    assert r.Some? by {
      assert !rows[k].lastUpdated.None?;
    }
    var i :| 0 <= i < |rows| && rows[i].lastUpdated == r;
    assert r.value <= now;
    assert now <= r.value;
  }

  /** A non-empty save stamps the store with `now`, provided the clock has not gone
      backwards since the last write. */
  lemma SaveStamp(rows: seq<Entity>, photos: seq<Photo>, position: int, now: int)
    requires PC.Keyed(rows) && photos != []
    requires forall i :: 0 <= i < |photos| ==> Storable(photos[i])
    requires forall k :: 0 <= k < |rows| && rows[k].lastUpdated.Some? ==> rows[k].lastUpdated.value <= now
    ensures PC.LatestUpdate(PC.SaveAll(rows, photos, position, now)) == Some(now)
  {
    var r := PC.SaveAll(rows, photos, position, now);
    SaveStampsBounded(rows, photos, position, now);
    SaveStampsNow(rows, photos, position, now);
    LatestIsNow(r, now);
  }

  /** A non-empty save keeps the caches related. */
  lemma SavePreserves(syntax: UrlSyntax, m: MC.Mock, s: PC.Store, photos: seq<Photo>, position: int, now: int)
    requires Corresponds(syntax, m, s)
    requires photos != []
    requires forall i :: 0 <= i < |photos| ==> Storable(photos[i]) && Reparses(syntax, photos[i])
    requires forall k :: 0 <= k < |s.rows| && s.rows[k].lastUpdated.Some? ==> s.rows[k].lastUpdated.value <= now
    ensures Corresponds(syntax, MC.SavePhotos(m, photos, position, now), PC.SavePhotos(s, photos, position, now))
  {
    PCL.SaveKeyed(s.rows, photos, position, now);
    SaveReadable(syntax, s.rows, photos, position, now);
    MCL.MockSaveSpec(m, photos, position, now);
    SaveSameElements(syntax, m, s, photos, position, now);
    SaveStamp(s.rows, photos, position, now);
  }

  /** Moving every row by `offset` moves every view by `offset`. */
  lemma ShiftedViews(syntax: UrlSyntax, rows: seq<Entity>, moved: seq<Entity>, offset: int)
    requires |moved| == |rows|
    requires forall k :: 0 <= k < |rows| ==> moved[k] == rows[k].(position := rows[k].position + offset)
    ensures Readable(syntax, rows) ==> Readable(syntax, moved)
    ensures Views(syntax, moved) == Map(MC.ShiftedBy(offset), Views(syntax, rows))
  {
    var v := Views(syntax, rows);
    var w := Views(syntax, moved);
    forall k | 0 <= k < |rows|
      ensures ToPhoto(syntax, moved[k]) == ToPhoto(syntax, rows[k])
      ensures w[k] == MC.ShiftedBy(offset)(v[k])
    {
      ToPhotoIgnoresPosition(syntax, rows[k], moved[k].position);
    }
  }

  lemma ShiftedStamps(rows: seq<Entity>, moved: seq<Entity>, offset: int)
    requires |moved| == |rows|
    requires forall k :: 0 <= k < |rows| ==> moved[k] == rows[k].(position := rows[k].position + offset)
    ensures PC.LatestUpdate(moved) == PC.LatestUpdate(rows)
  {
    LatestUpdateStamps(moved, rows);
  }

  lemma SortKeepsElements(cached: seq<MC.CachedPhoto>, v: seq<MC.CachedPhoto>)
    requires forall c :: c in cached <==> c in v
    ensures forall c :: c in Sort(cached, MC.Pos) <==> c in v
  {
    forall c ensures c in Sort(cached, MC.Pos) <==> c in cached {
      assert c in Sort(cached, MC.Pos) <==> c in multiset(Sort(cached, MC.Pos));
    }
  }

  /** On either Core Data path a shift moves every row by `offset`. */
  lemma ShiftMoves(s: PC.Store, offset: int, batchOk: bool, fetchOk: bool)
    requires batchOk || fetchOk
    ensures var r := PC.ShiftCachedPhotosPositions(s, offset, batchOk, fetchOk).rows;
      && |r| == |s.rows|
      && forall k :: 0 <= k < |s.rows| ==> r[k] == s.rows[k].(position := s.rows[k].position + offset)
  {
    PCL.ShiftSpec(s, offset, batchOk, fetchOk, true);
  }

  /** A shift that reaches Core Data moves every view by `offset` and keeps the
      rows keyed, readable and stamped as before. */
  lemma ShiftedStore(syntax: UrlSyntax, s: PC.Store, offset: int, batchOk: bool, fetchOk: bool)
    requires PC.Keyed(s.rows) && Readable(syntax, s.rows)
    requires batchOk || fetchOk
    ensures var r := PC.ShiftCachedPhotosPositions(s, offset, batchOk, fetchOk).rows;
      && PC.Keyed(r)
      && Readable(syntax, r)
      && Views(syntax, r) == Map(MC.ShiftedBy(offset), Views(syntax, s.rows))
      && PC.LatestUpdate(r) == PC.LatestUpdate(s.rows)
  {
    var r := PC.ShiftCachedPhotosPositions(s, offset, batchOk, fetchOk).rows;
    PCL.ShiftSpec(s, offset, batchOk, fetchOk, true);
    ShiftMoves(s, offset, batchOk, fetchOk);
    ShiftedViews(syntax, s.rows, r, offset);
    ShiftedStamps(s.rows, r, offset);
  }

  /** A non-zero shift that reaches Core Data keeps the caches related. */
  lemma ShiftMovedPreserves(syntax: UrlSyntax, m: MC.Mock, s: PC.Store, offset: int, batchOk: bool, fetchOk: bool)
    requires Corresponds(syntax, m, s)
    requires offset != 0 && (batchOk || fetchOk)
    ensures Corresponds(syntax, MC.ShiftCachedPhotosPositions(m, offset),
                        PC.ShiftCachedPhotosPositions(s, offset, batchOk, fetchOk))
  {
    var v := Views(syntax, s.rows);
    ShiftedStore(syntax, s, offset, batchOk, fetchOk);
    MCL.MockShiftSpec(m, offset);
    SortKeepsElements(m.cached, v);
    MapSameElements(MC.ShiftedBy(offset), Sort(m.cached, MC.Pos), v);
  }

  /** A shift keeps the caches related unless it is a non-zero shift that fails on
      both Core Data paths. */
  lemma ShiftPreserves(syntax: UrlSyntax, m: MC.Mock, s: PC.Store, offset: int, batchOk: bool, fetchOk: bool)
    requires Corresponds(syntax, m, s)
    requires offset == 0 || batchOk || fetchOk
    ensures Corresponds(syntax, MC.ShiftCachedPhotosPositions(m, offset),
                        PC.ShiftCachedPhotosPositions(s, offset, batchOk, fetchOk))
  {
    if offset == 0 {
      PCL.ShiftSpec(s, offset, batchOk, fetchOk, true);
      assert PC.ShiftCachedPhotosPositions(s, offset, batchOk, fetchOk).rows == s.rows;
    } else {
      ShiftMovedPreserves(syntax, m, s, offset, batchOk, fetchOk);
    }
  }

  /** The like patch, applied to one mock entry. */
  function Liked(id: string, isLiked: bool): MC.CachedPhoto -> MC.CachedPhoto {
    (c: MC.CachedPhoto) =>
      if c.photo.id == id then MC.CachedPhoto(WithLike(c.photo, isLiked), c.position) else c
  }

  /** Patching the flag of the rows keyed `id` patches the flag of the views of `id`. */
  lemma LikedViews(syntax: UrlSyntax, rows: seq<Entity>, patched: seq<Entity>, id: string, isLiked: bool)
    requires PC.Keyed(rows) && Readable(syntax, rows)
    requires |patched| == |rows|
    requires forall k :: 0 <= k < |rows| ==>
      patched[k] == (if rows[k].id == Some(id) then rows[k].(isLiked := isLiked) else rows[k])
    ensures Readable(syntax, patched)
    ensures Views(syntax, patched) == Map(Liked(id, isLiked), Views(syntax, rows))
    ensures PC.LatestUpdate(patched) == PC.LatestUpdate(rows)
  {
    var v := Views(syntax, rows);
    ViewsKeys(syntax, rows);
    forall k | 0 <= k < |rows|
      ensures ToPhoto(syntax, patched[k]).Some? && View(syntax, patched[k]) == Liked(id, isLiked)(v[k])
    {
      if rows[k].id == Some(id) {
        ToPhotoLike(syntax, rows[k], isLiked);
      }
    }
    LatestUpdateStamps(patched, rows);
  }

  /** A like update on the mock applies the like patch to every entry. */
  lemma MockLiked(m: MC.Mock, id: string, isLiked: bool)
    requires MC.Valid(m)
    ensures var r := MC.UpdatePhotoLikeStatus(m, id, isLiked);
      && MC.Valid(r)
      && r.lastUpdateTime == m.lastUpdateTime
      && r.cached == Map(Liked(id, isLiked), m.cached)
  {
    MCL.MockLikeSpec(m, id, isLiked);
  }

  /** A like update on Core Data applies the like patch to every view. */
  lemma StoreLiked(syntax: UrlSyntax, s: PC.Store, id: string, isLiked: bool)
    requires PC.Keyed(s.rows) && Readable(syntax, s.rows)
    ensures var r := PC.UpdatePhotoLikeStatus(s, id, isLiked).rows;
      && PC.Keyed(r)
      && Readable(syntax, r)
      && Views(syntax, r) == Map(Liked(id, isLiked), Views(syntax, s.rows))
      && PC.LatestUpdate(r) == PC.LatestUpdate(s.rows)
  {
    PCL.LikeSpec(s, id, isLiked, true, true);
    LikedViews(syntax, s.rows, PC.UpdatePhotoLikeStatus(s, id, isLiked).rows, id, isLiked);
  }

  /** A like update keeps the caches related. */
  lemma LikePreserves(syntax: UrlSyntax, m: MC.Mock, s: PC.Store, id: string, isLiked: bool)
    requires Corresponds(syntax, m, s)
    ensures Corresponds(syntax, MC.UpdatePhotoLikeStatus(m, id, isLiked), PC.UpdatePhotoLikeStatus(s, id, isLiked))
  {
    MockLiked(m, id, isLiked);
    StoreLiked(syntax, s, id, isLiked);
    MapSameElements(Liked(id, isLiked), m.cached, Views(syntax, s.rows));
  }

  /** A successful clear leaves both caches empty and related. */
  lemma ClearPreserves(syntax: UrlSyntax, m: MC.Mock, s: PC.Store)
    ensures Corresponds(syntax, MC.ClearCache(m), PC.ClearCache(s, true))
  {
  }

  /** Where the implementations part: saving an empty batch stamps the mock but
      writes nothing to Core Data, so a stale store stays stale while the mock
      reads as fresh. */
  lemma EmptySaveDiverges(syntax: UrlSyntax, m: MC.Mock, s: PC.Store, position: int, now: int)
    requires Corresponds(syntax, m, s)
    requires PC.NeedsCacheRefresh(s, now, true)
    ensures !MC.NeedsCacheRefresh(MC.SavePhotos(m, [], position, now), now)
    ensures PC.NeedsCacheRefresh(PC.SavePhotos(s, [], position, now), now, true)
  {
  }
}
