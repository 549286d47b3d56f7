/** What the Core Data photo cache guarantees, stated over the model of
    ImageFeed/CoreData/PhotoCacheService.swift. While every `fetchPhoto` lookup
    answers, every store the service can reach is `Keyed`: the lemmas assume it of
    their input and prove it of their output. Those laws spell out the successful
    lookups (`true`, or no failed positions `{}`) in their contracts;
    `FailedLookupDuplicates` and `SaveFailedLookupDuplicates` show that one failed
    lookup breaks uniqueness, and the laws that hold whatever the lookups and saves
    answer take those outcomes as parameters. */
module PhotoCacheLaws {
  import opened Base
  import opened Foundation
  import opened Photos
  import opened PhotoEntities
  import opened Seqs
  import opened Sorting
  import opened PhotoCache

  lemma {:induction false} KeyedCount(rows: seq<Entity>)
    requires Keyed(rows)
    ensures |Ids(rows)| == |rows|
  {
    if rows != [] {
      var last := |rows| - 1;
      KeyedCount(rows[..last]);
      assert Ids(rows) == Ids(rows[..last]) + {rows[last].id.value};
      assert rows[last].id.value !in Ids(rows[..last]);
    }
  }

  /** One save step keeps ids unique and adds the photo's id. */
  lemma UpsertKeyed(rows: seq<Entity>, p: Photo, position: int, now: int)
    requires Keyed(rows) && Storable(p)
    ensures var r := Upsert(rows, p, position, now, true);
      && Keyed(r)
      && Ids(r) == Ids(rows) + {p.id}
      && |r| == |rows| + (if p.id in Ids(rows) then 0 else 1)
  {
    var r := Upsert(rows, p, position, now);
    match FindById(rows, p.id)
    case Some(i) =>
      assert r == rows[i := Create(p, position, now)];
      assert Ids(r) == Ids(rows) by {
        forall x | x in Ids(rows) ensures x in Ids(r) {
          var k :| 0 <= k < |rows| && rows[k].id.Some? && rows[k].id.value == x;
          assert r[k].id.value == x;
        }
      }
    case None =>
      assert r == rows + [Create(p, position, now)];
      assert Ids(r) == Ids(rows) + {p.id} by {
        forall x | x in Ids(r) ensures x in Ids(rows) + {p.id} {
          var k :| 0 <= k < |r| && r[k].id.Some? && r[k].id.value == x;
          if k < |rows| { assert rows[k].id.value == x; }
        }
        assert r[|rows|].id.value == p.id;
        forall x | x in Ids(rows) ensures x in Ids(r) {
          var k :| 0 <= k < |rows| && rows[k].id.Some? && rows[k].id.value == x;
          assert r[k].id.value == x;
        }
      }
  }

  /** One save step leaves rows of other ids where and as they were, whatever the
      lookup answers. */
  lemma UpsertKeepsOthers(rows: seq<Entity>, p: Photo, position: int, now: int, lookupOk: bool)
    requires Storable(p)
    ensures var r := Upsert(rows, p, position, now, lookupOk);
      && |r| >= |rows|
      && (forall k :: 0 <= k < |rows| && rows[k].id != Some(p.id) ==> r[k] == rows[k])
  {
  }

  /** One save step writes the photo's record, and it is the only row with its id. */
  lemma UpsertWrites(rows: seq<Entity>, p: Photo, position: int, now: int)
    requires Keyed(rows) && Storable(p)
    ensures var r := Upsert(rows, p, position, now, true);
      && (forall k :: 0 <= k < |r| && r[k].id == Some(p.id) ==> r[k] == Create(p, position, now))
      && (exists k :: 0 <= k < |r| && r[k] == Create(p, position, now))
  {
    var r := Upsert(rows, p, position, now);
    match FindById(rows, p.id)
    case Some(i) =>
      assert r[i] == Create(p, position, now);
    case None =>
      assert r[|rows|] == Create(p, position, now);
  }

  /** One save step: the photo's row is (re)written, every other row is untouched. */
  lemma UpsertSpec(rows: seq<Entity>, p: Photo, position: int, now: int)
    requires Keyed(rows) && Storable(p)
    ensures var r := Upsert(rows, p, position, now, true);
      && Keyed(r)
      && Ids(r) == Ids(rows) + {p.id}
      && |r| == |rows| + (if p.id in Ids(rows) then 0 else 1)
      && (forall k :: 0 <= k < |rows| && rows[k].id != Some(p.id) ==> r[k] == rows[k])
      && (forall k :: 0 <= k < |r| && r[k].id == Some(p.id) ==> r[k] == Create(p, position, now))
      && (exists k :: 0 <= k < |r| && r[k] == Create(p, position, now))
  {
    UpsertKeyed(rows, p, position, now);
    UpsertKeepsOthers(rows, p, position, now, true);
    UpsertWrites(rows, p, position, now);
  }

  /** Whatever the lookup answers, one save step stores the photo's id and keeps
      every other id. */
  lemma UpsertIds(rows: seq<Entity>, p: Photo, position: int, now: int, lookupOk: bool)
    requires Storable(p)
    ensures Ids(Upsert(rows, p, position, now, lookupOk)) == Ids(rows) + {p.id}
  {
    var r := Upsert(rows, p, position, now, lookupOk);
    match FetchPhoto(rows, p.id, lookupOk)
    case Some(i) =>
      assert r == rows[i := Create(p, position, now)];
      forall x | x in Ids(rows) ensures x in Ids(r) {
        var k :| 0 <= k < |rows| && rows[k].id.Some? && rows[k].id.value == x;
        assert r[k].id.value == x;
      }
      forall x | x in Ids(r) ensures x in Ids(rows) {
        var k :| 0 <= k < |r| && r[k].id.Some? && r[k].id.value == x;
        if k == i { assert rows[i].id.value == x; } else { assert rows[k].id.value == x; }
      }
      assert r[i].id.value == p.id;
    case None =>
      assert r == rows + [Create(p, position, now)];
      forall x | x in Ids(r) ensures x in Ids(rows) + {p.id} {
        var k :| 0 <= k < |r| && r[k].id.Some? && r[k].id.value == x;
        if k < |rows| { assert rows[k].id.value == x; }
      }
      assert r[|rows|].id.value == p.id;
      forall x | x in Ids(rows) ensures x in Ids(r) {
        var k :| 0 <= k < |rows| && rows[k].id.Some? && rows[k].id.value == x;
        assert r[k].id.value == x;
      }
  }

  /** A lookup that throws makes the step insert a second row with a stored id:
      the store grows by a row although no new id arrives, and ids stop being
      unique. */
  lemma FailedLookupDuplicates(rows: seq<Entity>, p: Photo, position: int, now: int)
    requires Storable(p) && p.id in Ids(rows)
    ensures var r := Upsert(rows, p, position, now, false);
      && |r| == |rows| + 1
      && Ids(r) == Ids(rows)
      && !Keyed(r)
  {
    var r := Upsert(rows, p, position, now, false);
    UpsertIds(rows, p, position, now, false);
    var k :| 0 <= k < |rows| && rows[k].id.Some? && rows[k].id.value == p.id;
    assert r[k] == rows[k] && r[|rows|].id == Some(p.id);
  }

  /** Saving keeps ids unique and stores exactly the old ids plus the batch's. */
  lemma {:induction false} SaveKeyed(rows: seq<Entity>, photos: seq<Photo>, position: int, now: int)
    requires Keyed(rows)
    requires forall i :: 0 <= i < |photos| ==> Storable(photos[i])
    ensures var r := SaveAll(rows, photos, position, now, {});
      Keyed(r) && Ids(r) == Ids(rows) + BatchIds(photos) && |r| >= |rows|
    decreases |photos|
  {
    if photos != [] {
      UpsertKeyed(rows, photos[0], position, now);
      SaveKeyed(Upsert(rows, photos[0], position, now), photos[1..], position + 1, now);
      BatchIdsCons(photos);
    }
  }

  /** Rows whose id is not in the batch keep their values and their place, whatever
      the lookups answer. */
  lemma {:induction false} SaveKeepsOthers(rows: seq<Entity>, photos: seq<Photo>, position: int, now: int,
                                           failed: set<int>, k: int)
    requires forall i :: 0 <= i < |photos| ==> Storable(photos[i])
    requires 0 <= k < |rows| && rows[k].id.Some? && rows[k].id.value !in BatchIds(photos)
    ensures var r := SaveAll(rows, photos, position, now, failed);
      k < |r| && r[k] == rows[k]
    decreases |photos|
  {
    if photos != [] {
      var r1 := Upsert(rows, photos[0], position, now, position !in failed);
      UpsertKeepsOthers(rows, photos[0], position, now, position !in failed);
      BatchIdsCons(photos);
      SaveKeepsOthers(r1, photos[1..], position + 1, now, failed, k);
    }
  }

  /** Whatever the lookups answer, a save stores exactly the old ids plus the batch's. */
  lemma {:induction false} SaveIds(rows: seq<Entity>, photos: seq<Photo>, position: int, now: int, failed: set<int>)
    requires forall i :: 0 <= i < |photos| ==> Storable(photos[i])
    ensures Ids(SaveAll(rows, photos, position, now, failed)) == Ids(rows) + BatchIds(photos)
    decreases |photos|
  {
    if photos != [] {
      var ok := position !in failed;
      UpsertIds(rows, photos[0], position, now, ok);
      SaveIds(Upsert(rows, photos[0], position, now, ok), photos[1..], position + 1, now, failed);
      BatchIdsCons(photos);
    }
  }

  /** Saving a batch is saving its head, then the rest one position further on. */
  lemma SaveAllCons(rows: seq<Entity>, photos: seq<Photo>, position: int, now: int)
    requires photos != []
    requires forall i :: 0 <= i < |photos| ==> Storable(photos[i])
    ensures forall i :: 0 <= i < |photos[1..]| ==> Storable(photos[1..][i])
    ensures SaveAll(rows, photos, position, now)
            == SaveAll(Upsert(rows, photos[0], position, now), photos[1..], position + 1, now)
  {
  }

  /** The head case of `SavePlacesLast`: the first photo is also the last with its id. */
  lemma SavePlacesHead(rows: seq<Entity>, photos: seq<Photo>, position: int, now: int)
    requires Keyed(rows)
    requires forall i :: 0 <= i < |photos| ==> Storable(photos[i])
    requires LastOccurrence(photos, 0)
    ensures var r := SaveAll(rows, photos, position, now);
      exists k :: 0 <= k < |r| && r[k] == Create(photos[0], position, now)
  {
    var p := photos[0];
    var rest := photos[1..];
    var r1 := Upsert(rows, p, position, now);
    UpsertKeyed(rows, p, position, now);
    UpsertWrites(rows, p, position, now);
    var k :| 0 <= k < |r1| && r1[k] == Create(p, position, now);
    assert forall j :: 0 <= j < |rest| ==> rest[j] == photos[j + 1];
    assert p.id !in BatchIds(rest);
    assert r1[k].id.value == p.id;
    SaveKeepsOthers(r1, rest, position + 1, now, {}, k);
    SaveAllCons(rows, photos, position, now);
  }

  /** The last photo of the batch with a given id is stored at `position + i`, with
      the record `create` would make for it. */
  lemma {:induction false} SavePlacesLast(rows: seq<Entity>, photos: seq<Photo>, position: int, now: int, i: int)
    requires Keyed(rows)
    requires forall i :: 0 <= i < |photos| ==> Storable(photos[i])
    requires LastOccurrence(photos, i)
    ensures var r := SaveAll(rows, photos, position, now);
      exists k :: 0 <= k < |r| && r[k] == Create(photos[i], position + i, now)
    decreases |photos|
  {
    if i == 0 {
      SavePlacesHead(rows, photos, position, now);
    } else {
      var rest := photos[1..];
      var r1 := Upsert(rows, photos[0], position, now);
      UpsertKeyed(rows, photos[0], position, now);
      assert rest[i - 1] == photos[i];
      assert LastOccurrence(rest, i - 1) by {
        forall j | i - 1 < j < |rest| ensures rest[j].id != rest[i - 1].id {
          assert rest[j] == photos[j + 1];
        }
      }
      SavePlacesLast(r1, rest, position + 1, now, i - 1);
      var r := SaveAll(r1, rest, position + 1, now);
      SaveAllCons(rows, photos, position, now);
      var k :| 0 <= k < |r| && r[k] == Create(rest[i - 1], position + 1 + (i - 1), now);
      assert r[k] == Create(photos[i], position + i, now);
    }
  }

  /** `savePhotos` upserts by id. Ids stay unique, the stored ids are the old ones
      plus the batch's, rows of other ids are untouched and stay where they were, and
      the last photo of the batch with a given id is stored at `position + i` with
      the record `create` would make. */
  lemma SavePhotosSpec(s: Store, photos: seq<Photo>, position: int, now: int)
    requires Keyed(s.rows)
    requires forall i :: 0 <= i < |photos| ==> Storable(photos[i])
    ensures var r := SavePhotos(s, photos, position, now, {}, true).rows;
      && Keyed(r)
      && Ids(r) == Ids(s.rows) + BatchIds(photos)
      && (forall k :: 0 <= k < |s.rows| && s.rows[k].id.value !in BatchIds(photos) ==>
            k < |r| && r[k] == s.rows[k])
      && (forall i :: LastOccurrence(photos, i) ==>
            exists k :: 0 <= k < |r| && r[k] == Create(photos[i], position + i, now))
  {
    SaveKeyed(s.rows, photos, position, now);
    forall k | 0 <= k < |s.rows| && s.rows[k].id.value !in BatchIds(photos)
      ensures var r := SaveAll(s.rows, photos, position, now); k < |r| && r[k] == s.rows[k]
    {
      SaveKeepsOthers(s.rows, photos, position, now, {}, k);
    }
    forall i | LastOccurrence(photos, i)
      ensures var r := SaveAll(s.rows, photos, position, now);
        exists k :: 0 <= k < |r| && r[k] == Create(photos[i], position + i, now)
    {
      SavePlacesLast(s.rows, photos, position, now, i);
    }
  }

  /** Every row after one save step carries the photo's id or is the old row. */
  lemma UpsertOrigin(rows: seq<Entity>, p: Photo, position: int, now: int)
    requires Storable(p)
    ensures var r := Upsert(rows, p, position, now);
      forall k :: 0 <= k < |r| ==> r[k].id == Some(p.id) || (k < |rows| && r[k] == rows[k])
  {
  }

  /** The rows a save leaves behind: an old row whose id the batch does not
      mention, or the record `create` makes for the last photo of the batch with its
      id, at `position + i`. */
  ghost predicate RowSaved(before: seq<Entity>, photos: seq<Photo>, position: int, now: int, e: Entity) {
    || (e in before && e.id.Some? && e.id.value !in BatchIds(photos))
    || exists i :: LastOccurrence(photos, i) && Storable(photos[i]) && e == Create(photos[i], position + i, now)
  }

  lemma RowSavedStep(rows: seq<Entity>, photos: seq<Photo>, position: int, now: int, e: Entity)
    requires Keyed(rows) && photos != []
    requires forall i :: 0 <= i < |photos| ==> Storable(photos[i])
    requires RowSaved(Upsert(rows, photos[0], position, now), photos[1..], position + 1, now, e)
    ensures RowSaved(rows, photos, position, now, e)
  {
    var p := photos[0];
    var rest := photos[1..];
    var r1 := Upsert(rows, p, position, now);
    UpsertWrites(rows, p, position, now);
    UpsertOrigin(rows, p, position, now);
    BatchIdsCons(photos);
    assert forall j :: 0 <= j < |rest| ==> rest[j] == photos[j + 1];
    if e in r1 && e.id.Some? && e.id.value !in BatchIds(rest) {
      var k :| 0 <= k < |r1| && r1[k] == e;
      if e.id == Some(p.id) {
        assert LastOccurrence(photos, 0);
        assert e == Create(photos[0], position + 0, now);
      } else {
        assert e == rows[k];
      }
    } else {
      var i :| LastOccurrence(rest, i) && Storable(rest[i]) && e == Create(rest[i], position + 1 + i, now);
      assert LastOccurrence(photos, i + 1);
      assert e == Create(photos[i + 1], position + (i + 1), now);
    }
  }

  /** Every row after a save is an untouched old row or a freshly written one. */
  lemma {:induction false} SaveRowsOrigin(rows: seq<Entity>, photos: seq<Photo>, position: int, now: int)
    requires Keyed(rows)
    requires forall i :: 0 <= i < |photos| ==> Storable(photos[i])
    ensures forall e | e in SaveAll(rows, photos, position, now) :: RowSaved(rows, photos, position, now, e)
    decreases |photos|
  {
    if photos != [] {
      var r1 := Upsert(rows, photos[0], position, now);
      UpsertKeyed(rows, photos[0], position, now);
      SaveRowsOrigin(r1, photos[1..], position + 1, now);
      forall e | e in SaveAll(rows, photos, position, now)
        ensures RowSaved(rows, photos, position, now, e)
      {
        RowSavedStep(rows, photos, position, now, e);
      }
    }
  }

  /** The number of rows after a save is the number of distinct ids among the old
      rows and the batch: re-saving a known id never adds a row. */
  lemma SaveCount(s: Store, photos: seq<Photo>, position: int, now: int)
    requires Keyed(s.rows)
    requires forall i :: 0 <= i < |photos| ==> Storable(photos[i])
    ensures GetCachedPhotosCount(SavePhotos(s, photos, position, now, {}, true), true)
            == |Ids(s.rows)| + |BatchIds(photos) - Ids(s.rows)|
  {
    var r := SaveAll(s.rows, photos, position, now);
    SaveKeyed(s.rows, photos, position, now);
    KeyedCount(r);
    var a, b := Ids(s.rows), BatchIds(photos);
    assert a + b == a + (b - a);
    assert a * (b - a) == {};
  }

  /** Re-saving a stored photo whose lookup throws adds a row: the count exceeds the
      number of distinct ids that `SaveCount` gives, and ids stop being unique. */
  lemma SaveFailedLookupDuplicates(s: Store, p: Photo, position: int, now: int)
    requires Keyed(s.rows) && Storable(p) && p.id in Ids(s.rows)
    ensures var r := SavePhotos(s, [p], position, now, {position}, true);
      && GetCachedPhotosCount(r, true) == |Ids(s.rows)| + |BatchIds([p]) - Ids(s.rows)| + 1
      && Ids(r.rows) == Ids(s.rows)
      && !Keyed(r.rows)
  {
    FailedLookupDuplicates(s.rows, p, position, now);
    KeyedCount(s.rows);
    assert SaveAll(s.rows, [p], position, now, {position}) == Upsert(s.rows, p, position, now, false);
    assert BatchIds([p]) == {p.id};
  }

  // ---------------------------------------------------------------------------

  /** The per-row fallback has exactly the effect of the batch update. */
  lemma {:induction false} FallbackMatchesBatch(rows: seq<Entity>, offset: int)
    ensures ShiftFallback(rows, offset) == ShiftBatch(rows, offset)
  {
    if rows != [] {
      FallbackMatchesBatch(rows[1..], offset);
    }
  }

  /** Shifting adds the offset to every row's position and changes nothing else,
      `lastUpdated` included, whichever path runs; when the batch update fails and
      the fallback's fetch or save fails too, the store is unchanged. */
  lemma ShiftSpec(s: Store, offset: int, batchOk: bool, fetchOk: bool, saveOk: bool)
    ensures var r := ShiftCachedPhotosPositions(s, offset, batchOk, fetchOk, saveOk);
      && |r.rows| == |s.rows|
      && ((batchOk || (fetchOk && saveOk)) ==>
            forall k :: 0 <= k < |s.rows| ==>
              && r.rows[k].position == s.rows[k].position + offset
              && r.rows[k].lastUpdated == s.rows[k].lastUpdated
              && r.rows[k] == s.rows[k].(position := r.rows[k].position))
      && (!batchOk && !(fetchOk && saveOk) ==> r == s)
      && (Keyed(s.rows) ==> Keyed(r.rows))
  {
    FallbackMatchesBatch(s.rows, offset);
  }

  // ---------------------------------------------------------------------------

  /** In a keyed store a converted row's id leads back to that row. */
  lemma PositionOfRow(syntax: UrlSyntax, rows: seq<Entity>, x: Entity)
    requires Keyed(rows) && x in rows && ToPhoto(syntax, x).Some?
    ensures PositionOf(rows, ToPhoto(syntax, x).value.id) == x.position
  {
    var m :| 0 <= m < |rows| && rows[m] == x;
    var i := FindById(rows, x.id.value).value;
    assert i == m;
  }

  /** Reads convert the rows they select, in ascending position order. */
  lemma ConvertedSorted(syntax: UrlSyntax, rows: seq<Entity>, sel: seq<Entity>)
    requires Keyed(rows)
    requires forall x | x in sel :: x in rows
    requires SortedBy(sel, Position)
    ensures var r := CompactMap(Convert(syntax), sel);
      forall i, j :: 0 <= i < j < |r| ==> PositionOf(rows, r[i].id) <= PositionOf(rows, r[j].id)
  {
    var f := Convert(syntax);
    var kb := (p: Photo) => PositionOf(rows, p.id);
    forall x | x in sel && f(x).Some?
      ensures kb(f(x).value) == Position(x)
    {
      PositionOfRow(syntax, rows, x);
    }
    CompactMapSorted(f, sel, Position, kb);
  }

  /** Sorting keeps exactly the same rows. */
  lemma SortSameRows(rows: seq<Entity>)
    ensures forall x | x in Sort(rows, Position) :: x in rows
    ensures forall x | x in rows :: x in Sort(rows, Position)
  {
    var sorted := Sort(rows, Position);
    forall x | x in sorted ensures x in rows { assert x in multiset(sorted); }
    forall x | x in rows ensures x in sorted { assert x in multiset(rows); }
  }

  /** Every photo a read returns comes from a convertible row of the selection. */
  lemma ConvertedSound(syntax: UrlSyntax, sel: seq<Entity>, y: Photo)
    requires y in CompactMap(Convert(syntax), Sort(sel, Position))
    ensures exists k :: 0 <= k < |sel| && ToPhoto(syntax, sel[k]) == Some(y)
  {
    SortSameRows(sel);
    var x :| x in Sort(sel, Position) && ToPhoto(syntax, x) == Some(y);
    var k :| 0 <= k < |sel| && sel[k] == x;
  }

  /** Every convertible row of the selection shows up in the read. */
  lemma ConvertedComplete(syntax: UrlSyntax, sel: seq<Entity>, x: Entity)
    requires x in sel && ToPhoto(syntax, x).Some?
    ensures ToPhoto(syntax, x).value in CompactMap(Convert(syntax), Sort(sel, Position))
  {
    SortSameRows(sel);
  }

  /** `fetchAllCachedPhotos` returns photos in ascending position order. */
  lemma FetchAllOrdered(syntax: UrlSyntax, s: Store, ok: bool)
    requires Keyed(s.rows)
    ensures var r := FetchAllCachedPhotos(syntax, s, ok);
      forall i, j :: 0 <= i < j < |r| ==> PositionOf(s.rows, r[i].id) <= PositionOf(s.rows, r[j].id)
  {
    if ok {
      var sorted := Sort(s.rows, Position);
      SortSameRows(s.rows);
      ConvertedSorted(syntax, s.rows, sorted);
      assert FetchAllCachedPhotos(syntax, s, ok) == CompactMap(Convert(syntax), sorted);
    }
  }

  /** `fetchAllCachedPhotos` lists exactly the convertible rows, and nothing when the
      fetch fails. */
  lemma FetchAllSpec(syntax: UrlSyntax, s: Store, ok: bool)
    ensures !ok ==> FetchAllCachedPhotos(syntax, s, ok) == []
    ensures forall y | y in FetchAllCachedPhotos(syntax, s, ok) ::
      exists k :: 0 <= k < |s.rows| && ToPhoto(syntax, s.rows[k]) == Some(y)
    ensures ok ==> forall k :: 0 <= k < |s.rows| && ToPhoto(syntax, s.rows[k]).Some? ==>
      ToPhoto(syntax, s.rows[k]).value in FetchAllCachedPhotos(syntax, s, ok)
  {
    if ok {
      var r := FetchAllCachedPhotos(syntax, s, ok);
      assert r == CompactMap(Convert(syntax), Sort(s.rows, Position));
      forall y | y in r
        ensures exists k :: 0 <= k < |s.rows| && ToPhoto(syntax, s.rows[k]) == Some(y)
      {
        ConvertedSound(syntax, s.rows, y);
      }
      forall k | 0 <= k < |s.rows| && ToPhoto(syntax, s.rows[k]).Some?
        ensures ToPhoto(syntax, s.rows[k]).value in r
      {
        ConvertedComplete(syntax, s.rows, s.rows[k]);
      }
    }
  }

  /** When every row converts, a successful fetch returns one photo per row. */
  lemma FetchAllLength(syntax: UrlSyntax, s: Store)
    requires forall k :: 0 <= k < |s.rows| ==> ToPhoto(syntax, s.rows[k]).Some?
    ensures |FetchAllCachedPhotos(syntax, s, true)| == |s.rows|
  {
    var sorted := Sort(s.rows, Position);
    SortSameRows(s.rows);
    forall i | 0 <= i < |sorted| ensures ToPhoto(syntax, sorted[i]).Some? {
      assert sorted[i] in sorted;
    }
    assert |sorted| == |multiset(sorted)| == |multiset(s.rows)| == |s.rows|;
  }

  lemma RangeOrdered(syntax: UrlSyntax, s: Store, start: int, count: int, ok: bool)
    requires Keyed(s.rows)
    requires FitsInt32(start) && FitsInt32(start + count - 1)
    ensures var r := GetCachedPhotos(syntax, s, start, count, ok);
      forall i, j :: 0 <= i < j < |r| ==> PositionOf(s.rows, r[i].id) <= PositionOf(s.rows, r[j].id)
  {
    if ok {
      var sel := Filter(InRange(start, count), s.rows);
      var sorted := Sort(sel, Position);
      SortSameRows(sel);
      assert forall x | x in sorted :: x in s.rows;
      ConvertedSorted(syntax, s.rows, sorted);
      assert GetCachedPhotos(syntax, s, start, count, ok) == CompactMap(Convert(syntax), sorted);
    }
  }

  lemma RangeSound(syntax: UrlSyntax, s: Store, start: int, count: int, ok: bool)
    requires FitsInt32(start) && FitsInt32(start + count - 1)
    ensures var r := GetCachedPhotos(syntax, s, start, count, ok);
      forall y | y in r :: exists k :: 0 <= k < |s.rows| && ToPhoto(syntax, s.rows[k]) == Some(y)
                                       && start <= s.rows[k].position <= start + count - 1
  {
    if ok {
      var sel := Filter(InRange(start, count), s.rows);
      var r := GetCachedPhotos(syntax, s, start, count, ok);
      assert r == CompactMap(Convert(syntax), Sort(sel, Position));
      forall y | y in r
        ensures exists k :: 0 <= k < |s.rows| && ToPhoto(syntax, s.rows[k]) == Some(y)
                            && start <= s.rows[k].position <= start + count - 1
      {
        ConvertedSound(syntax, sel, y);
        var m :| 0 <= m < |sel| && ToPhoto(syntax, sel[m]) == Some(y);
        var x := sel[m];
        assert x in sel;
        assert x in s.rows && InRange(start, count)(x);
        var k := IndexOf(s.rows, x);
        assert ToPhoto(syntax, s.rows[k]) == Some(y) && start <= s.rows[k].position <= start + count - 1;
      }
    }
  }

  lemma RangeComplete(syntax: UrlSyntax, s: Store, start: int, count: int)
    requires FitsInt32(start) && FitsInt32(start + count - 1)
    ensures forall k :: 0 <= k < |s.rows| && ToPhoto(syntax, s.rows[k]).Some?
                        && start <= s.rows[k].position <= start + count - 1 ==>
                          ToPhoto(syntax, s.rows[k]).value in GetCachedPhotos(syntax, s, start, count, true)
  {
    var sel := Filter(InRange(start, count), s.rows);
    forall k | 0 <= k < |s.rows| && ToPhoto(syntax, s.rows[k]).Some?
               && start <= s.rows[k].position <= start + count - 1
      ensures ToPhoto(syntax, s.rows[k]).value in GetCachedPhotos(syntax, s, start, count, true)
    {
      assert s.rows[k] in s.rows;
      ConvertedComplete(syntax, sel, s.rows[k]);
    }
  }

  lemma RangeEmpty(syntax: UrlSyntax, s: Store, start: int, count: int, ok: bool)
    requires FitsInt32(start) && FitsInt32(start + count - 1)
    requires !ok || count <= 0
    ensures GetCachedPhotos(syntax, s, start, count, ok) == []
  {
    if ok {
      var sel := Filter(InRange(start, count), s.rows);
      HeadIsMember(sel);
      assert sel == [];
    }
  }

  /** `getCachedPhotos(from:count:)` lists exactly the convertible rows whose
      position lies in `[start, start + count - 1]`, ascending; a count of zero or
      less selects nothing. */
  lemma RangeSpec(syntax: UrlSyntax, s: Store, start: int, count: int, ok: bool)
    requires Keyed(s.rows)
    requires FitsInt32(start) && FitsInt32(start + count - 1)
    ensures var r := GetCachedPhotos(syntax, s, start, count, ok);
      && (!ok || count <= 0 ==> r == [])
      && (forall i, j :: 0 <= i < j < |r| ==> PositionOf(s.rows, r[i].id) <= PositionOf(s.rows, r[j].id))
      && (forall y | y in r :: exists k :: 0 <= k < |s.rows| && ToPhoto(syntax, s.rows[k]) == Some(y)
                                           && start <= s.rows[k].position <= start + count - 1)
      && (ok ==> forall k :: 0 <= k < |s.rows| && ToPhoto(syntax, s.rows[k]).Some?
                             && start <= s.rows[k].position <= start + count - 1 ==>
                               ToPhoto(syntax, s.rows[k]).value in r)
  {
    if !ok || count <= 0 {
      RangeEmpty(syntax, s, start, count, ok);
    }
    RangeOrdered(syntax, s, start, count, ok);
    RangeSound(syntax, s, start, count, ok);
    RangeComplete(syntax, s, start, count);
  }

  /** The cache needs a refresh exactly when the fetch fails or no row was written
      in the last ten minutes; a row written exactly 600 seconds ago is still fresh. */
  lemma NeedsRefreshSpec(s: Store, now: int, ok: bool)
    ensures !NeedsCacheRefresh(s, now, ok) <==>
              ok && exists i :: 0 <= i < |s.rows| && s.rows[i].lastUpdated.Some?
                                && now - s.rows[i].lastUpdated.value <= CacheExpirationInterval
    ensures s.rows == [] ==> NeedsCacheRefresh(s, now, ok)
  {
    if ok && LatestUpdate(s.rows).Some? {
      var t := LatestUpdate(s.rows).value;
      var i :| 0 <= i < |s.rows| && s.rows[i].lastUpdated == Some(t);
    }
  }

  /** The freshness boundary at one row: 600 seconds old is fresh, 601 is stale. */
  lemma FreshnessBoundary(e: Entity, t: int)
    requires e.lastUpdated == Some(t)
    ensures !NeedsCacheRefresh(Store([e]), t + 600, true)
    ensures NeedsCacheRefresh(Store([e]), t + 601, true)
  {
    NeedsRefreshSpec(Store([e]), t + 600, true);
  }

  /** Liking patches `isLiked` of the matching row only: its position and
      `lastUpdated` stay as they were. An unknown id, a lookup that throws and a
      failed save each change nothing. */
  lemma LikeSpec(s: Store, id: string, isLiked: bool, lookupOk: bool, saveOk: bool)
    requires Keyed(s.rows)
    ensures var r := UpdatePhotoLikeStatus(s, id, isLiked, lookupOk, saveOk);
      && Keyed(r.rows)
      && (id !in Ids(s.rows) || !lookupOk || !saveOk ==> r == s)
      && |r.rows| == |s.rows|
      && (forall k :: 0 <= k < |s.rows| ==>
            r.rows[k] == (if lookupOk && saveOk && s.rows[k].id == Some(id)
                          then s.rows[k].(isLiked := isLiked) else s.rows[k]))
  {
  }

  /** After a successful clear: no rows, every id reads as absent and a refresh is due. */
  lemma ClearSpec(s: Store, id: string, now: int)
    ensures var r := ClearCache(s, true);
      && GetCachedPhotosCount(r, true) == 0
      && !PhotoExists(r, id, true)
      && NeedsCacheRefresh(r, now, true)
  {
  }
}
