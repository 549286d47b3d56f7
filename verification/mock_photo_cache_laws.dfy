/** What the test mock guarantees (`MockPhotoCacheService` in
    ImageFeedTests/PhotoCacheServiceTests.swift), and the scenarios of the cache's
    unit tests derived from those guarantees. */
module MockPhotoCacheLaws {
  import opened Base
  import opened Photos
  import opened Seqs
  import opened Sorting
  import opened MockPhotoCache

  lemma {:induction false} IdsCount(cached: seq<CachedPhoto>)
    requires DistinctKeys(cached, IdOf)
    ensures |Ids(cached)| == |cached|
  {
    if cached != [] {
      var last := |cached| - 1;
      IdsCount(cached[..last]);
      assert Ids(cached) == Ids(cached[..last]) + {cached[last].photo.id};
      assert forall k :: 0 <= k < last ==> IdOf(cached[k]) != IdOf(cached[last]);
      assert cached[last].photo.id !in Ids(cached[..last]);
    }
  }

  /** One save step removes the entry with the photo's id and appends the new one. */
  lemma PlaceSpec(cached: seq<CachedPhoto>, p: Photo, position: int)
    requires DistinctKeys(cached, IdOf)
    ensures DistinctKeys(Place(cached, p, position), IdOf)
    ensures forall c :: c in Place(cached, p, position) <==>
      (c in cached && c.photo.id != p.id) || c == CachedPhoto(p, position)
  {
    var f := Filter(NotId(p.id), cached);
    FilterDistinctKeys(NotId(p.id), cached, IdOf);
    assert forall c | c in f :: c.photo.id != p.id;
  }

  /** The entries a save leaves behind: an old entry whose id the batch does not
      mention, or the last photo of the batch with its id at `position + i`. */
  ghost predicate Saved(before: seq<CachedPhoto>, photos: seq<Photo>, position: int, c: CachedPhoto) {
    || (c in before && c.photo.id !in BatchIds(photos))
    || exists i :: LastOccurrence(photos, i) && c == CachedPhoto(photos[i], position + i)
  }

  lemma SavedStepForward(cached: seq<CachedPhoto>, photos: seq<Photo>, position: int, c: CachedPhoto)
    requires DistinctKeys(cached, IdOf) && photos != []
    requires Saved(Place(cached, photos[0], position), photos[1..], position + 1, c)
    ensures Saved(cached, photos, position, c)
  {
    var p := photos[0];
    var rest := photos[1..];
    PlaceSpec(cached, p, position);
    BatchIdsCons(photos);
    if c in Place(cached, p, position) && c.photo.id !in BatchIds(rest) {
      if c == CachedPhoto(p, position) {
        assert forall j :: 0 < j < |photos| ==> photos[j] == rest[j - 1];
        assert LastOccurrence(photos, 0);
        assert c == CachedPhoto(photos[0], position + 0);
      }
    } else {
      var i :| LastOccurrence(rest, i) && c == CachedPhoto(rest[i], position + 1 + i);
      assert forall j :: 0 <= j < |rest| ==> rest[j] == photos[j + 1];
      assert LastOccurrence(photos, i + 1);
      assert c == CachedPhoto(photos[i + 1], position + (i + 1));
    }
  }

  lemma SavedStepBackward(cached: seq<CachedPhoto>, photos: seq<Photo>, position: int, c: CachedPhoto)
    requires DistinctKeys(cached, IdOf) && photos != []
    requires Saved(cached, photos, position, c)
    ensures Saved(Place(cached, photos[0], position), photos[1..], position + 1, c)
  {
    var p := photos[0];
    var rest := photos[1..];
    PlaceSpec(cached, p, position);
    BatchIdsCons(photos);
    if !(c in cached && c.photo.id !in BatchIds(photos)) {
      var i :| LastOccurrence(photos, i) && c == CachedPhoto(photos[i], position + i);
      assert forall j :: 0 <= j < |rest| ==> rest[j] == photos[j + 1];
      if i == 0 {
        assert c in Place(cached, p, position);
      } else {
        assert LastOccurrence(rest, i - 1);
        assert c == CachedPhoto(rest[i - 1], position + 1 + (i - 1));
      }
    }
  }

  lemma SavedStep(cached: seq<CachedPhoto>, photos: seq<Photo>, position: int, c: CachedPhoto)
    requires DistinctKeys(cached, IdOf) && photos != []
    ensures Saved(Place(cached, photos[0], position), photos[1..], position + 1, c)
        <==> Saved(cached, photos, position, c)
  {
    if Saved(Place(cached, photos[0], position), photos[1..], position + 1, c) {
      SavedStepForward(cached, photos, position, c);
    }
    if Saved(cached, photos, position, c) {
      SavedStepBackward(cached, photos, position, c);
    }
  }

  lemma {:induction false} PlaceAllSpec(cached: seq<CachedPhoto>, photos: seq<Photo>, position: int)
    requires DistinctKeys(cached, IdOf)
    ensures DistinctKeys(PlaceAll(cached, photos, position), IdOf)
    ensures forall c :: c in PlaceAll(cached, photos, position) <==> Saved(cached, photos, position, c)
    decreases |photos|
  {
    if photos != [] {
      var c1 := Place(cached, photos[0], position);
      PlaceSpec(cached, photos[0], position);
      PlaceAllSpec(c1, photos[1..], position + 1);
      forall c ensures Saved(c1, photos[1..], position + 1, c) <==> Saved(cached, photos, position, c) {
        SavedStep(cached, photos, position, c);
      }
    }
  }

  /** `savePhotos` keeps ids unique and the entries sorted, holds exactly the saved
      entries, and stamps the cache with `now`. */
  lemma MockSaveSpec(m: Mock, photos: seq<Photo>, position: int, now: int)
    requires Valid(m)
    ensures var r := SavePhotos(m, photos, position, now);
      && Valid(r)
      && SortedBy(r.cached, Pos)
      && r.lastUpdateTime == Some(now)
      && (forall c :: c in r.cached <==> Saved(m.cached, photos, position, c))
  {
    var placed := PlaceAll(m.cached, photos, position);
    PlaceAllSpec(m.cached, photos, position);
    DistinctKeysPermutation(placed, Sort(placed, Pos), IdOf);
    assert forall c :: c in Sort(placed, Pos) <==> c in multiset(placed);
  }

  /** Every id after a save was cached before or is in the batch. */
  lemma SavedIdsSound(before: seq<CachedPhoto>, photos: seq<Photo>, position: int, r: seq<CachedPhoto>)
    requires forall c :: c in r <==> Saved(before, photos, position, c)
    ensures Ids(r) <= Ids(before) + BatchIds(photos)
  {
    forall x | x in Ids(r) ensures x in Ids(before) + BatchIds(photos) {
      var k :| 0 <= k < |r| && r[k].photo.id == x;
      assert Saved(before, photos, position, r[k]);
      if r[k] in before && x !in BatchIds(photos) {
        var j := IndexOf(before, r[k]);
        assert before[j].photo.id == x;
      } else {
        var i :| LastOccurrence(photos, i) && r[k] == CachedPhoto(photos[i], position + i);
        assert photos[i].id == x;
      }
    }
  }

  /** Every id cached before a save or in the batch is there after it. */
  lemma SavedIdsComplete(before: seq<CachedPhoto>, photos: seq<Photo>, position: int, r: seq<CachedPhoto>)
    requires forall c :: c in r <==> Saved(before, photos, position, c)
    ensures Ids(before) + BatchIds(photos) <= Ids(r)
  {
    forall x | x in Ids(before) + BatchIds(photos) ensures x in Ids(r) {
      if x in BatchIds(photos) {
        var j :| 0 <= j < |photos| && photos[j].id == x;
        LastOccurrenceExists(photos, j);
        var i :| LastOccurrence(photos, i) && photos[i].id == x;
        var c := CachedPhoto(photos[i], position + i);
        assert Saved(before, photos, position, c);
        var k := IndexOf(r, c);
        assert r[k].photo.id == x;
      } else {
        var j :| 0 <= j < |before| && before[j].photo.id == x;
        assert Saved(before, photos, position, before[j]);
        var k := IndexOf(r, before[j]);
        assert r[k].photo.id == x;
      }
    }
  }

  /** After a save the cache holds the old ids plus the batch's. */
  lemma MockSaveIds(m: Mock, photos: seq<Photo>, position: int, now: int)
    requires Valid(m)
    ensures Ids(SavePhotos(m, photos, position, now).cached) == Ids(m.cached) + BatchIds(photos)
  {
    var r := SavePhotos(m, photos, position, now).cached;
    MockSaveSpec(m, photos, position, now);
    SavedIdsSound(m.cached, photos, position, r);
    SavedIdsComplete(m.cached, photos, position, r);
  }

  /** The count after a save is the number of distinct ids among the old entries
      and the batch. */
  lemma MockSaveCount(m: Mock, photos: seq<Photo>, position: int, now: int)
    requires Valid(m)
    ensures GetCachedPhotosCount(SavePhotos(m, photos, position, now))
            == |Ids(m.cached)| + |BatchIds(photos) - Ids(m.cached)|
  {
    MockSaveSpec(m, photos, position, now);
    MockSaveIds(m, photos, position, now);
    IdsCount(SavePhotos(m, photos, position, now).cached);
    var a, b := Ids(m.cached), BatchIds(photos);
    assert a + b == a + (b - a);
    assert a * (b - a) == {};
  }

  // ---------------------------------------------------------------------------
  // Runs: a batch laid out at consecutive positions

  /** The entries `photos[i]` at `position + i`. */
  function Run(photos: seq<Photo>, position: int): seq<CachedPhoto> {
    seq(|photos|, i requires 0 <= i < |photos| => CachedPhoto(photos[i], position + i))
  }

  lemma RunFacts(photos: seq<Photo>, position: int)
    requires DistinctIds(photos)
    ensures DistinctKeys(Run(photos, position), IdOf)
    ensures StrictlySortedBy(Run(photos, position), Pos)
    ensures DistinctKeys(Run(photos, position), Pos)
    ensures Ids(Run(photos, position)) == BatchIds(photos)
    ensures Map(PhotoOf, Run(photos, position)) == photos
    ensures forall c | c in Run(photos, position) :: position <= c.position < position + |photos|
  {
    var r := Run(photos, position);
    forall x | x in BatchIds(photos) ensures x in Ids(r) {
      var j :| 0 <= j < |photos| && photos[j].id == x;
      assert r[j].photo.id == x;
    }
  }

  lemma IdsAppend(cached: seq<CachedPhoto>, c: CachedPhoto)
    ensures Ids(cached + [c]) == Ids(cached) + {c.photo.id}
  {
    var c1 := cached + [c];
    forall x | x in Ids(c1) ensures x in Ids(cached) + {c.photo.id} {
      var k :| 0 <= k < |c1| && c1[k].photo.id == x;
      if k < |cached| { assert cached[k].photo.id == x; }
    }
    assert c1[|cached|].photo.id == c.photo.id;
    forall x | x in Ids(cached) ensures x in Ids(c1) {
      var k :| 0 <= k < |cached| && cached[k].photo.id == x;
      assert c1[k].photo.id == x;
    }
  }

  /** Placing a photo whose id is not cached appends it. */
  lemma PlaceFresh(cached: seq<CachedPhoto>, p: Photo, position: int)
    requires p.id !in Ids(cached)
    ensures Place(cached, p, position) == cached + [CachedPhoto(p, position)]
  {
    forall k | 0 <= k < |cached| ensures NotId(p.id)(cached[k]) {
      assert cached[k].photo.id in Ids(cached);
    }
    FilterAll(NotId(p.id), cached);
  }

  lemma RunCons(photos: seq<Photo>, position: int)
    requires photos != []
    ensures Run(photos, position) == [CachedPhoto(photos[0], position)] + Run(photos[1..], position + 1)
  {
  }

  /** A batch of fresh, distinct ids is appended as a run. */
  lemma {:induction false} PlaceAllFresh(cached: seq<CachedPhoto>, photos: seq<Photo>, position: int)
    requires DistinctIds(photos)
    requires BatchIds(photos) !! Ids(cached)
    ensures PlaceAll(cached, photos, position) == cached + Run(photos, position)
    decreases |photos|
  {
    if photos != [] {
      var p := photos[0];
      var rest := photos[1..];
      BatchIdsCons(photos);
      PlaceFresh(cached, p, position);
      var x := CachedPhoto(p, position);
      var c1 := cached + [x];
      IdsAppend(cached, x);
      assert DistinctIds(rest) by {
        assert forall j :: 0 <= j < |rest| ==> rest[j] == photos[j + 1];
      }
      assert p.id !in BatchIds(rest) by {
        forall j | 0 <= j < |rest| ensures rest[j].id != p.id {
          assert rest[j] == photos[j + 1];
        }
      }
      PlaceAllFresh(c1, rest, position + 1);
      RunCons(photos, position);
      assert c1 + Run(rest, position + 1) == cached + ([x] + Run(rest, position + 1));
    }
  }

  /** Saving a fresh batch into an empty cache lays it out as a run. */
  lemma SaveIntoEmpty(photos: seq<Photo>, position: int, now: int)
    requires DistinctIds(photos)
    ensures SavePhotos(Initial, photos, position, now) == Mock(Run(photos, position), Some(now))
  {
    PlaceAllFresh([], photos, position);
    assert [] + Run(photos, position) == Run(photos, position);
    RunFacts(photos, position);
    SortOfSorted(Run(photos, position), Pos);
  }

  /** Loading the next page: a batch of fresh ids saved at positions after every
      cached entry reads back after the cached photos, in batch order. */
  lemma SaveAppendsPage(m: Mock, photos: seq<Photo>, position: int, now: int)
    requires Valid(m) && DistinctKeys(m.cached, Pos)
    requires DistinctIds(photos) && BatchIds(photos) !! Ids(m.cached)
    requires forall c | c in m.cached :: c.position < position
    ensures FetchAllCachedPhotos(SavePhotos(m, photos, position, now)) == FetchAllCachedPhotos(m) + photos
  {
    var run := Run(photos, position);
    PlaceAllFresh(m.cached, photos, position);
    RunFacts(photos, position);
    forall i, j | 0 <= i < |m.cached| && 0 <= j < |run| ensures Pos(m.cached[i]) < Pos(run[j]) {
      assert m.cached[i] in m.cached;
    }
    SortAppendRun(m.cached, run, Pos);
    var sorted := Sort(m.cached, Pos) + run;
    SortOfSorted(sorted, Pos);
    MapConcat(PhotoOf, Sort(m.cached, Pos), run);
  }

  /** Refreshing from the top: a batch of fresh ids saved at positions before every
      cached entry reads back before the cached photos, in batch order. */
  lemma SavePrependsPage(m: Mock, photos: seq<Photo>, position: int, now: int)
    requires Valid(m) && DistinctKeys(m.cached, Pos)
    requires DistinctIds(photos) && BatchIds(photos) !! Ids(m.cached)
    requires forall c | c in m.cached :: position + |photos| <= c.position
    ensures FetchAllCachedPhotos(SavePhotos(m, photos, position, now)) == photos + FetchAllCachedPhotos(m)
  {
    var run := Run(photos, position);
    PlaceAllFresh(m.cached, photos, position);
    RunFacts(photos, position);
    forall i, j | 0 <= i < |m.cached| && 0 <= j < |run| ensures Pos(run[j]) < Pos(m.cached[i]) {
      assert m.cached[i] in m.cached;
      assert run[j] in run;
    }
    SortPrependRun(m.cached, run, Pos);
    var sorted := run + Sort(m.cached, Pos);
    SortOfSorted(sorted, Pos);
    MapConcat(PhotoOf, run, Sort(m.cached, Pos));
  }

  // ---------------------------------------------------------------------------

  /** Shifting moves every entry by the offset and keeps their order; the stamp
      and the ids stay as they were. */
  lemma MockShiftSpec(m: Mock, offset: int)
    requires Valid(m)
    ensures var r := ShiftCachedPhotosPositions(m, offset);
      && Valid(r)
      && r.lastUpdateTime == m.lastUpdateTime
      && (offset == 0 ==> r == m)
      && (offset != 0 ==> r.cached == Map(ShiftedBy(offset), Sort(m.cached, Pos)))
  {
    if offset != 0 {
      var f := ShiftedBy(offset);
      var kb := (c: CachedPhoto) => c.position - offset;
      MapSort(f, m.cached, Pos, kb);
      SortKeyShift(Map(f, m.cached), kb, Pos, offset);
      var sorted := Sort(m.cached, Pos);
      DistinctKeysPermutation(m.cached, sorted, IdOf);
      assert forall k :: 0 <= k < |sorted| ==> IdOf(f(sorted[k])) == IdOf(sorted[k]);
    }
  }

  /** Shifting never reorders what a full read returns. */
  lemma ShiftKeepsOrder(m: Mock, offset: int)
    requires Valid(m)
    ensures FetchAllCachedPhotos(ShiftCachedPhotosPositions(m, offset)) == FetchAllCachedPhotos(m)
  {
    if offset != 0 {
      MockShiftSpec(m, offset);
      var f := ShiftedBy(offset);
      var sorted := Sort(m.cached, Pos);
      var shifted := Map(f, sorted);
      assert SortedBy(shifted, Pos) by {
        assert forall k :: 0 <= k < |sorted| ==> Pos(shifted[k]) == Pos(sorted[k]) + offset;
      }
      SortOfSorted(shifted, Pos);
      assert Map(PhotoOf, shifted) == Map(PhotoOf, sorted);
    }
  }

  /** Liking rewrites the flag of the photo with the id, in place, and nothing
      else; an unknown id changes nothing. */
  lemma MockLikeSpec(m: Mock, id: string, isLiked: bool)
    requires Valid(m)
    ensures var r := UpdatePhotoLikeStatus(m, id, isLiked);
      && Valid(r)
      && r.lastUpdateTime == m.lastUpdateTime
      && (id !in Ids(m.cached) ==> r == m)
      && |r.cached| == |m.cached|
      && (forall k :: 0 <= k < |m.cached| ==>
            r.cached[k] == (if m.cached[k].photo.id == id
                            then CachedPhoto(WithLike(m.cached[k].photo, isLiked), m.cached[k].position)
                            else m.cached[k]))
  {
    match FirstIndex(m.cached, id)
    case None =>
    case Some(i) =>
      assert forall k :: 0 <= k < |m.cached| && k != i ==> IdOf(m.cached[k]) != IdOf(m.cached[i]);
  }

  /** Liking and then restoring the original flag gives back the same cache. */
  lemma MockLikeUndo(m: Mock, id: string, isLiked: bool, k: int)
    requires Valid(m) && 0 <= k < |m.cached| && m.cached[k].photo.id == id
    ensures UpdatePhotoLikeStatus(UpdatePhotoLikeStatus(m, id, isLiked), id, m.cached[k].photo.isLiked) == m
  {
    var r := UpdatePhotoLikeStatus(m, id, isLiked);
    MockLikeSpec(m, id, isLiked);
    MockLikeSpec(r, id, m.cached[k].photo.isLiked);
    var r2 := UpdatePhotoLikeStatus(r, id, m.cached[k].photo.isLiked);
    forall j | 0 <= j < |m.cached| ensures r2.cached[j] == m.cached[j] {
      if m.cached[j].photo.id == id {
        assert IdOf(m.cached[j]) == IdOf(m.cached[k]);
        assert j == k;
        WithLikeUndo(m.cached[j].photo, isLiked);
      }
    }
  }

  lemma RunSplit(photos: seq<Photo>, start: int, count: int)
    requires 0 <= start && 0 <= count && start + count <= |photos|
    ensures Run(photos, 0) == Run(photos[..start], 0) + Run(photos[start..start + count], start)
                              + Run(photos[start + count..], start + count)
  {
  }

  /** Filtering keeps exactly a middle part whose elements all pass, between two
      parts whose elements all fail. */
  lemma FilterMiddle<A>(p: A -> bool, a: seq<A>, b: seq<A>, c: seq<A>)
    requires forall i :: 0 <= i < |a| ==> !p(a[i])
    requires forall i :: 0 <= i < |b| ==> p(b[i])
    requires forall i :: 0 <= i < |c| ==> !p(c[i])
    ensures Filter(p, a + b + c) == b
  {
    FilterConcat(p, a + b, c);
    FilterConcat(p, a, b);
    FilterNone(p, a);
    FilterAll(p, b);
    FilterNone(p, c);
    assert Filter(p, a + b) == b;
  }

  /** The entries of a run from position 0 that fall in `[start, start + count - 1]`. */
  lemma FilterRun(photos: seq<Photo>, start: int, count: int)
    requires 0 <= start && 0 <= count && start + count <= |photos|
    ensures Filter(InRange(start, count), Run(photos, 0)) == Run(photos[start..start + count], start)
  {
    RunSplit(photos, start, count);
    FilterMiddle(InRange(start, count), Run(photos[..start], 0), Run(photos[start..start + count], start),
                 Run(photos[start + count..], start + count));
  }

  /** A range read of a run returns the matching slice of the batch. */
  lemma RangeOfRun(photos: seq<Photo>, now: int, start: int, count: int)
    requires DistinctIds(photos)
    requires 0 <= start && 0 <= count && start + count <= |photos|
    ensures GetCachedPhotos(SavePhotos(Initial, photos, 0, now), start, count) == photos[start..start + count]
  {
    SaveIntoEmpty(photos, 0, now);
    FilterRun(photos, start, count);
    var slice := photos[start..start + count];
    RunFacts(slice, start);
    SortOfSorted(Run(slice, start), Pos);
  }

  /** The two halves of a batch with distinct ids have distinct, disjoint ids. */
  lemma DistinctIdsSplit(a: seq<Photo>, b: seq<Photo>)
    requires DistinctIds(a + b)
    ensures DistinctIds(a) && DistinctIds(b) && BatchIds(a) !! BatchIds(b)
  {
    var ab := a + b;
    assert forall i :: 0 <= i < |a| ==> ab[i] == a[i];
    assert forall i :: 0 <= i < |b| ==> ab[|a| + i] == b[i];
  }

  /** Two pages saved one after the other read back in page order. */
  lemma TwoPages(first: seq<Photo>, second: seq<Photo>, now: int)
    requires DistinctIds(first + second)
    ensures FetchAllCachedPhotos(SavePhotos(SavePhotos(Initial, first, 0, now), second, |first|, now))
            == first + second
  {
    DistinctIdsSplit(first, second);
    var m1 := SavePhotos(Initial, first, 0, now);
    SaveIntoEmpty(first, 0, now);
    assert m1.cached == Run(first, 0);
    RunFacts(first, 0);
    assert FetchAllCachedPhotos(m1) == first by {
      SaveAppendsPage(Initial, first, 0, now);
    }
    assert Valid(m1) && DistinctKeys(m1.cached, Pos);
    assert BatchIds(second) !! Ids(m1.cached);
    assert forall c | c in m1.cached :: c.position < |first|;
    SaveAppendsPage(m1, second, |first|, now);
  }

  /** Shifting a run from position 0 gives the run from the offset. */
  lemma ShiftRun(photos: seq<Photo>, offset: int, stamp: Option<int>)
    requires DistinctIds(photos)
    ensures ShiftCachedPhotosPositions(Mock(Run(photos, 0), stamp), offset).cached == Run(photos, offset)
  {
    var run := Run(photos, 0);
    var m := Mock(run, stamp);
    RunFacts(photos, 0);
    if offset != 0 {
      var shifted := Map(ShiftedBy(offset), run);
      assert ShiftCachedPhotosPositions(m, offset).cached == shifted by {
        MockShiftSpec(m, offset);
        SortOfSorted(run, Pos);
      }
      assert |shifted| == |photos|;
      forall i | 0 <= i < |photos| ensures shifted[i] == Run(photos, offset)[i] {
        assert shifted[i] == ShiftedBy(offset)(run[i]);
      }
      assert shifted == Run(photos, offset);
    }
  }

  /** A refresh: the cached page is shifted down by the size of a new page, which
      is then saved at the top and reads back first. */
  lemma ShiftThenPrepend(cached: seq<Photo>, top: seq<Photo>, now: int)
    requires DistinctIds(top + cached)
    ensures FetchAllCachedPhotos(
              SavePhotos(ShiftCachedPhotosPositions(SavePhotos(Initial, cached, 0, now), |top|), top, 0, now))
            == top + cached
  {
    DistinctIdsSplit(top, cached);
    var m1 := SavePhotos(Initial, cached, 0, now);
    SaveIntoEmpty(cached, 0, now);
    assert m1.cached == Run(cached, 0);
    RunFacts(cached, 0);
    assert FetchAllCachedPhotos(m1) == cached by {
      SaveAppendsPage(Initial, cached, 0, now);
    }
    var m2 := ShiftCachedPhotosPositions(m1, |top|);
    assert m2.cached == Run(cached, |top|) by {
      ShiftRun(cached, |top|, m1.lastUpdateTime);
    }
    assert FetchAllCachedPhotos(m2) == cached by {
      ShiftKeepsOrder(m1, |top|);
    }
    RunFacts(cached, |top|);
    assert Valid(m2) && DistinctKeys(m2.cached, Pos);
    assert BatchIds(top) !! Ids(m2.cached);
    assert forall c | c in m2.cached :: 0 + |top| <= c.position;
    SavePrependsPage(m2, top, 0, now);
  }

  // ---------------------------------------------------------------------------
  // The unit tests' scenarios

  /** `createTestPhoto(id:isLiked:description:)`, with `Date()` as `createdAt`. */
  function TestPhoto(id: string, isLiked: bool, description: string, createdAt: int): Photo {
    Photo(id, Some(createdAt), Size(400, 600), "#FF0000", isLiked, description,
          PhotoURLs(Foundation.URL("https://example.com/" + id + "_small.jpg"),
                    Foundation.URL("https://example.com/" + id + "_regular.jpg"),
                    Foundation.URL("https://example.com/" + id + "_full.jpg")))
  }

  function T(id: string, now: int): Photo {
    TestPhoto(id, false, "Test photo", now)
  }

  /** `testCacheNeedsRefreshWhenEmpty`, `testCacheDoesNotNeedRefreshWhenFresh` and
      `testCacheNeedsRefreshWhenStale`. */
  lemma TestRefresh(now: int)
    ensures NeedsCacheRefresh(Initial, now)
    ensures !NeedsCacheRefresh(SetLastUpdateTime(SavePhotos(Initial, [T("fresh1", now), T("fresh2", now)], 0, now), now), now)
    ensures NeedsCacheRefresh(SetLastUpdateTime(SavePhotos(Initial, [T("stale1", now)], 0, now), now - 11 * 60), now)
  {
  }

  /** `testSaveAndFetchPhotos`. */
  lemma TestSaveAndFetch(now: int)
    ensures var batch := [TestPhoto("photo1", false, "First photo", now), TestPhoto("photo2", false, "Second photo", now)];
      FetchAllCachedPhotos(SavePhotos(Initial, batch, 0, now)) == batch
  {
    var batch := [TestPhoto("photo1", false, "First photo", now), TestPhoto("photo2", false, "Second photo", now)];
    SaveAppendsPage(Initial, batch, 0, now);
  }

  /** The decimal digit `d`. */
  function Digit(d: nat): (c: char)
    requires d < 10
    ensures '0' <= c <= '9'
  {
    ('0' as int + d) as char
  }

  /** `createTestPhoto(id: prefix + "\(i)")` for every one-digit `i` in
      `from ..< from + n`. */
  function Numbered(prefix: string, from: nat, n: nat, now: int): seq<Photo>
    requires from + n <= 10
  {
    seq(n, i requires 0 <= i < n => T(prefix + [Digit(from + i)], now))
  }

  /** Numbering a prefix gives distinct ids. */
  lemma NumberedDistinct(prefix: string, from: nat, n: nat, now: int)
    requires from + n <= 10
    ensures DistinctIds(Numbered(prefix, from, n, now))
  {
    var b := Numbered(prefix, from, n, now);
    forall i, j | 0 <= i < j < n ensures b[i].id != b[j].id {
      var x := prefix + [Digit(from + i)];
      var y := prefix + [Digit(from + j)];
      assert b[i] == T(x, now) && b[j] == T(y, now);
      assert x[|prefix|] != y[|prefix|];
    }
  }

  /** Two numberings of different prefixes share no id. */
  lemma NumberedApart(p: string, fp: nat, np: nat, q: string, fq: nat, nq: nat, now: int)
    requires fp + np <= 10 && fq + nq <= 10 && p != q
    ensures DistinctIds(Numbered(p, fp, np, now) + Numbered(q, fq, nq, now))
  {
    var a := Numbered(p, fp, np, now);
    var b := Numbered(q, fq, nq, now);
    NumberedDistinct(p, fp, np, now);
    NumberedDistinct(q, fq, nq, now);
    var ab := a + b;
    forall i, j | 0 <= i < j < |ab| ensures ab[i].id != ab[j].id {
      if j < |a| {
        assert ab[i] == a[i] && ab[j] == a[j];
      } else if |a| <= i {
        assert ab[i] == b[i - |a|] && ab[j] == b[j - |a|];
      } else {
        var x := p + [Digit(fp + i)];
        var y := q + [Digit(fq + (j - |a|))];
        assert ab[i] == a[i] == T(x, now);
        assert ab[j] == b[j - |a|] == T(y, now);
        if |x| == |y| {
          assert x[..|p|] == p && y[..|q|] == q;
        }
      }
    }
  }

  /** `testSavePhotosWithDifferentStartingPositions`: ids `batch1_1`, `batch1_2`, then
      `batch2_1`, `batch2_2` saved at position 2. */
  lemma TestDifferentStartingPositions(now: int)
    ensures var first := Numbered("batch1_", 1, 2, now);
      var second := Numbered("batch2_", 1, 2, now);
      FetchAllCachedPhotos(SavePhotos(SavePhotos(Initial, first, 0, now), second, 2, now)) == first + second
  {
    assert "batch1_"[5] != "batch2_"[5];
    NumberedApart("batch1_", 1, 2, "batch2_", 1, 2, now);
    TwoPages(Numbered("batch1_", 1, 2, now), Numbered("batch2_", 1, 2, now), now);
  }

  /** `testShiftCachedPhotosPositions`: after shifting `shift1` to `shift3` by two,
      `new1` and `new2` saved at position 0 come first. */
  lemma TestShift(now: int)
    ensures var old3 := Numbered("shift", 1, 3, now);
      var new2 := Numbered("new", 1, 2, now);
      FetchAllCachedPhotos(
        SavePhotos(ShiftCachedPhotosPositions(SavePhotos(Initial, old3, 0, now), 2), new2, 0, now))
      == new2 + old3
  {
    NumberedApart("new", 1, 2, "shift", 1, 3, now);
    ShiftThenPrepend(Numbered("shift", 1, 3, now), Numbered("new", 1, 2, now), now);
  }

  /** `testGetCachedPhotosInRange`: of `photo0` to `photo9`, positions 2 to 4 are
      `photo2` to `photo4`. */
  lemma TestRange(now: int)
    ensures GetCachedPhotos(SavePhotos(Initial, Numbered("photo", 0, 10, now), 0, now), 2, 3)
            == Numbered("photo", 2, 3, now)
  {
    var ten := Numbered("photo", 0, 10, now);
    NumberedDistinct("photo", 0, 10, now);
    RangeOfRun(ten, now, 2, 3);
    assert ten[2..5] == Numbered("photo", 2, 3, now);
  }

  /** `testPhotoExistsCheck` and `testGetCachedPhotosCount`. */
  lemma TestExistsAndCount(now: int)
    ensures PhotoExists(SavePhotos(Initial, [T("existing_photo", now)], 0, now), "existing_photo")
    ensures !PhotoExists(SavePhotos(Initial, [T("existing_photo", now)], 0, now), "nonexistent_photo")
    ensures GetCachedPhotosCount(SavePhotos(Initial, [T("count1", now), T("count2", now), T("count3", now)], 0, now)) == 3
  {
    SaveIntoEmpty([T("existing_photo", now)], 0, now);
    SaveIntoEmpty([T("count1", now), T("count2", now), T("count3", now)], 0, now);
  }

  /** `testUpdatePhotoLikeStatus`. */
  lemma TestLike(now: int)
    ensures var m := UpdatePhotoLikeStatus(SavePhotos(Initial, [T("likeable", now)], 0, now), "likeable", true);
      FetchAllCachedPhotos(m) == [WithLike(T("likeable", now), true)]
  {
    SaveIntoEmpty([T("likeable", now)], 0, now);
  }

  /** `testClearCache`. */
  lemma TestClear(now: int)
    ensures var m := SavePhotos(Initial, [T("clear1", now), T("clear2", now)], 0, now);
      && GetCachedPhotosCount(m) == 2
      && GetCachedPhotosCount(ClearCache(m)) == 0
      && !PhotoExists(ClearCache(m), "clear1")
      && NeedsCacheRefresh(ClearCache(m), now)
  {
    SaveIntoEmpty([T("clear1", now), T("clear2", now)], 0, now);
  }
}
