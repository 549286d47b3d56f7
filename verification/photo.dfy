/** The `Photo` value of the feed (ImageFeed/Models/Photo.swift). Every field is a
    `let`, so a photo never changes; Swift's `==` on photos compares ids only. */
module Photos {
  import opened Base
  import opened Foundation

  /** `CGSize`; the feed only ever produces whole-pixel sizes. */
  datatype Size = Size(width: int, height: int)

  datatype PhotoURLs = PhotoURLs(small: URL, regular: URL, full: URL)

  /** `createdAt` is a date in whole seconds, absent when unknown. */
  datatype Photo = Photo(
    id: string,
    createdAt: Option<int>,
    size: Size,
    color: string,
    isLiked: bool,
    description: string,
    urls: PhotoURLs)

  /** Swift's `==` on `Photo`: identity by id, whatever the content. */
  predicate Equal(a: Photo, b: Photo) {
    a.id == b.id
  }

  /** The only way to change the like flag of an immutable photo: build a new value
      that copies every other field. */
  function WithLike(p: Photo, isLiked: bool): (r: Photo)
    ensures r.isLiked == isLiked
    ensures r.id == p.id && r.createdAt == p.createdAt && r.size == p.size && r.color == p.color
    ensures r.description == p.description && r.urls == p.urls
  {
    Photo(p.id, p.createdAt, p.size, p.color, isLiked, p.description, p.urls)
  }

  /** The ids of a batch of photos. */
  function BatchIds(photos: seq<Photo>): set<string> {
    set i | 0 <= i < |photos| :: photos[i].id
  }

  /** No two photos of the batch share an id. */
  ghost predicate DistinctIds(photos: seq<Photo>) {
    forall i, j :: 0 <= i < j < |photos| ==> photos[i].id != photos[j].id
  }

  /** `photos[i]` is the last photo of the batch with its id: the one whose values a
      save loop leaves behind. */
  ghost predicate LastOccurrence(photos: seq<Photo>, i: int) {
    0 <= i < |photos| && forall j :: i < j < |photos| ==> photos[j].id != photos[i].id
  }

  lemma BatchIdsCons(photos: seq<Photo>)
    requires photos != []
    ensures BatchIds(photos) == {photos[0].id} + BatchIds(photos[1..])
  {
    var rest := photos[1..];
    forall x | x in BatchIds(photos) ensures x in {photos[0].id} + BatchIds(rest) {
      var i :| 0 <= i < |photos| && photos[i].id == x;
      if i > 0 { assert rest[i - 1].id == x; }
    }
    forall x | x in BatchIds(rest) ensures x in BatchIds(photos) {
      var i :| 0 <= i < |rest| && rest[i].id == x;
      assert photos[i + 1].id == x;
    }
  }

  /** Every id of a batch has a last occurrence. */
  lemma {:induction false} LastOccurrenceExists(photos: seq<Photo>, j: int)
    requires 0 <= j < |photos|
    ensures exists i :: LastOccurrence(photos, i) && photos[i].id == photos[j].id
    decreases |photos| - j
  {
    if !LastOccurrence(photos, j) {
      var k :| j < k < |photos| && photos[k].id == photos[j].id;
      LastOccurrenceExists(photos, k);
    }
  }

  /** Re-applying the original flag undoes a like change exactly. */
  lemma WithLikeUndo(p: Photo, isLiked: bool)
    ensures WithLike(WithLike(p, isLiked), p.isLiked) == p
  {
  }

  /** `==` is an equivalence relation. */
  lemma EqualIsEquivalence(a: Photo, b: Photo, c: Photo)
    ensures Equal(a, a)
    ensures Equal(a, b) <==> Equal(b, a)
    ensures Equal(a, b) && Equal(b, c) ==> Equal(a, c)
  {
  }

  /** `==` holds exactly when the ids agree, so it ignores like flag, description,
      size and URLs: a like-toggled copy equals the original, and equal photos need
      not be the same value. */
  lemma EqualIgnoresContent(a: Photo, b: Photo, isLiked: bool)
    ensures Equal(a, b) <==> a.id == b.id
    ensures Equal(WithLike(a, isLiked), a)
    ensures a.id == b.id && a.isLiked != b.isLiked ==> Equal(a, b) && a != b
  {
  }
}
