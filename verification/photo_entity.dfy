/** The Core Data record of a cached photo (ImageFeed/CoreData/PhotoEntity+CoreDataClass.swift):
    every attribute is optional or a 32-bit integer, and conversion back to a `Photo`
    fails when a required attribute is missing or a URL string does not parse. */
module PhotoEntities {
  import opened Base
  import opened Foundation
  import opened Photos

  newtype int32 = x: int | -0x8000_0000 <= x < 0x8000_0000

  predicate FitsInt32(x: int) {
    -0x8000_0000 <= x < 0x8000_0000
  }

  /** The attributes of `PhotoEntity`. Positions are kept unbounded (see README). */
  datatype Entity = Entity(
    id: Option<string>,
    createdAt: Option<int>,
    width: int32,
    height: int32,
    color: Option<string>,
    isLiked: bool,
    photoDescription: Option<string>,
    smallURL: Option<string>,
    regularURL: Option<string>,
    fullURL: Option<string>,
    position: int,
    lastUpdated: Option<int>)

  /** A freshly inserted entity: optional attributes nil, scalars zero or false. */
  const Blank: Entity := Entity(None, None, 0, 0, None, false, None, None, None, None, 0, None)

  /** `Int32(photo.size.width)` traps outside the 32-bit range; a photo can only be
      stored when both dimensions fit. */
  predicate Storable(p: Photo) {
    FitsInt32(p.size.width) && FitsInt32(p.size.height)
  }

  /** Each URL of the photo re-parses from its absolute string. */
  predicate Reparses(syntax: UrlSyntax, p: Photo) {
    syntax(p.urls.small.absoluteString)
    && syntax(p.urls.regular.absoluteString)
    && syntax(p.urls.full.absoluteString)
  }

  /** `updateFrom(photo:position:)`, with `Date()` passed in as `now`. */
  function UpdateFrom(e: Entity, p: Photo, position: int, now: int): (r: Entity)
    requires Storable(p)
    ensures r.id == Some(p.id) && r.createdAt == p.createdAt && r.color == Some(p.color)
    ensures r.width as int == p.size.width && r.height as int == p.size.height
    ensures r.isLiked == p.isLiked && r.photoDescription == Some(p.description)
    ensures r.smallURL == Some(p.urls.small.absoluteString)
    ensures r.regularURL == Some(p.urls.regular.absoluteString)
    ensures r.fullURL == Some(p.urls.full.absoluteString)
    ensures r.position == position && r.lastUpdated == Some(now)
  {
    e.(id := Some(p.id), createdAt := p.createdAt,
       width := p.size.width as int32, height := p.size.height as int32,
       color := Some(p.color), isLiked := p.isLiked, photoDescription := Some(p.description),
       smallURL := Some(p.urls.small.absoluteString),
       regularURL := Some(p.urls.regular.absoluteString),
       fullURL := Some(p.urls.full.absoluteString),
       position := position, lastUpdated := Some(now))
  }

  /** `create(from:position:in:)`: a blank entity followed by `updateFrom`. */
  function Create(p: Photo, position: int, now: int): (r: Entity)
    requires Storable(p)
    ensures forall e :: r == UpdateFrom(e, p, position, now)
  {
    UpdateFrom(Blank, p, position, now)
  }

  /** `toPhoto()`. */
  function ToPhoto(syntax: UrlSyntax, e: Entity): (r: Option<Photo>)
    ensures r.Some? <==>
              e.id.Some? && e.color.Some?
              && e.smallURL.Some? && syntax(e.smallURL.value)
              && e.regularURL.Some? && syntax(e.regularURL.value)
              && e.fullURL.Some? && syntax(e.fullURL.value)
    ensures r.Some? ==> r.value.id == e.id.value && r.value.color == e.color.value
    ensures r.Some? ==> r.value.description == e.photoDescription.GetOr("")
    ensures r.Some? ==> r.value.createdAt == e.createdAt && r.value.isLiked == e.isLiked
    ensures r.Some? ==> r.value.size == Size(e.width as int, e.height as int)
    ensures r.Some? ==> r.value.urls.small.absoluteString == e.smallURL.value
  {
    if e.id.None? || e.smallURL.None? || e.regularURL.None? || e.fullURL.None? then None
    else
      match (ParseURL(syntax, e.smallURL.value), ParseURL(syntax, e.regularURL.value),
             ParseURL(syntax, e.fullURL.value), e.color)
      case (Some(small), Some(regular), Some(full), Some(color)) =>
        Some(Photo(e.id.value, e.createdAt, Size(e.width as int, e.height as int), color,
                   e.isLiked, e.photoDescription.GetOr(""), PhotoURLs(small, regular, full)))
      case _ => None
  }

  /** Storing a photo and reading it back gives the same photo, every field included
      (the dimensions survive the 32-bit conversion because they fit). */
  lemma RoundTrip(syntax: UrlSyntax, e: Entity, p: Photo, position: int, now: int)
    requires Storable(p) && Reparses(syntax, p)
    ensures ToPhoto(syntax, UpdateFrom(e, p, position, now)) == Some(p)
  {
  }

  /** A newly created record and an updated record are field-for-field identical:
      nothing of the entity's previous content survives `updateFrom`. */
  lemma UpdateForgetsPrevious(e1: Entity, e2: Entity, p: Photo, position: int, now: int)
    requires Storable(p)
    ensures UpdateFrom(e1, p, position, now) == UpdateFrom(e2, p, position, now)
    ensures UpdateFrom(e1, p, position, now) == Create(p, position, now)
  {
  }
}
