/** `ProfileStorage` (ImageFeed/Storage/ProfileStorage.swift): the signed-in
    user's `Profile`, an instance of the memoised storage under its own two keys. */
module ProfileStorage {
  import opened Base
  import opened Foundation
  import opened UserDefaults
  import MS = MemoStorage
  import opened ProfileService

  const Keys: MS.Keys := MS.Keys("ProfileStorageKey", "ProfileTimestampKey")

  /** A profile set is the profile read, in this process and, when the codec
      round-trips, after a restart; it is fresh for 900 seconds. */
  lemma ProfileRoundTrip(d: Defaults, p: Profile, encode: Profile -> Option<Bytes>,
                         decode: Bytes -> Option<Profile>, now: int)
    requires forall x :: encode(x).Some? ==> decode(encode(x).value) == Some(x)
    requires encode(p).Some?
    ensures var w := MS.Set(Keys, d, Some(p), encode, now);
      && MS.Get(Keys, w.memo, w.defaults, decode).value == Some(p)
      && MS.Get(Keys, None, w.defaults, decode).value == Some(p)
      && !MS.IsExpired(Keys, w.defaults, now + 900)
      && MS.IsExpired(Keys, w.defaults, now + 901)
  {
    MS.SetThenGet(Keys, d, Some(p), encode, decode, now);
    MS.SetThenGetAfterRestart(Keys, d, Some(p), encode, decode, now);
    MS.FreshForInterval(Keys, d, p, encode, now);
  }

  /** Clearing the profile makes it unreadable but keeps its time stamp. */
  lemma ClearProfile(d: Defaults, encode: Profile -> Option<Bytes>, decode: Bytes -> Option<Profile>, now: int)
    ensures var w := MS.Set(Keys, d, None, encode, now);
      && MS.Get(Keys, w.memo, w.defaults, decode).value == None
      && DateFor(w.defaults, Keys.timestampKey) == DateFor(d, Keys.timestampKey)
  {
  }
}
