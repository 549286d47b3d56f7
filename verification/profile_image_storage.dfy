/** `ProfileImageStorage` (ImageFeed/Storage/ProfileImageStorage.swift): the
    avatar URLs, an instance of the memoised storage under their own two keys. */
module ProfileImageStorage {
  import opened Base
  import opened Foundation
  import opened UserDefaults
  import MS = MemoStorage
  import opened ProfileImageService
  import PS = ProfileStorage
  import opened ProfileService
  import TS = OAuth2TokenStorage

  const Keys: MS.Keys := MS.Keys("ProfileImageStorageKey", "ProfileImageTimestampKey")

  /** An avatar set is the avatar read, in this process and, when the codec
      round-trips, after a restart; it is fresh for 900 seconds. */
  lemma ProfileImageRoundTrip(d: Defaults, v: ProfileImage, encode: ProfileImage -> Option<Bytes>,
                              decode: Bytes -> Option<ProfileImage>, now: int)
    requires forall x :: encode(x).Some? ==> decode(encode(x).value) == Some(x)
    requires encode(v).Some?
    ensures var w := MS.Set(Keys, d, Some(v), encode, now);
      && MS.Get(Keys, w.memo, w.defaults, decode).value == Some(v)
      && MS.Get(Keys, None, w.defaults, decode).value == Some(v)
      && !MS.IsExpired(Keys, w.defaults, now + 900)
      && MS.IsExpired(Keys, w.defaults, now + 901)
  {
    MS.SetThenGet(Keys, d, Some(v), encode, decode, now);
    MS.SetThenGetAfterRestart(Keys, d, Some(v), encode, decode, now);
    MS.FreshForInterval(Keys, d, v, encode, now);
  }

  /** Unlike the two token classes, the storages use keys of their own: writing a
      profile leaves the stored avatar, its expiry and the token as they were, and
      writing an avatar leaves the stored profile, its expiry and the token. */
  lemma StoragesIndependent(d: Defaults, p: Option<Profile>, pe: Profile -> Option<Bytes>,
                            v: Option<ProfileImage>, ve: ProfileImage -> Option<Bytes>, now: int, later: int)
    ensures var d1 := MS.Set(PS.Keys, d, p, pe, now).defaults;
      && DataFor(d1, Keys.valueKey) == DataFor(d, Keys.valueKey)
      && MS.IsExpired(Keys, d1, later) == MS.IsExpired(Keys, d, later)
      && TS.Token(d1) == TS.Token(d)
    ensures var d2 := MS.Set(Keys, d, v, ve, now).defaults;
      && DataFor(d2, PS.Keys.valueKey) == DataFor(d, PS.Keys.valueKey)
      && MS.IsExpired(PS.Keys, d2, later) == MS.IsExpired(PS.Keys, d, later)
      && TS.Token(d2) == TS.Token(d)
  {
    var d1 := MS.Set(PS.Keys, d, p, pe, now).defaults;
    var d2 := MS.Set(Keys, d, v, ve, now).defaults;
    assert |Keys.valueKey| != |PS.Keys.valueKey| && |Keys.valueKey| != |PS.Keys.timestampKey|;
    assert |Keys.timestampKey| != |PS.Keys.valueKey| && |Keys.timestampKey| != |PS.Keys.timestampKey|;
    assert |TS.TokenKey| != |PS.Keys.valueKey| && |TS.TokenKey| != |PS.Keys.timestampKey|;
    assert |TS.TokenKey| != |Keys.valueKey| && |TS.TokenKey| != |Keys.timestampKey|;
  }
}
