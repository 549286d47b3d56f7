/** The memoised, time-stamped storage that `ProfileStorage` and
    `ProfileImageStorage` both implement: a value encoded under one defaults key,
    the time of the last successful write under another, and an in-memory memo in
    front. Encoding and decoding are foreign (`JSONEncoder` / `JSONDecoder`) and are
    passed in. */
module MemoStorage {
  import opened Base
  import opened Foundation
  import opened UserDefaults

  /** How long a stored value stays fresh, in seconds. */
  const ExpiryInterval: int := 900

  datatype Keys = Keys(valueKey: string, timestampKey: string)

  /** What a read returns and the memo it leaves behind. */
  datatype Got<T> = Got(value: Option<T>, memo: Option<T>)

  /** The getter: the memo when set; otherwise no value when nothing is stored, and
      the decoded stored value (memoised, `nil` when it does not decode) when
      something is. */
  function Get<T>(keys: Keys, memo: Option<T>, d: Defaults, decode: Bytes -> Option<T>): (r: Got<T>)
    ensures memo.Some? ==> r == Got(memo, memo)
    ensures memo.None? && DataFor(d, keys.valueKey).None? ==> r == Got(None, None)
    ensures memo.None? && DataFor(d, keys.valueKey).Some? ==>
              r.value == decode(DataFor(d, keys.valueKey).value) && r.memo == r.value
  {
    if memo.Some? then Got(memo, memo)
    else
      match DataFor(d, keys.valueKey)
      case None => Got(None, None)
      case Some(data) =>
        var v := decode(data);
        Got(v, v)
  }

  /** The memo and the defaults after a write. */
  datatype Written<T> = Written(memo: Option<T>, defaults: Defaults)

  /** The setter: the memo takes the new value. A value that encodes is stored and
      stamps the time; `nil`, or a value that fails to encode, removes the stored
      data and leaves the time stamp alone. */
  function Set<T>(keys: Keys, d: Defaults, v: Option<T>, encode: T -> Option<Bytes>, now: int): (r: Written<T>)
    requires keys.valueKey != keys.timestampKey
    ensures r.memo == v
    ensures v.Some? && encode(v.value).Some? ==>
              DataFor(r.defaults, keys.valueKey) == encode(v.value) && DateFor(r.defaults, keys.timestampKey) == Some(now)
    ensures !(v.Some? && encode(v.value).Some?) ==>
              DataFor(r.defaults, keys.valueKey).None?
              && DateFor(r.defaults, keys.timestampKey) == DateFor(d, keys.timestampKey)
    ensures forall k :: k != keys.valueKey && k != keys.timestampKey ==> (k in r.defaults <==> k in d)
    ensures forall k | k in d && k != keys.valueKey && k != keys.timestampKey :: r.defaults[k] == d[k]
  {
    if v.Some? && encode(v.value).Some? then
      Written(v, Put(Put(d, keys.valueKey, Some(Blob(encode(v.value).value))), keys.timestampKey, Some(Instant(now))))
    else
      Written(v, Put(d, keys.valueKey, None))
  }

  /** `isExpired`: true without a time stamp, otherwise when more than 900 seconds
      have passed since it. */
  function IsExpired(keys: Keys, d: Defaults, now: int): (r: bool)
    ensures DateFor(d, keys.timestampKey).None? ==> r
    ensures DateFor(d, keys.timestampKey).Some? ==>
              (r <==> now - DateFor(d, keys.timestampKey).value > ExpiryInterval)
  {
    match DateFor(d, keys.timestampKey)
    case None => true
    case Some(t) => now - t > 900
  }

  /** A read after a write returns the written value, in the same process. */
  lemma SetThenGet<T>(keys: Keys, d: Defaults, v: Option<T>, encode: T -> Option<Bytes>, decode: Bytes -> Option<T>, now: int)
    requires keys.valueKey != keys.timestampKey
    ensures var w := Set(keys, d, v, encode, now);
      Get(keys, w.memo, w.defaults, decode).value == v
  {
  }

  /** After a restart (no memo) the written value comes back when the codec
      round-trips; `nil` and a value that failed to encode read back as nothing. */
  lemma SetThenGetAfterRestart<T>(keys: Keys, d: Defaults, v: Option<T>, encode: T -> Option<Bytes>, decode: Bytes -> Option<T>, now: int)
    requires keys.valueKey != keys.timestampKey
    requires forall x :: encode(x).Some? ==> decode(encode(x).value) == Some(x)
    ensures var w := Set(keys, d, v, encode, now);
      Get(keys, None, w.defaults, decode).value == (if v.Some? && encode(v.value).Some? then v else None)
  {
    var w := Set(keys, d, v, encode, now);
    if v.Some? && encode(v.value).Some? {
      assert DataFor(w.defaults, keys.valueKey) == encode(v.value);
    }
  }

  /** While a memo is held the getter never consults the defaults. */
  lemma MemoShadowsStore<T>(keys: Keys, x: T, d1: Defaults, d2: Defaults, decode: Bytes -> Option<T>)
    ensures Get(keys, Some(x), d1, decode) == Get(keys, Some(x), d2, decode)
  {
  }

  /** A successful write is fresh for exactly 900 seconds. */
  lemma FreshForInterval<T>(keys: Keys, d: Defaults, x: T, encode: T -> Option<Bytes>, now: int)
    requires keys.valueKey != keys.timestampKey
    requires encode(x).Some?
    ensures var w := Set(keys, d, Some(x), encode, now);
      !IsExpired(keys, w.defaults, now + 900) && IsExpired(keys, w.defaults, now + 901)
  {
  }

  /** Clearing the value keeps the old stamp, so expiry is judged from the last
      write that stored something. */
  lemma ClearKeepsExpiry<T>(keys: Keys, d: Defaults, encode: T -> Option<Bytes>, now: int, later: int)
    requires keys.valueKey != keys.timestampKey
    ensures IsExpired(keys, Set(keys, d, None, encode, now).defaults, later) == IsExpired(keys, d, later)
  {
  }
}
