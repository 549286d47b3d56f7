/** `UserDefaults.standard` as a map from keys to stored values. Writing `nil`
    removes the key. The storages of the app share this one map, so two classes
    using the same key see each other's writes. */
module UserDefaults {
  import opened Base
  import opened Foundation

  /** The kinds of object the app stores: strings, encoded data and dates (a
      `Date` in whole seconds). */
  datatype Value = Text(text: string) | Blob(data: Bytes) | Instant(time: int)

  type Defaults = map<string, Value>

  /** `string(forKey:)`. */
  function StringFor(d: Defaults, key: string): (r: Option<string>)
    ensures r.Some? <==> key in d && d[key].Text?
    ensures r.Some? ==> d[key] == Text(r.value)
  {
    if key in d && d[key].Text? then Some(d[key].text) else None
  }

  /** `data(forKey:)`. */
  function DataFor(d: Defaults, key: string): (r: Option<Bytes>)
    ensures r.Some? <==> key in d && d[key].Blob?
    ensures r.Some? ==> d[key] == Blob(r.value)
  {
    if key in d && d[key].Blob? then Some(d[key].data) else None
  }

  /** `object(forKey:) as? Date`. */
  function DateFor(d: Defaults, key: string): (r: Option<int>)
    ensures r.Some? <==> key in d && d[key].Instant?
    ensures r.Some? ==> d[key] == Instant(r.value)
  {
    if key in d && d[key].Instant? then Some(d[key].time) else None
  }

  /** `set(_:forKey:)`: a value replaces what the key held; `nil` removes it. */
  function Put(d: Defaults, key: string, v: Option<Value>): (r: Defaults)
    ensures v.Some? ==> key in r && r[key] == v.value
    ensures v.None? ==> key !in r
    ensures forall k :: k != key ==> (k in r <==> k in d)
    ensures forall k | k in d && k != key :: r[k] == d[k]
  {
    match v
    case Some(x) => d[key := x]
    case None => d - {key}
  }

  /** A read after a write to the same key sees the write. */
  lemma ReadYourWrite(d: Defaults, key: string, text: string, data: Bytes, time: int)
    ensures StringFor(Put(d, key, Some(Text(text))), key) == Some(text)
    ensures DataFor(Put(d, key, Some(Blob(data))), key) == Some(data)
    ensures DateFor(Put(d, key, Some(Instant(time))), key) == Some(time)
    ensures StringFor(Put(d, key, None), key) == None
    ensures DataFor(Put(d, key, None), key) == None
  {
  }

  /** A write leaves every other key as it was. */
  lemma OtherKeysUntouched(d: Defaults, key: string, v: Option<Value>, other: string)
    requires other != key
    ensures StringFor(Put(d, key, v), other) == StringFor(d, other)
    ensures DataFor(Put(d, key, v), other) == DataFor(d, other)
    ensures DateFor(Put(d, key, v), other) == DateFor(d, other)
  {
  }
}
