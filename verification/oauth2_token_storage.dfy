/** `OAuth2TokenStorage` (ImageFeed/Storage/OAuth2TokenStorage.swift): a
    pass-through property over one defaults key, with no memo. */
module OAuth2TokenStorage {
  import opened Base
  import opened UserDefaults

  const TokenKey: string := "OAuth2TokenStorage"

  /** The `token` getter. */
  function Token(d: Defaults): (r: Option<string>)
    ensures r.Some? <==> TokenKey in d && d[TokenKey].Text?
    ensures r.Some? ==> d[TokenKey] == Text(r.value)
  {
    StringFor(d, TokenKey)
  }

  /** The `token` setter: a token is written, `nil` removes the key. */
  function SetToken(d: Defaults, t: Option<string>): (r: Defaults)
    ensures Token(r) == t
    ensures forall k :: k != TokenKey ==> (k in r <==> k in d)
    ensures forall k | k in d && k != TokenKey :: r[k] == d[k]
  {
    Put(d, TokenKey, if t.Some? then Some(Text(t.value)) else None)
  }

  /** The getter reports exactly what the defaults hold, so two reads agree and a
      write through any class on the same key shows at once. */
  lemma TokenIsStored(d: Defaults, text: string)
    ensures Token(d[TokenKey := Text(text)]) == Some(text)
    ensures Token(d - {TokenKey}) == None
  {
  }
}
