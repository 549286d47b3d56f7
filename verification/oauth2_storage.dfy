/** `OAuth2Storage` (ImageFeed/Storage/OAuth2Storage.swift): the token behind an
    in-memory memo, stored under the same key `OAuth2TokenStorage` uses. */
module OAuth2Storage {
  import opened Base
  import opened UserDefaults
  import TS = OAuth2TokenStorage

  const TokenKey: string := "OAuth2TokenStorage"

  /** What a read returns and the memo it leaves behind. */
  datatype Got = Got(value: Option<string>, memo: Option<string>)

  /** The `token` getter: the memo when set, otherwise the stored string, which is
      then memoised. */
  function Get(memo: Option<string>, d: Defaults): (r: Got)
    ensures memo.Some? ==> r == Got(memo, memo)
    ensures memo.None? ==> r.value == StringFor(d, TokenKey) && r.memo == r.value
  {
    if memo.Some? then Got(memo, memo)
    else
      var stored := StringFor(d, TokenKey);
      Got(stored, stored)
  }

  /** The memo and the defaults after a write. */
  datatype Written = Written(memo: Option<string>, defaults: Defaults)

  /** The `token` setter: memo and store both take the new value; `nil` clears both. */
  function Set(d: Defaults, t: Option<string>): (r: Written)
    ensures r.memo == t
    ensures StringFor(r.defaults, TokenKey) == t
    ensures forall k :: k != TokenKey ==> (k in r.defaults <==> k in d)
  {
    Written(t, Put(d, TokenKey, if t.Some? then Some(Text(t.value)) else None))
  }

  /** The memo agrees with the store. */
  ghost predicate Coherent(memo: Option<string>, d: Defaults) {
    memo.Some? ==> memo == StringFor(d, TokenKey)
  }

  /** Reading back a write returns it, and the pair stays coherent. */
  lemma SetThenGet(memo: Option<string>, d: Defaults, t: Option<string>)
    ensures var w := Set(d, t);
      Get(w.memo, w.defaults).value == t && Coherent(w.memo, w.defaults)
  {
  }

  /** A later process, starting with no memo, reads the stored token. */
  lemma SetThenGetAfterRestart(d: Defaults, t: Option<string>)
    ensures Get(None, Set(d, t).defaults).value == t
  {
  }

  /** Reads keep a coherent pair coherent and return what the store holds. */
  lemma GetCoherent(memo: Option<string>, d: Defaults)
    requires Coherent(memo, d)
    ensures Get(memo, d).value == StringFor(d, TokenKey)
    ensures Coherent(Get(memo, d).memo, d)
  {
  }

  /** Both token classes address the same defaults entry. */
  lemma SharedKey(d: Defaults)
    ensures TokenKey == TS.TokenKey
    ensures Get(None, d).value == TS.Token(d)
  {
  }

  /** A write through `OAuth2TokenStorage` is seen here only while the memo is
      empty: with a memo the old token keeps being returned. */
  lemma OtherWriterShadowed(memo: Option<string>, d: Defaults, t: Option<string>)
    ensures memo.None? ==> Get(memo, TS.SetToken(d, t)).value == t
    ensures memo.Some? ==> Get(memo, TS.SetToken(d, t)).value == memo
  {
  }

  /** Concretely: a remembered "old" stays visible after "new" is written through the
      other class, so the pair is no longer coherent. */
  lemma StaleMemoWitness(d: Defaults)
    ensures var d2 := TS.SetToken(Set(d, Some("old")).defaults, Some("new"));
      Get(Some("old"), d2).value == Some("old") && !Coherent(Some("old"), d2)
  {
    var d2 := TS.SetToken(Set(d, Some("old")).defaults, Some("new"));
    assert StringFor(d2, TokenKey) == Some("new");
  }
}
