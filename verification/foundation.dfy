/** The slice of Foundation the app relies on: URLs, URL components with query
    items, requests and raw data. Parsing a URL string is foreign code; it enters the
    model as a recogniser `UrlSyntax` supplied by the caller. */
module Foundation {
  import opened Base

  /** `Data`. */
  type Bytes = seq<bv8>

  /** A parsed `URL`, identified by its absolute string. */
  datatype URL = URL(absoluteString: string)

  /** Which strings `URL(string:)` accepts. */
  type UrlSyntax = string -> bool

  /** `URL(string:)`. */
  function ParseURL(syntax: UrlSyntax, text: string): (r: Option<URL>)
    ensures r.Some? <==> syntax(text)
    ensures r.Some? ==> r.value.absoluteString == text
  {
    if syntax(text) then Some(URL(text)) else None
  }

  /** `URLQueryItem`; values are held decoded, percent-encoding is not modelled. */
  datatype QueryItem = QueryItem(name: string, value: Option<string>)

  /** `URLComponents`; a missing query is the empty item list. */
  datatype Components = Components(scheme: string, host: string, path: string, queryItems: seq<QueryItem>)

  datatype Header = Header(field: string, value: string)

  /** `URLRequest`: method, target and header fields. */
  datatype Request = Request(httpMethod: string, url: Components, headers: seq<Header>)

  /** The `Authorization: Bearer <token>` header every API call carries. */
  function BearerHeader(token: string): Header {
    Header("Authorization", "Bearer " + token)
  }

  /** `items.first(where: { $0.name == name })`. */
  function FirstNamed(items: seq<QueryItem>, name: string): (r: Option<QueryItem>)
    ensures r.None? <==> forall i :: 0 <= i < |items| ==> items[i].name != name
    ensures r.Some? ==> exists i :: 0 <= i < |items| && items[i] == r.value && r.value.name == name
                                    && forall k :: 0 <= k < i ==> items[k].name != name
  {
    if items == [] then None
    else if items[0].name == name then Some(items[0])
    else
      var r := FirstNamed(items[1..], name);
      assert r.Some? ==> exists i :: 0 <= i < |items[1..]| && items[1..][i] == r.value
                                      && forall k :: 0 <= k < i ==> items[1..][k].name != name;
      if r.Some? then
        var i :| 0 <= i < |items[1..]| && items[1..][i] == r.value
                 && forall k :: 0 <= k < i ==> items[1..][k].name != name;
        assert items[i + 1] == r.value;
        r
      else r
  }

  /** The item `first(where:)` finds is the first one with the name. */
  lemma FirstNamedAt(items: seq<QueryItem>, name: string, i: int)
    requires 0 <= i < |items| && items[i].name == name
    requires forall k :: 0 <= k < i ==> items[k].name != name
    ensures FirstNamed(items, name) == Some(items[i])
  {
    var r := FirstNamed(items, name);
    var j :| 0 <= j < |items| && items[j] == r.value && r.value.name == name
             && forall k :: 0 <= k < j ==> items[k].name != name;
    assert j == i;
  }

  /** No two query items share a name. */
  ghost predicate DistinctNames(items: seq<QueryItem>) {
    forall i, j :: 0 <= i < j < |items| ==> items[i].name != items[j].name
  }

  /** With distinct names, looking an item up by its name finds it. */
  lemma FirstNamedDistinct(items: seq<QueryItem>, i: int)
    requires DistinctNames(items) && 0 <= i < |items|
    ensures FirstNamed(items, items[i].name) == Some(items[i])
  {
    FirstNamedAt(items, items[i].name, i);
  }

  /** An item whose name none of `rest` carries keeps the names distinct. */
  lemma ConsDistinct(x: QueryItem, rest: seq<QueryItem>)
    requires DistinctNames(rest)
    requires forall k :: 0 <= k < |rest| ==> rest[k].name != x.name
    ensures DistinctNames([x] + rest)
  {
    forall i, j | 0 <= i < j < |[x] + rest| ensures ([x] + rest)[i].name != ([x] + rest)[j].name {
      assert ([x] + rest)[j] == rest[j - 1];
    }
  }
}
