/** Ordering by an integer key. Swift's `sort`/`sorted(by:)` and Core Data's sort
    descriptors only promise ascending keys; the model fixes one concrete order, a
    stable insertion sort, and proves the facts every client relies on: the result
    is ascending, is a permutation of the input, and is the only such sequence when
    keys are distinct. */
module Sorting {
  import opened Base
  import opened Seqs

  ghost predicate SortedBy<T>(s: seq<T>, key: T -> int) {
    forall i, j :: 0 <= i < j < |s| ==> key(s[i]) <= key(s[j])
  }

  ghost predicate StrictlySortedBy<T>(s: seq<T>, key: T -> int) {
    forall i, j :: 0 <= i < j < |s| ==> key(s[i]) < key(s[j])
  }

  /** Inserts `x` before the first element whose key is not smaller. */
  function Insert<T>(x: T, s: seq<T>, key: T -> int): (r: seq<T>)
    ensures multiset(r) == multiset(s) + multiset{x}
  {
    if s == [] || key(x) <= key(s[0]) then [x] + s
    else
      assert s == [s[0]] + s[1..];
      [s[0]] + Insert(x, s[1..], key)
  }

  lemma {:induction false} InsertSorted<T>(x: T, s: seq<T>, key: T -> int)
    requires SortedBy(s, key)
    ensures SortedBy(Insert(x, s, key), key)
  {
    if s != [] && key(x) > key(s[0]) {
      var tail := Insert(x, s[1..], key);
      InsertSorted(x, s[1..], key);
      forall j | 0 <= j < |tail|
        ensures key(s[0]) <= key(tail[j])
      {
        assert tail[j] in multiset(tail);
        assert tail[j] == x || tail[j] in multiset(s[1..]);
      }
    }
  }

  function Sort<T>(s: seq<T>, key: T -> int): (r: seq<T>)
    ensures multiset(r) == multiset(s)
    ensures SortedBy(r, key)
  {
    if s == [] then []
    else
      assert s == [s[0]] + s[1..];
      InsertSorted(s[0], Sort(s[1..], key), key);
      Insert(s[0], Sort(s[1..], key), key)
  }

  /** A sequence already in ascending order is left as it is. */
  lemma {:induction false} SortOfSorted<T>(s: seq<T>, key: T -> int)
    requires SortedBy(s, key)
    ensures Sort(s, key) == s
  {
    if s != [] {
      SortOfSorted(s[1..], key);
    }
  }

  /** Removing equal heads from two permutations of each other leaves permutations. */
  lemma MultisetTail<T>(a: seq<T>, b: seq<T>)
    requires a != [] && b != [] && a[0] == b[0]
    requires multiset(a) == multiset(b)
    ensures multiset(a[1..]) == multiset(b[1..])
  {
    assert a == [a[0]] + a[1..];
    assert b == [b[0]] + b[1..];
    assert multiset(a[1..]) == multiset(a) - multiset{a[0]};
    assert multiset(b[1..]) == multiset(b) - multiset{b[0]};
  }

  /** An ascending permutation of a strictly ascending sequence starts with the
      same element. */
  lemma SameHead<T>(a: seq<T>, b: seq<T>, key: T -> int)
    requires StrictlySortedBy(a, key) && SortedBy(b, key)
    requires multiset(a) == multiset(b) && a != []
    ensures b != [] && a[0] == b[0]
  {
    assert a[0] in multiset(b);
    var j :| 0 <= j < |b| && b[j] == a[0];
    assert b[0] in multiset(a);
    var k :| 0 <= k < |a| && a[k] == b[0];
    assert key(b[0]) <= key(b[j]);
    assert key(a[0]) <= key(a[k]);
  }

  /** Two ascending permutations of each other coincide when one of them has
      distinct keys: the sorted order of a key-distinct collection is unique. */
  lemma {:induction false} SortedPermutationUnique<T>(a: seq<T>, b: seq<T>, key: T -> int)
    requires StrictlySortedBy(a, key) && SortedBy(b, key)
    requires multiset(a) == multiset(b)
    ensures a == b
    decreases |a|
  {
    if a == [] {
      assert |b| == |multiset(b)|;
    } else {
      SameHead(a, b, key);
      MultisetTail(a, b);
      SortedPermutationUnique(a[1..], b[1..], key);
      assert a == [a[0]] + a[1..];
      assert b == [b[0]] + b[1..];
    }
  }

  /** Mapping commutes with sorting when the map preserves keys. */
  lemma {:induction false} MapInsert<A, B>(f: A -> B, x: A, s: seq<A>, ka: A -> int, kb: B -> int)
    requires forall y :: kb(f(y)) == ka(y)
    ensures Map(f, Insert(x, s, ka)) == Insert(f(x), Map(f, s), kb)
  {
    var ms := Map(f, s);
    if s == [] || ka(x) <= ka(s[0]) {
      MapConcat(f, [x], s);
      assert s != [] ==> kb(ms[0]) == ka(s[0]);
    } else {
      MapInsert(f, x, s[1..], ka, kb);
      MapConcat(f, [s[0]], Insert(x, s[1..], ka));
      assert ms[0] == f(s[0]);
      assert ms[1..] == Map(f, s[1..]);
    }
  }

  lemma {:induction false} MapSort<A, B>(f: A -> B, s: seq<A>, ka: A -> int, kb: B -> int)
    requires forall y :: kb(f(y)) == ka(y)
    ensures Map(f, Sort(s, ka)) == Sort(Map(f, s), kb)
  {
    if s != [] {
      MapSort(f, s[1..], ka, kb);
      MapInsert(f, s[0], Sort(s[1..], ka), ka, kb);
      assert Map(f, s)[1..] == Map(f, s[1..]);
    }
  }

  /** Every converted value keeps a key bound that all sources meet. */
  lemma {:induction false} CompactMapAbove<A, B>(f: A -> Option<B>, s: seq<A>, ka: A -> int, kb: B -> int, m: int)
    requires forall x | x in s :: m <= ka(x)
    requires forall x | x in s && f(x).Some? :: kb(f(x).value) == ka(x)
    ensures forall y | y in CompactMap(f, s) :: m <= kb(y)
  {
    if s != [] {
      assert forall x | x in s[1..] :: x in s;
      CompactMapAbove(f, s[1..], ka, kb, m);
    }
  }

  /** An ascending sequence stays ascending behind an element no larger than any of
      its own. */
  lemma PrependSorted<T>(x: T, t: seq<T>, key: T -> int)
    requires SortedBy(t, key)
    requires forall y | y in t :: key(x) <= key(y)
    ensures SortedBy([x] + t, key)
  {
    forall i, j | 0 <= i < j < |[x] + t| ensures key(([x] + t)[i]) <= key(([x] + t)[j]) {
      assert ([x] + t)[j] == t[j - 1];
      assert t[j - 1] in t;
    }
  }

  /** Dropping failed conversions keeps an ascending order, when every converted
      value carries the key of its source. */
  lemma {:induction false} CompactMapSorted<A, B>(f: A -> Option<B>, s: seq<A>, ka: A -> int, kb: B -> int)
    requires SortedBy(s, ka)
    requires forall x | x in s && f(x).Some? :: kb(f(x).value) == ka(x)
    ensures SortedBy(CompactMap(f, s), kb)
  {
    if s != [] {
      var tail := CompactMap(f, s[1..]);
      assert forall x | x in s[1..] :: x in s;
      CompactMapSorted(f, s[1..], ka, kb);
      if f(s[0]).Some? {
        forall x | x in s[1..] ensures ka(s[0]) <= ka(x) {
          var k :| 0 <= k < |s[1..]| && s[1..][k] == x;
          assert s[k + 1] == x;
        }
        CompactMapAbove(f, s[1..], ka, kb, ka(s[0]));
        PrependSorted(f(s[0]).value, tail, kb);
        assert CompactMap(f, s) == [f(s[0]).value] + tail;
      } else {
        assert CompactMap(f, s) == tail;
      }
    }
  }

  /** Adding the same constant to every key changes no comparison, hence no order. */
  lemma {:induction false} InsertKeyShift<T>(x: T, s: seq<T>, k1: T -> int, k2: T -> int, d: int)
    requires forall y :: k2(y) == k1(y) + d
    ensures Insert(x, s, k1) == Insert(x, s, k2)
  {
    if s != [] && k1(x) > k1(s[0]) {
      InsertKeyShift(x, s[1..], k1, k2, d);
    }
  }

  lemma {:induction false} SortKeyShift<T>(s: seq<T>, k1: T -> int, k2: T -> int, d: int)
    requires forall y :: k2(y) == k1(y) + d
    ensures Sort(s, k1) == Sort(s, k2)
  {
    if s != [] {
      SortKeyShift(s[1..], k1, k2, d);
      InsertKeyShift(s[0], Sort(s[1..], k1), k1, k2, d);
    }
  }

  /** Sorting an ascending, key-distinct sequence gives a strictly ascending one. */
  lemma SortStrict<T>(s: seq<T>, key: T -> int)
    requires DistinctKeys(s, key)
    ensures StrictlySortedBy(Sort(s, key), key)
  {
    DistinctKeysPermutation(s, Sort(s, key), key);
  }

  /** Sorting a sequence followed by a strictly ascending run whose keys all lie
      above the sequence's keys: the run stays at the end. */
  lemma SortAppendRun<T>(x: seq<T>, y: seq<T>, key: T -> int)
    requires DistinctKeys(x, key) && StrictlySortedBy(y, key)
    requires forall i, j :: 0 <= i < |x| && 0 <= j < |y| ==> key(x[i]) < key(y[j])
    ensures Sort(x + y, key) == Sort(x, key) + y
  {
    var sx := Sort(x, key);
    SortStrict(x, key);
    forall i, j | 0 <= i < |sx| && 0 <= j < |y| ensures key(sx[i]) < key(y[j]) {
      assert sx[i] in multiset(x);
    }
    var a := sx + y;
    assert StrictlySortedBy(a, key);
    assert multiset(a) == multiset(x + y);
    SortedPermutationUnique(a, Sort(x + y, key), key);
  }

  /** Sorting a sequence followed by a strictly ascending run whose keys all lie
      below the sequence's keys: the run moves to the front. */
  lemma SortPrependRun<T>(x: seq<T>, y: seq<T>, key: T -> int)
    requires DistinctKeys(x, key) && StrictlySortedBy(y, key)
    requires forall i, j :: 0 <= i < |x| && 0 <= j < |y| ==> key(y[j]) < key(x[i])
    ensures Sort(x + y, key) == y + Sort(x, key)
  {
    var sx := Sort(x, key);
    SortStrict(x, key);
    forall i, j | 0 <= i < |sx| && 0 <= j < |y| ensures key(y[j]) < key(sx[i]) {
      assert sx[i] in multiset(x);
    }
    var a := y + sx;
    assert StrictlySortedBy(a, key);
    assert multiset(a) == multiset(x + y);
    SortedPermutationUnique(a, Sort(x + y, key), key);
  }

  lemma HeadIsMember<T>(s: seq<T>)
    ensures s != [] ==> s[0] in s
  {
  }

  /** In a strictly ascending sequence the head does not recur. */
  lemma HeadNotInTail<T>(a: seq<T>, key: T -> int)
    requires StrictlySortedBy(a, key) && a != []
    ensures a[0] !in a[1..]
  {
    forall i | 0 <= i < |a[1..]| ensures a[1..][i] != a[0] {
      assert key(a[0]) < key(a[i + 1]);
    }
  }

  /** Two strictly ascending sequences with the same elements start alike. */
  lemma SameHeadElements<T>(a: seq<T>, b: seq<T>, key: T -> int)
    requires StrictlySortedBy(a, key) && StrictlySortedBy(b, key)
    requires forall x :: x in a <==> x in b
    requires a != []
    ensures b != [] && a[0] == b[0]
  {
    assert a[0] in b;
    var j :| 0 <= j < |b| && b[j] == a[0];
    assert b[0] in a;
    var k :| 0 <= k < |a| && a[k] == b[0];
    assert key(b[0]) <= key(b[j]);
    assert key(a[0]) <= key(a[k]);
  }

  /** ... and, the head removed, still have the same elements. */
  lemma TailElements<T>(a: seq<T>, b: seq<T>, key: T -> int)
    requires StrictlySortedBy(a, key) && StrictlySortedBy(b, key)
    requires forall x :: x in a <==> x in b
    requires a != [] && b != [] && a[0] == b[0]
    ensures forall x :: x in a[1..] <==> x in b[1..]
  {
    HeadNotInTail(a, key);
    HeadNotInTail(b, key);
    forall x ensures x in a[1..] <==> x in b[1..] {
      assert x in a <==> x == a[0] || x in a[1..] by { assert a == [a[0]] + a[1..]; }
      assert x in b <==> x == b[0] || x in b[1..] by { assert b == [b[0]] + b[1..]; }
    }
  }

  /** Two strictly ascending sequences with the same elements are equal. */
  lemma {:induction false} StrictlySortedSameElements<T>(a: seq<T>, b: seq<T>, key: T -> int)
    requires StrictlySortedBy(a, key) && StrictlySortedBy(b, key)
    requires forall x :: x in a <==> x in b
    ensures a == b
    decreases |a| + |b|
  {
    if a == [] {
      HeadIsMember(b);
    } else {
      SameHeadElements(a, b, key);
      TailElements(a, b, key);
      StrictlySortedSameElements(a[1..], b[1..], key);
      assert a == [a[0]] + a[1..];
      assert b == [b[0]] + b[1..];
    }
  }

  /** Sorting keeps exactly the elements it was given. */
  lemma SortMembers<T>(s: seq<T>, key: T -> int)
    ensures forall x :: x in Sort(s, key) <==> x in s
  {
    var r := Sort(s, key);
    forall x ensures x in r <==> x in s {
      assert x in r <==> x in multiset(r);
      assert x in s <==> x in multiset(s);
    }
  }

  /** Key-distinct sequences with the same elements sort to the same sequence, so
      which of them a store hands out does not matter. */
  lemma SameElementsSameSort<T>(a: seq<T>, b: seq<T>, key: T -> int)
    requires DistinctKeys(a, key) && DistinctKeys(b, key)
    requires forall x :: x in a <==> x in b
    ensures Sort(a, key) == Sort(b, key)
  {
    SortStrict(a, key);
    SortStrict(b, key);
    SortMembers(a, key);
    SortMembers(b, key);
    StrictlySortedSameElements(Sort(a, key), Sort(b, key), key);
  }
}
