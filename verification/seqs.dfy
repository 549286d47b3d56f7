/** Element-wise map and filter over sequences (Swift's `map`, `compactMap` and
    `filter`), with the multiset facts the cache proofs rely on. */
module Seqs {
  import opened Base

  function Map<A, B>(f: A -> B, s: seq<A>): (r: seq<B>)
    ensures |r| == |s|
    ensures forall i :: 0 <= i < |s| ==> r[i] == f(s[i])
  {
    if s == [] then [] else [f(s[0])] + Map(f, s[1..])
  }

  /** Keeps, in order, the elements satisfying `p`. */
  function Filter<A>(p: A -> bool, s: seq<A>): (r: seq<A>)
    ensures |r| <= |s|
    ensures forall x | x in r :: x in s && p(x)
    ensures forall x | x in s && p(x) :: x in r
  {
    if s == [] then [] else (if p(s[0]) then [s[0]] else []) + Filter(p, s[1..])
  }

  /** Swift's `compactMap`: applies `f` and drops the `nil` results. */
  function CompactMap<A, B>(f: A -> Option<B>, s: seq<A>): (r: seq<B>)
    ensures |r| <= |s|
    ensures forall y | y in r :: exists x | x in s :: f(x) == Some(y)
    ensures forall x | x in s && f(x).Some? :: f(x).value in r
    ensures (forall x | x in s :: f(x).Some?) ==> |r| == |s|
  {
    if s == [] then []
    else (match f(s[0]) case Some(y) => [y] case None => []) + CompactMap(f, s[1..])
  }

  /** When `f` never fails, `compactMap` is an element-wise map. */
  lemma {:induction false} CompactMapTotal<A, B>(f: A -> Option<B>, s: seq<A>)
    requires forall i :: 0 <= i < |s| ==> f(s[i]).Some?
    ensures |CompactMap(f, s)| == |s|
    ensures forall i :: 0 <= i < |s| ==> f(s[i]) == Some(CompactMap(f, s)[i])
  {
    if s != [] {
      CompactMapTotal(f, s[1..]);
      assert CompactMap(f, s) == [f(s[0]).value] + CompactMap(f, s[1..]);
    }
  }

  lemma {:induction false} MapConcat<A, B>(f: A -> B, a: seq<A>, b: seq<A>)
    ensures Map(f, a + b) == Map(f, a) + Map(f, b)
  {
  }

  lemma {:induction false} FilterConcat<A>(p: A -> bool, a: seq<A>, b: seq<A>)
    ensures Filter(p, a + b) == Filter(p, a) + Filter(p, b)
  {
    if a == [] {
      assert a + b == b;
    } else {
      assert (a + b)[1..] == a[1..] + b;
      FilterConcat(p, a[1..], b);
    }
  }

  /** The head of `a` sits somewhere in any permutation `b` of `a`; without it,
      the rest of `b` is a permutation of the rest of `a`. */
  lemma PermutationSplit<A>(a: seq<A>, b: seq<A>) returns (j: int)
    requires a != [] && multiset(a) == multiset(b)
    ensures 0 <= j < |b| && b[j] == a[0]
    ensures multiset(a[1..]) == multiset(b[..j] + b[j+1..])
  {
    assert a[0] in multiset(b);
    j :| 0 <= j < |b| && b[j] == a[0];
    MultisetParts(b, j);
    MultisetParts(a, 0);
    assert multiset(a[..0]) == multiset{};
    assert multiset(a[1..]) == multiset(a) - multiset{a[0]};
    assert multiset(b[..j] + b[j+1..]) == multiset(b) - multiset{b[j]};
  }

  /** Filtering keeps every occurrence of an accepted element and none of a
      rejected one. */
  lemma {:induction false} FilterCount<A>(p: A -> bool, a: seq<A>)
    ensures forall x :: multiset(Filter(p, a))[x] == if p(x) then multiset(a)[x] else 0
  {
    if a != [] {
      FilterCount(p, a[1..]);
      assert a == [a[0]] + a[1..];
    }
  }

  lemma SameCounts<A>(m: multiset<A>, n: multiset<A>)
    requires forall x :: m[x] == n[x]
    ensures m == n
  {
  }

  /** Permuted inputs give permuted filter results. */
  lemma FilterPermutation<A>(p: A -> bool, a: seq<A>, b: seq<A>)
    requires multiset(a) == multiset(b)
    ensures multiset(Filter(p, a)) == multiset(Filter(p, b))
  {
    var fa, fb := multiset(Filter(p, a)), multiset(Filter(p, b));
    FilterCount(p, a);
    FilterCount(p, b);
    forall x ensures fa[x] == fb[x] {
      assert fa[x] == if p(x) then multiset(a)[x] else 0;
    }
    SameCounts(fa, fb);
  }

  /** Mapping around a removed element. */
  lemma MapAt<A, B>(f: A -> B, b: seq<A>, j: int)
    requires 0 <= j < |b|
    ensures multiset(Map(f, b)) == multiset(Map(f, b[..j] + b[j+1..])) + multiset{f(b[j])}
  {
    var m := Map(f, b);
    MultisetParts(m, j);
    assert m[..j] == Map(f, b[..j]);
    assert m[j+1..] == Map(f, b[j+1..]);
    MapConcat(f, b[..j], b[j+1..]);
  }

  /** Permuted inputs give permuted map results. */
  lemma {:induction false} MapPermutation<A, B>(f: A -> B, a: seq<A>, b: seq<A>)
    requires multiset(a) == multiset(b)
    ensures multiset(Map(f, a)) == multiset(Map(f, b))
    decreases |a|
  {
    if a != [] {
      var j := PermutationSplit(a, b);
      MapPermutation(f, a[1..], b[..j] + b[j+1..]);
      MapAt(f, b, j);
    }
  }

  /** Mapping commutes with filtering when the map preserves the predicate. */
  lemma {:induction false} MapFilter<A, B>(f: A -> B, p: A -> bool, q: B -> bool, s: seq<A>)
    requires forall x :: q(f(x)) == p(x)
    ensures Map(f, Filter(p, s)) == Filter(q, Map(f, s))
  {
    if s != [] {
      MapFilter(f, p, q, s[1..]);
      MapConcat(f, if p(s[0]) then [s[0]] else [], Filter(p, s[1..]));
    }
  }

  /** No two elements share a key (for a cache: no two entries share a photo id). */
  ghost predicate DistinctKeys<A, K>(s: seq<A>, key: A -> K) {
    forall i, j :: 0 <= i < j < |s| ==> key(s[i]) != key(s[j])
  }

  /** Filtering keeps everything when every element passes. */
  lemma {:induction false} FilterAll<A>(p: A -> bool, s: seq<A>)
    requires forall i :: 0 <= i < |s| ==> p(s[i])
    ensures Filter(p, s) == s
  {
    if s != [] {
      FilterAll(p, s[1..]);
    }
  }

  /** Filtering keeps keys distinct. */
  lemma {:induction false} FilterDistinctKeys<A, K>(p: A -> bool, s: seq<A>, key: A -> K)
    requires DistinctKeys(s, key)
    ensures DistinctKeys(Filter(p, s), key)
  {
    if s != [] {
      var tail := Filter(p, s[1..]);
      FilterDistinctKeys(p, s[1..], key);
      if p(s[0]) {
        forall j | 0 <= j < |tail| ensures key(s[0]) != key(tail[j]) {
          assert tail[j] in tail;
          var k :| 0 <= k < |s[1..]| && s[1..][k] == tail[j];
          assert s[k + 1] == tail[j];
        }
        assert Filter(p, s) == [s[0]] + tail;
      }
    }
  }

  /** A position at which a member of `s` occurs. */
  lemma IndexOf<T>(s: seq<T>, x: T) returns (k: int)
    requires x in s
    ensures 0 <= k < |s| && s[k] == x
  {
    k :| 0 <= k < |s| && s[k] == x;
  }

  /** An element at two different indices occurs at least twice. */
  lemma TwiceCounted<A>(s: seq<A>, i: int, j: int)
    requires 0 <= i < j < |s| && s[i] == s[j]
    ensures multiset(s)[s[i]] >= 2
  {
    assert s == s[..i] + [s[i]] + s[i+1..j] + [s[j]] + s[j+1..];
  }

  /** The elements of `s` are those before, at and after position `i`. */
  lemma MultisetParts<A>(s: seq<A>, i: int)
    requires 0 <= i < |s|
    ensures multiset(s) == multiset(s[..i]) + multiset{s[i]} + multiset(s[i+1..])
  {
    assert s == s[..i] + [s[i]] + s[i+1..];
  }

  /** An element occurring at least twice sits at two different indices. */
  lemma CountedTwice<A>(s: seq<A>, x: A)
    requires multiset(s)[x] >= 2
    ensures exists i, j :: 0 <= i < j < |s| && s[i] == x && s[j] == x
  {
    assert x in multiset(s);
    var i :| 0 <= i < |s| && s[i] == x;
    MultisetParts(s, i);
    var pre, post := s[..i], s[i+1..];
    if x in multiset(pre) {
      var k :| 0 <= k < |pre| && pre[k] == x;
      assert s[k] == x;
    } else {
      assert x in multiset(post);
      var k :| 0 <= k < |post| && post[k] == x;
      assert s[i + 1 + k] == x;
    }
  }

  /** Distinct keys survive any permutation. */
  lemma DistinctKeysPermutation<A, K>(a: seq<A>, b: seq<A>, key: A -> K)
    requires multiset(a) == multiset(b)
    requires DistinctKeys(a, key)
    ensures DistinctKeys(b, key)
  {
    forall i, j | 0 <= i < j < |b|
      ensures key(b[i]) != key(b[j])
    {
      assert b[i] in multiset(a) && b[j] in multiset(a);
      var k :| 0 <= k < |a| && a[k] == b[i];
      var l :| 0 <= l < |a| && a[l] == b[j];
      if b[i] == b[j] {
        TwiceCounted(b, i, j);
        CountedTwice(a, b[i]);
      } else {
        assert k != l;
      }
    }
  }

  /** Filtering keeps nothing when no element passes. */
  lemma {:induction false} FilterNone<A>(p: A -> bool, s: seq<A>)
    requires forall i :: 0 <= i < |s| ==> !p(s[i])
    ensures Filter(p, s) == []
  {
    if s != [] {
      FilterNone(p, s[1..]);
    }
  }

  /** Mapping sequences with the same elements gives sequences with the same
      elements. */
  lemma MapSameElements<A, B>(f: A -> B, a: seq<A>, b: seq<A>)
    requires forall x :: x in a <==> x in b
    ensures forall y :: y in Map(f, a) <==> y in Map(f, b)
  {
    forall y ensures y in Map(f, a) ==> y in Map(f, b) {
      if y in Map(f, a) {
        var i :| 0 <= i < |a| && Map(f, a)[i] == y;
        assert a[i] in b;
        var j :| 0 <= j < |b| && b[j] == a[i];
        assert Map(f, b)[j] == y;
      }
    }
    forall y ensures y in Map(f, b) ==> y in Map(f, a) {
      if y in Map(f, b) {
        var i :| 0 <= i < |b| && Map(f, b)[i] == y;
        assert b[i] in a;
        var j :| 0 <= j < |a| && a[j] == b[i];
        assert Map(f, a)[j] == y;
      }
    }
  }
}
