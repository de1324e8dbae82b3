/**
 * sort.Slice with a "greater than" comparison on a numeric key: the result is
 * a permutation of the input in non-increasing key order. The Go sort is not
 * stable, so nothing is promised about the order of records with equal keys.
 */
module Sorting {

  /** Non-increasing by key. */
  predicate Descending<T>(s: seq<T>, key: T -> real)
  {
    forall i, j :: 0 <= i < j < |s| ==> key(s[i]) >= key(s[j])
  }

  /** No two elements share a key. */
  ghost predicate DistinctKeys<T, K>(s: seq<T>, key: T -> K)
  {
    forall i, j :: 0 <= i < j < |s| ==> key(s[i]) != key(s[j])
  }

  /** Splicing x between a part whose keys are all at least x's and a part whose keys
      are all below it keeps the order. */
  lemma SpliceDescending<T>(p: seq<T>, x: T, q: seq<T>, key: T -> real)
    requires Descending(p + q, key)
    requires forall k :: 0 <= k < |p| ==> key(p[k]) >= key(x)
    requires |q| > 0 ==> key(q[0]) < key(x)
    ensures Descending(p + [x] + q, key)
  {
    var pq := p + q;
    var r := p + [x] + q;
    forall a, b | 0 <= a < b < |r| ensures key(r[a]) >= key(r[b]) {
      if b < |p| {
        assert r[a] == pq[a] && r[b] == pq[b];
      } else if b == |p| {
        assert r[a] == p[a];
      } else if a < |p| {
        assert r[a] == pq[a] && r[b] == pq[b - 1];
      } else if a == |p| {
        assert r[b] == pq[b - 1] && q[0] == pq[|p|];
        assert key(pq[|p|]) >= key(pq[b - 1]) || b - 1 == |p|;
      } else {
        assert r[a] == pq[a - 1] && r[b] == pq[b - 1];
      }
    }
  }

  /** Inserts x after every element whose key is at least x's. */
  method InsertDescending<T>(sorted: seq<T>, x: T, key: T -> real) returns (r: seq<T>)
    requires Descending(sorted, key)
    ensures Descending(r, key)
    ensures multiset(r) == multiset(sorted) + multiset{x}
  {
    var j := 0;
    while j < |sorted| && key(sorted[j]) >= key(x)
      invariant 0 <= j <= |sorted|
      invariant forall k :: 0 <= k < j ==> key(sorted[k]) >= key(x)
    {
      j := j + 1;
    }
    assert sorted == sorted[..j] + sorted[j..];
    SpliceDescending(sorted[..j], x, sorted[j..], key);
    r := sorted[..j] + [x] + sorted[j..];
  }

  /** sort.Slice(s, func(i, j) { return key(s[i]) > key(s[j]) }). */
  method SortDescending<T>(s: seq<T>, key: T -> real) returns (r: seq<T>)
    ensures Descending(r, key)
    ensures multiset(r) == multiset(s)
  {
    r := [];
    for i := 0 to |s|
      invariant Descending(r, key)
      invariant multiset(r) == multiset(s[..i])
    {
      assert s[..i + 1] == s[..i] + [s[i]];
      r := InsertDescending(r, s[i], key);
    }
    assert s[..|s|] == s;
  }

  /** Removing one element from a sequence. */
  function Without<T>(s: seq<T>, m: nat): (r: seq<T>)
    requires m < |s|
    ensures |r| == |s| - 1
    ensures forall k :: 0 <= k < |r| ==> r[k] == (if k < m then s[k] else s[k + 1])
    ensures multiset(r) == multiset(s) - multiset{s[m]}
  {
    assert s == s[..m] + [s[m]] + s[m + 1..];
    s[..m] + s[m + 1..]
  }

  /** Distinct keys after removing element m, none equal to element m's, are distinct keys. */
  lemma DistinctKeysWithout<T, K>(b: seq<T>, m: nat, key: T -> K)
    requires m < |b| && DistinctKeys(Without(b, m), key)
    requires forall o :: 0 <= o < |b| && o != m ==> key(b[o]) != key(b[m])
    ensures DistinctKeys(b, key)
  {
    var b' := Without(b, m);
    forall i, j | 0 <= i < j < |b| && i != m && j != m ensures key(b[i]) != key(b[j]) {
      var i' := if i < m then i else i - 1;
      var j' := if j < m then j else j - 1;
      assert b'[i'] == b[i] && b'[j'] == b[j];
    }
  }

  /** An element of a permutation of a' is an element of a'. */
  lemma KeyOfOther<T, K>(a: seq<T>, b: seq<T>, m: nat, o: nat, key: T -> K)
    requires |a| > 0 && m < |b| && o < |b| && o != m
    requires multiset(a[..|a| - 1]) == multiset(Without(b, m))
    requires DistinctKeys(a, key)
    ensures exists p :: 0 <= p < |a| - 1 && a[p] == b[o]
  {
    var o' := if o < m then o else o - 1;
    assert Without(b, m)[o'] == b[o];
    assert b[o] in multiset(Without(b, m));
    assert b[o] in multiset(a[..|a| - 1]);
    var p :| 0 <= p < |a| - 1 && a[..|a| - 1][p] == b[o];
  }

  /** A permutation of a sequence with distinct keys has distinct keys. */
  lemma {:induction false} PermutationKeepsKeysDistinct<T, K>(a: seq<T>, b: seq<T>, key: T -> K)
    requires multiset(a) == multiset(b)
    requires DistinctKeys(a, key)
    ensures DistinctKeys(b, key)
    decreases |a|
  {
    if |a| > 0 {
      var a' := a[..|a| - 1];
      var m := MatchLast(a, b);
      var b' := Without(b, m);
      assert DistinctKeys(a', key);
      PermutationKeepsKeysDistinct(a', b', key);
      forall o | 0 <= o < |b| && o != m ensures key(b[o]) != key(b[m]) {
        KeyOfOther(a, b, m, o, key);
      }
      DistinctKeysWithout(b, m, key);
    }
  }

  /** The last element of a occurs in its permutation b at some m; without it, the rest agree. */
  lemma MatchLast<T>(a: seq<T>, b: seq<T>) returns (m: nat)
    requires |a| > 0 && multiset(a) == multiset(b)
    ensures m < |b| && b[m] == a[|a| - 1]
    ensures multiset(a[..|a| - 1]) == multiset(Without(b, m))
  {
    var x := a[|a| - 1];
    assert a == a[..|a| - 1] + [x];
    assert x in multiset(b);
    m :| 0 <= m < |b| && b[m] == x;
  }

  /** No element occurs twice. */
  ghost predicate NoDuplicates<T>(s: seq<T>)
  {
    forall i, j :: 0 <= i < j < |s| ==> s[i] != s[j]
  }

  /** In a sequence without duplicates every element occurs once. */
  lemma {:induction false} OccursOnce<T>(s: seq<T>, x: T)
    requires NoDuplicates(s)
    ensures multiset(s)[x] == if x in s then 1 else 0
  {
    if |s| > 0 {
      var init := s[..|s| - 1];
      var last := s[|s| - 1];
      assert s == init + [last];
      assert NoDuplicates(init);
      OccursOnce(init, x);
      if x == last {
        assert forall k :: 0 <= k < |init| ==> init[k] == s[k] && s[k] != s[|s| - 1];
      }
    }
  }

  /** Two sequences without duplicates and with the same elements are permutations of
      each other. */
  lemma SameElementsPermutation<T>(a: seq<T>, b: seq<T>)
    requires NoDuplicates(a) && NoDuplicates(b)
    requires forall x :: x in a <==> x in b
    ensures multiset(a) == multiset(b)
  {
    forall x ensures multiset(a)[x] == multiset(b)[x] {
      OccursOnce(a, x);
      OccursOnce(b, x);
    }
  }
}
