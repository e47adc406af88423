/** Generic sequence helpers: the filter, slice and flatten shapes that the
    query sets of the shop are built from. */
module Seqs {

  /** `r` can be obtained from `s` by deleting elements: order is kept. */
  predicate Subsequence<T(==)>(r: seq<T>, s: seq<T>)
  {
    r == [] || (s != [] && ((r[0] == s[0] && Subsequence(r[1..], s[1..])) || Subsequence(r, s[1..])))
  }

  /** The elements of `s` that satisfy `p`, in their original order
      (a query set's `.filter(...)`). */
  function Filter<T>(s: seq<T>, p: T -> bool): (r: seq<T>)
    ensures |r| <= |s|
    ensures forall i :: 0 <= i < |r| ==> r[i] in s && p(r[i])
    ensures forall i :: 0 <= i < |s| && p(s[i]) ==> s[i] in r
    ensures Subsequence(r, s)
  {
    if s == [] then []
    else if p(s[0]) then [s[0]] + Filter(s[1..], p)
    else Filter(s[1..], p)
  }

  /** Keeping the order twice keeps it once. */
  lemma {:induction false} SubsequenceTrans<T>(a: seq<T>, b: seq<T>, c: seq<T>)
    requires Subsequence(a, b) && Subsequence(b, c)
    ensures Subsequence(a, c)
    decreases |c|
  {
    if a != [] {
      if Subsequence(b, c[1..]) {
        SubsequenceTrans(a, b, c[1..]);
      } else if a[0] == b[0] && Subsequence(a[1..], b[1..]) {
        SubsequenceTrans(a[1..], b[1..], c[1..]);
      } else {
        SubsequenceTrans(a, b[1..], c[1..]);
      }
    }
  }

  /** Filtering before a second filter can only drop more elements. */
  lemma {:induction false} FilterBeforeFilter<T>(s: seq<T>, p: T -> bool, q: T -> bool)
    ensures Subsequence(Filter(Filter(s, p), q), Filter(s, q))
  {
    if s != [] {
      FilterBeforeFilter(s[1..], p, q);
      if !p(s[0]) && q(s[0]) {
        assert ([s[0]] + Filter(s[1..], q))[1..] == Filter(s[1..], q);
      }
    }
  }

  lemma {:induction false} SubsequenceRefl<T>(s: seq<T>)
    ensures Subsequence(s, s)
  {
    if s != [] {
      SubsequenceRefl(s[1..]);
    }
  }

  /** Two tests that agree everywhere filter alike. */
  lemma {:induction false} FilterSame<T>(s: seq<T>, p: T -> bool, q: T -> bool)
    requires forall x :: p(x) == q(x)
    ensures Filter(s, p) == Filter(s, q)
  {
    if s != [] {
      FilterSame(s[1..], p, q);
    }
  }

  function Min(a: int, b: int): int { if a < b then a else b }

  /** The first `n` elements of `s`, or all of them when there are fewer
      (Python's slice `s[:n]`). */
  function Take<T>(s: seq<T>, n: nat): (r: seq<T>)
    ensures |r| == if |s| < n then |s| else n
    ensures forall i :: 0 <= i < |r| ==> r[i] == s[i]
  {
    if |s| <= n then s else s[..n]
  }

  /** No two elements of `s` have the same key. */
  ghost predicate DistinctBy<T, K>(s: seq<T>, key: T -> K)
  {
    forall i, j :: 0 <= i < j < |s| ==> key(s[i]) != key(s[j])
  }

  /** Deleting rows never creates a duplicate key. */
  lemma {:induction false} FilterDistinctBy<T, K>(s: seq<T>, p: T -> bool, key: T -> K)
    requires DistinctBy(s, key)
    ensures DistinctBy(Filter(s, p), key)
  {
    if s != [] {
      FilterDistinctBy(s[1..], p, key);
      var rest := Filter(s[1..], p);
      if p(s[0]) {
        var r := [s[0]] + rest;
        forall i, j | 0 <= i < j < |r| ensures key(r[i]) != key(r[j]) {
          if i == 0 {
            assert r[j] in s[1..];
            var k :| 0 <= k < |s[1..]| && s[1..][k] == r[j];
            assert s[k + 1] == r[j];
          } else {
            assert r[i] == rest[i - 1] && r[j] == rest[j - 1];
          }
        }
      }
    }
  }

  /** Appending one row whose key is new keeps the keys distinct. */
  lemma AppendDistinctBy<T, K>(s: seq<T>, x: T, key: T -> K)
    requires DistinctBy(s, key)
    requires forall i :: 0 <= i < |s| ==> key(s[i]) != key(x)
    ensures DistinctBy(s + [x], key)
  {
    var r := s + [x];
    forall i, j | 0 <= i < j < |r| ensures key(r[i]) != key(r[j]) {
      if j < |s| {
        assert r[i] == s[i] && r[j] == s[j];
      } else {
        assert r[i] == s[i];
      }
    }
  }

  /** Deleting the row at `k` keeps the keys distinct. */
  lemma RemoveAtDistinct<T, K>(s: seq<T>, k: nat, key: T -> K)
    requires k < |s| && DistinctBy(s, key)
    ensures DistinctBy(s[..k] + s[k + 1..], key)
  {
    var t := s[..k] + s[k + 1..];
    assert forall i :: 0 <= i < |t| ==> t[i] == s[if i < k then i else i + 1];
  }

  /** What `z` adds to a prefix `x` is what `y` adds to `x`, then what `z`
      adds to `y`. */
  lemma SuffixSplit<T>(x: seq<T>, y: seq<T>, z: seq<T>)
    requires x <= y <= z
    ensures z[|x|..] == y[|x|..] + z[|y|..]
  {
    assert forall i :: |x| <= i < |y| ==> z[i] == y[i];
  }

  /** Deleting the element at `k` keeps every other element and adds none. */
  lemma RemoveAtKeeps<T>(s: seq<T>, k: nat)
    requires k < |s|
    ensures forall x :: x in s[..k] + s[k + 1..] ==> x in s
    ensures forall i :: 0 <= i < |s| && i != k ==> s[i] in s[..k] + s[k + 1..]
  {
    var t := s[..k] + s[k + 1..];
    forall i | 0 <= i < |s| && i != k ensures s[i] in t {
      assert t[if i < k then i else i - 1] == s[i];
    }
    forall x | x in t ensures x in s {
      var j :| 0 <= j < |t| && t[j] == x;
      assert s[if j < k then j else j + 1] == x;
    }
  }

  /** Deleting the row at `k` of a table with distinct keys deletes exactly
      the rows with that row's key, and keeps the keys distinct. */
  lemma RemoveAtKey<T, K>(s: seq<T>, k: nat, key: T -> K)
    requires k < |s| && DistinctBy(s, key)
    ensures DistinctBy(s[..k] + s[k + 1..], key)
    ensures forall x :: x in s[..k] + s[k + 1..] <==> x in s && key(x) != key(s[k])
  {
    var t := s[..k] + s[k + 1..];
    RemoveAtDistinct(s, k, key);
    assert forall i :: 0 <= i < |t| ==> t[i] == s[if i < k then i else i + 1];
    forall x | x in s && key(x) != key(s[k]) ensures x in t {
      var j :| 0 <= j < |s| && s[j] == x;
      assert t[if j < k then j else j - 1] == x;
    }
    forall x | x in t ensures x in s && key(x) != key(s[k]) {
      var j :| 0 <= j < |t| && t[j] == x;
      var i := if j < k then j else j + 1;
      assert s[i] == x && i != k;
    }
  }

  /** The (primary) keys strictly ascend, neighbour by neighbour. */
  predicate Ascending<T>(s: seq<T>, key: T -> nat)
  {
    |s| <= 1 || (key(s[0]) < key(s[1]) && Ascending(s[1..], key))
  }

  /** Ascending neighbours is the same as every earlier key being smaller
      than every later one. */
  lemma {:induction false} AscendingIff<T>(s: seq<T>, key: T -> nat)
    ensures Ascending(s, key) <==> forall i, j :: 0 <= i < j < |s| ==> key(s[i]) < key(s[j])
  {
    if |s| > 1 {
      var t := s[1..];
      AscendingIff(t, key);
      assert forall i :: 0 <= i < |t| ==> t[i] == s[i + 1];
      if Ascending(s, key) {
        forall i, j | 0 <= i < j < |s| ensures key(s[i]) < key(s[j]) {
          if i == 0 {
            if j > 1 {
              assert key(t[0]) < key(t[j - 1]);
            }
          } else {
            assert key(t[i - 1]) < key(t[j - 1]);
          }
        }
      }
      if forall i, j :: 0 <= i < j < |s| ==> key(s[i]) < key(s[j]) {
        forall i, j | 0 <= i < j < |t| ensures key(t[i]) < key(t[j]) {
          assert key(s[i + 1]) < key(s[j + 1]);
        }
      }
    }
  }

  /** An element whose key exceeds every key so far may be appended. */
  lemma AscendingAppend<T>(s: seq<T>, x: T, key: T -> nat)
    requires Ascending(s, key) && forall i :: 0 <= i < |s| ==> key(s[i]) < key(x)
    ensures Ascending(s + [x], key)
  {
    var t := s + [x];
    AscendingIff(s, key);
    forall i, j | 0 <= i < j < |t| ensures key(t[i]) < key(t[j]) {
      assert t[i] == s[i];
      if j < |s| {
        assert t[j] == s[j];
      }
    }
    AscendingIff(t, key);
  }

  /** Index of the first element of `s` that satisfies `p`, or -1 (the
      lookup behind `get_object_or_404` on a filtered table). */
  function IndexWhere<T>(s: seq<T>, p: T -> bool): (k: int)
    ensures -1 <= k < |s|
    ensures k >= 0 ==> p(s[k])
    ensures forall i :: 0 <= i < |s| && (k < 0 || i < k) ==> !p(s[i])
  {
    if s == [] then -1
    else if p(s[0]) then 0
    else
      var k := IndexWhere(s[1..], p);
      if k < 0 then -1 else k + 1
  }
}
