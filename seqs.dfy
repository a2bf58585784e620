/** Sequence helpers shared by the model: order-preserving filter, first-seen
    de-duplication (the "push unless already included" idiom used throughout
    the front end) and a stable descending sort by an integer key (the
    "ORDER BY ... DESC" / "Comparator.reversed()" idiom of the back end). */
module Seqs {

  /** No element occurs twice. */
  predicate Distinct<T(==)>(s: seq<T>) {
    forall i, j :: 0 <= i < j < |s| ==> s[i] != s[j]
  }

  /** `a` can be obtained from `b` by deleting elements: the relative order is kept. */
  predicate IsSubsequence<T(==)>(a: seq<T>, b: seq<T>)
    decreases |b|
  {
    a == [] ||
    (b != [] && ((a[0] == b[0] && IsSubsequence(a[1..], b[1..])) || IsSubsequence(a, b[1..])))
  }

  /** Array.prototype.filter / Stream.filter: the elements satisfying `p`, in order. */
  function Filter<T>(s: seq<T>, p: T -> bool): (r: seq<T>)
    ensures |r| <= |s|
  {
    if s == [] then [] else (if p(s[0]) then [s[0]] else []) + Filter(s[1..], p)
  }

  /** The filter keeps every copy of a value that passes and none of one
      that does not. */
  lemma {:induction false} FilterCount<T>(s: seq<T>, p: T -> bool, x: T)
    ensures multiset(Filter(s, p))[x] == if p(x) then multiset(s)[x] else 0
  {
    if s != [] {
      FilterCount(s[1..], p, x);
      assert s == [s[0]] + s[1..];
    }
  }

  lemma {:induction false} FilterMembership<T>(s: seq<T>, p: T -> bool, x: T)
    ensures x in Filter(s, p) <==> x in s && p(x)
  {
    if s != [] {
      FilterMembership(s[1..], p, x);
      assert s == [s[0]] + s[1..];
    }
  }

  lemma {:induction false} FilterAll<T>(s: seq<T>, p: T -> bool)
    ensures forall i :: 0 <= i < |Filter(s, p)| ==> p(Filter(s, p)[i])
  {
    var r := Filter(s, p);
    forall i | 0 <= i < |r| ensures p(r[i]) {
      FilterMembership(s, p, r[i]);
    }
  }

  lemma {:induction false} FilterIsSubsequence<T>(s: seq<T>, p: T -> bool)
    ensures IsSubsequence(Filter(s, p), s)
  {
    if s != [] {
      FilterIsSubsequence(s[1..], p);
      if p(s[0]) {
        assert Filter(s, p) == [s[0]] + Filter(s[1..], p);
        assert Filter(s, p)[1..] == Filter(s[1..], p);
      } else {
        assert Filter(s, p) == Filter(s[1..], p);
      }
    }
  }

  lemma {:induction false} FilterKeepsEverything<T>(s: seq<T>, p: T -> bool)
    requires forall i :: 0 <= i < |s| ==> p(s[i])
    ensures Filter(s, p) == s
  {
    if s != [] {
      FilterKeepsEverything(s[1..], p);
      assert s == [s[0]] + s[1..];
    }
  }

  lemma {:induction false} FilterAppend<T>(a: seq<T>, b: seq<T>, p: T -> bool)
    ensures Filter(a + b, p) == Filter(a, p) + Filter(b, p)
  {
    if a == [] {
      assert a + b == b;
    } else {
      FilterAppend(a[1..], b, p);
      FilterCons(a[0], a[1..] + b, p);
      FilterCons(a[0], a[1..], p);
      SeqAssoc(if p(a[0]) then [a[0]] else [], Filter(a[1..], p), Filter(b, p));
      assert a + b == [a[0]] + (a[1..] + b) && a == [a[0]] + a[1..];
    }
  }

  lemma FilterCons<T>(x: T, s: seq<T>, p: T -> bool)
    ensures Filter([x] + s, p) == (if p(x) then [x] else []) + Filter(s, p)
  {
    assert ([x] + s)[1..] == s;
  }

  /** Two maps with the same keys and the same value at every key are equal. */
  lemma MapsAgree<K, V>(m: map<K, V>, n: map<K, V>)
    requires forall k :: k in m <==> k in n
    requires forall k :: k in n ==> m[k] == n[k]
    ensures m == n
  {
  }

  lemma SeqAssoc<T>(a: seq<T>, b: seq<T>, c: seq<T>)
    ensures a + (b + c) == (a + b) + c
  {
  }

  lemma {:induction false} FilterDistinct<T>(s: seq<T>, p: T -> bool)
    requires Distinct(s)
    ensures Distinct(Filter(s, p))
  {
    if s != [] {
      FilterDistinct(s[1..], p);
      FilterMembership(s[1..], p, s[0]);
      assert s[0] !in s[1..] by {
        forall k | 0 <= k < |s[1..]| ensures s[1..][k] != s[0] {
          assert s[1..][k] == s[k + 1];
        }
      }
    }
  }

  /** Filtering twice with the same predicate is filtering once. */
  lemma {:induction false} FilterTwice<T>(s: seq<T>, p: T -> bool)
    ensures Filter(Filter(s, p), p) == Filter(s, p)
  {
    FilterAll(s, p);
    FilterKeepsEverything(Filter(s, p), p);
  }

  /** Replacing an element the filter drops by another one it drops does
      not change the filtered sequence. */
  lemma {:induction false} FilterReplaceDropped<T>(s: seq<T>, k: int, x: T, p: T -> bool)
    requires 0 <= k < |s| && !p(s[k]) && !p(x)
    ensures Filter(s[k := x], p) == Filter(s, p)
  {
    if k > 0 {
      FilterReplaceDropped(s[1..], k - 1, x, p);
      assert s[k := x][1..] == s[1..][k - 1 := x];
    } else {
      assert s[k := x][1..] == s[1..];
    }
  }

  /** Array.prototype.map / Stream.map. */
  function Map<A, B>(xs: seq<A>, f: A -> B): (r: seq<B>)
    ensures |r| == |xs|
  {
    if xs == [] then [] else [f(xs[0])] + Map(xs[1..], f)
  }

  lemma {:induction false} MapAt<A, B>(xs: seq<A>, f: A -> B, i: int)
    requires 0 <= i < |xs|
    ensures Map(xs, f)[i] == f(xs[i])
  {
    if i > 0 {
      MapAt(xs[1..], f, i - 1);
    }
  }

  /** First-seen de-duplication, written the way the source builds it: walk
      left to right and append an element unless it is already present. */
  function Dedup<T(==)>(s: seq<T>): seq<T> {
    if s == [] then []
    else
      var p := Dedup(s[..|s| - 1]);
      if s[|s| - 1] in p then p else p + [s[|s| - 1]]
  }

  lemma {:induction false} DedupStep<T>(s: seq<T>, x: T)
    ensures Dedup(s + [x]) == if x in Dedup(s) then Dedup(s) else Dedup(s) + [x]
  {
    assert (s + [x])[..|s + [x]| - 1] == s;
  }

  lemma {:induction false} DedupMembership<T>(s: seq<T>, x: T)
    ensures x in Dedup(s) <==> x in s
  {
    if s != [] {
      var init := s[..|s| - 1];
      DedupMembership(init, x);
      assert s == init + [s[|s| - 1]];
    }
  }

  lemma {:induction false} DedupDistinct<T>(s: seq<T>)
    ensures Distinct(Dedup(s))
  {
    if s != [] {
      DedupDistinct(s[..|s| - 1]);
    }
  }

  /** The de-duplicated sequence keeps the first occurrence of every element. */
  lemma {:induction false} DedupOfDistinct<T>(s: seq<T>)
    requires Distinct(s)
    ensures Dedup(s) == s
  {
    if s != [] {
      var init := s[..|s| - 1];
      DedupOfDistinct(init);
      DedupMembership(init, s[|s| - 1]);
      assert s == init + [s[|s| - 1]];
    }
  }

  /** Sorted by `key`, largest first. */
  predicate SortedDesc<T>(s: seq<T>, key: T -> int) {
    forall i, j :: 0 <= i < j < |s| ==> key(s[i]) >= key(s[j])
  }

  /** Insert `x` after the leading elements whose key is larger than its
      own, so before every element with an equal key. Since `SortDesc`
      inserts the first element last, equal keys keep their original
      order, as a stable sort does. */
  function InsertDesc<T>(x: T, s: seq<T>, key: T -> int): seq<T> {
    if s == [] then [x]
    else if key(s[0]) > key(x) then [s[0]] + InsertDesc(x, s[1..], key)
    else [x] + s
  }

  /** Stable sort by `key`, largest first (insertion sort). */
  function SortDesc<T>(s: seq<T>, key: T -> int): seq<T> {
    if s == [] then [] else InsertDesc(s[0], SortDesc(s[1..], key), key)
  }

  lemma {:induction false} InsertDescCorrect<T>(x: T, s: seq<T>, key: T -> int)
    requires SortedDesc(s, key)
    ensures SortedDesc(InsertDesc(x, s, key), key)
    ensures multiset(InsertDesc(x, s, key)) == multiset(s) + multiset{x}
  {
    InsertDescSorted(x, s, key);
    InsertDescMultiset(x, s, key);
  }

  lemma {:induction false} InsertDescMultiset<T>(x: T, s: seq<T>, key: T -> int)
    ensures multiset(InsertDesc(x, s, key)) == multiset(s) + multiset{x}
  {
    if s != [] && key(s[0]) > key(x) {
      InsertDescMultiset(x, s[1..], key);
      assert s == [s[0]] + s[1..];
    }
  }

  lemma {:induction false} InsertDescSorted<T>(x: T, s: seq<T>, key: T -> int)
    requires SortedDesc(s, key)
    ensures SortedDesc(InsertDesc(x, s, key), key)
  {
    if s == [] {
      return;
    }
    var t := InsertDesc(x, s, key);
    if key(s[0]) > key(x) {
      var r := InsertDesc(x, s[1..], key);
      forall i, j | 0 <= i < j < |s| - 1 ensures key(s[1..][i]) >= key(s[1..][j]) {
        assert s[1..][i] == s[i + 1] && s[1..][j] == s[j + 1];
      }
      InsertDescSorted(x, s[1..], key);
      assert t == [s[0]] + r;
      forall i, j | 0 <= i < j < |t| ensures key(t[i]) >= key(t[j]) {
        if i == 0 {
          HeadBoundsInsert(x, s, key, j - 1);
        } else {
          assert t[i] == r[i - 1] && t[j] == r[j - 1];
        }
      }
    } else {
      assert t == [x] + s;
      forall i, j | 0 <= i < j < |t| ensures key(t[i]) >= key(t[j]) {
        assert t[j] == s[j - 1];
        if i > 0 {
          assert t[i] == s[i - 1];
        } else if j > 1 {
          assert key(s[0]) >= key(s[j - 1]);
        }
      }
    }
  }

  lemma {:induction false} HeadBoundsInsert<T>(x: T, s: seq<T>, key: T -> int, k: nat)
    requires SortedDesc(s, key) && s != [] && key(s[0]) > key(x)
    requires k < |InsertDesc(x, s[1..], key)|
    ensures key(s[0]) >= key(InsertDesc(x, s[1..], key)[k])
  {
    var r := InsertDesc(x, s[1..], key);
    InsertDescMembers(x, s[1..], key, k);
    if r[k] != x {
      var m :| 0 <= m < |s[1..]| && s[1..][m] == r[k];
      assert s[1..][m] == s[m + 1];
    }
  }

  lemma {:induction false} InsertDescMembers<T>(x: T, s: seq<T>, key: T -> int, k: nat)
    requires k < |InsertDesc(x, s, key)|
    ensures InsertDesc(x, s, key)[k] == x || exists m :: 0 <= m < |s| && s[m] == InsertDesc(x, s, key)[k]
  {
    if s != [] && key(s[0]) > key(x) && k > 0 {
      InsertDescMembers(x, s[1..], key, k - 1);
      var r := InsertDesc(x, s[1..], key);
      if r[k - 1] != x {
        var m :| 0 <= m < |s[1..]| && s[1..][m] == r[k - 1];
        assert s[m + 1] == r[k - 1];
      }
    } else if s != [] && key(s[0]) <= key(x) && k > 0 {
      assert s[k - 1] == InsertDesc(x, s, key)[k];
    }
  }

  lemma {:induction false} SortDescCorrect<T>(s: seq<T>, key: T -> int)
    ensures SortedDesc(SortDesc(s, key), key)
    ensures multiset(SortDesc(s, key)) == multiset(s)
  {
    if s != [] {
      SortDescCorrect(s[1..], key);
      InsertDescCorrect(s[0], SortDesc(s[1..], key), key);
      assert s == [s[0]] + s[1..];
    }
  }

  /** Inserting `x` adds it in front of the elements with its key: the
      elements it steps past all have a larger key. `p` picks one key. */
  lemma {:induction false} InsertDescFilterKey<T>(x: T, s: seq<T>, key: T -> int, p: T -> bool, k: int)
    requires forall y :: p(y) == (key(y) == k)
    ensures Filter(InsertDesc(x, s, key), p) == (if p(x) then [x] else []) + Filter(s, p)
  {
    if s != [] && key(s[0]) > key(x) {
      InsertDescFilterKey(x, s[1..], key, p, k);
      assert InsertDesc(x, s, key)[1..] == InsertDesc(x, s[1..], key);
    } else {
      assert ([x] + s)[1..] == s;
    }
  }

  /** The sort is stable: the elements with any one key come out in the
      order they went in. */
  lemma {:induction false} SortDescStable<T>(s: seq<T>, key: T -> int, p: T -> bool, k: int)
    requires forall y :: p(y) == (key(y) == k)
    ensures Filter(SortDesc(s, key), p) == Filter(s, p)
  {
    if s != [] {
      SortDescStable(s[1..], key, p, k);
      InsertDescFilterKey(s[0], SortDesc(s[1..], key), key, p, k);
    }
  }

  /** An already sorted sequence is left as it is. */
  lemma {:induction false} SortDescOfSorted<T>(s: seq<T>, key: T -> int)
    ensures SortedDesc(s, key) ==> SortDesc(s, key) == s
  {
    if s != [] && SortedDesc(s, key) {
      assert SortedDesc(s[1..], key) by {
        forall i, j | 0 <= i < j < |s| - 1 ensures key(s[1..][i]) >= key(s[1..][j]) {
          assert s[1..][i] == s[i + 1] && s[1..][j] == s[j + 1];
        }
      }
      SortDescOfSorted(s[1..], key);
      assert s == [s[0]] + s[1..];
    }
  }

  /** A duplicate-free sequence has as many elements as the set of its elements. */
  lemma {:induction false} DistinctCard<T>(s: seq<T>)
    requires Distinct(s)
    ensures |set x | x in s| == |s|
  {
    if s != [] {
      var init := s[..|s| - 1];
      DistinctCard(init);
      assert s == init + [s[|s| - 1]];
      assert s[|s| - 1] !in init;
      assert (set x | x in s) == (set x | x in init) + {s[|s| - 1]};
    }
  }
}
