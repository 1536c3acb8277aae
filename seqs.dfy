/** Generic sequence operations the recipe journal relies on: JavaScript's
    `Array.prototype.filter`, an order-preserving subsequence relation, the
    stable descending sort that `Array.prototype.sort` performs with a
    `(a, b) => key(b) - key(a)` comparator, and first-occurrence
    deduplication by a key. */
module Seqs {

  /** The smaller of two integers. */
  function Min(a: int, b: int): int
  {
    if a < b then a else b
  }

  // ---------------------------------------------------------------------
  // Filter

  /** The elements of `s` that satisfy `p`, in their original order. */
  function Filter<T>(s: seq<T>, p: T -> bool): (r: seq<T>)
    ensures |r| <= |s|
  {
    if s == [] then [] else (if p(s[0]) then [s[0]] else []) + Filter(s[1..], p)
  }

  lemma {:induction false} FilterMember<T>(s: seq<T>, p: T -> bool, x: T)
    ensures x in Filter(s, p) <==> x in s && p(x)
  {
    if s != [] {
      assert s == [s[0]] + s[1..];
      FilterMember(s[1..], p, x);
    }
  }

  lemma {:induction false} FilterAppend<T>(a: seq<T>, b: seq<T>, p: T -> bool)
    ensures Filter(a + b, p) == Filter(a, p) + Filter(b, p)
  {
    if a == [] {
      assert a + b == b;
    } else {
      var ab := a + b;
      var h := if p(a[0]) then [a[0]] else [];
      assert ab[0] == a[0];
      assert ab[1..] == a[1..] + b;
      assert Filter(ab, p) == h + Filter(a[1..] + b, p);
      assert Filter(a, p) == h + Filter(a[1..], p);
      FilterAppend(a[1..], b, p);
    }
  }

  /** Filtering by a predicate every element satisfies is the identity. */
  lemma {:induction false} FilterAll<T>(s: seq<T>, p: T -> bool)
    requires forall i :: 0 <= i < |s| ==> p(s[i])
    ensures Filter(s, p) == s
  {
    if s != [] {
      FilterAll(s[1..], p);
    }
  }

  /** Filtering by a predicate no element satisfies gives the empty list. */
  lemma {:induction false} FilterNone<T>(s: seq<T>, p: T -> bool)
    requires forall i :: 0 <= i < |s| ==> !p(s[i])
    ensures Filter(s, p) == []
  {
    if s != [] {
      FilterNone(s[1..], p);
    }
  }

  /** Two predicates that agree on the elements of `s` filter it alike. */
  lemma {:induction false} FilterExt<T>(s: seq<T>, p: T -> bool, q: T -> bool)
    requires forall i :: 0 <= i < |s| ==> p(s[i]) == q(s[i])
    ensures Filter(s, p) == Filter(s, q)
  {
    if s != [] {
      FilterExt(s[1..], p, q);
    }
  }

  lemma {:induction false} FilterMultiset<T>(s: seq<T>, p: T -> bool)
    ensures multiset(Filter(s, p)) <= multiset(s)
  {
    if s != [] {
      assert s == [s[0]] + s[1..];
      FilterMultiset(s[1..], p);
    }
  }

  /** Filter by the negation of a predicate. */
  function Not<T>(p: T -> bool): T -> bool
  {
    x => !p(x)
  }

  /** A filter and the filter by its negation split a list in two. */
  lemma {:induction false} FilterSplit<T>(s: seq<T>, p: T -> bool)
    ensures multiset(Filter(s, p)) + multiset(Filter(s, Not(p))) == multiset(s)
    ensures |Filter(s, p)| + |Filter(s, Not(p))| == |s|
  {
    if s != [] {
      assert s == [s[0]] + s[1..];
      FilterSplit(s[1..], p);
    }
  }

  // ---------------------------------------------------------------------
  // Subsequences

  /** `a` is obtained from `b` by deleting elements, the rest kept in order. */
  predicate IsSubseq<T(==)>(a: seq<T>, b: seq<T>)
    decreases |b|
  {
    if b == [] then a == []
    else (a != [] && a[0] == b[0] && IsSubseq(a[1..], b[1..])) || IsSubseq(a, b[1..])
  }

  lemma {:induction false} FilterIsSubseq<T>(s: seq<T>, p: T -> bool)
    ensures IsSubseq(Filter(s, p), s)
  {
    if s != [] {
      FilterIsSubseq(s[1..], p);
      var a := Filter(s, p);
      if p(s[0]) {
        assert a[0] == s[0] && a[1..] == Filter(s[1..], p);
      } else {
        assert a == Filter(s[1..], p);
      }
    }
  }

  lemma {:induction false} SubseqSnoc<T>(a: seq<T>, b: seq<T>, x: T)
    requires IsSubseq(a, b)
    ensures IsSubseq(a, b + [x])
    ensures IsSubseq(a + [x], b + [x])
    decreases |b|
  {
    if b == [] {
      assert a == [];
      assert (a + [x])[1..] == [];
      assert IsSubseq([], [x][1..]);
    } else {
      assert (b + [x])[0] == b[0];
      assert (b + [x])[1..] == b[1..] + [x];
      if a != [] && a[0] == b[0] && IsSubseq(a[1..], b[1..]) {
        SubseqSnoc(a[1..], b[1..], x);
        assert (a + [x])[0] == a[0];
        assert (a + [x])[1..] == a[1..] + [x];
      } else {
        SubseqSnoc(a, b[1..], x);
      }
    }
  }

  lemma {:induction false} SubseqMember<T>(a: seq<T>, b: seq<T>, x: T)
    requires IsSubseq(a, b)
    requires x in a
    ensures x in b
    decreases |b|
  {
    if b != [] {
      if a != [] && a[0] == b[0] && IsSubseq(a[1..], b[1..]) {
        if x != a[0] {
          assert a == [a[0]] + a[1..];
          SubseqMember(a[1..], b[1..], x);
        }
      } else {
        SubseqMember(a, b[1..], x);
      }
    }
  }

  // ---------------------------------------------------------------------
  // Removing one position

  /** `s.filter((_, i) => i !== index)`: drops position `index`; an index
      outside the list drops nothing. */
  function RemoveAt<T>(s: seq<T>, index: int): (r: seq<T>)
    ensures 0 <= index < |s| ==> |r| == |s| - 1
    ensures 0 <= index < |s| ==> forall k :: 0 <= k < |r| ==> r[k] == if k < index then s[k] else s[k + 1]
    ensures !(0 <= index < |s|) ==> r == s
  {
    if 0 <= index < |s| then s[..index] + s[index + 1..] else s
  }

  // ---------------------------------------------------------------------
  // Projection by a key

  /** The key of every element, in order. */
  function Project<T, K>(s: seq<T>, key: T -> K): (r: seq<K>)
    ensures |r| == |s|
    ensures forall i :: 0 <= i < |s| ==> r[i] == key(s[i])
  {
    if s == [] then [] else [key(s[0])] + Project(s[1..], key)
  }

  lemma ProjectAppend<T, K>(a: seq<T>, b: seq<T>, key: T -> K)
    ensures Project(a + b, key) == Project(a, key) + Project(b, key)
  {
    var l, r := Project(a + b, key), Project(a, key) + Project(b, key);
    assert |l| == |r|;
    forall i | 0 <= i < |l| ensures l[i] == r[i] {
      if i < |a| { assert (a + b)[i] == a[i]; } else { assert (a + b)[i] == b[i - |a|]; }
    }
  }

  /** No two elements share a key. */
  predicate DistinctKeys<T, K(==)>(s: seq<T>, key: T -> K)
  {
    forall i, j :: 0 <= i < j < |s| ==> key(s[i]) != key(s[j])
  }

  // ---------------------------------------------------------------------
  // Stable descending sort

  predicate SortedDesc<T>(s: seq<T>, key: T -> real)
  {
    forall i, j :: 0 <= i < j < |s| ==> key(s[i]) >= key(s[j])
  }

  /** A prefix of a sorted list is sorted. */
  lemma SortedDescPrefix<T>(s: seq<T>, key: T -> real, k: nat)
    requires SortedDesc(s, key) && k <= |s|
    ensures SortedDesc(s[..k], key)
  {
    forall i, j | 0 <= i < j < k ensures key(s[..k][i]) >= key(s[..k][j]) {
      assert s[..k][i] == s[i] && s[..k][j] == s[j];
    }
  }

  /** A prefix takes part of the multiset, and leaves that of the rest. */
  lemma PrefixMultiset<T>(s: seq<T>, k: nat)
    requires k <= |s|
    ensures multiset(s[..k]) <= multiset(s)
    ensures multiset(s) - multiset(s[..k]) == multiset(s[k..])
  {
    assert s == s[..k] + s[k..];
  }

  /** Puts `x` in front of the first element whose key is not larger than its
      own, so that `x` precedes every element of equal key. */
  function Insert<T>(x: T, s: seq<T>, key: T -> real): (r: seq<T>)
    ensures multiset(r) == multiset(s) + multiset{x}
  {
    if s == [] || key(s[0]) <= key(x) then
      [x] + s
    else
      assert s == [s[0]] + s[1..];
      [s[0]] + Insert(x, s[1..], key)
  }

  lemma {:induction false} InsertSorted<T>(x: T, s: seq<T>, key: T -> real)
    requires SortedDesc(s, key)
    ensures SortedDesc(Insert(x, s, key), key)
  {
    if s != [] && key(s[0]) > key(x) {
      var t := Insert(x, s[1..], key);
      InsertSorted(x, s[1..], key);
      assert Insert(x, s, key) == [s[0]] + t;
      forall i | 0 <= i < |t| ensures key(s[0]) >= key(t[i]) {
        InsertBelowHead(x, s, key, i);
      }
    }
  }

  /** Inserting behind a head with a larger key keeps everything at or
      below that head. */
  lemma InsertBelowHead<T>(x: T, s: seq<T>, key: T -> real, i: nat)
    requires SortedDesc(s, key) && s != [] && key(s[0]) > key(x)
    requires i < |Insert(x, s[1..], key)|
    ensures key(s[0]) >= key(Insert(x, s[1..], key)[i])
  {
    var t := Insert(x, s[1..], key);
    assert t[i] in multiset(t);
    if t[i] != x {
      assert t[i] in multiset(s[1..]);
      var j :| 0 <= j < |s[1..]| && s[1..][j] == t[i];
      assert s[1 + j] == t[i];
    }
  }

  /** The result of a stable sort that puts larger keys first. */
  function SortDesc<T>(s: seq<T>, key: T -> real): (r: seq<T>)
    ensures multiset(r) == multiset(s)
    ensures |r| == |s|
    ensures SortedDesc(r, key)
  {
    if s == [] then []
    else
      assert s == [s[0]] + s[1..];
      InsertSorted(s[0], SortDesc(s[1..], key), key);
      Insert(s[0], SortDesc(s[1..], key), key)
  }

  /** The elements of one key. */
  function KeyIs<T, K(==)>(key: T -> K, k: K): T -> bool
  {
    x => key(x) == k
  }

  lemma SortedDescTail<T>(s: seq<T>, key: T -> real)
    requires SortedDesc(s, key) && s != []
    ensures SortedDesc(s[1..], key)
  {
    forall i, j | 0 <= i < j < |s| - 1 ensures key(s[1..][i]) >= key(s[1..][j]) {
      assert s[1..][i] == s[i + 1] && s[1..][j] == s[j + 1];
    }
  }

  lemma FilterSingleton<T>(x: T, p: T -> bool)
    ensures Filter([x], p) == if p(x) then [x] else []
  {
    assert [x][1..] == [];
  }

  lemma {:induction false} InsertStable<T>(x: T, s: seq<T>, key: T -> real, k: real)
    requires SortedDesc(s, key)
    ensures Filter(Insert(x, s, key), KeyIs(key, k)) == Filter([x], KeyIs(key, k)) + Filter(s, KeyIs(key, k))
  {
    var p := KeyIs(key, k);
    if s == [] || key(s[0]) <= key(x) {
      assert Insert(x, s, key) == [x] + s;
      FilterAppend([x], s, p);
    } else {
      var s0, s' := s[0], s[1..];
      var fs0, fx, fs' := Filter([s0], p), Filter([x], p), Filter(s', p);
      assert Filter(Insert(x, s, key), p) == fs0 + (fx + fs') by {
        var t := Insert(x, s', key);
        assert Insert(x, s, key) == [s0] + t;
        SortedDescTail(s, key);
        InsertStable(x, s', key, k);
        FilterAppend([s0], t, p);
      }
      assert Filter(s, p) == fs0 + fs' by {
        assert s == [s0] + s';
        FilterAppend([s0], s', p);
      }
      FilterSingleton(s0, p);
      FilterSingleton(x, p);
      if key(x) == k {
        assert fs0 == [];
        assert fs0 + (fx + fs') == fx + (fs0 + fs');
      } else {
        assert fx == [];
        assert fs0 + (fx + fs') == fx + (fs0 + fs');
      }
    }
  }

  /** Stability: the sort keeps the relative order of elements of equal key. */
  lemma {:induction false} SortDescStable<T>(s: seq<T>, key: T -> real, k: real)
    ensures Filter(SortDesc(s, key), KeyIs(key, k)) == Filter(s, KeyIs(key, k))
  {
    if s != [] {
      assert SortDesc(s, key) == Insert(s[0], SortDesc(s[1..], key), key);
      SortDescStable(s[1..], key, k);
      InsertStable(s[0], SortDesc(s[1..], key), key, k);
      assert s == [s[0]] + s[1..];
      FilterAppend([s[0]], s[1..], KeyIs(key, k));
    }
  }

  // ---------------------------------------------------------------------
  // First-occurrence deduplication

  /** Keeps each element whose key has not been seen earlier in `s`. */
  function DedupBy<T, K(==)>(s: seq<T>, key: T -> K): (r: seq<T>)
  {
    if s == [] then []
    else
      var p := DedupBy(s[..|s| - 1], key);
      var x := s[|s| - 1];
      if key(x) in Project(p, key) then p else p + [x]
  }

  /** Every kept element comes from `s`. */
  lemma {:induction false} DedupByInSource<T, K>(s: seq<T>, key: T -> K)
    ensures forall i :: 0 <= i < |DedupBy(s, key)| ==> DedupBy(s, key)[i] in s
  {
    if s != [] {
      var s', x := s[..|s| - 1], s[|s| - 1];
      var p, r := DedupBy(s', key), DedupBy(s, key);
      DedupByInSource(s', key);
      assert s == s' + [x];
      if key(x) in Project(p, key) {
        assert r == p;
      } else {
        assert r == p + [x];
      }
    }
  }

  /** Every key of `s` is kept. */
  lemma {:induction false} DedupByCoversKeys<T, K>(s: seq<T>, key: T -> K)
    ensures forall i :: 0 <= i < |s| ==> key(s[i]) in Project(DedupBy(s, key), key)
  {
    if s != [] {
      var s', x := s[..|s| - 1], s[|s| - 1];
      var p, r := DedupBy(s', key), DedupBy(s, key);
      DedupByCoversKeys(s', key);
      assert s == s' + [x];
      if key(x) in Project(p, key) {
        assert r == p;
      } else {
        assert r == p + [x];
        ProjectAppend(p, [x], key);
      }
      forall i | 0 <= i < |s| ensures key(s[i]) in Project(r, key) {
        if i < |s'| {
          assert s[i] == s'[i];
          var j :| 0 <= j < |p| && Project(p, key)[j] == key(s'[i]);
          assert Project(r, key)[j] == key(s[i]);
        }
      }
    }
  }

  /** No two kept elements share a key. */
  lemma {:induction false} DedupByDistinctKeys<T, K>(s: seq<T>, key: T -> K)
    ensures DistinctKeys(DedupBy(s, key), key)
  {
    if s != [] {
      var s', x := s[..|s| - 1], s[|s| - 1];
      var p, r := DedupBy(s', key), DedupBy(s, key);
      DedupByDistinctKeys(s', key);
      if key(x) !in Project(p, key) {
        assert r == p + [x];
        forall i, j | 0 <= i < j < |r| ensures key(r[i]) != key(r[j]) {
          if j == |p| {
            assert Project(p, key)[i] == key(p[i]);
          } else {
            assert r[i] == p[i] && r[j] == p[j];
          }
        }
      }
    }
  }

  /** The kept keys are pairwise distinct and are exactly the keys of `s`;
      every kept element comes from `s`. */
  lemma DedupByKeys<T, K>(s: seq<T>, key: T -> K)
    ensures forall i :: 0 <= i < |DedupBy(s, key)| ==> key(DedupBy(s, key)[i]) in Project(s, key)
    ensures forall i :: 0 <= i < |s| ==> key(s[i]) in Project(DedupBy(s, key), key)
    ensures DistinctKeys(DedupBy(s, key), key)
    ensures forall i :: 0 <= i < |DedupBy(s, key)| ==> DedupBy(s, key)[i] in s
  {
    var r := DedupBy(s, key);
    DedupByInSource(s, key);
    DedupByCoversKeys(s, key);
    DedupByDistinctKeys(s, key);
    forall i | 0 <= i < |r| ensures key(r[i]) in Project(s, key) {
      var j :| 0 <= j < |s| && s[j] == r[i];
      assert Project(s, key)[j] == key(r[i]);
    }
  }

  /** Index of the first element with key `k`, or `|s|` when there is none. */
  function FirstIndex<T, K(==)>(s: seq<T>, key: T -> K, k: K): (i: nat)
    ensures i <= |s|
    ensures i < |s| ==> key(s[i]) == k
    ensures forall j :: 0 <= j < i ==> key(s[j]) != k
    ensures i < |s| <==> k in Project(s, key)
  {
    if s == [] then 0 else if key(s[0]) == k then 0 else 1 + FirstIndex(s[1..], key, k)
  }

  lemma FirstIndexSnoc<T, K>(s: seq<T>, x: T, key: T -> K, k: K)
    ensures FirstIndex(s + [x], key, k) ==
      if k in Project(s, key) then FirstIndex(s, key, k) else if key(x) == k then |s| else |s| + 1
  {
    var i, j := FirstIndex(s + [x], key, k), FirstIndex(s, key, k);
    ProjectAppend(s, [x], key);
    assert forall m :: 0 <= m < |s| ==> (s + [x])[m] == s[m];
    if k in Project(s, key) {
      assert j < |s|;
      assert (s + [x])[j] == s[j];
    }
  }

  lemma {:induction false} DedupByIsSubseq<T, K>(s: seq<T>, key: T -> K)
    ensures IsSubseq(DedupBy(s, key), s)
  {
    if s != [] {
      var s' := s[..|s| - 1];
      DedupByIsSubseq(s', key);
      assert s == s' + [s[|s| - 1]];
      SubseqSnoc(DedupBy(s', key), s', s[|s| - 1]);
    }
  }

  /** Each kept element is the first element of `s` with its key. */
  lemma {:induction false} DedupByFirst<T, K>(s: seq<T>, key: T -> K, i: nat)
    requires i < |DedupBy(s, key)|
    ensures FirstIndex(s, key, key(DedupBy(s, key)[i])) < |s|
    ensures s[FirstIndex(s, key, key(DedupBy(s, key)[i]))] == DedupBy(s, key)[i]
  {
    var s', x := s[..|s| - 1], s[|s| - 1];
    var p, r := DedupBy(s', key), DedupBy(s, key);
    assert s == s' + [x];
    if i < |p| {
      assert r[i] == p[i];
      DedupByFirst(s', key, i);
      var k := key(p[i]);
      FirstIndexSnoc(s', x, key, k);
      assert s[FirstIndex(s', key, k)] == s'[FirstIndex(s', key, k)];
    } else {
      assert r == p + [x] && r[i] == x;
      DedupByKeys(s', key);
      assert key(x) !in Project(s', key);
      FirstIndexSnoc(s', x, key, key(x));
    }
  }

  /** Appending an element does not move the first occurrence of a kept key. */
  lemma DedupByFirstSnoc<T, K>(s: seq<T>, x: T, key: T -> K, i: nat)
    requires i < |DedupBy(s, key)|
    ensures FirstIndex(s, key, key(DedupBy(s, key)[i])) < |s|
    ensures FirstIndex(s + [x], key, key(DedupBy(s, key)[i])) == FirstIndex(s, key, key(DedupBy(s, key)[i]))
  {
    DedupByFirst(s, key, i);
    FirstIndexSnoc(s, x, key, key(DedupBy(s, key)[i]));
  }

  /** A last element whose key is new occurs first at the end. */
  lemma DedupByNewLast<T, K>(s: seq<T>, x: T, key: T -> K)
    requires key(x) !in Project(DedupBy(s, key), key)
    ensures FirstIndex(s + [x], key, key(x)) == |s|
  {
    DedupByCoversKeys(s, key);
    FirstIndexSnoc(s, x, key, key(x));
  }

  /** The kept elements appear in the order of their keys' first occurrences. */
  lemma {:induction false} DedupByOrder<T, K>(s: seq<T>, key: T -> K, i: nat, j: nat)
    requires i < j < |DedupBy(s, key)|
    ensures FirstIndex(s, key, key(DedupBy(s, key)[i])) < FirstIndex(s, key, key(DedupBy(s, key)[j]))
  {
    var s', x := s[..|s| - 1], s[|s| - 1];
    var p, r := DedupBy(s', key), DedupBy(s, key);
    assert s == s' + [x];
    DedupByFirstSnoc(s', x, key, i);
    if j < |p| {
      assert r[i] == p[i] && r[j] == p[j];
      DedupByOrder(s', key, i, j);
      DedupByFirstSnoc(s', x, key, j);
    } else {
      assert r == p + [x] && r[i] == p[i] && r[j] == x;
      DedupByNewLast(s', x, key);
    }
  }

  // ---------------------------------------------------------------------
  // Counting by key

  predicate Distinct<K(==)>(ks: seq<K>)
  {
    forall i, j :: 0 <= i < j < |ks| ==> ks[i] != ks[j]
  }

  /** The sizes of the per-key filters of `s`, summed over the keys `ks`. */
  function CountByKeys<T, K(==)>(s: seq<T>, key: T -> K, ks: seq<K>): nat
  {
    if ks == [] then 0 else |Filter(s, KeyIs(key, ks[0]))| + CountByKeys(s, key, ks[1..])
  }

  /** In a list without repeats, exactly one element equals a member. */
  lemma {:induction false} FilterUnique<T>(s: seq<T>, p: T -> bool, x: T)
    requires Distinct(s) && x in s
    requires forall c :: p(c) <==> c == x
    ensures |Filter(s, p)| == 1
  {
    var t := s[1..];
    assert Distinct(t) by {
      forall i, j | 0 <= i < j < |t| ensures t[i] != t[j] {
        assert t[i] == s[i + 1] && t[j] == s[j + 1];
      }
    }
    if s[0] == x {
      forall i | 0 <= i < |t| ensures !p(t[i]) {
        assert t[i] == s[i + 1];
      }
      FilterNone(t, p);
    } else {
      assert x in t by {
        var k :| 0 <= k < |s| && s[k] == x;
        assert t[k - 1] == x;
      }
      FilterUnique(t, p, x);
    }
  }

  lemma {:induction false} CountByKeysNil<T, K>(key: T -> K, ks: seq<K>)
    ensures CountByKeys([], key, ks) == 0
  {
    if ks != [] {
      CountByKeysNil(key, ks[1..]);
    }
  }

  lemma {:induction false} CountByKeysCons<T, K>(y: T, s: seq<T>, key: T -> K, ks: seq<K>)
    requires Distinct(ks)
    ensures CountByKeys([y] + s, key, ks) == (if key(y) in ks then 1 else 0) + CountByKeys(s, key, ks)
  {
    if ks != [] {
      var t := [y] + s;
      assert t[1..] == s;
      assert t[0] == y;
      assert Distinct(ks[1..]) by {
        forall i, j | 0 <= i < j < |ks[1..]| ensures ks[1..][i] != ks[1..][j] {
          assert ks[1..][i] == ks[i + 1] && ks[1..][j] == ks[j + 1];
        }
      }
      CountByKeysCons(y, s, key, ks[1..]);
      if key(y) == ks[0] {
        assert key(y) !in ks[1..] by {
          forall i | 0 <= i < |ks[1..]| ensures ks[1..][i] != ks[0] {
            assert ks[1..][i] == ks[i + 1];
          }
        }
      }
      assert key(y) in ks <==> key(y) == ks[0] || key(y) in ks[1..] by {
        assert ks == [ks[0]] + ks[1..];
      }
    }
  }

  /** When the keys are distinct and cover every element, the per-key counts
      add up to the length of `s`. */
  lemma {:induction false} CountByKeysAll<T, K>(s: seq<T>, key: T -> K, ks: seq<K>)
    requires Distinct(ks)
    requires forall i :: 0 <= i < |s| ==> key(s[i]) in ks
    ensures CountByKeys(s, key, ks) == |s|
  {
    if s == [] {
      CountByKeysNil(key, ks);
    } else {
      assert s == [s[0]] + s[1..];
      assert forall i :: 0 <= i < |s[1..]| ==> s[1..][i] == s[i + 1];
      CountByKeysAll(s[1..], key, ks);
      CountByKeysCons(s[0], s[1..], key, ks);
    }
  }
}
