/**
 * Generic sequence operations behind the app's array code: `Array.prototype.filter`,
 * order-preserving de-duplication (the key order of a dictionary filled in a loop),
 * and positions.
 */
module Seqs {

  /** `s.filter(p)` */
  function Filter<T(==,!new)>(s: seq<T>, p: T -> bool): (r: seq<T>)
    ensures |r| <= |s|
    ensures forall x :: x in r <==> x in s && p(x)
  {
    if s == [] then [] else (if p(s[0]) then [s[0]] else []) + Filter(s[1..], p)
  }

  /** `a` is `b` with some elements left out, the rest in their original order. */
  predicate IsSubsequence<T(==,!new)>(a: seq<T>, b: seq<T>)
    decreases |b|
  {
    a == [] || (b != [] && (if a[0] == b[0] then IsSubsequence(a[1..], b[1..]) else IsSubsequence(a, b[1..])))
  }

  /** Filtering distributes over concatenation, so it never reorders. */
  lemma {:induction false} FilterConcat<T(!new)>(a: seq<T>, b: seq<T>, p: T -> bool)
    ensures Filter(a + b, p) == Filter(a, p) + Filter(b, p)
  {
    if a != [] {
      assert (a + b)[0] == a[0];
      assert (a + b)[1..] == a[1..] + b;
      FilterConcat(a[1..], b, p);
    } else {
      assert a + b == b;
    }
  }

  /** Filtering keeps a sequence unchanged exactly when every element passes. */
  lemma {:induction false} FilterKeepsAll<T(!new)>(s: seq<T>, p: T -> bool)
    ensures Filter(s, p) == s <==> forall i :: 0 <= i < |s| ==> p(s[i])
  {
    if s != [] {
      FilterKeepsAll(s[1..], p);
      if !p(s[0]) {
        assert |Filter(s, p)| < |s|;
      } else if forall i :: 0 <= i < |s| ==> p(s[i]) {
        assert forall i :: 0 <= i < |s| - 1 ==> p(s[1..][i]);
      } else {
        var i :| 0 <= i < |s| && !p(s[i]);
        assert s[i] !in Filter(s, p);
      }
    }
  }

  /** The filtered sequence is a subsequence of the original. */
  lemma {:induction false} FilterIsSubsequence<T(!new)>(s: seq<T>, p: T -> bool)
    ensures IsSubsequence(Filter(s, p), s)
  {
    if s != [] {
      FilterIsSubsequence(s[1..], p);
      if p(s[0]) {
        assert Filter(s, p)[1..] == Filter(s[1..], p);
      } else {
        assert Filter(s, p) == Filter(s[1..], p);
      }
    }
  }

  /** Splitting by a predicate and its negation loses and invents nothing. */
  lemma FilterPartition<T(!new)>(s: seq<T>, p: T -> bool, q: T -> bool)
    requires forall x :: q(x) == !p(x)
    ensures multiset(Filter(s, p)) + multiset(Filter(s, q)) == multiset(s)
    ensures |Filter(s, p)| + |Filter(s, q)| == |s|
  {
    FilterSplitsMultiset(s, p, q);
    assert |multiset(Filter(s, p)) + multiset(Filter(s, q))| == |multiset(s)|;
  }

  lemma {:induction false} FilterSplitsMultiset<T(!new)>(s: seq<T>, p: T -> bool, q: T -> bool)
    requires forall x :: q(x) == !p(x)
    ensures multiset(Filter(s, p)) + multiset(Filter(s, q)) == multiset(s)
  {
    if s != [] {
      var t := s[1..];
      var fp, fq := Filter(t, p), Filter(t, q);
      FilterSplitsMultiset(t, p, q);
      assert multiset(s) == multiset{s[0]} + multiset(t) by {
        assert s == [s[0]] + t;
      }
      if p(s[0]) {
        assert Filter(s, p) == [s[0]] + fp && Filter(s, q) == fq;
        assert multiset([s[0]] + fp) == multiset{s[0]} + multiset(fp);
      } else {
        assert Filter(s, p) == fp && Filter(s, q) == [s[0]] + fq;
        assert multiset([s[0]] + fq) == multiset{s[0]} + multiset(fq);
      }
    }
  }

  /** A relation that holds between every earlier and later element still holds after filtering. */
  lemma {:induction false} FilterPairwise<T(!new)>(s: seq<T>, p: T -> bool, rel: (T, T) -> bool)
    requires forall i, j :: 0 <= i < j < |s| ==> rel(s[i], s[j])
    ensures forall i, j :: 0 <= i < j < |Filter(s, p)| ==> rel(Filter(s, p)[i], Filter(s, p)[j])
  {
    if s != [] {
      var t := s[1..];
      assert forall i, j :: 0 <= i < j < |t| ==> rel(t[i], t[j]) by {
        forall i, j | 0 <= i < j < |t| ensures rel(t[i], t[j]) {
          assert t[i] == s[i + 1] && t[j] == s[j + 1];
        }
      }
      FilterPairwise(t, p, rel);
      if p(s[0]) {
        var r := Filter(s, p);
        forall i, j | 0 <= i < j < |r| ensures rel(r[i], r[j]) {
          if i == 0 {
            assert r[j] in Filter(t, p);
            var k :| 0 <= k < |t| && t[k] == r[j];
            assert rel(s[0], s[k + 1]);
          } else {
            assert r[i] == Filter(t, p)[i - 1] && r[j] == Filter(t, p)[j - 1];
          }
        }
      }
    }
  }

  /** No element occurs twice. */
  predicate NoDuplicates<T(==,!new)>(s: seq<T>) {
    forall i, j :: 0 <= i < j < |s| ==> s[i] != s[j]
  }

  /** The distinct elements of `s` in the order of their first occurrence. */
  function Distinct<T(==,!new)>(s: seq<T>): (r: seq<T>)
    ensures forall x :: x in r <==> x in s
    ensures NoDuplicates(r)
  {
    if s == [] then []
    else
      var d := Distinct(s[..|s| - 1]);
      assert s == s[..|s| - 1] + [s[|s| - 1]];
      if s[|s| - 1] in d then d else d + [s[|s| - 1]]
  }

  /** Extending a sequence by one element extends its distinct elements by it when it is new. */
  lemma DistinctSnoc<T(!new)>(s: seq<T>, x: T)
    ensures Distinct(s + [x]) == if x in s then Distinct(s) else Distinct(s) + [x]
  {
    assert (s + [x])[..|s|] == s;
  }

  /** Elements appear in `Distinct(s)` in the order in which they first appear in `s`. */
  lemma {:induction false} DistinctIsSubsequence<T(!new)>(s: seq<T>)
    ensures IsSubsequence(Distinct(s), s)
  {
    if s != [] {
      var n := |s| - 1;
      DistinctIsSubsequence(s[..n]);
      assert s == s[..n] + [s[n]];
      if s[n] in Distinct(s[..n]) {
        SubsequenceExtend(Distinct(s[..n]), s[..n], [s[n]]);
      } else {
        SubsequenceAppend(Distinct(s[..n]), s[..n], s[n]);
      }
    }
  }

  lemma {:induction false} SubsequenceExtend<T(!new)>(a: seq<T>, b: seq<T>, c: seq<T>)
    requires IsSubsequence(a, b)
    ensures IsSubsequence(a, b + c)
    decreases |b|
  {
    if a != [] {
      assert (b + c)[1..] == b[1..] + c;
      if a[0] == b[0] {
        SubsequenceExtend(a[1..], b[1..], c);
      } else {
        SubsequenceExtend(a, b[1..], c);
      }
    }
  }

  lemma {:induction false} SubsequenceAppend<T(!new)>(a: seq<T>, b: seq<T>, x: T)
    requires IsSubsequence(a, b)
    ensures IsSubsequence(a + [x], b + [x])
    decreases |b|
  {
    assert b != [] ==> (b + [x])[1..] == b[1..] + [x];
    if a == [] {
      assert a + [x] == [x];
      SubsequenceSingle(b, x);
    } else {
      assert (a + [x])[1..] == a[1..] + [x];
      if a[0] == b[0] {
        SubsequenceAppend(a[1..], b[1..], x);
      } else {
        SubsequenceAppend(a, b[1..], x);
      }
    }
  }

  lemma {:induction false} SubsequenceSingle<T(!new)>(b: seq<T>, x: T)
    ensures IsSubsequence([x], b + [x])
    decreases |b|
  {
    if b != [] {
      assert (b + [x])[1..] == b[1..] + [x];
      if b[0] != x {
        SubsequenceSingle(b[1..], x);
      }
    }
  }

  /** The index of the first occurrence of `x` in `s`. */
  function Position<T(==,!new)>(s: seq<T>, x: T): (k: nat)
    requires x in s
    ensures k < |s| && s[k] == x && x !in s[..k]
  {
    if s[0] == x then 0
    else
      var k := Position(s[1..], x);
      assert s[..k + 1] == [s[0]] + s[1..][..k];
      k + 1
  }

  /** In a sequence without duplicates, the position of `s[i]` is `i`. */
  lemma PositionOfIndex<T(!new)>(s: seq<T>, i: nat)
    requires NoDuplicates(s) && i < |s|
    ensures Position(s, s[i]) == i
  {
    var k := Position(s, s[i]);
    assert s[..i + 1][i] == s[i];
  }

  /** The first occurrence of `y` is the index that holds `y` with no `y` before it. */
  lemma PositionUnique<T(!new)>(s: seq<T>, y: T, k: nat)
    requires k < |s| && s[k] == y && y !in s[..k]
    ensures Position(s, y) == k
  {
    var p := Position(s, y);
    assert forall m :: 0 <= m < k ==> s[m] != y by {
      forall m | 0 <= m < k ensures s[m] != y { assert s[..k][m] == s[m]; }
    }
    assert forall m :: 0 <= m < p ==> s[m] != y by {
      forall m | 0 <= m < p ensures s[m] != y { assert s[..p][m] == s[m]; }
    }
  }

  /** Appending an element does not move the first occurrence of one already there. */
  lemma PositionSnoc<T(!new)>(s: seq<T>, x: T, y: T)
    requires y in s
    ensures Position(s + [x], y) == Position(s, y)
  {
    var k := Position(s, y);
    assert (s + [x])[..k] == s[..k];
    PositionUnique(s + [x], y, k);
  }

  /** The distinct elements come in the order of their first occurrence in `s`. */
  lemma {:induction false} DistinctFirstUse<T(!new)>(s: seq<T>)
    ensures forall i, j :: 0 <= i < j < |Distinct(s)| ==>
      Position(s, Distinct(s)[i]) < Position(s, Distinct(s)[j])
  {
    if s != [] {
      var n := |s| - 1;
      var s', x := s[..n], s[n];
      assert s == s' + [x];
      DistinctFirstUse(s');
      DistinctSnoc(s', x);
      var d', d := Distinct(s'), Distinct(s);
      forall y | y in s' ensures Position(s, y) == Position(s', y) {
        PositionSnoc(s', x, y);
      }
      if x !in s' {
        PositionUnique(s, x, n);
      }
      forall i, j | 0 <= i < j < |d| ensures Position(s, d[i]) < Position(s, d[j]) {
        assert d[i] == d'[i] && d'[i] in s';
        if j < |d'| {
          assert d[j] == d'[j] && d'[j] in s';
        } else {
          assert d[j] == x;
        }
      }
    }
  }

  /** The first `n` elements, or all of them when there are fewer: `s.slice(0, n)`. */
  function Take<T>(s: seq<T>, n: nat): (r: seq<T>)
    ensures |r| == if |s| < n then |s| else n
    ensures forall i :: 0 <= i < |r| ==> r[i] == s[i]
  {
    if |s| <= n then s else s[..n]
  }

  /** How many times `x` occurs in `s`. */
  function Count<T(==)>(s: seq<T>, x: T): (n: nat)
    ensures n <= |s|
    ensures n == 0 <==> x !in s
  {
    if s == [] then 0
    else
      var init := s[..|s| - 1];
      assert s == init + [s[|s| - 1]];
      Count(init, x) + (if s[|s| - 1] == x then 1 else 0)
  }

  /** Extending a sequence by one element adds one to that element's count only. */
  lemma CountSnoc<T(!new)>(s: seq<T>, x: T, y: T)
    ensures Count(s + [x], y) == Count(s, y) + (if x == y then 1 else 0)
  {
    assert (s + [x])[..|s|] == s;
  }

  /** Taking one more element of `b` after `a`. */
  lemma PrefixSnoc<T>(a: seq<T>, b: seq<T>, j: nat)
    requires j < |b|
    ensures (a + b[..j]) + [b[j]] == a + b[..j + 1]
  {
    assert b[..j + 1] == b[..j] + [b[j]];
  }

  /** Keys never increase from left to right. */
  predicate SortedDesc<T>(s: seq<T>, key: T -> int) {
    forall i, j :: 0 <= i < j < |s| ==> key(s[i]) >= key(s[j])
  }

  /** Puts `x` after every element whose key is at least its own. */
  function InsertByKey<T(==,!new)>(x: T, s: seq<T>, key: T -> int): (r: seq<T>)
    ensures |r| == |s| + 1
    ensures multiset(r) == multiset(s) + multiset{x}
    ensures forall y :: y in r <==> y == x || y in s
  {
    if s == [] then [x]
    else if key(s[0]) >= key(x) then
      assert s == [s[0]] + s[1..];
      [s[0]] + InsertByKey(x, s[1..], key)
    else [x] + s
  }

  /**
   * `s.sort((a, b) => key(b) - key(a))` with a stable sort: the elements by
   * non-increasing key, equal keys in their original order.
   */
  function RankBy<T(==,!new)>(s: seq<T>, key: T -> int): (r: seq<T>)
    ensures |r| == |s|
    ensures multiset(r) == multiset(s)
    ensures forall y :: y in r <==> y in s
  {
    if s == [] then []
    else
      var init := s[..|s| - 1];
      assert s == init + [s[|s| - 1]];
      InsertByKey(s[|s| - 1], RankBy(init, key), key)
  }

  lemma {:induction false} InsertSorted<T(!new)>(x: T, s: seq<T>, key: T -> int)
    requires SortedDesc(s, key)
    ensures SortedDesc(InsertByKey(x, s, key), key)
  {
    if s != [] && key(s[0]) >= key(x) {
      InsertSorted(x, s[1..], key);
      var r := InsertByKey(x, s, key);
      forall j | 0 < j < |r| ensures key(r[0]) >= key(r[j]) {
        assert r[j] in InsertByKey(x, s[1..], key);
      }
    }
  }

  /** The ranking is sorted by non-increasing key. */
  lemma {:induction false} RankBySorted<T(!new)>(s: seq<T>, key: T -> int)
    ensures SortedDesc(RankBy(s, key), key)
  {
    if s != [] {
      RankBySorted(s[..|s| - 1], key);
      InsertSorted(s[|s| - 1], RankBy(s[..|s| - 1], key), key);
    }
  }

  lemma {:induction false} InsertNoDuplicates<T(!new)>(x: T, s: seq<T>, key: T -> int)
    requires NoDuplicates(s) && x !in s
    ensures NoDuplicates(InsertByKey(x, s, key))
  {
    if s != [] && key(s[0]) >= key(x) {
      var t := s[1..];
      assert NoDuplicates(t) by {
        forall i, j | 0 <= i < j < |t| ensures t[i] != t[j] {
          assert t[i] == s[i + 1] && t[j] == s[j + 1];
        }
      }
      InsertNoDuplicates(x, t, key);
      var u := InsertByKey(x, t, key);
      assert s[0] !in t;
      var r := [s[0]] + u;
      forall i, j | 0 <= i < j < |r| ensures r[i] != r[j] {
        if i == 0 {
          assert r[j] == u[j - 1];
        } else {
          assert r[i] == u[i - 1] && r[j] == u[j - 1];
        }
      }
    }
  }

  /** Ranking a sequence without duplicates gives one without duplicates. */
  lemma {:induction false} RankByNoDuplicates<T(!new)>(s: seq<T>, key: T -> int)
    requires NoDuplicates(s)
    ensures NoDuplicates(RankBy(s, key))
  {
    if s != [] {
      var init := s[..|s| - 1];
      assert forall i :: 0 <= i < |init| ==> init[i] == s[i];
      RankByNoDuplicates(init, key);
      InsertNoDuplicates(s[|s| - 1], RankBy(init, key), key);
    }
  }

  /** The test "has key `k`". */
  function HasKey<T>(key: T -> int, k: int): T -> bool {
    y => key(y) == k
  }

  lemma {:induction false} NoneWithKey<T(!new)>(s: seq<T>, key: T -> int, k: int)
    requires forall i :: 0 <= i < |s| ==> key(s[i]) < k
    ensures Filter(s, HasKey(key, k)) == []
  {
    if s != [] {
      NoneWithKey(s[1..], key, k);
    }
  }

  lemma {:induction false} InsertKeepsTies<T(!new)>(x: T, s: seq<T>, key: T -> int, k: int)
    requires SortedDesc(s, key)
    ensures Filter(InsertByKey(x, s, key), HasKey(key, k))
         == Filter(s, HasKey(key, k)) + (if key(x) == k then [x] else [])
  {
    var eq := HasKey(key, k);
    var ex := if key(x) == k then [x] else [];
    if s == [] {
      assert Filter([x], eq) == ex;
    } else if key(s[0]) >= key(x) {
      var t := s[1..];
      var u := InsertByKey(x, t, key);
      calc {
        Filter(InsertByKey(x, s, key), eq);
        { assert InsertByKey(x, s, key) == [s[0]] + u; }
        Filter([s[0]] + u, eq);
        { FilterConcat([s[0]], u, eq); }
        Filter([s[0]], eq) + Filter(u, eq);
        { SortedDescTail(s, key); InsertKeepsTies(x, t, key, k); }
        Filter([s[0]], eq) + (Filter(t, eq) + ex);
        (Filter([s[0]], eq) + Filter(t, eq)) + ex;
        { FilterConcat([s[0]], t, eq); assert [s[0]] + t == s; }
        Filter(s, eq) + ex;
      }
    } else {
      InsertInFrontKeepsTies(x, s, key, k);
    }
  }

  lemma SortedDescTail<T>(s: seq<T>, key: T -> int)
    requires s != [] && SortedDesc(s, key)
    ensures SortedDesc(s[1..], key)
  {
    var t := s[1..];
    forall i, j | 0 <= i < j < |t| ensures key(t[i]) >= key(t[j]) {
      assert t[i] == s[i + 1] && t[j] == s[j + 1];
    }
  }

  lemma InsertInFrontKeepsTies<T(!new)>(x: T, s: seq<T>, key: T -> int, k: int)
    requires SortedDesc(s, key) && s != [] && key(s[0]) < key(x)
    ensures Filter(InsertByKey(x, s, key), HasKey(key, k))
         == Filter(s, HasKey(key, k)) + (if key(x) == k then [x] else [])
  {
    var eq := HasKey(key, k);
    assert InsertByKey(x, s, key) == [x] + s;
    assert Filter([x] + s, eq) == Filter([x], eq) + Filter(s, eq) by {
      FilterConcat([x], s, eq);
    }
    assert Filter([x], eq) == (if key(x) == k then [x] else []);
    assert key(x) == k ==> Filter(s, eq) == [] by {
      if key(x) == k {
        forall i | 0 <= i < |s| ensures key(s[i]) < k {
          assert key(s[0]) >= key(s[i]) || i == 0;
        }
        NoneWithKey(s, key, k);
      }
    }
  }

  /** Stability: the elements of any one key keep their original relative order. */
  lemma {:induction false} RankByKeepsTies<T(!new)>(s: seq<T>, key: T -> int, k: int)
    ensures Filter(RankBy(s, key), HasKey(key, k)) == Filter(s, HasKey(key, k))
  {
    if s != [] {
      var eq := HasKey(key, k);
      var init := s[..|s| - 1];
      var x := s[|s| - 1];
      assert s == init + [x];
      var ranked := RankBy(init, key);
      RankBySorted(init, key);
      calc {
        Filter(RankBy(s, key), eq);
        { RankByLast(s, key); }
        Filter(InsertByKey(x, ranked, key), eq);
        { InsertKeepsTies(x, ranked, key, k); }
        Filter(ranked, eq) + (if eq(x) then [x] else []);
        { RankByKeepsTies(init, key, k); }
        Filter(init, eq) + (if eq(x) then [x] else []);
        { FilterSnoc(init, x, eq); }
        Filter(s, eq);
      }
    }
  }

  lemma RankByLast<T(!new)>(s: seq<T>, key: T -> int)
    requires s != []
    ensures RankBy(s, key) == InsertByKey(s[|s| - 1], RankBy(s[..|s| - 1], key), key)
  {
  }

  lemma FilterSnoc<T(!new)>(s: seq<T>, x: T, p: T -> bool)
    ensures Filter(s + [x], p) == Filter(s, p) + (if p(x) then [x] else [])
  {
    FilterConcat(s, [x], p);
    assert Filter([x], p) == (if p(x) then [x] else []);
  }

  /** Ranking depends only on the keys of the elements ranked. */
  lemma {:induction false} RankByCongruent<T(!new)>(s: seq<T>, key1: T -> int, key2: T -> int)
    requires forall y :: y in s ==> key1(y) == key2(y)
    ensures RankBy(s, key1) == RankBy(s, key2)
  {
    if s != [] {
      var init := s[..|s| - 1];
      assert s == init + [s[|s| - 1]];
      RankByCongruent(init, key1, key2);
      InsertCongruent(s[|s| - 1], RankBy(init, key1), key1, key2);
    }
  }

  lemma {:induction false} InsertCongruent<T(!new)>(x: T, s: seq<T>, key1: T -> int, key2: T -> int)
    requires key1(x) == key2(x) && forall y :: y in s ==> key1(y) == key2(y)
    ensures InsertByKey(x, s, key1) == InsertByKey(x, s, key2)
  {
    if s != [] {
      InsertCongruent(x, s[1..], key1, key2);
    }
  }

  /** The first `n` of a ranking: no duplicates, sorted, and nothing left out ranks above anything kept. */
  lemma TopOfRanking<T(!new)>(s: seq<T>, key: T -> int, n: nat, top: seq<T>)
    requires NoDuplicates(s) && top == Take(RankBy(s, key), n)
    ensures |top| <= n && NoDuplicates(top) && SortedDesc(top, key)
    ensures forall i :: 0 <= i < |top| ==> top[i] in s
    ensures forall t, i :: t in s && t !in top && 0 <= i < |top| ==> key(t) <= key(top[i])
    ensures |top| < n ==> forall t :: t in s ==> t in top
  {
    var ranked := RankBy(s, key);
    RankBySorted(s, key);
    RankByNoDuplicates(s, key);
    TakeOfSorted(ranked, key, n);
  }

  /** A prefix of a sorted sequence without duplicates is one too, and ranks above the rest. */
  lemma TakeOfSorted<T(!new)>(s: seq<T>, key: T -> int, n: nat)
    requires NoDuplicates(s) && SortedDesc(s, key)
    ensures NoDuplicates(Take(s, n)) && SortedDesc(Take(s, n), key)
    ensures forall i :: 0 <= i < |Take(s, n)| ==> Take(s, n)[i] in s
    ensures forall t, i :: t in s && t !in Take(s, n) && 0 <= i < |Take(s, n)| ==> key(t) <= key(Take(s, n)[i])
    ensures |Take(s, n)| < n ==> Take(s, n) == s
  {
    var top := Take(s, n);
    forall t, i | t in s && t !in top && 0 <= i < |top| ensures key(t) <= key(top[i]) {
      var j :| 0 <= j < |s| && s[j] == t;
      assert top[i] == s[i];
    }
    if |top| < n {
      assert top == s;
    }
  }
}
