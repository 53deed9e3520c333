/** The array library calls the source builds on: `map`, `filter`,
    `findIndex`, the stable `sort` with a numeric comparator, and
    `slice(-n)`. */
module Seqs {
  import opened Wrappers

  function Map<A, B>(f: A -> B, s: seq<A>): (r: seq<B>)
    ensures |r| == |s| && forall i :: 0 <= i < |s| ==> r[i] == f(s[i])
  {
    seq(|s|, i requires 0 <= i < |s| => f(s[i]))
  }

  /** `s.filter(p)`: the elements satisfying `p`, in their order. */
  function Filter<T>(s: seq<T>, p: T -> bool): (r: seq<T>)
    ensures |r| <= |s|
    ensures forall i :: 0 <= i < |r| ==> p(r[i])
    ensures multiset(r) <= multiset(s)
  {
    if s == [] then []
    else
      var init := Filter(s[..|s| - 1], p);
      assert s == s[..|s| - 1] + [s[|s| - 1]];
      if p(s[|s| - 1]) then init + [s[|s| - 1]] else init
  }

  /** An element is kept by `Filter` exactly when it is in `s` and satisfies `p`. */
  lemma {:induction false} FilterMember<T>(s: seq<T>, p: T -> bool, x: T)
    ensures x in Filter(s, p) <==> x in s && p(x)
  {
    if s != [] {
      var init := s[..|s| - 1];
      FilterMember(init, p, x);
      assert s == init + [s[|s| - 1]];
    }
  }

  /** Filtering a sequence whose elements all pass changes nothing. */
  lemma {:induction false} FilterAll<T>(s: seq<T>, p: T -> bool)
    requires forall i :: 0 <= i < |s| ==> p(s[i])
    ensures Filter(s, p) == s
  {
    if s != [] {
      var init := s[..|s| - 1];
      forall i | 0 <= i < |init| ensures p(init[i]) {
        assert init[i] == s[i];
      }
      FilterAll(init, p);
      assert p(s[|s| - 1]);
      assert s == init + [s[|s| - 1]];
    }
  }

  /** The concatenation of `f(x)` for the elements `x` of `s`, in order. */
  function FlatMap<A, B>(f: A -> seq<B>, s: seq<A>): seq<B> {
    if s == [] then [] else FlatMap(f, s[..|s| - 1]) + f(s[|s| - 1])
  }

  lemma {:induction false} FlatMapAppend<A, B>(f: A -> seq<B>, a: seq<A>, b: seq<A>)
    ensures FlatMap(f, a + b) == FlatMap(f, a) + FlatMap(f, b)
    decreases |b|
  {
    if b == [] {
      assert a + b == a;
    } else {
      var init := b[..|b| - 1];
      assert (a + b)[..|a + b| - 1] == a + init;
      FlatMapAppend(f, a, init);
    }
  }

  /** An element whose image is empty can be dropped from a `FlatMap`. */
  lemma FlatMapDropEmpty<A, B>(f: A -> seq<B>, a: seq<A>, x: A, b: seq<A>)
    requires f(x) == []
    ensures FlatMap(f, a + [x] + b) == FlatMap(f, a + b)
  {
    FlatMapAppend(f, a + [x], b);
    FlatMapAppend(f, a, [x]);
    FlatMapAppend(f, a, b);
    assert [x][..0] == [];
  }

  /** An element of a `FlatMap` comes from the image of some element. */
  lemma {:induction false} FlatMapMember<A, B>(f: A -> seq<B>, s: seq<A>, y: B)
    requires y in FlatMap(f, s)
    ensures exists i :: 0 <= i < |s| && y in f(s[i])
  {
    var init := s[..|s| - 1];
    if y in FlatMap(f, init) {
      FlatMapMember(f, init, y);
      var k :| 0 <= k < |init| && y in f(init[k]);
      assert s[k] == init[k];
    } else {
      assert y in f(s[|s| - 1]);
    }
  }

  /** `s.findIndex(p)`, with -1 read as `None`: the first index whose element satisfies `p`. */
  function FindFirst<T>(s: seq<T>, p: T -> bool): (r: Option<nat>)
    ensures r.Some? ==> r.value < |s| && p(s[r.value]) && forall j :: 0 <= j < r.value ==> !p(s[j])
    ensures r.None? ==> forall j :: 0 <= j < |s| ==> !p(s[j])
  {
    if s == [] then None
    else if p(s[0]) then Some(0)
    else match FindFirst(s[1..], p)
      case None => None
      case Some(i) => Some(i + 1)
  }

  predicate SortedBy<T>(s: seq<T>, key: T -> int) {
    forall i, j :: 0 <= i < j < |s| ==> key(s[i]) <= key(s[j])
  }

  /** Puts `x` in front of the first element whose key is not below its own. */
  function InsertBy<T>(x: T, s: seq<T>, key: T -> int): (r: seq<T>)
    ensures multiset(r) == multiset(s) + multiset{x}
  {
    if s == [] || key(x) <= key(s[0]) then [x] + s
    else
      assert s == [s[0]] + s[1..];
      [s[0]] + InsertBy(x, s[1..], key)
  }

  lemma {:induction false} InsertBySorted<T>(x: T, s: seq<T>, key: T -> int)
    requires SortedBy(s, key)
    ensures SortedBy(InsertBy(x, s, key), key)
  {
    if s == [] || key(x) <= key(s[0]) {
      SortedCons(x, s, key);
    } else {
      var rest := InsertBy(x, s[1..], key);
      InsertBySorted(x, s[1..], key);
      forall k | 0 <= k < |rest| ensures key(s[0]) <= key(rest[k]) {
        InsertByFrom(x, s[1..], key, rest[k]);
        if rest[k] != x {
          var m :| 0 <= m < |s[1..]| && s[1..][m] == rest[k];
          assert s[m + 1] == rest[k];
        }
      }
      SortedCons(s[0], rest, key);
    }
  }

  lemma SortedCons<T>(h: T, rest: seq<T>, key: T -> int)
    requires SortedBy(rest, key)
    requires forall k :: 0 <= k < |rest| ==> key(h) <= key(rest[k])
    ensures SortedBy([h] + rest, key)
  {
    var s := [h] + rest;
    forall i, j | 0 <= i < j < |s| ensures key(s[i]) <= key(s[j]) {
      assert s[j] == rest[j - 1];
      if i > 0 { assert s[i] == rest[i - 1]; }
    }
  }

  /** `s.sort((a, b) => key(a) - key(b))`: a stable sort into ascending key order. */
  function SortBy<T>(s: seq<T>, key: T -> int): (r: seq<T>)
    ensures SortedBy(r, key)
    ensures multiset(r) == multiset(s)
  {
    if s == [] then []
    else
      assert s == [s[0]] + s[1..];
      var t := SortBy(s[1..], key);
      InsertBySorted(s[0], t, key);
      InsertBy(s[0], t, key)
  }

  /** Sorting a sorted sequence leaves it as it is. */
  lemma {:induction false} SortBySorted<T>(s: seq<T>, key: T -> int)
    requires SortedBy(s, key)
    ensures SortBy(s, key) == s
  {
    if s != [] {
      SortBySorted(s[1..], key);
      assert [s[0]] + s[1..] == s;
    }
  }

  /** Ascending by key, and by `pos` among equal keys. */
  predicate LexSortedBy<T>(s: seq<T>, key: T -> int, pos: T -> int) {
    forall i, j :: 0 <= i < j < |s| ==> key(s[i]) < key(s[j]) || (key(s[i]) == key(s[j]) && pos(s[i]) < pos(s[j]))
  }

  /** Stability: when the input is in strictly increasing `pos` order, elements
      with equal keys keep that order in the sorted output. */
  lemma {:induction false} SortByStable<T>(s: seq<T>, key: T -> int, pos: T -> int)
    requires forall i, j :: 0 <= i < j < |s| ==> pos(s[i]) < pos(s[j])
    ensures LexSortedBy(SortBy(s, key), key, pos)
  {
    if s != [] {
      var t := SortBy(s[1..], key);
      SortByStable(s[1..], key, pos);
      forall y | y in t ensures pos(s[0]) < pos(y) {
        assert y in multiset(s[1..]);
        var m :| 0 <= m < |s[1..]| && s[1..][m] == y;
        assert s[m + 1] == y;
      }
      InsertStable(s[0], t, key, pos);
    }
  }

  lemma {:induction false} InsertStable<T>(x: T, t: seq<T>, key: T -> int, pos: T -> int)
    requires forall y :: y in t ==> pos(x) < pos(y)
    requires LexSortedBy(t, key, pos)
    ensures LexSortedBy(InsertBy(x, t, key), key, pos)
  {
    if t != [] && key(x) > key(t[0]) {
      var rest := InsertBy(x, t[1..], key);
      InsertStable(x, t[1..], key, pos);
      forall k | 0 <= k < |rest|
        ensures key(t[0]) < key(rest[k]) || (key(t[0]) == key(rest[k]) && pos(t[0]) < pos(rest[k]))
      {
        InsertByFrom(x, t[1..], key, rest[k]);
        if rest[k] != x {
          LexHeadFirst(t, key, pos, rest[k]);
        }
      }
      LexCons(t[0], rest, key, pos);
      assert InsertBy(x, t, key) == [t[0]] + rest;
    }
  }

  /** Every element of `InsertBy(x, s, key)` is `x` or an element of `s`. */
  lemma InsertByFrom<T>(x: T, s: seq<T>, key: T -> int, y: T)
    requires y in InsertBy(x, s, key)
    ensures y == x || y in s
  {
    assert y in multiset(InsertBy(x, s, key));
  }

  /** In a lexicographically sorted sequence the head comes before every later element. */
  lemma LexHeadFirst<T>(t: seq<T>, key: T -> int, pos: T -> int, y: T)
    requires LexSortedBy(t, key, pos) && t != [] && y in t[1..]
    ensures key(t[0]) < key(y) || (key(t[0]) == key(y) && pos(t[0]) < pos(y))
  {
    var m :| 0 <= m < |t[1..]| && t[1..][m] == y;
    assert t[m + 1] == y;
  }

  lemma LexCons<T>(h: T, rest: seq<T>, key: T -> int, pos: T -> int)
    requires LexSortedBy(rest, key, pos)
    requires forall k :: 0 <= k < |rest| ==> key(h) < key(rest[k]) || (key(h) == key(rest[k]) && pos(h) < pos(rest[k]))
    ensures LexSortedBy([h] + rest, key, pos)
  {
    var s := [h] + rest;
    forall i, j | 0 <= i < j < |s|
      ensures key(s[i]) < key(s[j]) || (key(s[i]) == key(s[j]) && pos(s[i]) < pos(s[j]))
    {
      assert s[j] == rest[j - 1];
      if i > 0 { assert s[i] == rest[i - 1]; }
    }
  }

  /** `s.slice(-n)` for `n > 0`: the last `n` elements, or all of `s` when it is shorter. */
  function KeepNewest<T>(s: seq<T>, n: nat): (r: seq<T>)
    ensures |r| == if |s| <= n then |s| else n
    ensures r == s[|s| - |r|..]
  {
    if |s| <= n then s else s[|s| - n..]
  }

  /** On a sequence sorted by key, `KeepNewest` keeps a sorted sequence, and no
      dropped element has a larger key than a kept one. */
  lemma KeepNewestOfSorted<T>(s: seq<T>, n: nat, key: T -> int)
    requires SortedBy(s, key)
    ensures var r := KeepNewest(s, n);
      && SortedBy(r, key)
      && forall d, k :: 0 <= d < |s| - |r| && 0 <= k < |r| ==> key(s[d]) <= key(r[k])
  {
    var r := KeepNewest(s, n);
    forall d, k | 0 <= d < |s| - |r| && 0 <= k < |r| ensures key(s[d]) <= key(r[k]) {
      assert r[k] == s[|s| - |r| + k];
    }
  }
  /** What `KeepNewest` keeps is drawn from `s`. */
  /** Two sequences with the same elements have the same length. */
  lemma PermutationLength<T>(s: seq<T>, t: seq<T>)
    requires multiset(s) == multiset(t)
    ensures |s| == |t|
  {
    assert |multiset(s)| == |multiset(t)|;
  }

  lemma KeepNewestSubMultiset<T>(s: seq<T>, n: nat)
    ensures multiset(KeepNewest(s, n)) <= multiset(s)
  {
    var r := KeepNewest(s, n);
    assert s == s[..|s| - |r|] + r;
  }

  /** Some element of `s` has key `k`: `s.some(x => key(x) === k)`. */
  predicate HasKey<T, K(==)>(s: seq<T>, k: K, key: T -> K) {
    exists i :: 0 <= i < |s| && key(s[i]) == k
  }

  predicate UniqueKeys<T, K(==)>(s: seq<T>, key: T -> K) {
    forall i, j :: 0 <= i < j < |s| ==> key(s[i]) != key(s[j])
  }

  /** `inc.forEach(x => { if (!acc.some(y => key(y) === key(x))) acc.push(x) })`. */
  function AppendNew<T, K(==)>(acc: seq<T>, inc: seq<T>, key: T -> K): seq<T> {
    if inc == [] then acc
    else
      var m := AppendNew(acc, inc[..|inc| - 1], key);
      var x := inc[|inc| - 1];
      if HasKey(m, key(x), key) then m else m + [x]
  }

  /** `AppendNew` only appends, and only elements of `inc`. */
  lemma {:induction false} AppendNewPrefix<T, K>(acc: seq<T>, inc: seq<T>, key: T -> K)
    ensures var r := AppendNew(acc, inc, key);
      && |acc| <= |r| && r[..|acc|] == acc
      && forall j :: |acc| <= j < |r| ==> r[j] in inc
  {
    if inc != [] {
      var init := inc[..|inc| - 1];
      AppendNewPrefix(acc, init, key);
      var m := AppendNew(acc, init, key);
      var r := AppendNew(acc, inc, key);
      forall j | |acc| <= j < |r| ensures r[j] in inc {
        if j < |m| {
          assert r[j] == m[j] && m[j] in init;
        }
      }
    }
  }

  lemma HasKeySnoc<T, K>(s: seq<T>, x: T, k: K, key: T -> K)
    ensures HasKey(s + [x], k, key) <==> HasKey(s, k, key) || key(x) == k
  {
    if HasKey(s, k, key) {
      var i :| 0 <= i < |s| && key(s[i]) == k;
      assert (s + [x])[i] == s[i];
    }
    if HasKey(s + [x], k, key) && key(x) != k {
      var i :| 0 <= i < |s + [x]| && key((s + [x])[i]) == k;
      assert (s + [x])[i] == s[i];
    }
    assert (s + [x])[|s|] == x;
  }

  /** The keys after `AppendNew` are those of `acc` and of `inc`. */
  lemma {:induction false} AppendNewKeys<T, K>(acc: seq<T>, inc: seq<T>, key: T -> K, k: K)
    ensures HasKey(AppendNew(acc, inc, key), k, key) <==> HasKey(acc, k, key) || HasKey(inc, k, key)
  {
    if inc != [] {
      var init := inc[..|inc| - 1];
      var x := inc[|inc| - 1];
      assert inc == init + [x];
      HasKeySnoc(init, x, k, key);
      AppendNewKeys(acc, init, key, k);
      var m := AppendNew(acc, init, key);
      if !HasKey(m, key(x), key) {
        HasKeySnoc(m, x, k, key);
      }
    }
  }

  /** `AppendNew` keeps keys unique. */
  lemma {:induction false} AppendNewUnique<T, K>(acc: seq<T>, inc: seq<T>, key: T -> K)
    requires UniqueKeys(acc, key)
    ensures UniqueKeys(AppendNew(acc, inc, key), key)
  {
    if inc != [] {
      var init := inc[..|inc| - 1];
      AppendNewUnique(acc, init, key);
      var m := AppendNew(acc, init, key);
      var x := inc[|inc| - 1];
      if !HasKey(m, key(x), key) {
        var r := m + [x];
        forall i, j | 0 <= i < j < |r| ensures key(r[i]) != key(r[j]) {
          if j == |m| {
            assert r[i] == m[i];
          } else {
            assert r[i] == m[i] && r[j] == m[j];
          }
        }
      }
    }
  }

  /** When every key of `inc` is already in `acc`, `AppendNew` adds nothing. */
  lemma {:induction false} AppendNewNoop<T, K>(acc: seq<T>, inc: seq<T>, key: T -> K)
    requires forall i :: 0 <= i < |inc| ==> HasKey(acc, key(inc[i]), key)
    ensures AppendNew(acc, inc, key) == acc
  {
    if inc != [] {
      var init := inc[..|inc| - 1];
      forall i | 0 <= i < |init| ensures HasKey(acc, key(init[i]), key) {
        assert init[i] == inc[i];
      }
      AppendNewNoop(acc, init, key);
      assert HasKey(acc, key(inc[|inc| - 1]), key);
    }
  }

  /** Appending from `a` and then from `b` is appending from `a + b`. */
  lemma {:induction false} AppendNewConcat<T, K>(acc: seq<T>, a: seq<T>, b: seq<T>, key: T -> K)
    ensures AppendNew(AppendNew(acc, a, key), b, key) == AppendNew(acc, a + b, key)
    decreases |b|
  {
    if b == [] {
      assert a + b == a;
    } else {
      var init := b[..|b| - 1];
      AppendNewConcat(acc, a, init, key);
      assert (a + b)[..|a + b| - 1] == a + init;
      assert (a + b)[|a + b| - 1] == b[|b| - 1];
    }
  }

  /** Reordering a sequence does not change which keys it holds. */
  lemma HasKeyPermutation<T, K>(a: seq<T>, b: seq<T>, k: K, key: T -> K)
    requires multiset(a) == multiset(b)
    ensures HasKey(a, k, key) <==> HasKey(b, k, key)
  {
    if HasKey(a, k, key) {
      var i :| 0 <= i < |a| && key(a[i]) == k;
      assert a[i] in multiset(b);
      var j :| 0 <= j < |b| && b[j] == a[i];
    }
    if HasKey(b, k, key) {
      var i :| 0 <= i < |b| && key(b[i]) == k;
      assert b[i] in multiset(a);
      var j :| 0 <= j < |a| && a[j] == b[i];
    }
  }
}
