/** The collection idioms the repository uses on JavaScript arrays and Maps:
    grouping rows under keys of an insertion-ordered Map (`if (!m.has(k))
    m.set(k, []); m.get(k).push(x)`), visiting a Map's keys in insertion
    order, and the stable Array.prototype.sort with a numeric comparator. */
module Collections {

  predicate Distinct<K(==)>(s: seq<K>) {
    forall i, j :: 0 <= i < j < |s| ==> s[i] != s[j]
  }

  /** The index of the first occurrence of `x` in `s`. */
  function Position<T(==)>(s: seq<T>, x: T): (i: nat)
    requires x in s
    ensures i < |s| && s[i] == x
    ensures forall j :: 0 <= j < i ==> s[j] != x
  {
    if s[0] == x then 0 else 1 + Position(s[1..], x)
  }

  /** In a sequence without repetitions, the position of `s[k]` is `k`. */
  lemma PositionDistinct<T>(s: seq<T>, k: nat)
    requires Distinct(s) && k < |s|
    ensures Position(s, s[k]) == k
  {
    var i := Position(s, s[k]);
    assert s[i] == s[k];
  }

  /** The elements of `xs` whose key is `k`, in their order in `xs`. */
  function FilterKey<T, K(==)>(xs: seq<T>, key: T -> K, k: K): (r: seq<T>)
    ensures |r| <= |xs|
  {
    if xs == [] then []
    else FilterKey(xs[..|xs| - 1], key, k) + (if key(xs[|xs| - 1]) == k then [xs[|xs| - 1]] else [])
  }

  /** Only elements of `xs` with key `k` are selected. */
  lemma {:induction false} FilterKeySound<T, K>(xs: seq<T>, key: T -> K, k: K)
    ensures forall x :: x in FilterKey(xs, key, k) ==> x in xs && key(x) == k
  {
    if xs != [] {
      FilterKeySound(xs[..|xs| - 1], key, k);
    }
  }

  lemma {:induction false} FilterKeyConcat<T, K>(xs: seq<T>, ys: seq<T>, key: T -> K, k: K)
    ensures FilterKey(xs + ys, key, k) == FilterKey(xs, key, k) + FilterKey(ys, key, k)
  {
    if ys != [] {
      assert (xs + ys)[..|xs + ys| - 1] == xs + ys[..|ys| - 1];
      FilterKeyConcat(xs, ys[..|ys| - 1], key, k);
    } else {
      assert xs + ys == xs;
    }
  }

  /** Every element with key `k` is kept, and only those: the filter is the
      whole sequence restricted to that key. */
  lemma FilterKeySingleton<T, K>(x: T, key: T -> K, k: K)
    ensures FilterKey([x], key, k) == if key(x) == k then [x] else []
  {
    assert [x][..0] == [];
  }

  lemma {:induction false} FilterKeyMember<T, K>(xs: seq<T>, key: T -> K, k: K, x: T)
    requires x in xs && key(x) == k
    ensures x in FilterKey(xs, key, k)
  {
    if x != xs[|xs| - 1] {
      assert x in xs[..|xs| - 1];
      FilterKeyMember(xs[..|xs| - 1], key, k, x);
    }
  }

  /** The distinct keys of `xs`, in the order in which they first appear:
      the key order of a JavaScript Map filled from `xs`. */
  function FirstSeen<T, K(==)>(xs: seq<T>, key: T -> K): (r: seq<K>)
    ensures Distinct(r)
  {
    if xs == [] then []
    else
      var prev := FirstSeen(xs[..|xs| - 1], key);
      var k := key(xs[|xs| - 1]);
      if k in prev then prev else prev + [k]
  }

  /** The first-seen keys are exactly the keys that occur. */
  lemma {:induction false} FirstSeenMembers<T, K>(xs: seq<T>, key: T -> K)
    ensures forall x :: x in xs ==> key(x) in FirstSeen(xs, key)
    ensures forall k :: k in FirstSeen(xs, key) ==> exists i :: 0 <= i < |xs| && key(xs[i]) == k
  {
    if xs != [] {
      var init := xs[..|xs| - 1];
      FirstSeenMembers(init, key);
      assert forall x :: x in xs ==> x in init || x == xs[|xs| - 1];
      forall k | k in FirstSeen(xs, key) ensures exists i :: 0 <= i < |xs| && key(xs[i]) == k {
        if k in FirstSeen(init, key) {
          var i :| 0 <= i < |init| && key(init[i]) == k;
          assert key(xs[i]) == k;
        } else {
          assert key(xs[|xs| - 1]) == k;
        }
      }
    }
  }

  /** A key that never occurs selects nothing. */
  lemma FilterKeyUnseen<T, K>(xs: seq<T>, key: T -> K, k: K)
    requires k !in FirstSeen(xs, key)
    ensures FilterKey(xs, key, k) == []
  {
    FilterKeySound(xs, key, k);
    FirstSeenMembers(xs, key);
  }

  /** A key that occurs selects at least one element. */
  lemma FilterKeySeen<T, K>(xs: seq<T>, key: T -> K, k: K)
    requires k in FirstSeen(xs, key)
    ensures FilterKey(xs, key, k) != []
  {
    FirstSeenMembers(xs, key);
    var j :| 0 <= j < |xs| && key(xs[j]) == k;
    FilterKeyMember(xs, key, k, xs[j]);
  }

  /** Keys seen in a prefix come first, in the same order: first-appearance
      order. */
  lemma {:induction false} FirstSeenPrefix<T, K>(xs: seq<T>, key: T -> K, m: nat)
    requires m <= |xs|
    ensures |FirstSeen(xs[..m], key)| <= |FirstSeen(xs, key)|
    ensures FirstSeen(xs[..m], key) == FirstSeen(xs, key)[..|FirstSeen(xs[..m], key)|]
  {
    if m < |xs| {
      assert xs[..|xs| - 1][..m] == xs[..m];
      FirstSeenPrefix(xs[..|xs| - 1], key, m);
    } else {
      assert xs[..m] == xs;
    }
  }

  /** The elements of `xs` regrouped key by key, for the keys `ks` in order. */
  function Regroup<T, K(==)>(xs: seq<T>, key: T -> K, ks: seq<K>): seq<T> {
    if ks == [] then []
    else Regroup(xs, key, ks[..|ks| - 1]) + FilterKey(xs, key, ks[|ks| - 1])
  }

  lemma {:induction false} RegroupSnoc<T, K>(xs: seq<T>, x: T, key: T -> K, ks: seq<K>)
    requires Distinct(ks)
    ensures multiset(Regroup(xs + [x], key, ks)) == multiset(Regroup(xs, key, ks)) + (if key(x) in ks then multiset{x} else multiset{})
  {
    if ks != [] {
      var init := ks[..|ks| - 1];
      assert Distinct(init);
      RegroupSnoc(xs, x, key, init);
      FilterKeyConcat(xs, [x], key, ks[|ks| - 1]);
      assert key(x) in ks <==> key(x) in init || key(x) == ks[|ks| - 1];
      assert key(x) == ks[|ks| - 1] ==> key(x) !in init;
    }
  }

  /** Grouping conserves elements: regrouping by the keys in first-seen
      order is a permutation of the input, so every element lands in
      exactly one group. */
  lemma {:induction false} RegroupPermutation<T, K>(xs: seq<T>, key: T -> K)
    ensures multiset(Regroup(xs, key, FirstSeen(xs, key))) == multiset(xs)
  {
    if xs != [] {
      var init := xs[..|xs| - 1];
      var x := xs[|xs| - 1];
      assert xs == init + [x];
      var ks := FirstSeen(init, key);
      RegroupPermutation(init, key);
      RegroupSnoc(init, x, key, ks);
      if key(x) !in ks {
        FilterKeyUnseen(init, key, key(x));
        FilterKeyConcat(init, [x], key, key(x));
        assert FirstSeen(xs, key)[..|ks|] == ks;
      }
    }
  }

  /** A JavaScript Map: its entries and the order in which its keys were
      first set, which is the order `forEach` visits them. */
  datatype OrderedMap<K, V> = OrderedMap(keys: seq<K>, entries: map<K, V>)

  /** `xs.forEach(x => { if (!m.has(key(x))) m.set(key(x), []); m.get(key(x)).push(x) })`
      on a fresh Map `m`: one entry per distinct key, in first-seen order,
      holding that key's elements in input order. */
  method GroupBy<T, K(==)>(xs: seq<T>, key: T -> K) returns (m: OrderedMap<K, seq<T>>)
    ensures m.keys == FirstSeen(xs, key)
    ensures forall k :: k in m.entries <==> k in m.keys
    ensures forall k :: k in m.entries ==> m.entries[k] == FilterKey(xs, key, k)
  {
    var keys: seq<K> := [];
    var entries: map<K, seq<T>> := map[];
    var i := 0;
    while i < |xs|
      invariant 0 <= i <= |xs|
      invariant keys == FirstSeen(xs[..i], key)
      invariant forall k :: k in entries <==> k in keys
      invariant forall k :: k in entries ==> entries[k] == FilterKey(xs[..i], key, k)
    {
      var x := xs[i];
      var k := key(x);
      ghost var done := xs[..i];
      assert xs[..i + 1] == done + [x];
      if k !in entries {
        FilterKeyUnseen(done, key, k);
        keys := keys + [k];
        entries := entries[k := []];
      }
      entries := entries[k := entries[k] + [x]];
      forall k' | k' in entries
        ensures entries[k'] == FilterKey(done + [x], key, k')
      {
        FilterKeyConcat(done, [x], key, k');
        FilterKeySingleton(x, key, k');
      }
      i := i + 1;
    }
    assert xs[..i] == xs;
    m := OrderedMap(keys, entries);
  }

  // ---------------------------------------------------------------- sort

  predicate SortedBy<T>(xs: seq<T>, key: T -> int) {
    forall i, j :: 0 <= i < j < |xs| ==> key(xs[i]) <= key(xs[j])
  }

  lemma SortedTail<T>(s: seq<T>, key: T -> int)
    requires s != [] && SortedBy(s, key)
    ensures SortedBy(s[1..], key)
  {
  }

  /** `x` placed before the first element whose key is not smaller. */
  function InsertBy<T>(x: T, s: seq<T>, key: T -> int): (r: seq<T>)
    requires SortedBy(s, key)
    ensures SortedBy(r, key)
    ensures multiset(r) == multiset(s) + multiset{x}
    ensures |r| == |s| + 1
  {
    if s == [] || key(x) <= key(s[0]) then [x] + s
    else
      var t := InsertBy(x, s[1..], key);
      InsertBehind(x, s, key, t);
      [s[0]] + t
  }

  /** The head of `s` stays in front of `x` inserted into the rest. */
  lemma InsertBehind<T>(x: T, s: seq<T>, key: T -> int, t: seq<T>)
    requires SortedBy(s, key) && s != [] && key(s[0]) < key(x)
    requires SortedBy(t, key) && multiset(t) == multiset(s[1..]) + multiset{x}
    ensures SortedBy([s[0]] + t, key)
    ensures multiset([s[0]] + t) == multiset(s) + multiset{x}
  {
    assert s == [s[0]] + s[1..];
    forall y | y in t
      ensures key(s[0]) <= key(y)
    {
      assert y in multiset(t);
      if y != x {
        assert y in multiset(s[1..]);
        var k :| 0 <= k < |s[1..]| && s[1..][k] == y;
        assert s[k + 1] == y;
      }
    }
    var r := [s[0]] + t;
    forall i, j | 0 <= i < j < |r|
      ensures key(r[i]) <= key(r[j])
    {
      if i == 0 {
        assert r[j] == t[j - 1] && r[j] in t;
      } else {
        assert r[i] == t[i - 1] && r[j] == t[j - 1];
      }
    }
  }

  /** Array.prototype.sort with the comparator `(a, b) => key(a) - key(b)`,
      which is stable. */
  function SortBy<T>(xs: seq<T>, key: T -> int): (r: seq<T>)
    ensures SortedBy(r, key)
    ensures multiset(r) == multiset(xs)
    ensures |r| == |xs|
  {
    if xs == [] then []
    else
      assert xs == [xs[0]] + xs[1..];
      InsertBy(xs[0], SortBy(xs[1..], key), key)
  }

  lemma {:induction false} InsertByStable<T>(x: T, s: seq<T>, key: T -> int, v: int)
    requires SortedBy(s, key)
    ensures FilterKey(InsertBy(x, s, key), key, v) == FilterKey([x], key, v) + FilterKey(s, key, v)
  {
    if s == [] || key(x) <= key(s[0]) {
      FilterKeyConcat([x], s, key, v);
    } else {
      var t := InsertBy(x, s[1..], key);
      var head := FilterKey([s[0]], key, v);
      assert FilterKey(t, key, v) == FilterKey([x], key, v) + FilterKey(s[1..], key, v) by {
        SortedTail(s, key);
        InsertByStable(x, s[1..], key, v);
      }
      assert FilterKey(InsertBy(x, s, key), key, v) == head + FilterKey(t, key, v) by {
        assert InsertBy(x, s, key) == [s[0]] + t;
        FilterKeyConcat([s[0]], t, key, v);
      }
      assert FilterKey(s, key, v) == head + FilterKey(s[1..], key, v) by {
        assert s == [s[0]] + s[1..];
        FilterKeyConcat([s[0]], s[1..], key, v);
      }
      FilterKeySingleton(s[0], key, v);
      FilterKeySingleton(x, key, v);
      if key(s[0]) == v {
        assert FilterKey([x], key, v) == [];
      } else {
        assert head == [];
      }
    }
  }

  /** The sort is stable: elements with the same key keep their relative
      order. */
  lemma {:induction false} SortByStable<T>(xs: seq<T>, key: T -> int, v: int)
    ensures FilterKey(SortBy(xs, key), key, v) == FilterKey(xs, key, v)
  {
    if xs != [] {
      SortByStable(xs[1..], key, v);
      InsertByStable(xs[0], SortBy(xs[1..], key), key, v);
      FilterKeyConcat([xs[0]], xs[1..], key, v);
      assert xs == [xs[0]] + xs[1..];
    }
  }

  // ------------------------------------------------------------------ map

  /** Array.prototype.map. */
  function Map<X, Y>(xs: seq<X>, f: X -> Y): (ys: seq<Y>)
    ensures |ys| == |xs|
    ensures forall j :: 0 <= j < |xs| ==> ys[j] == f(xs[j])
  {
    seq(|xs|, j requires 0 <= j < |xs| => f(xs[j]))
  }

  lemma MapConcat<X, Y>(a: seq<X>, b: seq<X>, f: X -> Y)
    ensures Map(a + b, f) == Map(a, f) + Map(b, f)
  {
    assert forall j :: 0 <= j < |b| ==> (a + b)[|a| + j] == b[j];
  }

  /** The outputs of `f` on each element, concatenated in order. */
  function FlatMap<X, Y>(xs: seq<X>, f: X -> seq<Y>): seq<Y> {
    if xs == [] then [] else FlatMap(xs[..|xs| - 1], f) + f(xs[|xs| - 1])
  }

  lemma {:induction false} FlatMapConcat<X, Y>(a: seq<X>, b: seq<X>, f: X -> seq<Y>)
    ensures FlatMap(a + b, f) == FlatMap(a, f) + FlatMap(b, f)
  {
    if b == [] {
      assert a + b == a;
    } else {
      var b' := b[..|b| - 1];
      assert (a + b)[..|a + b| - 1] == a + b';
      assert (a + b)[|a + b| - 1] == b[|b| - 1];
      FlatMapConcat(a, b', f);
    }
  }

  /** The outputs of element i form one block, right after those of the
      elements before it. */
  lemma FlatMapBlock<X, Y>(xs: seq<X>, f: X -> seq<Y>, i: nat)
    requires i < |xs|
    ensures |FlatMap(xs[..i], f)| + |f(xs[i])| <= |FlatMap(xs, f)|
    ensures var o := |FlatMap(xs[..i], f)|;
      FlatMap(xs, f)[o..o + |f(xs[i])|] == f(xs[i])
  {
    assert xs == xs[..i] + [xs[i]] + xs[i + 1..];
    FlatMapConcat(xs[..i] + [xs[i]], xs[i + 1..], f);
    FlatMapConcat(xs[..i], [xs[i]], f);
    assert [xs[i]][..0] == [];
  }

  /** Output j of element i sits at the start of its block plus j. */
  lemma FlatMapAt<X, Y>(xs: seq<X>, f: X -> seq<Y>, i: nat, j: nat)
    requires i < |xs| && j < |f(xs[i])|
    ensures |FlatMap(xs[..i], f)| + j < |FlatMap(xs, f)|
    ensures FlatMap(xs, f)[|FlatMap(xs[..i], f)| + j] == f(xs[i])[j]
  {
    FlatMapBlock(xs, f, i);
    var o := |FlatMap(xs[..i], f)|;
    assert FlatMap(xs, f)[o + j] == FlatMap(xs, f)[o..o + |f(xs[i])|][j];
  }

  lemma FlatMapSnoc<X, Y>(xs: seq<X>, f: X -> seq<Y>, i: nat)
    requires i < |xs|
    ensures FlatMap(xs[..i + 1], f) == FlatMap(xs[..i], f) + f(xs[i])
  {
    assert xs[..i + 1][..i] == xs[..i];
  }

  // ------------------------------------------------------------- threading

  /** A loop over `xs` that carries a state from one element to the next and
      collects each element's outputs, in order. */
  function Thread<X, Y, S>(xs: seq<X>, step: (X, S) -> (seq<Y>, S), s: S): (seq<Y>, S) {
    if xs == [] then ([], s)
    else
      var before := Thread(xs[..|xs| - 1], step, s);
      var last := step(xs[|xs| - 1], before.1);
      (before.0 + last.0, last.1)
  }

  /** Running the loop over `a + b` is running it over `a`, then over `b`
      from the state `a` left. */
  lemma {:induction false} ThreadConcat<X, Y, S>(a: seq<X>, b: seq<X>, step: (X, S) -> (seq<Y>, S), s: S)
    ensures Thread(a + b, step, s)
      == (Thread(a, step, s).0 + Thread(b, step, Thread(a, step, s).1).0, Thread(b, step, Thread(a, step, s).1).1)
  {
    if b == [] {
      assert a + b == a;
      assert Thread(a, step, s).0 + [] == Thread(a, step, s).0;
    } else {
      var b' := b[..|b| - 1];
      assert (a + b)[..|a + b| - 1] == a + b';
      assert (a + b)[|a + b| - 1] == b[|b| - 1];
      ThreadConcat(a, b', step, s);
      var first := Thread(a, step, s);
      var mid := Thread(b', step, first.1);
      var last := step(b[|b| - 1], mid.1);
      assert Thread(a + b, step, s) == (first.0 + mid.0 + last.0, last.1);
      assert Thread(b, step, first.1) == (mid.0 + last.0, last.1);
      assert first.0 + mid.0 + last.0 == first.0 + (mid.0 + last.0);
    }
  }

  // ---------------------------------------------------------- permutations

  /** Removing the element at position k. */
  /** A prefix one longer is the prefix and the next element. */
  lemma PrefixSnoc<T>(b: seq<T>, k: nat)
    requires k < |b|
    ensures b[..k + 1] == b[..k] + [b[k]]
  {
  }

  lemma LastSplit<T>(b: seq<T>)
    requires b != []
    ensures b == b[..|b| - 1] + [b[|b| - 1]]
  {
  }

  lemma SplitAt<T>(b: seq<T>, k: nat)
    requires k < |b|
    ensures b == b[..k] + [b[k]] + b[k + 1..]
    ensures multiset(b) == multiset(b[..k] + b[k + 1..]) + multiset{b[k]}
  {
    assert b == b[..k] + [b[k]] + b[k + 1..];
  }

  /** Mapping, less the element at position k. */
  lemma MapRemove<X, Y>(b: seq<X>, k: nat, f: X -> Y)
    requires k < |b|
    ensures multiset(Map(b, f)) == multiset(Map(b[..k] + b[k + 1..], f)) + multiset{f(b[k])}
  {
    SplitAt(b, k);
    MapConcat(b[..k] + [b[k]], b[k + 1..], f);
    MapConcat(b[..k], [b[k]], f);
    MapConcat(b[..k], b[k + 1..], f);
  }

  /** Mapping a permutation gives a permutation. */
  lemma {:induction false} MapMultiset<X, Y>(a: seq<X>, b: seq<X>, f: X -> Y)
    requires multiset(a) == multiset(b)
    ensures multiset(Map(a, f)) == multiset(Map(b, f))
  {
    if a != [] {
      var n := |a| - 1;
      var x := a[n];
      SplitAt(a, n);
      assert x in multiset(b);
      var k :| 0 <= k < |b| && b[k] == x;
      SplitAt(b, k);
      var a', b' := a[..n], b[..k] + b[k + 1..];
      assert a[..n] + a[n + 1..] == a';
      assert multiset(a') + multiset{x} == multiset(b') + multiset{x};
      MultisetCancel(multiset(a'), multiset(b'), x);
      MapMultiset(a', b', f);
      MapRemove(a, n, f);
      MapRemove(b, k, f);
    } else {
      assert b == [];
    }
  }

  /** Flattening, less the element at position k. */
  lemma FlatMapRemove<X, Y>(b: seq<X>, k: nat, f: X -> seq<Y>)
    requires k < |b|
    ensures multiset(FlatMap(b, f)) == multiset(FlatMap(b[..k] + b[k + 1..], f)) + multiset(f(b[k]))
  {
    SplitAt(b, k);
    FlatMapConcat(b[..k] + [b[k]], b[k + 1..], f);
    FlatMapConcat(b[..k], [b[k]], f);
    FlatMapConcat(b[..k], b[k + 1..], f);
    assert FlatMap([b[k]], f) == f(b[k]) by {
      assert [b[k]][..0] == [];
    }
  }

  lemma MultisetCancel<T>(p: multiset<T>, q: multiset<T>, x: T)
    requires p + multiset{x} == q + multiset{x}
    ensures p == q
  {
    forall y
      ensures p[y] == q[y]
    {
      assert (p + multiset{x})[y] == (q + multiset{x})[y];
    }
  }

  /** Flattening a permutation gives a permutation. */
  lemma {:induction false} FlatMapMultiset<X, Y>(a: seq<X>, b: seq<X>, f: X -> seq<Y>)
    requires multiset(a) == multiset(b)
    ensures multiset(FlatMap(a, f)) == multiset(FlatMap(b, f))
  {
    if a != [] {
      var n := |a| - 1;
      var x := a[n];
      SplitAt(a, n);
      assert x in multiset(b);
      var k :| 0 <= k < |b| && b[k] == x;
      SplitAt(b, k);
      var a', b' := a[..n], b[..k] + b[k + 1..];
      assert a[..n] + a[n + 1..] == a';
      assert multiset(a') + multiset{x} == multiset(b') + multiset{x};
      MultisetCancel(multiset(a'), multiset(b'), x);
      FlatMapMultiset(a', b', f);
      FlatMapRemove(a, n, f);
      FlatMapRemove(b, k, f);
    } else {
      assert b == [];
    }
  }

  /** The number of occurrences of `x` in a sequence without repetitions is
      at most one. */
  lemma {:induction false} DistinctCount<T>(a: seq<T>, x: T)
    requires Distinct(a)
    ensures multiset(a)[x] <= 1
  {
    if a != [] {
      var a' := a[..|a| - 1];
      assert a == a' + [a[|a| - 1]];
      DistinctCount(a', x);
      if x == a[|a| - 1] {
        assert x !in a';
      }
    }
  }

  /** A permutation of a sequence without repetitions has none either. */
  lemma DistinctMultiset<T>(a: seq<T>, b: seq<T>)
    requires Distinct(a) && multiset(a) == multiset(b)
    ensures Distinct(b)
  {
    forall i, j | 0 <= i < j < |b|
      ensures b[i] != b[j]
    {
      var x := b[i];
      DistinctCount(a, x);
      assert b == b[..i] + [b[i]] + b[i + 1..j] + [b[j]] + b[j + 1..];
      assert multiset(b)[x] >= 1 + multiset{b[j]}[x];
    }
  }

  /** Sorted with no two equal keys is strictly ascending. */
  lemma SortByStrict<T>(xs: seq<T>, key: T -> int)
    requires Distinct(Map(xs, key))
    ensures forall i, j :: 0 <= i < j < |SortBy(xs, key)| ==> key(SortBy(xs, key)[i]) < key(SortBy(xs, key)[j])
  {
    var ys := SortBy(xs, key);
    MapMultiset(xs, ys, key);
    DistinctMultiset(Map(xs, key), Map(ys, key));
    assert forall i, j :: 0 <= i < j < |ys| ==> key(ys[i]) != key(ys[j]) by {
      forall i, j | 0 <= i < j < |ys| ensures key(ys[i]) != key(ys[j]) {
        assert Map(ys, key)[i] != Map(ys, key)[j];
      }
    }
  }

  /** Flattening one collection per key, where each is a permutation of
      the mapped elements with that key, gives a permutation of the mapped
      regrouping. */
  lemma {:induction false} GroupsFlatten<T, K, E, Y>(xs: seq<T>, key: T -> K, ks: seq<K>, es: seq<E>, sets: E -> seq<Y>, h: T -> Y)
    requires |es| == |ks|
    requires forall i :: 0 <= i < |ks| ==> multiset(sets(es[i])) == multiset(Map(FilterKey(xs, key, ks[i]), h))
    ensures multiset(FlatMap(es, sets)) == multiset(Map(Regroup(xs, key, ks), h))
  {
    if ks != [] {
      var n := |ks| - 1;
      GroupsFlatten(xs, key, ks[..n], es[..n], sets, h);
      MapConcat(Regroup(xs, key, ks[..n]), FilterKey(xs, key, ks[n]), h);
    }
  }

  // ------------------------------------------- insertion-ordered sets

  /** `Set.prototype.add`, and `setItem` on a key: a new element goes last,
      a known one keeps its place. */
  function Adjoin<T(==)>(s: seq<T>, x: T): (r: seq<T>)
    ensures Distinct(s) ==> Distinct(r)
    ensures x in r
    ensures forall y :: y in r ==> y == x || y in s
    ensures forall y :: y in s ==> y in r
  {
    if x in s then s else s + [x]
  }

  /** `Set.prototype.delete`, and `removeItem` on a key: the others keep
      their order. */
  function Without<T(==)>(s: seq<T>, x: T): (r: seq<T>)
    ensures x !in r
    ensures forall y :: y in r ==> y in s && y != x
    ensures forall y :: y in s && y != x ==> y in r
    ensures Distinct(s) ==> Distinct(r)
    ensures |r| <= |s|
  {
    if s == [] then []
    else
      var rest := Without(s[1..], x);
      assert forall y :: y in s[1..] ==> y in s;
      assert Distinct(s) ==> Distinct(s[1..]) && s[0] !in s[1..] by {
        if Distinct(s) {
          forall k | 0 <= k < |s[1..]|
            ensures s[1..][k] != s[0]
          {
            assert s[1..][k] == s[k + 1];
          }
        }
      }
      if s[0] == x then rest else [s[0]] + rest
  }

  lemma {:induction false} WithoutAbsent<T>(s: seq<T>, x: T)
    requires x !in s
    ensures Without(s, x) == s
  {
    if s != [] {
      WithoutAbsent(s[1..], x);
      assert s == [s[0]] + s[1..];
    }
  }

  lemma {:induction false} WithoutLast<T>(s: seq<T>, x: T)
    ensures Without(s + [x], x) == Without(s, x)
  {
    if s == [] {
      assert [x][1..] == [];
    } else {
      assert (s + [x])[1..] == s[1..] + [x];
      WithoutLast(s[1..], x);
    }
  }

  /** Removing an element just added, that was not there before, restores
      the sequence. */
  lemma AdjoinWithout<T>(s: seq<T>, x: T)
    requires x !in s
    ensures Without(Adjoin(s, x), x) == s
  {
    WithoutAbsent(s, x);
    WithoutLast(s, x);
  }
}
