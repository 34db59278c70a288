/** Sequence building blocks shared by the queries and reports: filtering (`Array.filter` and
    Prisma `where`), ordering (Prisma `orderBy`, `Array.sort`), `take`/`slice`, and counting by
    key (the `summary[key] = (summary[key] ?? 0) + 1` loops). */
module Seqs {
  import opened Wrappers

  /** The elements of `s` that satisfy `p`, in their original order. */
  function Filter<T>(s: seq<T>, p: T -> bool): (r: seq<T>)
    ensures |r| <= |s|
    ensures forall i :: 0 <= i < |r| ==> r[i] in s && p(r[i])
    ensures forall i :: 0 <= i < |s| && p(s[i]) ==> s[i] in r
  {
    if s == [] then []
    else
      assert s == [s[0]] + s[1..];
      (if p(s[0]) then [s[0]] else []) + Filter(s[1..], p)
  }

  /** Filtering distributes over concatenation: the order of the kept elements is the input order. */
  lemma {:induction false} FilterAppend<T>(a: seq<T>, b: seq<T>, p: T -> bool)
    ensures Filter(a + b, p) == Filter(a, p) + Filter(b, p)
  {
    if a == [] {
      assert a + b == b;
    } else {
      assert (a + b)[1..] == a[1..] + b;
      FilterAppend(a[1..], b, p);
    }
  }

  lemma FilterOne<T>(x: T, p: T -> bool)
    ensures Filter([x], p) == if p(x) then [x] else []
  {
    assert [x][1..] == [];
  }

  /** A filter that nothing satisfies keeps nothing. */
  lemma {:induction false} FilterNone<T>(s: seq<T>, p: T -> bool)
    requires forall i :: 0 <= i < |s| ==> !p(s[i])
    ensures Filter(s, p) == []
  {
    if s != [] {
      assert forall i :: 0 <= i < |s[1..]| ==> s[1..][i] == s[i + 1];
      FilterNone(s[1..], p);
    }
  }

  /** A predicate that holds everywhere keeps everything. */
  lemma {:induction false} FilterKeepsAll<T>(s: seq<T>, p: T -> bool)
    requires forall i :: 0 <= i < |s| ==> p(s[i])
    ensures Filter(s, p) == s
  {
    if s != [] {
      FilterKeepsAll(s[1..], p);
    }
  }

  /** A predicate and its negation split a sequence: the two filtered lengths add up. */
  lemma {:induction false} FilterPartition<T>(s: seq<T>, p: T -> bool, q: T -> bool)
    requires forall x :: q(x) == !p(x)
    ensures |Filter(s, p)| + |Filter(s, q)| == |s|
  {
    if s != [] {
      FilterPartition(s[1..], p, q);
    }
  }

  /** A stronger predicate keeps no more elements. */
  lemma {:induction false} FilterImplies<T>(s: seq<T>, p: T -> bool, q: T -> bool)
    requires forall x :: p(x) ==> q(x)
    ensures |Filter(s, p)| <= |Filter(s, q)|
  {
    if s != [] {
      FilterImplies(s[1..], p, q);
    }
  }

  /** Predicates that agree on the elements keep the same elements. */
  lemma {:induction false} FilterEquiv<T>(s: seq<T>, p: T -> bool, q: T -> bool)
    requires forall i :: 0 <= i < |s| ==> p(s[i]) == q(s[i])
    ensures Filter(s, p) == Filter(s, q)
  {
    if s != [] {
      assert forall i :: 0 <= i < |s[1..]| ==> s[1..][i] == s[i + 1];
      FilterEquiv(s[1..], p, q);
    }
  }

  /** `Array.map`. */
  function MapSeq<T, U>(s: seq<T>, f: T -> U): (r: seq<U>)
    ensures |r| == |s|
    ensures forall i :: 0 <= i < |s| ==> r[i] == f(s[i])
  {
    seq(|s|, i requires 0 <= i < |s| => f(s[i]))
  }

  lemma MapSeqAppend<T, U>(a: seq<T>, b: seq<T>, f: T -> U)
    ensures MapSeq(a + b, f) == MapSeq(a, f) + MapSeq(b, f)
  {
  }

  /** `s` is in ascending order of `key`. */
  predicate SortedBy<T>(s: seq<T>, key: T -> int)
  {
    forall i, j :: 0 <= i < j < |s| ==> key(s[i]) <= key(s[j])
  }

  /** `s` is in descending order of `key`. */
  predicate SortedDescBy<T>(s: seq<T>, key: T -> int)
  {
    forall i, j :: 0 <= i < j < |s| ==> key(s[i]) >= key(s[j])
  }

  /** Inserts `x` into the sorted `s` before the first element with a key not below `key(x)`. */
  function InsertBy<T>(x: T, s: seq<T>, key: T -> int): (r: seq<T>)
    requires SortedBy(s, key)
    ensures SortedBy(r, key)
    ensures multiset(r) == multiset(s) + multiset{x}
    ensures |r| == |s| + 1
    ensures r[0] == x || (s != [] && r[0] == s[0])
  {
    if s == [] || key(x) <= key(s[0]) then
      [x] + s
    else
      var rest := InsertBy(x, s[1..], key);
      assert key(s[0]) <= key(rest[0]);
      assert s == [s[0]] + s[1..];
      [s[0]] + rest
  }

  /** Insertion sort by `key`: an ascending permutation of `s`. */
  function SortBy<T>(s: seq<T>, key: T -> int): (r: seq<T>)
    ensures SortedBy(r, key)
    ensures multiset(r) == multiset(s)
    ensures |r| == |s|
  {
    if s == [] then []
    else
      assert s == [s[0]] + s[1..];
      InsertBy(s[0], SortBy(s[1..], key), key)
  }

  /** A descending permutation of `s` (Prisma `orderBy: { field: "desc" }`). */
  function SortDescBy<T>(s: seq<T>, key: T -> int): (r: seq<T>)
    ensures SortedDescBy(r, key)
    ensures multiset(r) == multiset(s)
    ensures |r| == |s|
  {
    var neg := (x: T) => -key(x);
    var r := SortBy(s, neg);
    assert forall i, j :: 0 <= i < j < |r| ==> neg(r[i]) <= neg(r[j]);
    r
  }

  /** The elements after the first `n` (Prisma `skip`; none when there are not more than `n`). */
  function Drop<T>(s: seq<T>, n: nat): (r: seq<T>)
    ensures |r| == if n < |s| then |s| - n else 0
    ensures forall i :: 0 <= i < |r| ==> r[i] == s[n + i]
  {
    if n < |s| then s[n..] else []
  }

  /** The first `n` elements (Prisma `take`, `Array.slice(0, n)`). */
  function Take<T>(s: seq<T>, n: nat): (r: seq<T>)
    ensures |r| <= n && |r| <= |s|
    ensures r == s[..|r|]
    ensures |r| == n || r == s
  {
    if n < |s| then s[..n] else s
  }

  /** Elements of a prefix of a sorted sequence come no later than the elements after it. */
  lemma TakeSortedIsLeast<T>(s: seq<T>, n: nat, key: T -> int, y: T)
    requires SortedBy(s, key)
    requires y in s && y !in Take(s, n)
    ensures forall x :: x in Take(s, n) ==> key(x) <= key(y)
  {
    var j :| 0 <= j < |s| && s[j] == y;
    assert j >= |Take(s, n)|;
    forall x | x in Take(s, n)
      ensures key(x) <= key(y)
    {
      var i :| 0 <= i < |Take(s, n)| && Take(s, n)[i] == x;
      assert s[i] == x;
    }
  }

  /** The elements of `s` without repetitions, each at its first occurrence (the key order of
      a JavaScript object filled in a loop). */
  function Distinct<K(==)>(s: seq<K>): (r: seq<K>)
    ensures forall i :: 0 <= i < |r| ==> r[i] in s
    ensures forall i :: 0 <= i < |s| ==> s[i] in r
    ensures NoDuplicates(r)
  {
    if s == [] then []
    else
      var init := Distinct(s[..|s| - 1]);
      if s[|s| - 1] in init then init else init + [s[|s| - 1]]
  }

  predicate NoDuplicates<K(==)>(s: seq<K>)
  {
    forall i, j :: 0 <= i < j < |s| ==> s[i] != s[j]
  }

  /** How many times each key occurs: the counter object the report loops build. */
  function Counts<K(==)>(keys: seq<K>): (m: map<K, nat>)
  {
    map k | k in keys :: multiset(keys)[k]
  }

  /** A lookup with 0 for an absent key, as `summary[key] ?? 0`. */
  function Get<K(==)>(m: map<K, nat>, k: K): nat
  {
    if k in m then m[k] else 0
  }

  lemma CountsGet<K>(keys: seq<K>, k: K)
    ensures k in Counts(keys) <==> k in keys
    ensures Get(Counts(keys), k) == multiset(keys)[k]
  {
  }

  /** One more occurrence of `k` adds one to its counter and leaves every other counter alone. */
  lemma CountsSnoc<K>(keys: seq<K>, k: K)
    ensures Counts(keys + [k]) == Counts(keys)[k := Get(Counts(keys), k) + 1]
  {
    var a := Counts(keys + [k]);
    var b := Counts(keys)[k := Get(Counts(keys), k) + 1];
    assert multiset(keys + [k]) == multiset(keys) + multiset{k};
    forall x
      ensures x in a <==> x in b
    {
      assert x in keys + [k] <==> x in keys || x == k;
    }
    forall x | x in a
      ensures a[x] == b[x]
    {
    }
  }

  /** Counting loop: `summary[key(x)] = (summary[key(x)] ?? 0) + 1` for every element in order. */
  method TallyBy<T, K(==)>(s: seq<T>, key: T -> K) returns (m: map<K, nat>)
    ensures m == Counts(MapSeq(s, key))
  {
    m := map[];
    var i := 0;
    while i < |s|
      invariant 0 <= i <= |s|
      invariant m == Counts(MapSeq(s[..i], key))
    {
      TallyStep(s, i, key);
      m := m[key(s[i]) := Get(m, key(s[i])) + 1];
      i := i + 1;
    }
    assert s[..|s|] == s;
  }

  /** One more element bumps the counter of its key. */
  lemma TallyStep<T, K>(s: seq<T>, i: int, key: T -> K)
    requires 0 <= i < |s|
    ensures Counts(MapSeq(s[..i + 1], key))
         == Counts(MapSeq(s[..i], key))[key(s[i]) := Get(Counts(MapSeq(s[..i], key)), key(s[i])) + 1]
  {
    assert s[..i + 1] == s[..i] + [s[i]];
    MapSeqAppend(s[..i], [s[i]], key);
    assert MapSeq([s[i]], key) == [key(s[i])];
    CountsSnoc(MapSeq(s[..i], key), key(s[i]));
  }

  /** `s.reduce((acc, x) => { acc[key(x)] = (acc[key(x)] ?? 0) + 1; return acc; }, {})`. */
  function CountFold<T, K>(s: seq<T>, key: T -> K): map<K, nat>
  {
    if s == [] then map[]
    else
      var acc := CountFold(s[..|s| - 1], key);
      acc[key(s[|s| - 1]) := Get(acc, key(s[|s| - 1])) + 1]
  }

  /** The fold builds the same counters as the counting loop. */
  lemma {:induction false} CountFoldIsCounts<T, K>(s: seq<T>, key: T -> K)
    ensures CountFold(s, key) == Counts(MapSeq(s, key))
  {
    if s != [] {
      var i := |s| - 1;
      CountFoldIsCounts(s[..i], key);
      TallyStep(s, i, key);
      assert s[..i + 1] == s;
    }
  }

  /** The sum of the counters of the listed keys. */
  function SumOf<K(==)>(ks: seq<K>, m: map<K, nat>): nat
  {
    if ks == [] then 0 else SumOf(ks[..|ks| - 1], m) + Get(m, ks[|ks| - 1])
  }

  lemma {:induction false} SumBump<K>(ks: seq<K>, m: map<K, nat>, m': map<K, nat>, x: K)
    requires NoDuplicates(ks)
    requires forall k :: k != x ==> Get(m', k) == Get(m, k)
    requires Get(m', x) == Get(m, x) + 1
    ensures SumOf(ks, m') == SumOf(ks, m) + (if x in ks then 1 else 0)
  {
    if ks != [] {
      var q := ks[..|ks| - 1];
      var y := ks[|ks| - 1];
      assert ks == q + [y];
      assert NoDuplicates(q);
      SumBump(q, m, m', x);
      if y == x {
        assert x !in q;
      }
    }
  }

  /** One more occurrence of `x` bumps its counter and no other. */
  lemma CountsBump<K>(keys: seq<K>, x: K)
    ensures Get(Counts(keys + [x]), x) == Get(Counts(keys), x) + 1
    ensures forall k :: k != x ==> Get(Counts(keys + [x]), k) == Get(Counts(keys), k)
  {
    CountsSnoc(keys, x);
  }

  lemma DistinctSnoc<K>(keys: seq<K>, x: K)
    ensures x in keys ==> Distinct(keys + [x]) == Distinct(keys)
    ensures x !in keys ==> Distinct(keys + [x]) == Distinct(keys) + [x]
  {
    assert (keys + [x])[..|keys + [x]| - 1] == keys;
  }

  lemma SumOfSnoc<K>(ks: seq<K>, m: map<K, nat>, x: K)
    ensures SumOf(ks + [x], m) == SumOf(ks, m) + Get(m, x)
  {
    assert (ks + [x])[..|ks + [x]| - 1] == ks;
  }

  /** Every key is counted exactly once: the counters of the distinct keys add up to the number
      of keys. */
  lemma {:induction false} CountsSumToTotal<K>(keys: seq<K>)
    ensures SumOf(Distinct(keys), Counts(keys)) == |keys|
  {
    if keys != [] {
      var p := keys[..|keys| - 1];
      var x := keys[|keys| - 1];
      assert keys == p + [x];
      CountsSumToTotal(p);
      CountsBump(p, x);
      DistinctSnoc(p, x);
      SumStep(Distinct(p), Distinct(keys), Counts(p), Counts(keys), x);
    }
  }

  /** Adding one occurrence of `x` to the counters adds one to the sum over the distinct keys,
      whether `x` is new (and listed at the end) or not. */
  lemma SumStep<K>(d: seq<K>, d': seq<K>, m: map<K, nat>, m': map<K, nat>, x: K)
    requires NoDuplicates(d)
    requires forall k :: k != x ==> Get(m', k) == Get(m, k)
    requires Get(m', x) == Get(m, x) + 1
    requires x !in d ==> Get(m, x) == 0
    requires d' == if x in d then d else d + [x]
    ensures SumOf(d', m') == SumOf(d, m) + 1
  {
    SumBump(d, m, m', x);
    if x !in d {
      SumOfSnoc(d, m', x);
    }
  }

  /** The elements whose image under `f` is `k`. */
  function HasKey<T, K(==)>(f: T -> K, k: K): T -> bool
  {
    x => f(x) == k
  }

  /** The multiplicity of `k` among the mapped elements is the number of elements mapped to it. */
  lemma {:induction false} MultiplicityOfMapped<T, K>(s: seq<T>, f: T -> K, k: K)
    ensures multiset(MapSeq(s, f))[k] == |Filter(s, HasKey(f, k))|
  {
    if s != [] {
      MultiplicityOfMapped(s[1..], f, k);
      assert MapSeq(s, f) == [f(s[0])] + MapSeq(s[1..], f);
    }
  }

  /** The counter of a key of mapped elements is the number of elements mapped to it. */
  lemma CountsOfMapped<T, K>(s: seq<T>, f: T -> K, k: K)
    ensures Get(Counts(MapSeq(s, f)), k) == |Filter(s, HasKey(f, k))|
  {
    CountsGet(MapSeq(s, f), k);
    MultiplicityOfMapped(s, f, k);
  }

  /** A breakdown of `s` by `key`: the counter of `k` is the number of elements with that key,
      a key has a counter exactly when some element has it, and the counters of the distinct
      keys add up to the number of elements. */
  lemma BreakdownCounts<T, K>(s: seq<T>, key: T -> K, k: K)
    ensures Get(Counts(MapSeq(s, key)), k) == |Filter(s, HasKey(key, k))|
    ensures k in Counts(MapSeq(s, key)) <==> exists i :: 0 <= i < |s| && key(s[i]) == k
    ensures SumOf(Distinct(MapSeq(s, key)), Counts(MapSeq(s, key))) == |s|
  {
    var names := MapSeq(s, key);
    CountsOfMapped(s, key, k);
    CountsGet(names, k);
    CountsSumToTotal(names);
    if k in names {
      var i :| 0 <= i < |names| && names[i] == k;
      assert key(s[i]) == k;
    }
  }

  /** Keys strictly increase along `s`: the order of rows in a table whose ids come from an
      auto-increment counter. */
  predicate Increasing<T>(s: seq<T>, key: T -> int)
  {
    forall i, j :: 0 <= i < j < |s| ==> key(s[i]) < key(s[j])
  }

  /** Every key is below `n`: the counter has not handed out any key of `s` yet. */
  predicate AllBelow<T>(s: seq<T>, key: T -> int, n: int)
  {
    forall i :: 0 <= i < |s| ==> key(s[i]) < n
  }

  /** Filtering keeps any property that holds of every element. */
  lemma FilterAll<T>(s: seq<T>, p: T -> bool, q: T -> bool)
    requires forall i :: 0 <= i < |s| ==> q(s[i])
    ensures forall i :: 0 <= i < |Filter(s, p)| ==> q(Filter(s, p)[i])
  {
    var r := Filter(s, p);
    forall i | 0 <= i < |r| ensures q(r[i]) {
      var j :| 0 <= j < |s| && s[j] == r[i];
    }
  }

  /** A key below every key of an increasing sequence can go in front. */
  lemma ConsIncreasing<T>(x: T, s: seq<T>, key: T -> int)
    requires Increasing(s, key)
    requires forall i :: 0 <= i < |s| ==> key(x) < key(s[i])
    ensures Increasing([x] + s, key)
  {
    var u := [x] + s;
    forall i, j | 0 <= i < j < |u| ensures key(u[i]) < key(u[j]) {
      assert u[j] == s[j - 1];
      if i > 0 {
        assert u[i] == s[i - 1];
      }
    }
  }

  /** Removing rows keeps the keys increasing. */
  lemma {:induction false} FilterIncreasing<T>(s: seq<T>, p: T -> bool, key: T -> int)
    requires Increasing(s, key)
    ensures Increasing(Filter(s, p), key)
  {
    if s != [] {
      var q := (x: T) => key(s[0]) < key(x);
      assert forall i :: 0 <= i < |s[1..]| ==> q(s[1..][i]) by {
        forall i | 0 <= i < |s[1..]| ensures q(s[1..][i]) {
          assert s[1..][i] == s[i + 1];
        }
      }
      var rest := Filter(s[1..], p);
      FilterAll(s[1..], p, q);
      FilterIncreasing(s[1..], p, key);
      if p(s[0]) {
        ConsIncreasing(s[0], rest, key);
      }
    }
  }

  /** Removing rows keeps every key below the counter. */
  lemma FilterBelow<T>(s: seq<T>, p: T -> bool, key: T -> int, n: int)
    requires AllBelow(s, key, n)
    ensures AllBelow(Filter(s, p), key, n)
  {
    FilterAll(s, p, x => key(x) < n);
  }

  /** The first element satisfying `p`, if any (Prisma `findFirst` / `findUnique`,
      `Array.find`). */
  function Find<T>(s: seq<T>, p: T -> bool): (r: Option<T>)
    ensures r.Some? <==> exists i :: 0 <= i < |s| && p(s[i])
    ensures r.Some? ==> p(r.value) && r.value in s
  {
    if s == [] then None
    else if p(s[0]) then Some(s[0])
    else
      var r := Find(s[1..], p);
      assert forall i :: 1 <= i < |s| ==> s[i] == s[1..][i - 1];
      r
  }

  /** The first row whose key is `k` (Prisma `findUnique` on the id column). */
  function FindByKey<T>(s: seq<T>, key: T -> int, k: int): (r: Option<T>)
    ensures r.Some? <==> exists i :: 0 <= i < |s| && key(s[i]) == k
    ensures r.Some? ==> key(r.value) == k && r.value in s
  {
    if s == [] then None
    else if key(s[0]) == k then Some(s[0])
    else
      var r := FindByKey(s[1..], key, k);
      assert forall i :: 1 <= i < |s| ==> s[i] == s[1..][i - 1];
      r
  }

  /** With increasing keys, the row found by its key is the one row carrying it. */
  lemma {:induction false} FindByKeyAt<T>(s: seq<T>, key: T -> int, i: int)
    requires Increasing(s, key)
    requires 0 <= i < |s|
    ensures FindByKey(s, key, key(s[i])) == Some(s[i])
  {
    if i > 0 {
      assert key(s[0]) < key(s[i]);
      assert Increasing(s[1..], key);
      assert s[1..][i - 1] == s[i];
      FindByKeyAt(s[1..], key, i - 1);
    }
  }

  /** The keys of `t` are `n`, `n + 1`, ...: rows stamped by an auto-increment counter. */
  predicate Consecutive<T>(t: seq<T>, key: T -> int, n: int)
  {
    forall i :: 0 <= i < |t| ==> key(t[i]) == n + i
  }

  /** Appending freshly stamped rows keeps the keys increasing and below the advanced
      counter. */
  lemma AppendConsecutive<T>(s: seq<T>, t: seq<T>, key: T -> int, n: int)
    requires Increasing(s, key) && AllBelow(s, key, n)
    requires Consecutive(t, key, n)
    ensures Increasing(s + t, key) && AllBelow(s + t, key, n + |t|)
  {
    var u := s + t;
    forall i, j | 0 <= i < j < |u| ensures key(u[i]) < key(u[j]) {
      if j >= |s| {
        assert u[j] == t[j - |s|];
        if i >= |s| {
          assert u[i] == t[i - |s|];
        } else {
          assert u[i] == s[i];
        }
      } else {
        assert u[i] == s[i] && u[j] == s[j];
      }
    }
    forall i | 0 <= i < |u| ensures key(u[i]) < n + |t| {
      if i >= |s| {
        assert u[i] == t[i - |s|];
      } else {
        assert u[i] == s[i];
      }
    }
  }

  /** `s` with every element that satisfies `p` replaced by `f` of it (Prisma `update` and
      `updateMany`). */
  function UpdateWhere<T>(s: seq<T>, p: T -> bool, f: T -> T): (r: seq<T>)
    ensures |r| == |s|
    ensures forall i :: 0 <= i < |s| ==> r[i] == if p(s[i]) then f(s[i]) else s[i]
  {
    seq(|s|, i requires 0 <= i < |s| => if p(s[i]) then f(s[i]) else s[i])
  }

  /** An update that keeps every key keeps the keys increasing and below the counter. */
  lemma UpdateKeepsKeys<T>(s: seq<T>, p: T -> bool, f: T -> T, key: T -> int, n: int)
    requires forall x :: key(f(x)) == key(x)
    requires Increasing(s, key) && AllBelow(s, key, n)
    ensures Increasing(UpdateWhere(s, p, f), key) && AllBelow(UpdateWhere(s, p, f), key, n)
  {
  }

  /** A sequence without repetitions is its own `Distinct`. */
  lemma {:induction false} DistinctOfNoDuplicates<K>(s: seq<K>)
    requires NoDuplicates(s)
    ensures Distinct(s) == s
  {
    if s != [] {
      var init := s[..|s| - 1];
      assert NoDuplicates(init);
      DistinctOfNoDuplicates(init);
      assert init + [s[|s| - 1]] == s;
    }
  }

  /** Filtering keeps keys pairwise distinct. */
  lemma {:induction false} FilterKeysDistinct<T, K>(s: seq<T>, p: T -> bool, key: T -> K)
    requires forall i, j :: 0 <= i < j < |s| ==> key(s[i]) != key(s[j])
    ensures forall i, j :: 0 <= i < j < |Filter(s, p)| ==> key(Filter(s, p)[i]) != key(Filter(s, p)[j])
  {
    if s != [] {
      var q := (x: T) => key(s[0]) != key(x);
      assert forall i :: 0 <= i < |s[1..]| ==> q(s[1..][i]) by {
        forall i | 0 <= i < |s[1..]| ensures q(s[1..][i]) {
          assert s[1..][i] == s[i + 1];
        }
      }
      FilterAll(s[1..], p, q);
      FilterKeysDistinct(s[1..], p, key);
    }
  }

  /** `s` with the element whose key is that of `x` replaced by `x` (Prisma `update` by id). */
  function ReplaceByKey<T>(s: seq<T>, key: T -> int, x: T): (r: seq<T>)
    ensures |r| == |s|
    ensures forall i :: 0 <= i < |s| ==> r[i] == if key(s[i]) == key(x) then x else s[i]
    ensures Increasing(s, key) ==> Increasing(r, key)
    ensures forall n :: AllBelow(s, key, n) ==> AllBelow(r, key, n)
  {
    seq(|s|, i requires 0 <= i < |s| => if key(s[i]) == key(x) then x else s[i])
  }

  /** `s` without the elements whose key is `k` (Prisma `delete` by id). */
  function WithoutKey<T>(s: seq<T>, key: T -> int, k: int): (r: seq<T>)
    ensures forall i :: 0 <= i < |r| ==> r[i] in s && key(r[i]) != k
    ensures forall i :: 0 <= i < |s| && key(s[i]) != k ==> s[i] in r
    ensures Increasing(s, key) ==> Increasing(r, key)
    ensures forall n :: AllBelow(s, key, n) ==> AllBelow(r, key, n)
  {
    var p := x => key(x) != k;
    assert Increasing(s, key) ==> Increasing(Filter(s, p), key) by {
      if Increasing(s, key) {
        FilterIncreasing(s, p, key);
      }
    }
    assert forall n :: AllBelow(s, key, n) ==> AllBelow(Filter(s, p), key, n) by {
      forall n | AllBelow(s, key, n)
        ensures AllBelow(Filter(s, p), key, n)
      {
        FilterBelow(s, p, key, n);
      }
    }
    Filter(s, p)
  }
}
