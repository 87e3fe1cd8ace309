/** Vocabulary shared by every component: optional and fallible values,
    distinctness, permutations, sorted sequences, counting and sums. */
module Sequences {

  datatype Option<+T> = None | Some(value: T)

  datatype Result<+T> = Ok(value: T) | Err(error: string)

  ghost predicate Distinct<T>(s: seq<T>) {
    forall i, j :: 0 <= i < j < |s| ==> s[i] != s[j]
  }

  function RemoveAt<T>(s: seq<T>, i: nat): (r: seq<T>)
    requires i < |s|
    ensures |r| == |s| - 1
  {
    s[..i] + s[i + 1..]
  }

  lemma RemoveAtMultiset<T>(s: seq<T>, i: nat)
    requires i < |s|
    ensures multiset(s) == multiset(RemoveAt(s, i)) + multiset{s[i]}
  {
    assert s == s[..i] + [s[i]] + s[i + 1..];
  }

  lemma HeadMultiset<T>(s: seq<T>)
    requires s != []
    ensures multiset(s) == multiset{s[0]} + multiset(s[1..])
    ensures multiset(s[1..]) == multiset(s) - multiset{s[0]}
  {
    assert s == [s[0]] + s[1..];
  }

  lemma IndexOfMember<T>(s: seq<T>, x: T) returns (i: nat)
    requires x in s
    ensures i < |s| && s[i] == x
  {
    i :| i < |s| && s[i] == x;
  }

  /** The position of the head of `a` in a permutation `b` of it, and the
      permutation that is left when both occurrences are dropped. */
  lemma MatchHead<T>(a: seq<T>, b: seq<T>) returns (i: nat)
    requires multiset(a) == multiset(b) && a != []
    ensures i < |b| && b[i] == a[0]
    ensures multiset(a[1..]) == multiset(RemoveAt(b, i))
  {
    HeadMultiset(a);
    assert a[0] in multiset(b);
    i := IndexOfMember(b, a[0]);
    RemoveAtMultiset(b, i);
    assert multiset(a[1..]) == multiset(b) - multiset{b[i]};
  }

  lemma PermutationLength<T>(a: seq<T>, b: seq<T>)
    requires multiset(a) == multiset(b)
    ensures |a| == |b|
  {
    assert |multiset(a)| == |a| && |multiset(b)| == |b|;
  }

  lemma {:induction false} DistinctCounts<T>(s: seq<T>, x: T)
    requires Distinct(s)
    ensures multiset(s)[x] <= 1
  {
    if s != [] {
      HeadMultiset(s);
      DistinctCounts(s[1..], x);
    }
  }

  lemma RepeatCounts<T>(s: seq<T>, i: nat, j: nat)
    requires i < j < |s| && s[i] == s[j]
    ensures multiset(s)[s[i]] >= 2
  {
    assert s == s[..i] + [s[i]] + s[i + 1..j] + [s[j]] + s[j + 1..];
  }

  lemma RepeatedNotDistinct<T>(s: seq<T>, i: nat, j: nat)
    requires i < j < |s| && s[i] == s[j]
    ensures !Distinct(s)
  {}

  lemma DistinctPermuted<T>(a: seq<T>, b: seq<T>)
    requires multiset(a) == multiset(b) && Distinct(a)
    ensures Distinct(b)
  {
    forall i, j | 0 <= i < j < |b| ensures b[i] != b[j] {
      DistinctCounts(a, b[i]);
      if b[i] == b[j] { RepeatCounts(b, i, j); }
    }
  }

  lemma {:induction false} DistinctCoverSize<T>(names: seq<T>, keys: set<T>)
    requires Distinct(names) && forall p :: p in names <==> p in keys
    ensures |names| == |keys|
  {
    if names == [] {
      assert keys == {};
    } else {
      var init, last := names[..|names| - 1], names[|names| - 1];
      assert names == init + [last];
      DistinctCoverSize(init, keys - {last});
    }
  }

  // ----- Sorting -----

  ghost predicate SortedBy<T>(le: (T, T) -> bool, s: seq<T>) {
    forall i, j :: 0 <= i < j < |s| ==> le(s[i], s[j])
  }

  ghost predicate TotalOrder<T(!new)>(le: (T, T) -> bool) {
    && (forall x, y :: le(x, y) || le(y, x))
    && (forall x, y, z :: le(x, y) && le(y, z) ==> le(x, z))
  }

  /** No two different elements of `s` are tied. */
  ghost predicate TieFree<T>(le: (T, T) -> bool, s: seq<T>) {
    forall i, j :: 0 <= i < |s| && 0 <= j < |s| && le(s[i], s[j]) && le(s[j], s[i]) ==> s[i] == s[j]
  }

  lemma SortedHeadsAgree<T>(le: (T, T) -> bool, a: seq<T>, b: seq<T>)
    requires a != [] && b != [] && multiset(a) == multiset(b)
    requires SortedBy(le, a) && SortedBy(le, b) && TieFree(le, a)
    ensures a[0] == b[0]
  {
    assert a[0] in multiset(b) && b[0] in multiset(a);
    var i := IndexOfMember(b, a[0]);
    var j := IndexOfMember(a, b[0]);
    if i > 0 && j > 0 {
      assert le(b[0], b[i]) && le(a[0], a[j]);
      assert a[0] == a[j];
    }
  }

  /** Two sorted arrangements of the same elements coincide as soon as no two
      different elements are tied. */
  lemma {:induction false} SortedPermutationUnique<T>(le: (T, T) -> bool, a: seq<T>, b: seq<T>)
    requires multiset(a) == multiset(b)
    requires SortedBy(le, a) && SortedBy(le, b) && TieFree(le, a)
    ensures a == b
  {
    PermutationLength(a, b);
    if a != [] {
      SortedHeadsAgree(le, a, b);
      HeadMultiset(a);
      HeadMultiset(b);
      SortedPermutationUnique(le, a[1..], b[1..]);
      assert a == [a[0]] + a[1..] && b == [b[0]] + b[1..];
    }
  }

  /** Inserts `x` before the first element it does not exceed. */
  function Insert<T>(le: (T, T) -> bool, x: T, s: seq<T>): (r: seq<T>)
    ensures multiset(r) == multiset(s) + multiset{x}
  {
    if s == [] || le(x, s[0]) then [x] + s
    else
      assert s == [s[0]] + s[1..];
      [s[0]] + Insert(le, x, s[1..])
  }

  lemma {:induction false} InsertSorted<T(!new)>(le: (T, T) -> bool, x: T, s: seq<T>)
    requires TotalOrder(le) && SortedBy(le, s)
    ensures SortedBy(le, Insert(le, x, s))
  {
    if s != [] && !le(x, s[0]) {
      var t := Insert(le, x, s[1..]);
      InsertSorted(le, x, s[1..]);
      forall k | 0 <= k < |t| ensures le(s[0], t[k]) {
        assert t[k] in multiset(t);
        assert t[k] == x || t[k] in s[1..];
      }
    }
  }

  /** One sorted arrangement, by insertion from the front. */
  function Arrange<T>(le: (T, T) -> bool, s: seq<T>): (r: seq<T>)
    ensures multiset(r) == multiset(s) && |r| == |s|
  {
    if s == [] then []
    else
      assert s == s[..|s| - 1] + [s[|s| - 1]];
      var r := Insert(le, s[|s| - 1], Arrange(le, s[..|s| - 1]));
      assert |multiset(r)| == |r| && |multiset(s)| == |s|;
      r
  }

  lemma {:induction false} ArrangeSorts<T(!new)>(le: (T, T) -> bool, s: seq<T>)
    requires TotalOrder(le)
    ensures SortedBy(le, Arrange(le, s))
  {
    if s != [] {
      ArrangeSorts(le, s[..|s| - 1]);
      InsertSorted(le, s[|s| - 1], Arrange(le, s[..|s| - 1]));
    }
  }

  /** The library sorts (`sort.Strings`, `sort.Slice`): callers learn only that
      the result is a sorted permutation, not how ties are arranged. */
  method Sort<T(!new)>(le: (T, T) -> bool, s: seq<T>) returns (r: seq<T>)
    requires TotalOrder(le)
    ensures multiset(r) == multiset(s) && SortedBy(le, r)
  {
    r := [];
    for i := 0 to |s|
      invariant multiset(r) == multiset(s[..i]) && SortedBy(le, r)
    {
      assert s[..i + 1] == s[..i] + [s[i]];
      InsertSorted(le, s[i], r);
      r := Insert(le, s[i], r);
    }
    assert s[..|s|] == s;
  }

  // ----- Images -----

  function Column<A, T>(f: A -> T, s: seq<A>): (c: seq<T>)
    ensures |c| == |s| && forall i :: 0 <= i < |s| ==> c[i] == f(s[i])
  {
    seq(|s|, i requires 0 <= i < |s| => f(s[i]))
  }

  /** What a loop appending `f(x)` for every `x` builds. */
  function Flatten<A, B>(f: A -> seq<B>, s: seq<A>): seq<B> {
    if s == [] then [] else Flatten(f, s[..|s| - 1]) + f(s[|s| - 1])
  }

  lemma {:induction false} FlattenConcat<A, B>(f: A -> seq<B>, a: seq<A>, b: seq<A>)
    ensures Flatten(f, a + b) == Flatten(f, a) + Flatten(f, b)
  {
    if b == [] {
      assert a + b == a;
    } else {
      assert (a + b)[..|a + b| - 1] == a + b[..|b| - 1];
      FlattenConcat(f, a, b[..|b| - 1]);
    }
  }

  lemma FlattenOne<A, B>(f: A -> seq<B>, a: seq<A>, x: A)
    ensures Flatten(f, a + [x]) == Flatten(f, a) + f(x)
  {}

  lemma {:induction false} FlattenPermuted<A, B>(f: A -> seq<B>, a: seq<A>, b: seq<A>)
    requires multiset(a) == multiset(b)
    ensures multiset(Flatten(f, a)) == multiset(Flatten(f, b))
  {
    PermutationLength(a, b);
    if a != [] {
      var i := MatchHead(a, b);
      FlattenPermuted(f, a[1..], RemoveAt(b, i));
      assert a == [a[0]] + a[1..] && b == b[..i] + ([b[i]] + b[i + 1..]);
      FlattenConcat(f, [a[0]], a[1..]);
      FlattenConcat(f, b[..i], [b[i]] + b[i + 1..]);
      FlattenConcat(f, [b[i]], b[i + 1..]);
      FlattenConcat(f, b[..i], b[i + 1..]);
    }
  }

  lemma {:induction false} InFlatten<A, B>(f: A -> seq<B>, s: seq<A>, y: B)
    ensures y in Flatten(f, s) <==> exists x :: x in s && y in f(x)
  {
    if s != [] {
      var init, last := s[..|s| - 1], s[|s| - 1];
      InFlatten(f, init, y);
      assert s == init + [last];
    }
  }

  lemma {:induction false} FlattenCongruent<A, B>(f: A -> seq<B>, g: A -> seq<B>, s: seq<A>)
    requires forall x :: x in s ==> f(x) == g(x)
    ensures Flatten(f, s) == Flatten(g, s)
  {
    if s != [] { FlattenCongruent(f, g, s[..|s| - 1]); }
  }

  /** Appending two kinds of elements in one pass gathers what two passes do. */
  lemma {:induction false} FlattenSplit<A, B>(f: A -> seq<B>, g: A -> seq<B>, h: A -> seq<B>, s: seq<A>)
    requires forall x :: x in s ==> multiset(f(x)) == multiset(g(x)) + multiset(h(x))
    ensures multiset(Flatten(f, s)) == multiset(Flatten(g, s)) + multiset(Flatten(h, s))
  {
    if s != [] { FlattenSplit(f, g, h, s[..|s| - 1]); }
  }

  // ----- Selecting -----

  /** The positions `ks` pick out, in ascending order, exactly the pods with `chosen`. */
  ghost predicate Picks(ks: seq<nat>, chosen: set<nat>) {
    (forall i, j :: 0 <= i < j < |ks| ==> ks[i] < ks[j]) && forall k :: k in ks <==> k in chosen
  }

  lemma PicksOneMore(ks: seq<nat>, chosen: set<nat>, n: nat)
    requires Picks(ks, chosen) && forall k :: k in chosen ==> k < n
    ensures Picks(ks + [n], chosen + {n})
  {
    forall i | 0 <= i < |ks| ensures ks[i] < n { assert ks[i] in ks; }
  }

  /** The image of an element that is kept. */
  function Kept<A, B>(keep: A -> bool, g: A -> B): A -> seq<B> {
    (x: A) => if keep(x) then [g(x)] else []
  }

  /** A loop that appends `g(x)` for every kept `x` selects exactly the kept positions. */
  lemma {:induction false} KeptPositions<A, B>(keep: A -> bool, g: A -> B, s: seq<A>) returns (ks: seq<nat>)
    ensures Picks(ks, set k: nat | k < |s| && keep(s[k]))
    ensures |Flatten(Kept(keep, g), s)| == |ks|
    ensures forall j :: 0 <= j < |ks| ==> ks[j] < |s| && Flatten(Kept(keep, g), s)[j] == g(s[ks[j]])
  {
    ks := [];
    if s != [] {
      var n := |s| - 1;
      ks := KeptPositions(keep, g, s[..n]);
      var before, chosen := set k: nat | k < n && keep(s[..n][k]), set k: nat | k < |s| && keep(s[k]);
      forall k: nat ensures k in chosen <==> k in before || (k == n && keep(s[n])) { assert k < n ==> s[..n][k] == s[k]; }
      assert chosen == if keep(s[n]) then before + {n} else before;
      PicksOneMore(ks, before, n);
      hide Picks;
      if keep(s[n]) { ks := ks + [n]; }
    }
  }

  // ----- Merging -----

  function Merge<T>(le: (T, T) -> bool, a: seq<T>, b: seq<T>): seq<T> {
    if a == [] then b
    else if b == [] then a
    else if le(a[0], b[0]) then [a[0]] + Merge(le, a[1..], b)
    else [b[0]] + Merge(le, a, b[1..])
  }

  lemma {:induction false} MergeMultiset<T>(le: (T, T) -> bool, a: seq<T>, b: seq<T>)
    ensures multiset(Merge(le, a, b)) == multiset(a) + multiset(b)
  {
    if a != [] && b != [] {
      HeadMultiset(a);
      HeadMultiset(b);
      if le(a[0], b[0]) { MergeMultiset(le, a[1..], b); } else { MergeMultiset(le, a, b[1..]); }
    }
  }

  lemma SortedCons<T(!new)>(le: (T, T) -> bool, x: T, s: seq<T>)
    requires SortedBy(le, s)
    requires forall y :: y in s ==> le(x, y)
    ensures SortedBy(le, [x] + s)
  {}

  lemma {:induction false} MergeSorted<T(!new)>(le: (T, T) -> bool, a: seq<T>, b: seq<T>)
    requires TotalOrder(le) && SortedBy(le, a) && SortedBy(le, b)
    ensures SortedBy(le, Merge(le, a, b))
  {
    if a != [] && b != [] {
      var x := if le(a[0], b[0]) then a[0] else b[0];
      var a', b' := if le(a[0], b[0]) then a[1..] else a, if le(a[0], b[0]) then b else b[1..];
      MergeSorted(le, a', b');
      MergeMultiset(le, a', b');
      forall y | y in Merge(le, a', b') ensures le(x, y) {
        assert y in multiset(Merge(le, a', b'));
        assert y in a' || y in b';
      }
      SortedCons(le, x, Merge(le, a', b'));
    }
  }

  // ----- Subsequences -----

  /** `a` arises from `b` by deleting elements and keeping the order. */
  ghost predicate Subsequence<T>(a: seq<T>, b: seq<T>) {
    if a == [] then true
    else if b == [] then false
    else if a[|a| - 1] == b[|b| - 1] && Subsequence(a[..|a| - 1], b[..|b| - 1]) then true
    else Subsequence(a, b[..|b| - 1])
  }

  lemma SubsequenceKeep<T>(a: seq<T>, b: seq<T>, x: T)
    requires Subsequence(a, b)
    ensures Subsequence(a + [x], b + [x])
  {}

  lemma SubsequenceSkip<T>(a: seq<T>, b: seq<T>, x: T)
    requires Subsequence(a, b)
    ensures Subsequence(a, b + [x])
  {}

  // ----- Counting group members -----

  function Occurrences<K(==)>(k: K, s: seq<K>): nat {
    if s == [] then 0
    else Occurrences(k, s[..|s| - 1]) + (if s[|s| - 1] == k then 1 else 0)
  }

  /** The positions at which an element occurs are as many as its occurrences. */
  lemma {:induction false} OccurrencesPositions<K>(k: K, s: seq<K>) returns (ps: set<int>)
    ensures forall i :: i in ps <==> 0 <= i < |s| && s[i] == k
    ensures |ps| == Occurrences(k, s)
  {
    ps := {};
    if s != [] {
      var n := |s| - 1;
      ps := OccurrencesPositions(k, s[..n]);
      if s[n] == k { ps := ps + {n}; }
    }
  }

  function OccurrencesOfAll<K(==)>(keys: seq<K>, s: seq<K>): nat {
    if keys == [] then 0
    else OccurrencesOfAll(keys[..|keys| - 1], s) + Occurrences(keys[|keys| - 1], s)
  }

  lemma {:induction false} OccurrencesOfAllEmpty<K>(keys: seq<K>)
    ensures OccurrencesOfAll(keys, []) == 0
  {
    if keys != [] { OccurrencesOfAllEmpty(keys[..|keys| - 1]); }
  }

  lemma {:induction false} OneMoreElement<K>(keys: seq<K>, s: seq<K>, x: K)
    requires Distinct(keys)
    ensures OccurrencesOfAll(keys, s + [x]) == OccurrencesOfAll(keys, s) + (if x in keys then 1 else 0)
  {
    if keys != [] {
      var init, last := keys[..|keys| - 1], keys[|keys| - 1];
      OneMoreElement(init, s, x);
      assert (s + [x])[..|s|] == s;
      assert keys == init + [last];
    }
  }

  /** Grouping by a complete list of distinct keys loses and duplicates nothing. */
  lemma {:induction false} GroupsPartition<K>(keys: seq<K>, s: seq<K>)
    requires Distinct(keys)
    requires forall k :: k in s ==> k in keys
    ensures OccurrencesOfAll(keys, s) == |s|
  {
    if s == [] {
      OccurrencesOfAllEmpty(keys);
    } else {
      var init, last := s[..|s| - 1], s[|s| - 1];
      assert s == init + [last];
      GroupsPartition(keys, init);
      OneMoreElement(keys, init, last);
    }
  }

  // ----- Sums -----

  function Sum(s: seq<real>): real {
    if s == [] then 0.0 else Sum(s[..|s| - 1]) + s[|s| - 1]
  }

  lemma SumAppend(s: seq<real>, x: real)
    ensures Sum(s + [x]) == Sum(s) + x
  {}

  lemma {:induction false} SumConcat(a: seq<real>, b: seq<real>)
    ensures Sum(a + b) == Sum(a) + Sum(b)
  {
    if b == [] {
      assert a + b == a;
    } else {
      var init, last := b[..|b| - 1], b[|b| - 1];
      assert a + b == (a + init) + [last];
      SumAppend(a + init, last);
      SumConcat(a, init);
    }
  }

  lemma {:induction false} SumPermutation(a: seq<real>, b: seq<real>)
    requires multiset(a) == multiset(b)
    ensures Sum(a) == Sum(b)
  {
    PermutationLength(a, b);
    if a != [] {
      var i := MatchHead(a, b);
      SumPermutation(a[1..], RemoveAt(b, i));
      assert a == [a[0]] + a[1..] && b == b[..i] + ([b[i]] + b[i + 1..]);
      SumConcat([a[0]], a[1..]);
      SumConcat(b[..i], [b[i]] + b[i + 1..]);
      SumConcat([b[i]], b[i + 1..]);
      SumConcat(b[..i], b[i + 1..]);
    }
  }

  lemma {:induction false} SumBounds(s: seq<real>, lo: real, hi: real)
    requires forall i :: 0 <= i < |s| ==> lo <= s[i] <= hi
    ensures |s| as real * lo <= Sum(s) <= |s| as real * hi
  {
    if s != [] { SumBounds(s[..|s| - 1], lo, hi); }
  }

  // ----- Sums of map values -----

  ghost function MapSum<K>(m: map<K, int>): int {
    if m == map[] then 0
    else
      var k :| k in m;
      m[k] + MapSum(m - {k})
  }

  lemma {:induction false} MapSumRemove<K>(m: map<K, int>, k: K)
    requires k in m
    ensures MapSum(m) == m[k] + MapSum(m - {k})
    decreases |m|
  {
    var c :| c in m && MapSum(m) == m[c] + MapSum(m - {c});
    if c != k {
      MapSumRemove(m - {c}, k);
      MapSumRemove(m - {k}, c);
      assert m - {c} - {k} == m - {k} - {c};
    }
  }

  lemma MapSumInsert<K>(m: map<K, int>, k: K, v: int)
    requires k !in m
    ensures MapSum(m[k := v]) == MapSum(m) + v
  {
    MapSumRemove(m[k := v], k);
    assert m[k := v] - {k} == m;
  }

  lemma MapSumUpdate<K>(m: map<K, int>, k: K, v: int)
    requires k in m
    ensures MapSum(m[k := v]) == MapSum(m) - m[k] + v
  {
    MapSumRemove(m, k);
    MapSumRemove(m[k := v], k);
    assert m[k := v] - {k} == m - {k};
  }
}
