/** Sums, filters and permutations of sequences. */
module Sequences {

  function SumBy<T>(f: T -> int, xs: seq<T>): int {
    if xs == [] then 0 else f(xs[0]) + SumBy(f, xs[1..])
  }

  lemma {:induction false} SumByConcat<T>(f: T -> int, xs: seq<T>, ys: seq<T>)
    ensures SumBy(f, xs + ys) == SumBy(f, xs) + SumBy(f, ys)
  {
    if xs == [] {
      assert xs + ys == ys;
    } else {
      assert (xs + ys)[1..] == xs[1..] + ys;
      SumByConcat(f, xs[1..], ys);
    }
  }

  lemma SumBySnoc<T>(f: T -> int, xs: seq<T>, x: T)
    ensures SumBy(f, xs + [x]) == SumBy(f, xs) + f(x)
  {
    SumByConcat(f, xs, [x]);
  }

  lemma SumByUpdate<T>(f: T -> int, xs: seq<T>, i: nat, x: T)
    requires i < |xs|
    ensures SumBy(f, xs[i := x]) == SumBy(f, xs) - f(xs[i]) + f(x)
  {
    assert xs == xs[..i] + [xs[i]] + xs[i + 1..] && xs[i := x] == xs[..i] + [x] + xs[i + 1..];
    SumByConcat(f, xs[..i] + [xs[i]], xs[i + 1..]);
    SumByConcat(f, xs[..i] + [x], xs[i + 1..]);
    SumBySnoc(f, xs[..i], xs[i]);
    SumBySnoc(f, xs[..i], x);
  }

  function Filter<T>(keep: T -> bool, xs: seq<T>): seq<T> {
    if xs == [] then []
    else (if keep(xs[0]) then [xs[0]] else []) + Filter(keep, xs[1..])
  }

  lemma {:induction false} FilterConcat<T>(keep: T -> bool, xs: seq<T>, ys: seq<T>)
    ensures Filter(keep, xs + ys) == Filter(keep, xs) + Filter(keep, ys)
  {
    if xs == [] {
      assert xs + ys == ys;
    } else {
      assert (xs + ys)[1..] == xs[1..] + ys;
      FilterConcat(keep, xs[1..], ys);
      var head := if keep(xs[0]) then [xs[0]] else [];
      assert head + (Filter(keep, xs[1..]) + Filter(keep, ys)) == head + Filter(keep, xs[1..]) + Filter(keep, ys);
    }
  }

  lemma {:induction false} FilterMembers<T>(keep: T -> bool, xs: seq<T>)
    ensures forall x :: x in Filter(keep, xs) <==> x in xs && keep(x)
  {
    if xs != [] {
      FilterMembers(keep, xs[1..]);
      assert xs == [xs[0]] + xs[1..];
    }
  }

  ghost predicate Distinct<K>(ks: seq<K>) {
    forall i, j | 0 <= i < j < |ks| :: ks[i] != ks[j]
  }

  lemma {:induction false} FilterDistinct<T>(keep: T -> bool, xs: seq<T>)
    requires Distinct(xs)
    ensures Distinct(Filter(keep, xs))
  {
    if xs != [] {
      FilterDistinct(keep, xs[1..]);
      FilterMembers(keep, xs[1..]);
      assert xs[0] !in xs[1..];
    }
  }

  // ----- Permutations -----

  ghost predicate Permutation<T>(xs: seq<T>, ys: seq<T>) { multiset(xs) == multiset(ys) }

  /** A permutation of a nonempty sequence holds its head somewhere; what is left over is a
      permutation of the tail. */
  lemma TakeOut<T>(xs: seq<T>, ys: seq<T>) returns (j: nat)
    requires Permutation(xs, ys) && xs != []
    ensures j < |ys| && ys[j] == xs[0] && ys == ys[..j] + [ys[j]] + ys[j + 1..]
    ensures Permutation(xs[1..], ys[..j] + ys[j + 1..])
  {
    assert xs[0] in multiset(xs);
    j :| 0 <= j < |ys| && ys[j] == xs[0];
    assert ys == ys[..j] + [ys[j]] + ys[j + 1..];
    assert xs == [xs[0]] + xs[1..];
    assert multiset(xs[1..]) == multiset(xs) - multiset{xs[0]};
    assert multiset(ys[..j] + ys[j + 1..]) == multiset(ys) - multiset{xs[0]};
  }

  lemma {:induction false} SumByPermutation<T>(f: T -> int, xs: seq<T>, ys: seq<T>)
    requires Permutation(xs, ys)
    ensures SumBy(f, xs) == SumBy(f, ys)
    decreases |xs|
  {
    if xs == [] {
      assert |multiset(ys)| == 0;
    } else {
      var j := TakeOut(xs, ys);
      var rest := ys[..j] + ys[j + 1..];
      SumByPermutation(f, xs[1..], rest);
      SumByConcat(f, ys[..j], ys[j + 1..]);
      SumByConcat(f, ys[..j] + [ys[j]], ys[j + 1..]);
      SumBySnoc(f, ys[..j], ys[j]);
    }
  }

  lemma {:induction false} FilterPermutation<T>(keep: T -> bool, xs: seq<T>, ys: seq<T>)
    requires Permutation(xs, ys)
    ensures Permutation(Filter(keep, xs), Filter(keep, ys))
    decreases |xs|
  {
    if xs == [] {
      assert |multiset(ys)| == 0;
    } else {
      var j := TakeOut(xs, ys);
      var a, b := ys[..j], ys[j + 1..];
      FilterPermutation(keep, xs[1..], a + b);
      FilterConcat(keep, a, b);
      FilterConcat(keep, a + [ys[j]], b);
      FilterConcat(keep, a, [ys[j]]);
    }
  }

  lemma PermutationMembers<T>(xs: seq<T>, ys: seq<T>)
    requires Permutation(xs, ys)
    ensures |xs| == |ys| && forall x :: x in xs <==> x in ys
  {
    assert forall x :: x in xs <==> x in multiset(xs);
    assert |multiset(xs)| == |xs| && |multiset(ys)| == |ys|;
  }

  ghost predicate DistinctKeys<T, K>(key: T -> K, xs: seq<T>) {
    forall i, j | 0 <= i < j < |xs| :: key(xs[i]) != key(xs[j])
  }

  lemma Twice<T>(xs: seq<T>, i: nat, j: nat)
    requires i < j < |xs| && xs[i] == xs[j]
    ensures multiset(xs)[xs[i]] >= 2
  {
    assert xs == xs[..j] + [xs[j]] + xs[j + 1..];
    assert xs[..j][i] == xs[i];
    assert xs[i] in multiset(xs[..j]);
  }

  lemma Once<T>(xs: seq<T>, x: T)
    requires x in xs && forall i, j | 0 <= i < j < |xs| :: xs[i] != xs[j]
    ensures multiset(xs)[x] == 1
  {
    var i :| 0 <= i < |xs| && xs[i] == x;
    assert xs == xs[..i] + [x] + xs[i + 1..];
    assert x !in xs[..i] && x !in xs[i + 1..];
    assert multiset(xs[..i])[x] == 0 && multiset(xs[i + 1..])[x] == 0;
  }

  /** Distinct keys stay distinct under permutation. */
  lemma DistinctKeysPermute<T, K>(key: T -> K, xs: seq<T>, ys: seq<T>)
    requires Permutation(xs, ys) && DistinctKeys(key, xs)
    ensures DistinctKeys(key, ys)
  {
    PermutationMembers(xs, ys);
    forall i, j | 0 <= i < j < |ys| ensures key(ys[i]) != key(ys[j]) {
      if key(ys[i]) == key(ys[j]) {
        assert ys[i] in xs && ys[j] in xs;
        Twice(ys, i, j);
        Once(xs, ys[i]);
      }
    }
  }

  /** Two sequences without repetitions and with the same members are permutations. */
  lemma SameMembersPermute<T>(xs: seq<T>, ys: seq<T>)
    requires Distinct(xs) && Distinct(ys) && forall x :: x in xs <==> x in ys
    ensures Permutation(xs, ys)
  {
    forall x ensures multiset(xs)[x] == multiset(ys)[x] {
      if x in xs {
        Once(xs, x);
        Once(ys, x);
      } else {
        assert x !in multiset(xs) && x !in multiset(ys);
      }
    }
  }

  function Map<T, U>(f: T -> U, xs: seq<T>): seq<U> {
    if xs == [] then [] else [f(xs[0])] + Map(f, xs[1..])
  }

  lemma {:induction false} MapConcat<T, U>(f: T -> U, xs: seq<T>, ys: seq<T>)
    ensures Map(f, xs + ys) == Map(f, xs) + Map(f, ys)
  {
    if xs == [] {
      assert xs + ys == ys;
    } else {
      assert (xs + ys)[1..] == xs[1..] + ys;
      MapConcat(f, xs[1..], ys);
    }
  }

  lemma {:induction false} MapAt<T, U>(f: T -> U, xs: seq<T>)
    ensures |Map(f, xs)| == |xs| && forall i | 0 <= i < |xs| :: Map(f, xs)[i] == f(xs[i])
  {
    if xs != [] { MapAt(f, xs[1..]); }
  }

  lemma {:induction false} MapPermutation<T, U>(f: T -> U, xs: seq<T>, ys: seq<T>)
    requires Permutation(xs, ys)
    ensures Permutation(Map(f, xs), Map(f, ys))
    decreases |xs|
  {
    if xs == [] {
      assert |multiset(ys)| == 0;
    } else {
      var j := TakeOut(xs, ys);
      var a, b := ys[..j], ys[j + 1..];
      MapPermutation(f, xs[1..], a + b);
      MapConcat(f, a, b);
      MapConcat(f, a + [ys[j]], b);
      MapConcat(f, a, [ys[j]]);
    }
  }

  // ----- Sums by key -----

  /** The sum over the elements with key `k`. */
  function SumFor<T, K(==)>(key: T -> K, f: T -> int, xs: seq<T>, k: K): int {
    if xs == [] then 0
    else (if key(xs[0]) == k then f(xs[0]) else 0) + SumFor(key, f, xs[1..], k)
  }

  function SumOverKeys<T, K(==)>(key: T -> K, f: T -> int, xs: seq<T>, ks: seq<K>): int {
    if ks == [] then 0 else SumFor(key, f, xs, ks[0]) + SumOverKeys(key, f, xs, ks[1..])
  }

  lemma {:induction false} SumForSnoc<T, K>(key: T -> K, f: T -> int, xs: seq<T>, x: T, k: K)
    ensures SumFor(key, f, xs + [x], k) == SumFor(key, f, xs, k) + if key(x) == k then f(x) else 0
  {
    if xs == [] {
    } else {
      assert (xs + [x])[1..] == xs[1..] + [x];
      SumForSnoc(key, f, xs[1..], x, k);
    }
  }

  lemma {:induction false} SumOverKeysCons<T, K>(key: T -> K, f: T -> int, xs: seq<T>, ks: seq<K>)
    requires xs != [] && Distinct(ks)
    ensures SumOverKeys(key, f, xs, ks)
         == SumOverKeys(key, f, xs[1..], ks) + if key(xs[0]) in ks then f(xs[0]) else 0
  {
    if ks != [] {
      SumOverKeysCons(key, f, xs, ks[1..]);
      assert ks == [ks[0]] + ks[1..];
      assert Distinct(ks[1..]);
    }
  }

  /** Summing key by key, over distinct keys that cover every element, is summing. */
  lemma {:induction false} PartitionSum<T, K>(key: T -> K, f: T -> int, xs: seq<T>, ks: seq<K>)
    requires Distinct(ks) && forall x | x in xs :: key(x) in ks
    ensures SumOverKeys(key, f, xs, ks) == SumBy(f, xs)
  {
    if xs == [] {
      NothingToSum(key, f, xs, ks);
    } else {
      SumOverKeysCons(key, f, xs, ks);
      PartitionSum(key, f, xs[1..], ks);
    }
  }

  lemma {:induction false} NothingToSum<T, K>(key: T -> K, f: T -> int, xs: seq<T>, ks: seq<K>)
    requires xs == []
    ensures SumOverKeys(key, f, xs, ks) == 0
  {
    if ks != [] { NothingToSum(key, f, xs, ks[1..]); }
  }
}
