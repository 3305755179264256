/** The stable sort of `Array.prototype.sort`, and when its result does not depend on the
    order of its input. */
module Sorting {
  import opened Sequences

  /** Puts an element before the first one that is not smaller, so that equals keep their order. */
  function Insert<T>(less: (T, T) -> bool, x: T, s: seq<T>): seq<T> {
    if s == [] || !less(s[0], x) then [x] + s else [s[0]] + Insert(less, x, s[1..])
  }

  function Sort<T>(less: (T, T) -> bool, s: seq<T>): seq<T> {
    if s == [] then [] else Insert(less, s[0], Sort(less, s[1..]))
  }

  ghost predicate StrictOrder<T(!new)>(less: (T, T) -> bool) {
    && (forall x, y :: less(x, y) ==> !less(y, x))
    && (forall x, y, z :: less(x, y) && less(y, z) ==> less(x, z))
  }

  /** Any two different elements of the sequence are ordered. */
  ghost predicate TotalOn<T>(less: (T, T) -> bool, s: seq<T>) {
    forall x, y | x in s && y in s && x != y :: less(x, y) || less(y, x)
  }

  /** Any two different values are ordered. */
  ghost predicate StrictTotalOrder<T(!new)>(less: (T, T) -> bool) {
    StrictOrder(less) && forall x, y :: x != y ==> less(x, y) || less(y, x)
  }

  lemma {:induction false} InsertPermutes<T>(less: (T, T) -> bool, x: T, s: seq<T>)
    ensures multiset(Insert(less, x, s)) == multiset(s) + multiset{x}
  {
    if s != [] {
      InsertPermutes(less, x, s[1..]);
      assert s == [s[0]] + s[1..];
    }
  }

  lemma {:induction false} SortPermutes<T>(less: (T, T) -> bool, s: seq<T>)
    ensures Permutation(Sort(less, s), s)
  {
    if s != [] {
      SortPermutes(less, s[1..]);
      InsertPermutes(less, s[0], Sort(less, s[1..]));
      assert s == [s[0]] + s[1..];
    }
  }

  lemma {:induction false} InsertCommutes<T(!new)>(less: (T, T) -> bool, x: T, y: T, s: seq<T>)
    requires StrictOrder(less) && less(x, y)
    ensures Insert(less, x, Insert(less, y, s)) == Insert(less, y, Insert(less, x, s))
  {
    if s != [] && less(s[0], x) {
      InsertCommutes(less, x, y, s[1..]);
    }
  }

  /** Sorting may start with any element. */
  lemma {:induction false} SortFromMiddle<T(!new)>(less: (T, T) -> bool, a: seq<T>, x: T, b: seq<T>)
    requires StrictOrder(less) && TotalOn(less, a + [x] + b)
    ensures Sort(less, a + [x] + b) == Insert(less, x, Sort(less, a + b))
  {
    var s := a + [x] + b;
    if a == [] {
      assert s[1..] == b && a + b == b;
    } else {
      assert s[1..] == a[1..] + [x] + b && (a + b)[1..] == a[1..] + b;
      assert forall y | y in s[1..] :: y in s;
      SortFromMiddle(less, a[1..], x, b);
      assert s[0] == a[0] && s[|a|] == x;
      var t := Sort(less, a[1..] + b);
      if less(a[0], x) { InsertCommutes(less, a[0], x, t); }
      else if less(x, a[0]) { InsertCommutes(less, x, a[0], t); }
    }
  }

  /** On elements that are all ordered, every arrangement sorts to the same sequence. */
  lemma {:induction false} SortIgnoresOrder<T(!new)>(less: (T, T) -> bool, xs: seq<T>, ys: seq<T>)
    requires StrictOrder(less) && TotalOn(less, xs) && Permutation(xs, ys)
    ensures Sort(less, xs) == Sort(less, ys)
    decreases |xs|
  {
    if xs == [] {
      assert |multiset(ys)| == 0;
    } else {
      assert forall y | y in ys :: y in multiset(xs);
      var j := TakeOut(xs, ys);
      SortIgnoresOrder(less, xs[1..], ys[..j] + ys[j + 1..]);
      SortFromMiddle(less, ys[..j], ys[j], ys[j + 1..]);
    }
  }

  ghost predicate SortedBy<T>(less: (T, T) -> bool, s: seq<T>) {
    forall i, j | 0 <= i < j < |s| :: !less(s[j], s[i])
  }

  lemma {:induction false} InsertSorted<T(!new)>(less: (T, T) -> bool, x: T, s: seq<T>)
    requires StrictOrder(less) && SortedBy(less, s) && TotalOn(less, [x] + s)
    ensures SortedBy(less, Insert(less, x, s))
  {
    assert forall i | 0 <= i < |s| :: s[i] in [x] + s;
    if s != [] {
      var t := Insert(less, x, s[1..]);
      InsertPermutes(less, x, s[1..]);
      if less(s[0], x) {
        assert forall y | y in [x] + s[1..] :: y in [x] + s;
        InsertSorted(less, x, s[1..]);
        forall j | 0 <= j < |t| ensures !less(t[j], s[0]) {
          assert t[j] in multiset(t);
          assert t[j] == x || t[j] in s[1..];
        }
      } else {
        forall j | 0 <= j < |s| ensures !less(s[j], x) {
          assert s[0] == x || less(x, s[0]);
          assert j == 0 || !less(s[j], s[0]);
        }
      }
    }
  }

  lemma {:induction false} SortSorted<T(!new)>(less: (T, T) -> bool, s: seq<T>)
    requires StrictOrder(less) && TotalOn(less, s)
    ensures SortedBy(less, Sort(less, s))
  {
    if s != [] {
      var t := Sort(less, s[1..]);
      assert forall y | y in s[1..] :: y in s;
      SortSorted(less, s[1..]);
      SortPermutes(less, s[1..]);
      forall y | y in [s[0]] + t ensures y in s {
        if y in t { assert y in multiset(t); assert y in s[1..]; }
      }
      InsertSorted(less, s[0], t);
    }
  }

  /** Sorting different elements puts each strictly before the next. */
  lemma SortStrictly<T(!new)>(less: (T, T) -> bool, s: seq<T>)
    requires StrictOrder(less) && TotalOn(less, s) && Distinct(s)
    ensures forall x :: x in Sort(less, s) <==> x in s
    ensures forall i, j | 0 <= i < j < |Sort(less, s)| :: less(Sort(less, s)[i], Sort(less, s)[j])
  {
    var t := Sort(less, s);
    SortSorted(less, s);
    SortPermutes(less, s);
    PermutationMembers(t, s);
    DistinctKeysPermute((x: T) => x, s, t);
    forall i, j | 0 <= i < j < |t| ensures less(t[i], t[j]) {
      assert !less(t[j], t[i]);
      assert ((x: T) => x)(t[i]) != ((x: T) => x)(t[j]);
    }
  }

  lemma {:induction false} SortOfSorted<T>(less: (T, T) -> bool, s: seq<T>)
    requires forall i, j | 0 <= i < j < |s| :: less(s[i], s[j]) && !less(s[j], s[i])
    ensures Sort(less, s) == s
  {
    if s != [] {
      SortOfSorted(less, s[1..]);
      if |s| > 1 { assert !less(s[1], s[0]); }
    }
  }

  /** Members and strict order determine a sequence. */
  lemma StrictlySortedIsUnique<T(!new)>(less: (T, T) -> bool, s: seq<T>, t: seq<T>)
    requires StrictTotalOrder(less) && forall x :: x in s <==> x in t
    requires forall i, j | 0 <= i < j < |s| :: less(s[i], s[j])
    requires forall i, j | 0 <= i < j < |t| :: less(t[i], t[j])
    ensures s == t
  {
    SameMembersPermute(s, t);
    SortIgnoresOrder(less, s, t);
    SortOfSorted(less, s);
    SortOfSorted(less, t);
  }
}
