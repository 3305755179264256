/** Cursor pagination of the claim feed and the parent walk of a rivalry (lib/contract.ts). */
module ClaimFeed {
  import opened Arithmetic
  import opened Wrappers
  import opened Sequences
  import opened Sorting
  import opened ClaimsSql
  import opened QueryText
  import opened FilterQuery

  const DEFAULT_LIMIT: int := 50

  datatype Feed = Feed(items: seq<ClaimRow>, nextCursor: Option<int>)

  /** A page that is empty although more items follow has no last item to read an id from. */
  datatype FeedError = NoLastItem

  /** What the bulk read gives: slot i holds claim i + 1, or nothing. */
  predicate WellRead(claims: seq<Option<ClaimRow>>) {
    forall i | 0 <= i < |claims| && claims[i].Some? :: claims[i].value.id == i + 1
  }

  /** `all.filter(Boolean)`. */
  function Present(claims: seq<Option<ClaimRow>>): seq<ClaimRow> {
    if claims == [] then []
    else Present(claims[..|claims| - 1]) + if claims[|claims| - 1].Some? then [claims[|claims| - 1].value] else []
  }

  /** `slice(0, n)`. */
  function SliceTo<T>(n: int, xs: seq<T>): seq<T> {
    if n >= 0 then Take(n, xs) else Take(|xs| + n, xs)
  }

  /** The items after a cursor, before any is cut off; a zero cursor counts as none. */
  function ItemsAfter(rows: seq<ClaimRow>, cursor: Option<int>): seq<ClaimRow> {
    var sorted := Sorted(IdDesc, rows);
    if cursor.Some? && cursor.value != 0 then Filter((r: ClaimRow) => r.id < cursor.value, sorted) else sorted
  }

  /** Cuts the items off at the limit. */
  function Cut(items: seq<ClaimRow>, limit: int): Result<Feed, FeedError> {
    if |items| <= limit then Ok(Feed(items, None))
    else
      var page := SliceTo(limit, items);
      if page == [] then Err(NoLastItem) else Ok(Feed(page, Some(page[|page| - 1].id)))
  }

  function PageOf(rows: seq<ClaimRow>, cursor: Option<int>, limit: int): Result<Feed, FeedError> {
    Cut(ItemsAfter(rows, cursor), limit)
  }

  /** `getAllVSDirect`. */
  function GetAllVSDirect(claims: seq<Option<ClaimRow>>, cursor: Option<int>, limit: Option<int>)
    : Result<Feed, FeedError>
  {
    if claims == [] then Ok(Feed([], None))
    else PageOf(Present(claims), cursor, if limit.None? then DEFAULT_LIMIT else limit.value)
  }

  // ----- Descending order -----

  ghost predicate Descending(rows: seq<ClaimRow>) {
    forall i, j | 0 <= i < j < |rows| :: rows[i].id > rows[j].id
  }

  ghost predicate PositiveIds(rows: seq<ClaimRow>) { forall r | r in rows :: r.id >= 1 }

  lemma {:induction false} PresentIds(claims: seq<Option<ClaimRow>>)
    requires WellRead(claims)
    ensures DistinctKeys(IdOf, Present(claims)) && PositiveIds(Present(claims))
    ensures forall r | r in Present(claims) :: r.id <= |claims|
  {
    if claims != [] {
      var n := |claims| - 1;
      PresentIds(claims[..n]);
      var before := Present(claims[..n]);
      assert forall i | 0 <= i < |before| :: before[i] in before && IdOf(before[i]) <= n;
    }
  }

  lemma SortedDescends(rows: seq<ClaimRow>)
    requires DistinctKeys(IdOf, rows)
    ensures Descending(Sorted(IdDesc, rows)) && Permutation(Sorted(IdDesc, rows), rows)
  {
    var less := (a, b) => Before(IdDesc, a, b);
    var sorted := Sorted(IdDesc, rows);
    OrderedByDistinctIds(rows);
    SortSorted(less, rows);
    SortPermutes(less, rows);
    assert Permutation(rows, sorted);
    DistinctKeysPermute(IdOf, rows, sorted);
    forall i, j | 0 <= i < j < |sorted| ensures sorted[i].id > sorted[j].id {
      assert !less(sorted[j], sorted[i]);
      assert IdOf(sorted[i]) != IdOf(sorted[j]);
    }
  }

  lemma OrderedByDistinctIds(rows: seq<ClaimRow>)
    requires DistinctKeys(IdOf, rows)
    ensures TotalOn((a, b) => Before(IdDesc, a, b), rows)
  {
    forall x, y | x in rows && y in rows && x != y ensures x.id != y.id {
      var i, j :| 0 <= i < |rows| && 0 <= j < |rows| && rows[i] == x && rows[j] == y;
      assert IdOf(rows[i]) != IdOf(rows[j]);
    }
  }

  lemma {:induction false} SortOfDescending(rows: seq<ClaimRow>)
    requires Descending(rows)
    ensures Sorted(IdDesc, rows) == rows
  {
    if rows != [] {
      SortOfDescending(rows[1..]);
      if |rows| > 1 { assert rows[0].id > rows[1].id; }
    }
  }

  /** Below the id of an item of a descending sequence lies exactly what follows it. */
  lemma {:induction false} FilterBelow(rows: seq<ClaimRow>, c: int, k: nat)
    requires Descending(rows) && k <= |rows|
    requires forall i | 0 <= i < |rows| :: rows[i].id < c <==> k <= i
    ensures Filter((r: ClaimRow) => r.id < c, rows) == rows[k..]
  {
    if rows != [] {
      assert Descending(rows[1..]);
      if k == 0 {
        FilterBelow(rows[1..], c, 0);
        assert rows[0].id < c;
      } else {
        assert forall i | 0 <= i < |rows[1..]| :: rows[1..][i] == rows[i + 1];
        FilterBelow(rows[1..], c, k - 1);
        assert !(rows[0].id < c);
      }
    }
  }

  /** A cursor that names the k-th item leaves exactly the items after it. */
  lemma ItemsAfterKth(rows: seq<ClaimRow>, cursor: Option<int>, k: nat)
    requires DistinctKeys(IdOf, rows) && PositiveIds(rows)
    requires k <= |Sorted(IdDesc, rows)| && (cursor.None? ==> k == 0)
    requires cursor.Some? ==> 0 < k && cursor.value == Sorted(IdDesc, rows)[k - 1].id
    ensures ItemsAfter(rows, cursor) == Sorted(IdDesc, rows)[k..]
  {
    var sorted := Sorted(IdDesc, rows);
    SortedDescends(rows);
    PermutationMembers(sorted, rows);
    if cursor.Some? {
      assert sorted[k - 1] in sorted;
      FilterBelow(sorted, cursor.value, k);
    }
  }

  /** A page of some items: the first of them, all unless a cursor points on from its last. */
  predicate IsPage(page: Feed, items: seq<ClaimRow>, limit: int) {
    && page.items <= items
    && (page.nextCursor.None? ==> page.items == items && |items| <= limit)
    && (page.nextCursor.Some? ==>
          && 0 < |page.items| < |items| && page.nextCursor.value == page.items[|page.items| - 1].id
          && |page.items| == if limit > 0 then limit else |items| + limit)
  }

  /** For every limit: when a page fails, what it holds, and where it points. */
  lemma PageShape(items: seq<ClaimRow>, limit: int)
    ensures Cut(items, limit).Err? <==> (limit == 0 && items != []) || (limit < 0 && |items| <= -limit)
    ensures Cut(items, limit).Ok? ==> IsPage(Cut(items, limit).value, items, limit)
    ensures Cut(items, limit).Ok? ==> (Cut(items, limit).value.nextCursor.None? <==> |items| <= limit)
  {
  }

  /** The page after the k-th item, in terms of the whole descending list. */
  lemma PageAfterKth(claims: seq<Option<ClaimRow>>, cursor: Option<int>, limit: int, k: nat, sorted: seq<ClaimRow>)
    requires WellRead(claims) && claims != [] && sorted == Sorted(IdDesc, Present(claims))
    requires k <= |sorted| && (cursor.None? ==> k == 0)
    requires cursor.Some? ==> 0 < k && cursor.value == sorted[k - 1].id
    ensures GetAllVSDirect(claims, cursor, Some(limit)) == Cut(sorted[k..], limit)
  {
    PresentIds(claims);
    ItemsAfterKth(Present(claims), cursor, k);
  }

  /** The number of pages that `n` items need. */
  function PagesFor(n: nat, limit: int): nat
    requires limit >= 1
  {
    if n <= limit then 1 else 1 + PagesFor(n - limit, limit)
  }

  lemma {:induction false} PagesForIsCeiling(n: nat, limit: int)
    requires limit >= 1
    ensures var pages := PagesFor(n, limit); n <= pages * limit && (pages == 1 || (pages - 1) * limit < n)
  {
    if n > limit {
      var fewer := PagesFor(n - limit, limit);
      PagesForIsCeiling(n - limit, limit);
      MulDistributes(fewer, 1, limit);
    }
  }

  /** Follows `nextCursor` from the start. It terminates for every limit. From a limit of one
      on, it returns every claim exactly once in descending order of id, in no more pages than
      needed; below, it ends in an error unless there is nothing to show. */
  method FollowCursor(claims: seq<Option<ClaimRow>>, limit: int)
    returns (all: Result<seq<ClaimRow>, FeedError>, pages: nat)
    requires WellRead(claims)
    ensures limit >= 1 ==> all.Ok? && Descending(all.value) && Permutation(all.value, Present(claims))
    ensures limit >= 1 ==> pages == PagesFor(|Present(claims)|, limit)
    ensures limit < 1 ==> (all.Ok? <==> claims == [] || (limit == 0 && Present(claims) == []))
    ensures limit < 1 && all.Ok? ==> all.value == []
  {
    ghost var sorted := Sorted(IdDesc, Present(claims));
    PresentIds(claims);
    SortedDescends(Present(claims));
    PermutationMembers(sorted, Present(claims));
    if claims == [] {
      return Ok([]), 1;
    }
    all, pages := CollectPages(claims, limit, sorted);
  }

  method CollectPages(claims: seq<Option<ClaimRow>>, limit: int, ghost sorted: seq<ClaimRow>)
    returns (all: Result<seq<ClaimRow>, FeedError>, pages: nat)
    requires WellRead(claims) && claims != [] && sorted == Sorted(IdDesc, Present(claims))
    ensures all.Ok? <==> limit >= 1 || (limit == 0 && sorted == [])
    ensures all.Ok? ==> all.value == sorted
    ensures limit >= 1 ==> pages == PagesFor(|sorted|, limit)
  {
    var cursor: Option<int>, more, read := None, true, [];
    pages := 0;
    while more
      invariant read <= sorted
      invariant more ==> Pending(sorted, cursor, limit, |read|, pages)
      invariant !more ==> Done(sorted, limit, read, pages)
      decreases more, |sorted| - |read|
    {
      PageAfterKth(claims, cursor, limit, |read|, sorted);
      PageShape(sorted[|read|..], limit);
      var page := GetAllVSDirect(claims, cursor, Some(limit));
      if page.Err? {
        return Err(page.error), pages + 1;
      }
      ReadOn(sorted, cursor, limit, read, pages, page.value);
      read := read + page.value.items;
      pages := pages + 1;
      cursor, more := page.value.nextCursor, page.value.nextCursor.Some?;
    }
    all := Ok(read);
  }

  /** Items remain to be read, and the cursor names the last one read. */
  predicate Pending(sorted: seq<ClaimRow>, cursor: Option<int>, limit: int, k: nat, pages: nat) {
    && k <= |sorted| && (cursor.None? ==> k == 0)
    && (cursor.Some? ==> 0 < k < |sorted| && cursor.value == sorted[k - 1].id && limit != 0)
    && (limit >= 1 ==> pages + PagesFor(|sorted| - k, limit) == PagesFor(|sorted|, limit))
  }

  predicate Done(sorted: seq<ClaimRow>, limit: int, read: seq<ClaimRow>, pages: nat) {
    && read == sorted && limit >= 0 && (limit == 0 ==> sorted == [])
    && (limit >= 1 ==> pages == PagesFor(|sorted|, limit))
  }

  lemma ReadOn(sorted: seq<ClaimRow>, cursor: Option<int>, limit: int, read: seq<ClaimRow>, pages: nat, page: Feed)
    requires read <= sorted && Pending(sorted, cursor, limit, |read|, pages)
    requires IsPage(page, sorted[|read|..], limit) && !(limit == 0 && |read| < |sorted|)
    ensures read + page.items <= sorted
    ensures page.nextCursor.Some? ==> Pending(sorted, page.nextCursor, limit, |read + page.items|, pages + 1)
    ensures page.nextCursor.None? ==> Done(sorted, limit, read + page.items, pages + 1)
  {
    var rest := sorted[|read|..];
    assert sorted == read + rest;
    if page.nextCursor.Some? {
      assert rest[|page.items| - 1] == page.items[|page.items| - 1];
    } else {
      assert page.items == rest;
    }
  }

  // ----- Agreement with the index -----

  function FeedFilter(cursor: Option<int>, limit: int): ClaimFilters {
    ClaimFilters(None, None, None, None, None, None, None, Some(limit), cursor, None)
  }

  /** Filtering and sorting by descending id commute. */
  lemma SortThenFilter(rows: seq<ClaimRow>, keep: ClaimRow -> bool)
    requires DistinctKeys(IdOf, rows)
    ensures Filter(keep, Sorted(IdDesc, rows)) == Sorted(IdDesc, Filter(keep, rows))
  {
    var less := (a, b) => Before(IdDesc, a, b);
    var sorted := Sorted(IdDesc, rows);
    SortedDescends(rows);
    FilterPermutation(keep, sorted, rows);
    FilterKeepsDescending(keep, sorted);
    var kept := Filter(keep, sorted);
    DescendingIsOrdered(kept);
    SortIgnoresOrder(less, kept, Filter(keep, rows));
    SortOfDescending(kept);
  }

  lemma DescendingIsOrdered(rows: seq<ClaimRow>)
    requires Descending(rows)
    ensures TotalOn((a, b) => Before(IdDesc, a, b), rows)
  {
    forall x, y | x in rows && y in rows && x != y ensures x.id != y.id {
      var i, j :| 0 <= i < |rows| && 0 <= j < |rows| && rows[i] == x && rows[j] == y;
      assert rows[i].id > rows[j].id || rows[j].id > rows[i].id;
    }
  }

  lemma {:induction false} FilterKeepsDescending(keep: ClaimRow -> bool, rows: seq<ClaimRow>)
    requires Descending(rows)
    ensures Descending(Filter(keep, rows))
  {
    if rows != [] {
      FilterKeepsDescending(keep, rows[1..]);
      FilterMembers(keep, rows[1..]);
      var rest := Filter(keep, rows[1..]);
      forall j | 0 <= j < |rest| ensures rows[0].id > rest[j].id {
        assert rest[j] in rows[1..];
        var i :| 1 <= i < |rows| && rows[i] == rest[j];
      }
    }
  }

  lemma {:induction false} FilterNothing<T>(keep: T -> bool, xs: seq<T>)
    requires forall x | x in xs :: !keep(x)
    ensures Filter(keep, xs) == []
  {
    if xs != [] { FilterNothing(keep, xs[1..]); }
  }

  lemma {:induction false} FilterAll<T>(keep: T -> bool, xs: seq<T>)
    requires forall x | x in xs :: keep(x)
    ensures Filter(keep, xs) == xs
  {
    if xs != [] { FilterAll(keep, xs[1..]); }
  }

  /** The index answers a cursor with the sorted rows below it, up to a positive limit. */
  lemma IndexAnswer(rows: seq<ClaimRow>, cursor: Option<int>, limit: int)
    requires DistinctKeys(IdOf, rows)
    ensures var f := FeedFilter(cursor, limit);
      var below := Filter(r => Matches(f, r), Sorted(IdDesc, rows));
      Answer(f, rows) == if limit > 0 then Take(limit, below) else below
  {
    var f := FeedFilter(cursor, limit);
    SortThenFilter(rows, r => Matches(f, r));
  }

  lemma ItemsMatchIff(rows: seq<ClaimRow>, cursor: Option<int>, limit: int)
    requires PositiveIds(rows)
    ensures Filter(r => Matches(FeedFilter(cursor, limit), r), rows)
      == if cursor.None? then rows
         else if cursor.value == 0 then []
         else Filter((r: ClaimRow) => r.id < cursor.value, rows)
  {
    var keep := (r: ClaimRow) => Matches(FeedFilter(cursor, limit), r);
    if cursor.None? {
      FilterAll(keep, rows);
    } else if cursor.value == 0 {
      FilterNothing(keep, rows);
    } else {
      FilterAgrees(keep, (r: ClaimRow) => r.id < cursor.value, rows);
    }
  }

  /** A page of stored claims holds what the index answers for them. */
  lemma PageAgreesIff(rows: seq<ClaimRow>, cursor: Option<int>, limit: int)
    requires DistinctKeys(IdOf, rows) && PositiveIds(rows)
    ensures var page := PageOf(rows, cursor, limit);
      (page.Ok? && page.value.items == Answer(FeedFilter(cursor, limit), rows))
      <==> (limit >= 1 && (cursor != Some(0) || rows == [])) || (limit == 0 && ItemsAfter(rows, cursor) == [])
  {
    var sorted := Sorted(IdDesc, rows);
    SortedDescends(rows);
    PermutationMembers(sorted, rows);
    PageShape(ItemsAfter(rows, cursor), limit);
    IndexAnswer(rows, cursor, limit);
    ItemsMatchIff(sorted, cursor, limit);
    assert rows == [] <==> sorted == [];
  }

  predicate Agree(claims: seq<Option<ClaimRow>>, cursor: Option<int>, limit: int) {
    var feed := GetAllVSDirect(claims, cursor, Some(limit));
    feed.Ok? && feed.value.items == Answer(FeedFilter(cursor, limit), Present(claims))
  }

  /** The chain feed and the index of the same claims answer alike exactly when no claim was
      ever made; when the limit is positive, and the cursor is not zero or no claim is left; or
      when the limit is zero and nothing follows the cursor. The feed takes a zero cursor for
      none, the index for a bound; and the index takes a limit below one for none, where the
      feed cuts off or fails. */
  lemma FeedAgreesWithIndexIff(claims: seq<Option<ClaimRow>>, cursor: Option<int>, limit: int)
    requires WellRead(claims)
    ensures var rows := Present(claims);
      Agree(claims, cursor, limit)
      <==> claims == [] || (limit >= 1 && (cursor != Some(0) || rows == []))
           || (limit == 0 && ItemsAfter(rows, cursor) == [])
  {
    var rows := Present(claims);
    PresentIds(claims);
    if claims == [] {
      assert rows == [] && Answer(FeedFilter(cursor, limit), rows) == [];
    } else {
      PageAgreesIff(rows, cursor, limit);
    }
  }

  // ----- The rivalry chain -----

  /** Consecutive claims are linked by `parent_id`. */
  ghost predicate IsParentWalk(parents: map<int, int>, start: int, walk: seq<int>) {
    && walk != [] && walk[0] == start
    && (forall i, j | 0 <= i < j < |walk| :: walk[i] != walk[j])
    && (forall i | 0 <= i < |walk| - 1 :: walk[i] in parents && parents[walk[i]] > 0 && walk[i + 1] == parents[walk[i]])
  }

  /** The walk cannot go on: no such claim, no parent, or a parent already visited. */
  ghost predicate CannotGoOn(parents: map<int, int>, walk: seq<int>)
    requires walk != []
  {
    var last := walk[|walk| - 1];
    last !in parents || parents[last] <= 0 || parents[last] in walk
  }

  /** `getRivalryChain` over the parent ids of the claims that exist. It terminates even on
      cycles, with the maximal duplicate-free parent walk. */
  method GetRivalryChain(parents: map<int, int>, claimId: int) returns (result: seq<int>)
    ensures IsParentWalk(parents, claimId, result) && CannotGoOn(parents, result)
  {
    var visited: set<int> := {};
    var queue := [claimId];
    result := [];
    ghost var all := parents.Keys + parents.Values + {claimId};
    while |queue| > 0
      invariant visited == (set id | id in result) && visited <= all
      invariant |queue| <= 1 && (result == [] ==> queue == [claimId])
      invariant result != [] ==> IsParentWalk(parents, claimId, result)
      invariant result != [] && queue == [] ==> CannotGoOn(parents, result)
      invariant result != [] && queue != []
        ==> !CannotGoOn(parents, result) && queue[0] == parents[result[|result| - 1]]
      decreases all - visited, |queue|
    {
      var id := queue[0];
      queue := queue[1..];
      if id in visited { continue; }
      visited := visited + {id};
      result := result + [id];
      if id !in parents { continue; }
      if parents[id] > 0 && parents[id] !in visited {
        queue := [parents[id]] + queue;
      }
    }
  }

  // ----- The family of a claim -----

  predicate IsChild(parents: map<int, int>, id: int, parent: int) {
    id in parents && parents[id] > 0 && parents[id] == parent
  }

  /** Some parent walk leads from a claim to an ancestor. */
  ghost predicate Descends(parents: map<int, int>, id: int, ancestor: int) {
    exists walk :: IsParentWalk(parents, id, walk) && walk[|walk| - 1] == ancestor
  }

  /** The walk holds exactly the descendants of a claim, that claim included. */
  ghost predicate IsFamilyOf(parents: map<int, int>, walk: seq<int>, ancestor: int) {
    forall id :: id in walk <==> Descends(parents, id, ancestor)
  }

  /** What the comment on `getRivalryChain` says: first the root, then all its descendants. */
  ghost predicate AsDocumented(parents: map<int, int>, walk: seq<int>)
    requires walk != []
  {
    (forall id :: !IsChild(parents, walk[0], id)) && IsFamilyOf(parents, walk, walk[0])
  }

  lemma SuffixIsWalk(parents: map<int, int>, start: int, walk: seq<int>, i: nat)
    requires IsParentWalk(parents, start, walk) && i < |walk|
    ensures IsParentWalk(parents, walk[i], walk[i..])
    ensures Descends(parents, walk[i], walk[|walk| - 1])
  {
    var rest := walk[i..];
    forall j, k | 0 <= j < k < |rest| ensures rest[j] != rest[k] {
      assert walk[i + j] != walk[i + k];
    }
    forall k | 0 <= k < |rest| - 1
      ensures rest[k] in parents && parents[rest[k]] > 0 && rest[k + 1] == parents[rest[k]]
    {
      assert walk[i + k] in parents && walk[i + k + 1] == parents[walk[i + k]];
    }
    assert rest[|rest| - 1] == walk[|walk| - 1];
  }

  /** A child of a claim on the way to an ancestor descends from that ancestor, unless it is
      on that way itself. */
  lemma ChildDescends(parents: map<int, int>, id: int, parent: int, walk: seq<int>)
    requires IsChild(parents, id, parent) && IsParentWalk(parents, parent, walk) && id !in walk
    ensures Descends(parents, id, walk[|walk| - 1])
  {
    var longer := [id] + walk;
    assert forall k | 0 < k < |longer| :: longer[k] == walk[k - 1];
    assert IsParentWalk(parents, id, longer);
    assert longer[|longer| - 1] == walk[|walk| - 1];
  }

  /** A set that holds a claim and with every claim its children holds all its descendants. */
  lemma {:induction false} ClosedHoldsDescendants(parents: map<int, int>, members: seq<int>, start: int, walk: seq<int>)
    requires IsParentWalk(parents, start, walk) && walk[|walk| - 1] in members
    requires forall id, parent | IsChild(parents, id, parent) && parent in members :: id in members
    ensures start in members
    decreases |walk|
  {
    if |walk| > 1 {
      SuffixIsWalk(parents, start, walk, 1);
      ClosedHoldsDescendants(parents, members, walk[1], walk[1..]);
      assert IsChild(parents, start, walk[1]);
    }
  }

  /** As a set, the walk is the whole family of the claim it ends at exactly when every child
      of a claim on it is on it too. On a cycle, which has no root, the walk ends at the last
      claim before the cycle closes, and its family is all that leads into the cycle. */
  lemma WalkIsFamilyIff(parents: map<int, int>, start: int, walk: seq<int>)
    requires IsParentWalk(parents, start, walk)
    ensures IsFamilyOf(parents, walk, walk[|walk| - 1])
       <==> forall id, parent | IsChild(parents, id, parent) && parent in walk :: id in walk
  {
    var last := walk[|walk| - 1];
    if IsFamilyOf(parents, walk, last) {
      forall id, parent | IsChild(parents, id, parent) && parent in walk ensures id in walk {
        var i :| 0 <= i < |walk| && walk[i] == parent;
        SuffixIsWalk(parents, start, walk, i);
        if id !in walk[i..] { ChildDescends(parents, id, parent, walk[i..]); }
      }
    } else if forall id, parent | IsChild(parents, id, parent) && parent in walk :: id in walk {
      forall id ensures id in walk <==> Descends(parents, id, last) {
        if id in walk {
          var i :| 0 <= i < |walk| && walk[i] == id;
          SuffixIsWalk(parents, start, walk, i);
        }
        if Descends(parents, id, last) {
          var w :| IsParentWalk(parents, id, w) && w[|w| - 1] == last;
          ClosedHoldsDescendants(parents, walk, id, w);
        }
      }
    }
  }

  lemma GoesOnToParent(parents: map<int, int>, start: int, walk: seq<int>)
    requires IsParentWalk(parents, start, walk)
    ensures |walk| > 1 ==> IsChild(parents, start, walk[1])
  {
  }

  /** The comment on `getRivalryChain` holds exactly for a claim without parent and children. */
  lemma DocumentedIff(parents: map<int, int>, start: int, walk: seq<int>)
    requires IsParentWalk(parents, start, walk) && CannotGoOn(parents, walk)
    ensures AsDocumented(parents, walk) <==> forall id :: !IsChild(parents, start, id) && !IsChild(parents, id, start)
  {
    if forall id :: !IsChild(parents, start, id) {
      GoesOnToParent(parents, start, walk);
      assert walk == [start];
      WalkIsFamilyIff(parents, start, walk);
      assert forall id :: id in walk <==> id == start;
      forall id ensures IsChild(parents, id, start) ==> id != start { assert !IsChild(parents, start, id); }
    }
  }

  const RIVALS: map<int, int> := map[1 := 0, 2 := 1]

  /** Claim 2 answers claim 1. Neither walk is what the comment says: from 2 it does not start
      at the root, from 1 it leaves out the descendant. */
  lemma RivalWalks()
    ensures IsParentWalk(RIVALS, 2, [2, 1]) && CannotGoOn(RIVALS, [2, 1]) && !AsDocumented(RIVALS, [2, 1])
    ensures IsParentWalk(RIVALS, 1, [1]) && CannotGoOn(RIVALS, [1]) && !AsDocumented(RIVALS, [1])
  {
    assert IsChild(RIVALS, 2, 1);
    DocumentedIff(RIVALS, 2, [2, 1]);
    DocumentedIff(RIVALS, 1, [1]);
  }

  // ----- Uniqueness -----

  /** There is only one such walk. */
  lemma MaximalWalkIsUnique(parents: map<int, int>, start: int, a: seq<int>, b: seq<int>)
    requires IsParentWalk(parents, start, a) && CannotGoOn(parents, a)
    requires IsParentWalk(parents, start, b) && CannotGoOn(parents, b)
    ensures a == b
  {
    if |a| <= |b| { ShorterWalkIsWhole(parents, start, a, b); } else { ShorterWalkIsWhole(parents, start, b, a); }
  }

  lemma ShorterWalkIsWhole(parents: map<int, int>, start: int, a: seq<int>, b: seq<int>)
    requires IsParentWalk(parents, start, a) && CannotGoOn(parents, a)
    requires IsParentWalk(parents, start, b) && |a| <= |b|
    ensures a == b
  {
    WalksAgree(parents, start, a, b, |a|);
    assert a == a[..|a|] == b[..|a|];
    if |a| < |b| {
      PrefixCanGoOn(parents, start, b, |a|);
    }
  }

  lemma PrefixCanGoOn(parents: map<int, int>, start: int, walk: seq<int>, k: nat)
    requires IsParentWalk(parents, start, walk) && 0 < k < |walk|
    ensures !CannotGoOn(parents, walk[..k])
  {
    assert walk[..k][k - 1] == walk[k - 1];
    assert walk[k] == parents[walk[k - 1]];
    assert walk[k] !in walk[..k];
  }

  lemma {:induction false} WalksAgree(parents: map<int, int>, start: int, a: seq<int>, b: seq<int>, n: nat)
    requires IsParentWalk(parents, start, a) && IsParentWalk(parents, start, b) && n <= |a| <= |b|
    ensures a[..n] == b[..n]
  {
    if n > 1 {
      WalksAgree(parents, start, a, b, n - 1);
      assert a[n - 2] == a[..n - 1][n - 2] == b[..n - 1][n - 2] == b[n - 2];
      assert a[n - 1] == parents[a[n - 2]] && b[n - 1] == parents[b[n - 2]];
    }
  }
}
