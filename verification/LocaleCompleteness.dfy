/** The diff of a locale's messages against the English baseline
    (lib/locale-completeness.ts). */
module LocaleCompleteness {
  import opened JsStrings
  import opened Sequences
  import opened Sorting
  import opened Messages

  const DOT: CodeUnit := 0x2E

  function FundedNamespaces(): set<JsString> {
    {Ascii("create"), Ascii("dashboard"), Ascii("home"), Ascii("liveDeadline"), Ascii("vsDetail"), Ascii("wallet")}
  }

  // ----- The default order of `sort` on strings -----

  predicate Before(a: JsString, b: JsString) {
    if b == [] then false
    else if a == [] then true
    else if a[0] != b[0] then a[0] < b[0]
    else Before(a[1..], b[1..])
  }

  lemma {:induction false} BeforeIsTotal(a: JsString, b: JsString)
    ensures (Before(a, b) ==> !Before(b, a)) && (a != b ==> Before(a, b) || Before(b, a))
  {
    if a != [] && b != [] && a[0] == b[0] {
      BeforeIsTotal(a[1..], b[1..]);
      assert a == [a[0]] + a[1..] && b == [b[0]] + b[1..];
    }
  }

  lemma {:induction false} BeforeIsTransitive(a: JsString, b: JsString, c: JsString)
    requires Before(a, b) && Before(b, c)
    ensures Before(a, c)
  {
    if a != [] && a[0] == b[0] == c[0] { BeforeIsTransitive(a[1..], b[1..], c[1..]); }
  }

  lemma BeforeIsStrictTotalOrder()
    ensures StrictTotalOrder(Before)
  {
    forall a, b ensures (Before(a, b) ==> !Before(b, a)) && (a != b ==> Before(a, b) || Before(b, a)) {
      BeforeIsTotal(a, b);
    }
    forall a, b, c | Before(a, b) && Before(b, c) ensures Before(a, c) { BeforeIsTransitive(a, b, c); }
  }

  function SortKeys(keys: seq<JsString>): seq<JsString> { Sort(Before, keys) }

  // ----- Flat keys -----

  function Extend(prefix: JsString, k: JsString): JsString {
    if prefix != [] then prefix + [DOT] + k else k
  }

  /** The flat key of a path below a prefix. */
  function FlatFrom(prefix: JsString, p: Path): JsString
    decreases |p|
  {
    if p == [] then prefix else FlatFrom(Extend(prefix, p[0]), p[1..])
  }

  function Flat(p: Path): JsString { FlatFrom([], p) }

  function FlatAll(prefix: JsString, ps: seq<Path>): seq<JsString> { Map((p: Path) => FlatFrom(prefix, p), ps) }

  /** The keys are those of the tree's leaves, one for each leaf. */
  ghost predicate ListsLeaves(keys: seq<JsString>, prefix: JsString, v: Value) {
    exists ps: seq<Path> :: LeavesOf(v, ps) && Permutation(keys, FlatAll(prefix, ps))
  }

  ghost predicate LeavesOf(v: Value, ps: seq<Path>) {
    Distinct(ps) && forall p :: p in ps <==> LeafAt(v, p).Some?
  }

  method FlattenKeys(obj: Value, prefix: JsString) returns (keys: seq<JsString>)
    requires obj.Node?
    ensures ListsLeaves(keys, prefix, obj) && SortedBy(Before, keys)
    decreases obj
  {
    keys := [];
    ghost var done: set<JsString> := {};
    var left := obj.entries.Keys;
    ListsNone(prefix, obj);
    while left != {}
      invariant left !! done && left + done == obj.entries.Keys
      invariant ListsSome(keys, prefix, obj, done)
    {
      var k :| k in left;
      var v := obj.entries[k];
      var full := Extend(prefix, k);
      var inner := [full];
      if v.Node? { inner := FlattenKeys(v, full); } else { LeafListsItself(full, v); }
      ListsMore(keys, prefix, obj, done, k, inner);
      keys := keys + inner;
      left, done := left - {k}, done + {k};
    }
    assert done == obj.entries.Keys;
    ListsAll(keys, prefix, obj);
    keys := SortKeys(keys);
  }

  /** The keys found after going through some properties of an object. */
  ghost predicate ListsSome(keys: seq<JsString>, prefix: JsString, obj: Value, done: set<JsString>)
    requires obj.Node?
  {
    exists ps: seq<Path> :: ListedSoFar(obj, done, ps) && Permutation(keys, FlatAll(prefix, ps))
  }

  lemma ListsNone(prefix: JsString, obj: Value)
    requires obj.Node?
    ensures ListsSome([], prefix, obj, {})
  {
    var ps: seq<Path> := [];
    ListsBy([], prefix, obj, {}, ps);
  }

  lemma ListsMore(keys: seq<JsString>, prefix: JsString, obj: Value, done: set<JsString>, k: JsString,
    inner: seq<JsString>)
    requires obj.Node? && k in obj.entries && k !in done && ListsSome(keys, prefix, obj, done)
    requires ListsLeaves(inner, Extend(prefix, k), obj.entries[k])
    ensures ListsSome(keys + inner, prefix, obj, done + {k})
  {
    var ps :| ListedSoFar(obj, done, ps) && Permutation(keys, FlatAll(prefix, ps));
    var below :| LeavesOf(obj.entries[k], below) && Permutation(inner, FlatAll(Extend(prefix, k), below));
    ListMore(obj, done, ps, k, below);
    KeysMore(prefix, keys, ps, k, inner, below);
    ListsBy(keys + inner, prefix, obj, done + {k}, ps + Prefixed(k, below));
  }

  lemma ListsBy(keys: seq<JsString>, prefix: JsString, obj: Value, done: set<JsString>, ps: seq<Path>)
    requires obj.Node? && ListedSoFar(obj, done, ps) && Permutation(keys, FlatAll(prefix, ps))
    ensures ListsSome(keys, prefix, obj, done)
  {
  }

  lemma ListsAll(keys: seq<JsString>, prefix: JsString, obj: Value)
    requires obj.Node? && ListsSome(keys, prefix, obj, obj.entries.Keys)
    ensures ListsLeaves(SortKeys(keys), prefix, obj) && SortedBy(Before, SortKeys(keys))
  {
    var ps :| ListedSoFar(obj, obj.entries.Keys, ps) && Permutation(keys, FlatAll(prefix, ps));
    assert LeavesOf(obj, ps);
    BeforeIsStrictTotalOrder();
    SortSorted(Before, keys);
    SortPermutes(Before, keys);
  }

  lemma LeafListsItself(full: JsString, v: Value)
    requires !v.Node?
    ensures ListsLeaves([full], full, v)
  {
    var ps: seq<Path> := [[]];
    assert FlatAll(full, ps) == [full];
    assert LeavesOf(v, ps);
  }

  lemma KeysMore(prefix: JsString, keys: seq<JsString>, ps: seq<Path>, k: JsString, inner: seq<JsString>,
    below: seq<Path>)
    requires Permutation(keys, FlatAll(prefix, ps)) && Permutation(inner, FlatAll(Extend(prefix, k), below))
    ensures Permutation(keys + inner, FlatAll(prefix, ps + Prefixed(k, below)))
  {
    FlatBelow(prefix, k, below);
    MapConcat((p: Path) => FlatFrom(prefix, p), ps, Prefixed(k, below));
  }

  function Prefixed(k: JsString, ps: seq<Path>): seq<Path> { Map((p: Path) => [k] + p, ps) }

  ghost predicate ListedSoFar(obj: Value, done: set<JsString>, ps: seq<Path>)
    requires obj.Node?
  {
    Distinct(ps) && forall p :: p in ps <==> p != [] && p[0] in done && LeafAt(obj, p).Some?
  }

  lemma ListMore(obj: Value, done: set<JsString>, ps: seq<Path>, k: JsString, below: seq<Path>)
    requires obj.Node? && k in obj.entries && k !in done && ListedSoFar(obj, done, ps)
    requires LeavesOf(obj.entries[k], below)
    ensures ListedSoFar(obj, done + {k}, ps + Prefixed(k, below))
  {
    var more := Prefixed(k, below);
    MapAt((p: Path) => [k] + p, below);
    forall p ensures p in more <==> p != [] && p[0] == k && LeafAt(obj, p).Some? {
      if p != [] && p[0] == k && LeafAt(obj, p).Some? {
        assert p[1..] in below && p == [k] + p[1..];
        var i :| 0 <= i < |below| && below[i] == p[1..];
        assert more[i] == p;
      }
      if p in more {
        var i :| 0 <= i < |more| && more[i] == p;
        assert below[i] in below && p[1..] == below[i];
      }
    }
    forall i, j | 0 <= i < j < |more| ensures more[i] != more[j] {
      assert more[i][1..] == below[i] && more[j][1..] == below[j];
    }
    forall i, j | 0 <= i < |ps| && 0 <= j < |more| ensures ps[i] != more[j] {
      assert ps[i] in ps && more[j] in more;
    }
  }

  lemma {:induction false} FlatBelow(prefix: JsString, k: JsString, below: seq<Path>)
    ensures FlatAll(prefix, Prefixed(k, below)) == FlatAll(Extend(prefix, k), below)
  {
    if below != [] {
      assert ([k] + below[0])[1..] == below[0];
      FlatBelow(prefix, k, below[1..]);
    }
  }

  ghost predicate HasKey(v: Value, key: JsString) { exists p :: LeafAt(v, p).Some? && Flat(p) == key }

  lemma ListedKeys(keys: seq<JsString>, v: Value, key: JsString)
    requires ListsLeaves(keys, [], v)
    ensures key in keys <==> HasKey(v, key)
  {
    var ps :| LeavesOf(v, ps) && Permutation(keys, FlatAll([], ps));
    PermutationMembers(keys, FlatAll([], ps));
    MapAt((p: Path) => FlatFrom([], p), ps);
    if key in keys {
      var i :| 0 <= i < |ps| && FlatAll([], ps)[i] == key;
      assert ps[i] in ps && Flat(ps[i]) == key;
    }
    if p :| LeafAt(v, p).Some? && Flat(p) == key {
      var i :| 0 <= i < |ps| && ps[i] == p;
      assert FlatAll([], ps)[i] == key;
    }
  }

  // ----- getLeafValue -----

  function ValueAt(v: Value, p: Path): Value { if Find(v, p).Some? then Find(v, p).value else Undefined }

  method GetLeafValue(obj: Value, key: JsString) returns (r: Value)
    ensures r == ValueAt(obj, Split(key, DOT))
  {
    var parts := Split(key, DOT);
    r := obj;
    assert parts[0..] == parts;
    for i := 0 to |parts|
      invariant ValueAt(r, parts[i..]) == ValueAt(obj, parts)
    {
      assert parts[i..][1..] == parts[i + 1..];
      if !r.Node? { return Undefined; }
      r := if parts[i] in r.entries then r.entries[parts[i]] else Undefined;
    }
  }

  // ----- checkLocale -----

  datatype LocaleCheck = LocaleCheck(
    locale: JsString, missing: seq<JsString>, extra: seq<JsString>, untranslated: seq<JsString>,
    hasFundedViolation: bool,
    missingFunded: seq<JsString>)

  function TopNamespace(key: JsString): JsString { Split(key, DOT)[0] }

  predicate Funded(key: JsString) { TopNamespace(key) in FundedNamespaces() }

  ghost predicate Ascending(keys: seq<JsString>) { forall i, j | 0 <= i < j < |keys| :: Before(keys[i], keys[j]) }

  /** Both trees have the key, and the baseline's string there is the locale's too. */
  ghost predicate SameText(base: Value, loc: Value, key: JsString) {
    && HasKey(base, key) && HasKey(loc, key)
    && ValueAt(base, Split(key, DOT)).Text? && ValueAt(base, Split(key, DOT)) == ValueAt(loc, Split(key, DOT))
  }

  ghost predicate IsCheck(base: Value, locale: JsString, loc: Value, r: LocaleCheck) {
    && r.locale == locale
    && Ascending(r.missing) && Ascending(r.extra) && Ascending(r.untranslated) && Ascending(r.missingFunded)
    && (forall k :: k in r.missing <==> HasKey(base, k) && !HasKey(loc, k))
    && (forall k :: k in r.extra <==> HasKey(loc, k) && !HasKey(base, k))
    && (forall k :: k in r.untranslated <==> locale != Ascii("en") && SameText(base, loc, k))
    && (forall k :: k in r.missingFunded <==> k in r.missing && Funded(k))
    && (r.hasFundedViolation <==> r.missingFunded != [])
  }

  method CheckLocale(base: Value, locale: JsString, loc: Value) returns (r: LocaleCheck)
    requires base.Node? && loc.Node?
    ensures IsCheck(base, locale, loc, r)
  {
    var baseList := FlattenKeys(base, []);
    var locList := FlattenKeys(loc, []);
    var baseKeys, locKeys := (set k | k in baseList), (set k | k in locList);
    forall k ensures (k in baseKeys <==> HasKey(base, k)) && (k in locKeys <==> HasKey(loc, k)) {
      ListedKeys(baseList, base, k);
      ListedKeys(locList, loc, k);
    }
    var missing := KeysOutside(baseKeys, locKeys);
    var extra := KeysOutside(locKeys, baseKeys);
    var untranslated := [];
    if locale != Ascii("en") { untranslated := KeysWithSameText(base, loc, baseKeys, locKeys); }
    var missingFunded := FundedKeys(missing);
    r := LocaleCheck(locale, SortKeys(missing), SortKeys(extra), SortKeys(untranslated),
                     |missingFunded| > 0, SortKeys(missingFunded));
    SortedKeys(missing);
    SortedKeys(extra);
    SortedKeys(untranslated);
    SortedKeys(missingFunded);
  }

  lemma SortedKeys(keys: seq<JsString>)
    requires Distinct(keys)
    ensures Ascending(SortKeys(keys)) && (SortKeys(keys) == [] <==> keys == [])
    ensures forall k :: k in SortKeys(keys) <==> k in keys
  {
    BeforeIsStrictTotalOrder();
    SortStrictly(Before, keys);
    SortPermutes(Before, keys);
    PermutationMembers(SortKeys(keys), keys);
  }

  /** The keys that another set lacks. */
  method KeysOutside(keys: set<JsString>, others: set<JsString>) returns (r: seq<JsString>)
    ensures Distinct(r) && forall k :: k in r <==> k in keys && k !in others
  {
    r := [];
    var left := keys;
    while left != {}
      invariant left <= keys && Distinct(r)
      invariant forall k :: k in r <==> k in keys && k !in left && k !in others
    {
      var k :| k in left;
      if k !in others { r := r + [k]; }
      left := left - {k};
    }
  }

  method KeysWithSameText(base: Value, loc: Value, baseKeys: set<JsString>, locKeys: set<JsString>)
    returns (r: seq<JsString>)
    requires forall k :: (k in baseKeys <==> HasKey(base, k)) && (k in locKeys <==> HasKey(loc, k))
    ensures Distinct(r) && forall k :: k in r <==> SameText(base, loc, k)
  {
    r := [];
    var left := baseKeys;
    while left != {}
      invariant left <= baseKeys && Distinct(r)
      invariant forall k :: k in r <==> k !in left && SameText(base, loc, k)
    {
      var k :| k in left;
      left := left - {k};
      if k !in locKeys { continue; }
      var baseVal := GetLeafValue(base, k);
      var locVal := GetLeafValue(loc, k);
      if baseVal.Text? && baseVal == locVal { r := r + [k]; }
    }
  }

  method FundedKeys(keys: seq<JsString>) returns (r: seq<JsString>)
    requires Distinct(keys)
    ensures Distinct(r) && forall k :: k in r <==> k in keys && Funded(k)
  {
    r := [];
    for i := 0 to |keys|
      invariant Distinct(r) && forall k :: k in r <==> k in keys[..i] && Funded(k)
    {
      assert keys[..i + 1] == keys[..i] + [keys[i]];
      if Funded(keys[i]) { r := r + [keys[i]]; }
    }
    assert keys[..|keys|] == keys;
  }

  // ----- What a check finds after the fallback merge -----

  /** No part of a key is empty or holds a dot. */
  predicate PlainPath(p: Path) { forall i | 0 <= i < |p| :: p[i] != [] && DOT !in p[i] }

  predicate PlainKeys(v: Value)
    decreases v
  {
    IsObject(v) ==> forall k | k in Own(v) :: k != [] && DOT !in k && PlainKeys(Own(v)[k])
  }

  lemma {:induction false} PlainPaths(v: Value, p: Path)
    requires PlainKeys(v) && Find(v, p).Some?
    ensures PlainPath(p)
  {
    if p != [] {
      assert p[0] in Own(v);
      PlainPaths(v.entries[p[0]], p[1..]);
    }
  }

  lemma {:induction false} MergePlain(base: Value, loc: Value)
    requires PlainKeys(base) && PlainKeys(loc)
    ensures PlainKeys(Merge(base, loc))
    decreases loc
  {
    if IsObject(base) && IsObject(loc) && !(base.List? && loc.List?) {
      var a, b, m := Own(base), Own(loc), Merge(base, loc);
      forall k | k in m.entries ensures k != [] && DOT !in k && PlainKeys(m.entries[k]) {
        if k in b {
          assert m.entries[k] == Assigned(a, b, k);
          if b[k].Node? && k in a { MergePlain(a[k], b[k]); }
        } else {
          assert m.entries[k] == a[k];
        }
      }
      assert Own(m) == m.entries;
    }
  }

  lemma {:induction false} FlatJoins(prefix: JsString, p: Path)
    requires prefix != [] && p != []
    ensures FlatFrom(prefix, p) == prefix + [DOT] + Join(p, DOT)
    decreases |p|
  {
    if |p| == 1 {
      assert p[1..] == [];
    } else {
      FlatJoins(prefix + [DOT] + p[0], p[1..]);
    }
  }

  /** A plain path can be read back from its flat key. */
  lemma SplitOfFlat(p: Path)
    requires p != [] && PlainPath(p)
    ensures Split(Flat(p), DOT) == p
  {
    assert Flat(p) == FlatFrom(p[0], p[1..]);
    if |p| > 1 { FlatJoins(p[0], p[1..]); }
    SplitOfJoin(p, DOT);
  }

  /** In a tree with plain keys `getLeafValue` finds the leaf that a flat key stands for. */
  lemma KeyFindsLeaf(v: Value, p: Path)
    requires v.Node? && PlainKeys(v) && LeafAt(v, p).Some?
    ensures Split(Flat(p), DOT) == p && ValueAt(v, Split(Flat(p), DOT)) == LeafAt(v, p).value
  {
    PlainPaths(v, p);
    SplitOfFlat(p);
  }

  lemma PlainKeyIsLeaf(v: Value, key: JsString)
    requires v.Node? && PlainKeys(v)
    ensures HasKey(v, key) <==> LeafAt(v, Split(key, DOT)).Some? && Flat(Split(key, DOT)) == key
  {
    if p :| LeafAt(v, p).Some? && Flat(p) == key { KeyFindsLeaf(v, p); }
  }

  lemma NoMembers(keys: seq<JsString>)
    ensures keys == [] <==> forall k :: k !in keys
  {
    if keys != [] { assert keys[0] in keys; }
  }

  /** After a merge without shadowing nothing is missing, and what was extra still is. */
  lemma FallbackFillsBaseline(base: Value, locale: JsString, loc: Value, before: LocaleCheck, after: LocaleCheck)
    requires base.Node? && loc.Node? && NoShadow(base, loc)
    requires IsCheck(base, locale, loc, before) && IsCheck(base, locale, Merge(base, loc), after)
    ensures after.missing == [] && after.missingFunded == [] && !after.hasFundedViolation && after.extra == before.extra
  {
    forall k ensures HasKey(Merge(base, loc), k) <==> HasKey(base, k) || HasKey(loc, k) {
      MergedKeys(base, loc, k);
    }
    NoMembers(after.missing);
    NoMembers(after.missingFunded);
    BeforeIsStrictTotalOrder();
    StrictlySortedIsUnique(Before, after.extra, before.extra);
  }

  lemma MergedKeys(base: Value, loc: Value, key: JsString)
    requires base.Node? && loc.Node? && NoShadow(base, loc)
    ensures HasKey(Merge(base, loc), key) <==> HasKey(base, key) || HasKey(loc, key)
  {
    forall p ensures LeafAt(Merge(base, loc), p).Some? <==> LeafAt(base, p).Some? || LeafAt(loc, p).Some? {
      MergeFillsFromBaseline(base, loc, p);
    }
  }

  /** With plain keys, nothing is missing after the merge exactly when the locale shadows no leaf. */
  lemma NothingMissingIff(base: Value, locale: JsString, loc: Value, after: LocaleCheck)
    requires base.Node? && loc.Node? && PlainKeys(base) && PlainKeys(loc)
    requires IsCheck(base, locale, Merge(base, loc), after)
    ensures after.missing == [] <==> NoShadow(base, loc)
  {
    if NoShadow(base, loc) {
      forall k ensures k !in after.missing { MergedKeys(base, loc, k); }
      NoMembers(after.missing);
    } else {
      var p :| LeafAt(base, p).Some? && Shadows(loc, p);
      var k, m := Flat(p), Merge(base, loc);
      KeyFindsLeaf(base, p);
      BaselineLeafAfterMerge(base, loc, p);
      MergePlain(base, loc);
      PlainKeyIsLeaf(m, k);
      assert k in after.missing;
    }
  }

  /** What a merge filled in counts as untranslated: the untranslated keys of the merged tree
      are those of the locale and the strings it lacked. */
  lemma FilledKeysAreUntranslated(
    base: Value, locale: JsString, loc: Value, before: LocaleCheck, after: LocaleCheck, key: JsString)
    requires base.Node? && loc.Node? && PlainKeys(base) && PlainKeys(loc) && NoShadow(base, loc)
      && locale != Ascii("en")
    requires IsCheck(base, locale, loc, before) && IsCheck(base, locale, Merge(base, loc), after)
    ensures key in after.untranslated
       <==> key in before.untranslated || (key in before.missing && ValueAt(base, Split(key, DOT)).Text?)
  {
    var p, m := Split(key, DOT), Merge(base, loc);
    MergePlain(base, loc);
    PlainKeyIsLeaf(base, key);
    PlainKeyIsLeaf(loc, key);
    PlainKeyIsLeaf(m, key);
    MergeFillsFromBaseline(base, loc, p);
  }

  const BASE_TREE := Node(map[Ascii("a") := Node(map[Ascii("b") := Text(Ascii("x"))])])
  const FLAT_TREE := Node(map[Ascii("a") := Text(Ascii("y"))])

  /** A locale with a text where the baseline has a group: the group's key stays missing. */
  lemma ShadowedKeyStaysMissing(locale: JsString, after: LocaleCheck)
    requires IsCheck(BASE_TREE, locale, Merge(BASE_TREE, FLAT_TREE), after)
    ensures !NoShadow(BASE_TREE, FLAT_TREE) && after.missing != []
  {
    var p := [Ascii("a"), Ascii("b")];
    assert Ascii("a") == [0x61] && Ascii("b") == [0x62];
    assert p[1..] == [Ascii("b")];
    assert LeafAt(BASE_TREE, p).Some? && Shadows(FLAT_TREE, p);
    assert PlainKeys(BASE_TREE.entries[Ascii("a")].entries[Ascii("b")]);
    NothingMissingIff(BASE_TREE, locale, FLAT_TREE, after);
  }
}
