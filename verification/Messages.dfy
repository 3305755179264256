/** Message trees: the fallback merge (i18n/request.ts) and the diff against the English
    baseline (lib/locale-completeness.ts). */
module Messages {
  import opened Wrappers
  import opened JsStrings

  /** A parsed message value. `Scalar` stands for numbers and booleans. */
  datatype Value =
    | Undefined
    | Null
    | Text(text: JsString)
    | Scalar(number: int)
    | List(items: seq<Value>)
    | Node(entries: map<JsString, Value>)

  type Path = seq<JsString>

  predicate Nullish(v: Value) { v.Null? || v.Undefined? }

  predicate IsObject(v: Value) { v.List? || v.Node? }

  function Indexed(items: seq<Value>): (m: map<JsString, Value>)
    ensures forall k | k in m :: m[k] in items && k != [] && AllDigits(k)
  {
    if items == [] then map[]
    else
      var n := |items| - 1;
      DecimalRoundTrip(n);
      Indexed(items[..n])[Decimal(n) := items[n]]
  }

  /** The own properties of an object; an array has one for each index. */
  function Own(v: Value): (m: map<JsString, Value>)
    requires IsObject(v)
    ensures forall k | k in m :: m[k] < v
  {
    match v
    case Node(entries) => entries
    case List(items) => Indexed(items)
  }

  // ----- deepMerge -----

  /** What assigning key `k` of `source` leaves in the merged object. */
  function Assigned(target: map<JsString, Value>, source: map<JsString, Value>, k: JsString): Value
    requires k in source
    decreases source[k], 1
  {
    if source[k].Node? && k in target then Merge(target[k], source[k]) else source[k]
  }

  function Merge(target: Value, source: Value): Value
    decreases source, 0
  {
    if Nullish(target) then source
    else if Nullish(source) then target
    else if !IsObject(target) || !IsObject(source) || (target.List? && source.List?) then source
    else
      var a, b := Own(target), Own(source);
      Node(map k | k in a.Keys + b.Keys :: if k in b then Assigned(a, b, k) else a[k])
  }

  method DeepMerge(target: Value, source: Value) returns (output: Value)
    ensures output == Merge(target, source)
    decreases source, 2
  {
    if Nullish(target) { return source; }
    if Nullish(source) { return target; }
    if !IsObject(target) || !IsObject(source) { return source; }
    if target.List? && source.List? { return source; }
    var entries := AssignAll(source, Own(target), Own(source));
    assert entries == Merge(target, source).entries;
    output := Node(entries);
  }

  /** The loop of `deepMerge`: assigns each key of the source to a copy of the target. */
  method AssignAll(source: Value, a: map<JsString, Value>, b: map<JsString, Value>)
    returns (output: map<JsString, Value>)
    requires forall k | k in b :: b[k] < source
    ensures output == AssignedSoFar(a, b, b.Keys)
    decreases source, 1
  {
    output := a;
    NoneAssigned(a, b);
    ghost var done: set<JsString> := {};
    var left := b.Keys;
    while left != {}
      invariant left !! done && left + done == b.Keys
      invariant output == AssignedSoFar(a, b, done)
    {
      var k :| k in left;
      var v := MergeKey(source, a, b, k);
      AssignedNext(a, b, done, k);
      output := output[k := v];
      left, done := left - {k}, done + {k};
    }
    assert done == b.Keys;
  }

  method MergeKey(source: Value, a: map<JsString, Value>, b: map<JsString, Value>, k: JsString) returns (v: Value)
    requires k in b && b[k] < source
    ensures v == Assigned(a, b, k)
    decreases source, 0
  {
    v := b[k];
    if v.Node? && k in a { v := DeepMerge(a[k], v); }
  }

  /** The target's properties after the source's are assigned for some keys. */
  ghost function AssignedSoFar(a: map<JsString, Value>, b: map<JsString, Value>, done: set<JsString>)
    : map<JsString, Value>
    requires done <= b.Keys
  {
    map k | k in a.Keys + done :: if k in done then Assigned(a, b, k) else a[k]
  }

  lemma NoneAssigned(a: map<JsString, Value>, b: map<JsString, Value>)
    ensures AssignedSoFar(a, b, {}) == a
  {
  }

  lemma AssignedNext(a: map<JsString, Value>, b: map<JsString, Value>, done: set<JsString>, k: JsString)
    requires done <= b.Keys && k in b && k !in done
    ensures AssignedSoFar(a, b, done)[k := Assigned(a, b, k)] == AssignedSoFar(a, b, done + {k})
  {
  }

  // ----- Paths -----

  function Find(v: Value, p: Path): Option<Value> {
    if p == [] then Some(v)
    else if v.Node? && p[0] in v.entries then Find(v.entries[p[0]], p[1..])
    else None
  }

  function LeafAt(v: Value, p: Path): Option<Value> {
    var f := Find(v, p);
    if f.Some? && !f.value.Node? then f else None
  }

  /** The locale has a leaf above the path or an object at it. */
  predicate Shadows(loc: Value, p: Path) {
    if p == [] then loc.Node?
    else !loc.Node? || (p[0] in loc.entries && Shadows(loc.entries[p[0]], p[1..]))
  }

  ghost predicate NoShadow(base: Value, loc: Value) {
    forall p | LeafAt(base, p).Some? :: !Shadows(loc, p)
  }

  /** No path is a leaf in one tree and an object in the other. */
  ghost predicate Compatible(base: Value, loc: Value) {
    forall p | Find(base, p).Some? && Find(loc, p).Some? :: Find(base, p).value.Node? == Find(loc, p).value.Node?
  }

  /** A merge keeps every leaf of the locale. */
  lemma {:induction false} LocaleLeavesSurvive(base: Value, loc: Value, p: Path)
    requires loc.Node? && LeafAt(loc, p).Some?
    ensures LeafAt(Merge(base, loc), p) == LeafAt(loc, p)
  {
    if IsObject(base) {
      var k := p[0];
      assert Merge(base, loc).entries[k] == Assigned(Own(base), loc.entries, k);
      if loc.entries[k].Node? && k in Own(base) {
        LocaleLeavesSurvive(Own(base)[k], loc.entries[k], p[1..]);
      }
    }
  }

  /** A leaf of the baseline is lost exactly when the locale shadows it; otherwise the locale's
      leaf takes its place, or it stays. */
  lemma {:induction false} BaselineLeafAfterMerge(base: Value, loc: Value, p: Path)
    requires base.Node? && loc.Node? && LeafAt(base, p).Some?
    ensures LeafAt(Merge(base, loc), p)
         == if Shadows(loc, p) then None else if LeafAt(loc, p).Some? then LeafAt(loc, p) else LeafAt(base, p)
  {
    var k, m := p[0], Merge(base, loc);
    assert Find(base, p) == Find(base.entries[k], p[1..]) && Find(m, p) == Find(m.entries[k], p[1..]);
    if k in loc.entries {
      assert m.entries[k] == Assigned(base.entries, loc.entries, k);
      assert Find(loc, p) == Find(loc.entries[k], p[1..]);
      if loc.entries[k].Node? {
        if base.entries[k].Node? {
          BaselineLeafAfterMerge(base.entries[k], loc.entries[k], p[1..]);
        } else {
          assert p[1..] == [] && Merge(base.entries[k], loc.entries[k]).Node?;
        }
      }
    }
  }

  /** Without shadowing a merge makes up no leaf of its own. */
  lemma {:induction false} NothingElseAfterMerge(base: Value, loc: Value, p: Path)
    requires base.Node? && loc.Node? && NoShadow(base, loc) && LeafAt(Merge(base, loc), p).Some?
    ensures LeafAt(base, p).Some? || LeafAt(loc, p).Some?
  {
    var k, m := p[0], Merge(base, loc);
    if k in loc.entries {
      assert m.entries[k] == Assigned(base.entries, loc.entries, k);
      if loc.entries[k].Node? && k in base.entries {
        NoShadowBelow(base, loc, k);
        if base.entries[k].Node? { NothingElseAfterMerge(base.entries[k], loc.entries[k], p[1..]); }
      }
    }
  }

  lemma NoShadowBelow(base: Value, loc: Value, k: JsString)
    requires base.Node? && loc.Node? && k in base.entries && k in loc.entries && NoShadow(base, loc)
    ensures NoShadow(base.entries[k], loc.entries[k])
    ensures loc.entries[k].Node? ==> base.entries[k].Node?
  {
    forall p | LeafAt(base.entries[k], p).Some? ensures !Shadows(loc.entries[k], p) {
      assert ([k] + p)[1..] == p;
      assert LeafAt(base, [k] + p) == LeafAt(base.entries[k], p);
    }
    if !base.entries[k].Node? { assert LeafAt(base.entries[k], []).Some?; }
  }

  /** The merged tree has the locale's leaf where there is one and the baseline's elsewhere. */
  lemma MergeFillsFromBaseline(base: Value, loc: Value, p: Path)
    requires base.Node? && loc.Node? && NoShadow(base, loc)
    ensures LeafAt(Merge(base, loc), p) == if LeafAt(loc, p).Some? then LeafAt(loc, p) else LeafAt(base, p)
  {
    if LeafAt(loc, p).Some? { LocaleLeavesSurvive(base, loc, p); }
    else if LeafAt(base, p).Some? { BaselineLeafAfterMerge(base, loc, p); }
    else if LeafAt(Merge(base, loc), p).Some? { NothingElseAfterMerge(base, loc, p); }
  }

  lemma {:induction false} ShadowBreaksCompatibility(base: Value, loc: Value, p: Path) returns (q: Path)
    requires LeafAt(base, p).Some? && Shadows(loc, p)
    ensures Find(base, q).Some? && Find(loc, q).Some? && Find(base, q).value.Node? != Find(loc, q).value.Node?
  {
    if p == [] || !loc.Node? {
      q := [];
    } else {
      var k := p[0];
      var rest := ShadowBreaksCompatibility(base.entries[k], loc.entries[k], p[1..]);
      q := [k] + rest;
      assert q[1..] == rest;
    }
  }

  lemma CompatibleTreesDoNotShadow(base: Value, loc: Value)
    requires Compatible(base, loc)
    ensures NoShadow(base, loc)
  {
    forall p | LeafAt(base, p).Some? ensures !Shadows(loc, p) {
      if Shadows(loc, p) { var q := ShadowBreaksCompatibility(base, loc, p); }
    }
  }

  lemma {:induction false} MergeWithItself(v: Value)
    ensures Merge(v, v) == v
  {
    if v.Node? {
      forall k | k in v.entries ensures Assigned(v.entries, v.entries, k) == v.entries[k] {
        MergeWithItself(v.entries[k]);
      }
      assert Merge(v, v).entries == v.entries;
    }
  }

  /** Merging the same locale a second time changes nothing, whatever the trees. */
  lemma {:induction false} MergeTwice(base: Value, loc: Value)
    ensures Merge(Merge(base, loc), loc) == Merge(base, loc)
    decreases loc
  {
    var once := Merge(base, loc);
    if Nullish(loc) || Nullish(base) || !IsObject(base) || !IsObject(loc) || (base.List? && loc.List?) {
      MergeWithItself(loc);
    } else {
      var a, b := Own(base), Own(loc);
      forall k | k in b ensures Assigned(once.entries, b, k) == once.entries[k] {
        assert once.entries[k] == Assigned(a, b, k);
        if b[k].Node? {
          if k in a { MergeTwice(a[k], b[k]); } else { MergeWithItself(b[k]); }
        }
      }
      assert Merge(once, loc).entries == once.entries;
    }
  }
}
