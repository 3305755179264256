/** `getClaimsByFilter`: a filter record compiled to a parameterised query (lib/db.ts). */
module FilterQuery {
  import opened Wrappers
  import opened JsStrings
  import opened Sequences
  import opened Sorting
  import opened ClaimsSql
  import opened QueryText

  datatype ClaimFilters = ClaimFilters(
    ids: Option<seq<int>>, creator: Option<JsString>, categories: Option<seq<JsString>>, states: Option<seq<JsString>>,
    parentId: Option<int>, visibility: Option<JsString>, isFinal: Option<bool>, limit: Option<int>,
    cursor: Option<int>, orderBy: Option<OrderBy>)

  // ----- What a filter asks for -----

  predicate Given<T>(xs: Option<seq<T>>) { xs.Some? && |xs.value| > 0 }

  function Ordering(f: ClaimFilters): OrderBy { if f.orderBy.None? then IdDesc else f.orderBy.value }

  /** The cursor counts only under the default ordering. */
  predicate Matches(f: ClaimFilters, r: ClaimRow) {
    && (Given(f.ids) ==> r.id in f.ids.value)
    && (Given(f.creator) ==> r.creator == f.creator.value)
    && (Given(f.categories) ==> r.category in f.categories.value)
    && (Given(f.states) ==> r.state in f.states.value)
    && (f.parentId.Some? ==> r.parentId == f.parentId.value)
    && (Given(f.visibility) ==> r.visibility == f.visibility.value)
    && (f.isFinal.Some? ==> r.isFinal == if f.isFinal.value then 1 else 0)
    && (Ordering(f).IdDesc? && f.cursor.Some? ==> r.id < f.cursor.value)
  }

  predicate Before(order: OrderBy, a: ClaimRow, b: ClaimRow) {
    match order
    case IdDesc => a.id > b.id
    case UpdatedDesc => a.updatedAt > b.updatedAt || (a.updatedAt == b.updatedAt && a.id > b.id)
    case DeadlineAsc => a.deadline < b.deadline || (a.deadline == b.deadline && a.id > b.id)
    case DeadlineDesc => a.deadline > b.deadline || (a.deadline == b.deadline && a.id > b.id)
  }

  function Sorted(order: OrderBy, rows: seq<ClaimRow>): seq<ClaimRow> {
    Sort((a, b) => Before(order, a, b), rows)
  }

  /** Filter, then sort, then take. */
  function Answer(f: ClaimFilters, table: seq<ClaimRow>): seq<ClaimRow> {
    var rows := Sorted(Ordering(f), Filter(r => Matches(f, r), table));
    if f.limit.Some? && f.limit.value > 0 then Take(f.limit.value, rows) else rows
  }

  // ----- The compiler -----

  lemma ConditionMarks(c: Clause, first: nat)
    ensures forall m | m in MarksOf(ConditionOf(c, first)) :: first <= m < first + Width(c)
  {
  }

  /** More arguments do not matter to conditions that are bound without them. */
  lemma MoreArguments(c: Condition, args: seq<Value>, more: seq<Value>, r: ClaimRow)
    requires forall m | m in MarksOf(c) :: 1 <= m <= |args|
    ensures Holds(c, args + more, r) <==> Holds(c, args, r)
  {
    if c.OneOf? {
      assert forall i | 0 <= i < |c.marks| :: c.marks[i] in MarksOf(c);
    } else {
      assert c.mark in MarksOf(c);
    }
  }

  lemma {:induction false} WidthsPrefix(cs: seq<Clause>, i: nat)
    requires i < |cs|
    ensures Widths(cs[..i]) + Width(cs[i]) <= Widths(cs)
    decreases |cs|
  {
    var n := |cs| - 1;
    if i < n {
      WidthsPrefix(cs[..n], i);
      assert cs[..n][..i] == cs[..i];
    }
  }

  lemma AllHoldMore(cs: seq<Clause>, args: seq<Value>, more: seq<Value>, r: ClaimRow)
    requires |args| == Widths(cs)
    ensures AllHold(ConditionsFrom(cs, 1), args + more, r) <==> AllHold(ConditionsFrom(cs, 1), args, r)
  {
    forall i | 0 <= i < |cs|
      ensures Holds(ConditionsFrom(cs, 1)[i], args + more, r) <==> Holds(ConditionsFrom(cs, 1)[i], args, r)
    {
      ConditionMarks(cs[i], 1 + Widths(cs[..i]));
      WidthsPrefix(cs, i);
      MoreArguments(ConditionsFrom(cs, 1)[i], args, more, r);
    }
  }

  /** A clause after others takes the arguments after theirs. */
  lemma Shifted(c: Clause, args: seq<Value>, more: seq<Value>, r: ClaimRow)
    requires |more| == Width(c)
    ensures Holds(ConditionOf(c, 1 + |args|), args + more, r) <==> Holds(ConditionOf(c, 1), more, r)
  {
    match c
    case In(column, count) =>
      var here, there := ConditionOf(c, 1), ConditionOf(c, 1 + |args|);
      assert forall i | 0 <= i < count ::
        IsArg(args + more, there.marks[i], Cell(r, column)) <==> IsArg(more, here.marks[i], Cell(r, column));
    case Equals(_) =>
    case Below(_) =>
  }

  lemma ConditionsSnoc(cs: seq<Clause>, c: Clause)
    ensures ConditionsFrom(cs + [c], 1) == ConditionsFrom(cs, 1) + [ConditionOf(c, 1 + Widths(cs))]
    ensures Widths(cs + [c]) == Widths(cs) + Width(c)
  {
    assert forall i | 0 <= i <= |cs| :: (cs + [c])[..i] == cs[..i];
    assert cs[..|cs|] == cs;
  }

  /** One more clause with its own arguments constrains the rows by exactly that clause. */
  lemma AllHoldSnoc(cs: seq<Clause>, args: seq<Value>, c: Clause, more: seq<Value>, r: ClaimRow)
    requires |args| == Widths(cs) && |more| == Width(c)
    ensures AllHold(ConditionsFrom(cs + [c], 1), args + more, r)
       <==> AllHold(ConditionsFrom(cs, 1), args, r) && Holds(ConditionOf(c, 1), more, r)
  {
    ConditionsSnoc(cs, c);
    AllHoldMore(cs, args, more, r);
    Shifted(c, args, more, r);
    var before, last := ConditionsFrom(cs, 1), ConditionOf(c, 1 + Widths(cs));
    assert (before + [last])[|cs|] == last && forall i | 0 <= i < |cs| :: (before + [last])[i] == before[i];
  }

  function Ints(xs: seq<int>): seq<Value> { seq(|xs|, i requires 0 <= i < |xs| => IntValue(xs[i])) }
  function Texts(xs: seq<JsString>): seq<Value> { seq(|xs|, i requires 0 <= i < |xs| => TextValue(xs[i])) }

  lemma InInts(x: int, xs: seq<int>)
    ensures (exists i | 0 <= i < |xs| :: IsArg(Ints(xs), MarksFrom(1, |xs|)[i], IntValue(x))) <==> x in xs
  {
    if x in xs { var i :| 0 <= i < |xs| && xs[i] == x; assert IsArg(Ints(xs), MarksFrom(1, |xs|)[i], IntValue(x)); }
  }

  lemma InTexts(x: JsString, xs: seq<JsString>)
    ensures (exists i | 0 <= i < |xs| :: IsArg(Texts(xs), MarksFrom(1, |xs|)[i], TextValue(x))) <==> x in xs
  {
    if x in xs { var i :| 0 <= i < |xs| && xs[i] == x; assert IsArg(Texts(xs), MarksFrom(1, |xs|)[i], TextValue(x)); }
  }

  /** The filter with only its first `k` fields, in the order they are compiled. */
  function FirstFields(f: ClaimFilters, k: nat): ClaimFilters {
    ClaimFilters(
      if k >= 1 then f.ids else None, if k >= 2 then f.creator else None, if k >= 3 then f.categories else None,
      if k >= 4 then f.states else None, if k >= 5 then f.parentId else None, if k >= 6 then f.visibility else None,
      if k >= 7 then f.isFinal else None, f.limit, if k >= 8 then f.cursor else None, f.orderBy)
  }

  /** The clauses and arguments gathered so far say what the first `k` fields ask. */
  ghost predicate Compiled(f: ClaimFilters, k: nat, cs: seq<Clause>, args: seq<Value>) {
    |args| == Widths(cs) && forall r :: AllHold(ConditionsFrom(cs, 1), args, r) <==> Matches(FirstFields(f, k), r)
  }

  /** Appending one clause compiles one more field if the clause says what the field asks. */
  lemma CompileField(f: ClaimFilters, k: nat, cs: seq<Clause>, args: seq<Value>, c: Clause, more: seq<Value>)
    requires Compiled(f, k, cs, args) && |more| == Width(c)
    requires forall r ::
      Matches(FirstFields(f, k + 1), r) <==> Matches(FirstFields(f, k), r) && Holds(ConditionOf(c, 1), more, r)
    ensures Compiled(f, k + 1, cs + [c], args + more)
  {
    ConditionsSnoc(cs, c);
    forall r ensures AllHold(ConditionsFrom(cs + [c], 1), args + more, r) <==> Matches(FirstFields(f, k + 1), r) {
      AllHoldSnoc(cs, args, c, more, r);
    }
  }

  /** A field that is not given adds nothing. */
  lemma SkipField(f: ClaimFilters, k: nat, cs: seq<Clause>, args: seq<Value>)
    requires Compiled(f, k, cs, args)
    requires forall r :: Matches(FirstFields(f, k + 1), r) <==> Matches(FirstFields(f, k), r)
    ensures Compiled(f, k + 1, cs, args)
  {
  }

  lemma IdsField(f: ClaimFilters, cs: seq<Clause>, args: seq<Value>)
    requires Compiled(f, 0, cs, args)
    ensures Given(f.ids) ==> Compiled(f, 1, cs + [In(Id, |f.ids.value|)], args + Ints(f.ids.value))
    ensures !Given(f.ids) ==> Compiled(f, 1, cs, args)
  {
    if Given(f.ids) {
      forall r: ClaimRow { InInts(r.id, f.ids.value); }
      CompileField(f, 0, cs, args, In(Id, |f.ids.value|), Ints(f.ids.value));
    } else {
      SkipField(f, 0, cs, args);
    }
  }

  lemma CreatorField(f: ClaimFilters, cs: seq<Clause>, args: seq<Value>)
    requires Compiled(f, 1, cs, args)
    ensures Given(f.creator) ==> Compiled(f, 2, cs + [Equals(Creator)], args + [TextValue(f.creator.value)])
    ensures !Given(f.creator) ==> Compiled(f, 2, cs, args)
  {
    if Given(f.creator) {
      CompileField(f, 1, cs, args, Equals(Creator), [TextValue(f.creator.value)]);
    } else {
      SkipField(f, 1, cs, args);
    }
  }

  lemma CategoriesField(f: ClaimFilters, cs: seq<Clause>, args: seq<Value>)
    requires Compiled(f, 2, cs, args)
    ensures Given(f.categories)
      ==> Compiled(f, 3, cs + [In(Category, |f.categories.value|)], args + Texts(f.categories.value))
    ensures !Given(f.categories) ==> Compiled(f, 3, cs, args)
  {
    if Given(f.categories) {
      forall r: ClaimRow { InTexts(r.category, f.categories.value); }
      CompileField(f, 2, cs, args, In(Category, |f.categories.value|), Texts(f.categories.value));
    } else {
      SkipField(f, 2, cs, args);
    }
  }

  lemma StatesField(f: ClaimFilters, cs: seq<Clause>, args: seq<Value>)
    requires Compiled(f, 3, cs, args)
    ensures Given(f.states) ==> Compiled(f, 4, cs + [In(State, |f.states.value|)], args + Texts(f.states.value))
    ensures !Given(f.states) ==> Compiled(f, 4, cs, args)
  {
    if Given(f.states) {
      forall r: ClaimRow { InTexts(r.state, f.states.value); }
      CompileField(f, 3, cs, args, In(State, |f.states.value|), Texts(f.states.value));
    } else {
      SkipField(f, 3, cs, args);
    }
  }

  lemma ParentField(f: ClaimFilters, cs: seq<Clause>, args: seq<Value>)
    requires Compiled(f, 4, cs, args)
    ensures f.parentId.Some? ==> Compiled(f, 5, cs + [Equals(ParentId)], args + [IntValue(f.parentId.value)])
    ensures !f.parentId.Some? ==> Compiled(f, 5, cs, args)
  {
    if f.parentId.Some? {
      CompileField(f, 4, cs, args, Equals(ParentId), [IntValue(f.parentId.value)]);
    } else {
      SkipField(f, 4, cs, args);
    }
  }

  lemma VisibilityField(f: ClaimFilters, cs: seq<Clause>, args: seq<Value>)
    requires Compiled(f, 5, cs, args)
    ensures Given(f.visibility) ==> Compiled(f, 6, cs + [Equals(Visibility)], args + [TextValue(f.visibility.value)])
    ensures !Given(f.visibility) ==> Compiled(f, 6, cs, args)
  {
    if Given(f.visibility) {
      CompileField(f, 5, cs, args, Equals(Visibility), [TextValue(f.visibility.value)]);
    } else {
      SkipField(f, 5, cs, args);
    }
  }

  lemma FinalField(f: ClaimFilters, cs: seq<Clause>, args: seq<Value>)
    requires Compiled(f, 6, cs, args)
    ensures f.isFinal.Some?
      ==> Compiled(f, 7, cs + [Equals(IsFinal)], args + [IntValue(if f.isFinal.value then 1 else 0)])
    ensures !f.isFinal.Some? ==> Compiled(f, 7, cs, args)
  {
    if f.isFinal.Some? {
      CompileField(f, 6, cs, args, Equals(IsFinal), [IntValue(if f.isFinal.value then 1 else 0)]);
    } else {
      SkipField(f, 6, cs, args);
    }
  }

  lemma CursorField(f: ClaimFilters, cs: seq<Clause>, args: seq<Value>)
    requires Compiled(f, 7, cs, args)
    ensures Ordering(f).IdDesc? && f.cursor.Some?
      ==> Compiled(f, 8, cs + [Below(Id)], args + [IntValue(f.cursor.value)])
    ensures !(Ordering(f).IdDesc? && f.cursor.Some?) ==> Compiled(f, 8, cs, args)
  {
    if Ordering(f).IdDesc? && f.cursor.Some? {
      CompileField(f, 7, cs, args, Below(Id), [IntValue(f.cursor.value)]);
    } else {
      SkipField(f, 7, cs, args);
    }
  }

  method CompileLists(f: ClaimFilters) returns (clauses: seq<Clause>, args: seq<Value>)
    ensures Compiled(f, 4, clauses, args)
  {
    clauses, args := [], [];
    assert Compiled(f, 0, clauses, args);
    IdsField(f, clauses, args);
    if Given(f.ids) {
      clauses := clauses + [In(Id, |f.ids.value|)];
      args := args + Ints(f.ids.value);
    }
    CreatorField(f, clauses, args);
    if Given(f.creator) {
      clauses := clauses + [Equals(Creator)];
      args := args + [TextValue(f.creator.value)];
    }
    CategoriesField(f, clauses, args);
    if Given(f.categories) {
      clauses := clauses + [In(Category, |f.categories.value|)];
      args := args + Texts(f.categories.value);
    }
    StatesField(f, clauses, args);
    if Given(f.states) {
      clauses := clauses + [In(State, |f.states.value|)];
      args := args + Texts(f.states.value);
    }
  }

  method CompileFields(f: ClaimFilters) returns (clauses: seq<Clause>, args: seq<Value>)
    ensures Compiled(f, 8, clauses, args)
  {
    clauses, args := CompileLists(f);
    ParentField(f, clauses, args);
    if f.parentId.Some? {
      clauses := clauses + [Equals(ParentId)];
      args := args + [IntValue(f.parentId.value)];
    }
    VisibilityField(f, clauses, args);
    if Given(f.visibility) {
      clauses := clauses + [Equals(Visibility)];
      args := args + [TextValue(f.visibility.value)];
    }
    FinalField(f, clauses, args);
    if f.isFinal.Some? {
      clauses := clauses + [Equals(IsFinal)];
      args := args + [IntValue(if f.isFinal.value then 1 else 0)];
    }
    CursorField(f, clauses, args);
    if Ordering(f).IdDesc? && f.cursor.Some? {
      clauses := clauses + [Below(Id)];
      args := args + [IntValue(f.cursor.value)];
    }
  }

  method CompileFilters(f: ClaimFilters) returns (q: Query, args: seq<Value>)
    ensures |args| == Widths(q.clauses) + if q.limited then 1 else 0
    ensures forall r :: AllHold(ConditionsFrom(q.clauses, 1), args, r) <==> Matches(f, r)
    ensures q.order == Ordering(f) && (q.limited <==> f.limit.Some? && f.limit.value > 0)
    ensures q.limited ==> args[|args| - 1] == IntValue(f.limit.value)
  {
    var clauses;
    clauses, args := CompileFields(f);
    assert FirstFields(f, 8) == f;
    var limited := f.limit.Some? && f.limit.value > 0;
    q := Query(clauses, Ordering(f), limited);
    if limited {
      ghost var before := args;
      args := args + [IntValue(f.limit.value)];
      forall r ensures AllHold(ConditionsFrom(clauses, 1), args, r) <==> Matches(f, r) {
        AllHoldMore(clauses, before, [IntValue(f.limit.value)], r);
      }
    }
  }

  lemma {:induction false} FilterAgrees<T>(keep: T -> bool, keep': T -> bool, xs: seq<T>)
    requires forall x | x in xs :: keep(x) == keep'(x)
    ensures Filter(keep, xs) == Filter(keep', xs)
  {
    if xs != [] { FilterAgrees(keep, keep', xs[1..]); }
  }

  lemma {:induction false} InsertAgrees<T(!new)>(less: (T, T) -> bool, less': (T, T) -> bool, x: T, s: seq<T>)
    requires forall a, b :: less(a, b) == less'(a, b)
    ensures Insert(less, x, s) == Insert(less', x, s)
  {
    if s != [] { InsertAgrees(less, less', x, s[1..]); }
  }

  lemma {:induction false} SortAgrees<T(!new)>(less: (T, T) -> bool, less': (T, T) -> bool, s: seq<T>)
    requires forall a, b :: less(a, b) == less'(a, b)
    ensures Sort(less, s) == Sort(less', s)
  {
    if s != [] {
      SortAgrees(less, less', s[1..]);
      InsertAgrees(less, less', s[0], Sort(less, s[1..]));
    }
  }

  /** The keys in the text order rows as the filter asks. */
  lemma KeysOrder(order: OrderBy, a: ClaimRow, b: ClaimRow)
    ensures ComesFirst(KeysOf(order), a, b) <==> Before(order, a, b)
  {
    var first := FirstKey(order);
    assert [OrderKey(Id, true)][1..] == [];
    if !order.IdDesc? {
      TwoKeys(first, a, b);
      assert KeysOf(order) == [first] + [OrderKey(Id, true)];
    }
    assert ComesFirst([OrderKey(Id, true)], a, b) <==> a.id > b.id;
  }

  /** The second key decides between rows that agree in the first. */
  lemma TwoKeys(first: OrderKey, a: ClaimRow, b: ClaimRow)
    ensures var last := [OrderKey(Id, true)];
      ComesFirst([first] + last, a, b)
      <==> (if first.descending then Smaller(first.column, b, a) else Smaller(first.column, a, b))
           || (Cell(a, first.column) == Cell(b, first.column) && ComesFirst(last, a, b))
  {
    assert ([first] + [OrderKey(Id, true)])[1..] == [OrderKey(Id, true)];
  }

  /** Executing a statement whose conditions are the filter's is filter, then sort, then take. */
  lemma ExecuteAnswers(q: Query, args: seq<Value>, f: ClaimFilters, table: seq<ClaimRow>)
    requires Binds(StatementOf(q), args) && q.order == Ordering(f)
      && (q.limited <==> f.limit.Some? && f.limit.value > 0)
    requires forall r :: AllHold(ConditionsFrom(q.clauses, 1), args, r) <==> Matches(f, r)
    requires q.limited ==> args[|args| - 1] == IntValue(f.limit.value)
    ensures Execute(StatementOf(q), args, table) == Answer(f, table)
  {
    var st := StatementOf(q);
    FilterAgrees(r => AllHold(st.conditions, args, r), r => Matches(f, r), table);
    forall a, b ensures ComesFirst(st.order, a, b) == Before(q.order, a, b) { KeysOrder(q.order, a, b); }
    SortAgrees((a, b) => ComesFirst(st.order, a, b), (a, b) => Before(q.order, a, b),
      Filter(r => Matches(f, r), table));
  }

  lemma ReadAndRun(sql: JsString, st: Statement, args: seq<Value>, table: seq<ClaimRow>)
    requires ReadStatement(sql) == Some(st) && Binds(st, args)
    ensures RunSql(sql, args, table) == Some(Execute(st, args, table))
  {
  }

  /** What the database answers to the numbered text of a query that says what a filter asks. */
  lemma RunAnswers(q: Query, args: seq<Value>, f: ClaimFilters, table: seq<ClaimRow>)
    requires |args| == Widths(q.clauses) + if q.limited then 1 else 0
    requires forall r :: AllHold(ConditionsFrom(q.clauses, 1), args, r) <==> Matches(f, r)
    requires q.order == Ordering(f) && (q.limited <==> f.limit.Some? && f.limit.value > 0)
    requires q.limited ==> args[|args| - 1] == IntValue(f.limit.value)
    ensures RunSql(TextOf(true, q), args, table) == Some(Answer(f, table))
  {
    StatementReads(q);
    StatementBinds(q, args);
    ExecuteAnswers(q, args, f, table);
    ReadAndRun(TextOf(true, q), StatementOf(q), args, table);
  }

  /** Compiling preserves meaning: for every filter and table, what the database answers to
      the numbered text under the returned arguments is exactly filter, then sort, then take. */
  method GetClaimsByFilter(f: ClaimFilters, table: seq<ClaimRow>)
    returns (rows: seq<ClaimRow>, sql: JsString, args: seq<Value>)
    ensures RunSql(sql, args, table) == Some(rows)
    ensures rows == Answer(f, table)
  {
    var q;
    q, args := CompileFilters(f);
    sql := TextOf(false, q);
    QueryNumbered(q);
    if DOLLAR !in sql {
      sql := ToPg(sql);
    }
    RunAnswers(q, args, f, table);
    rows := RunSql(sql, args, table).value;
  }

  // ----- The answer does not depend on the order of the table -----

  function IdOf(r: ClaimRow): int { r.id }

  lemma BeforeIsTotal(order: OrderBy, table: seq<ClaimRow>)
    requires DistinctKeys(IdOf, table)
    ensures StrictOrder((a, b) => Before(order, a, b)) && TotalOn((a, b) => Before(order, a, b), table)
  {
    forall x, y | x in table && y in table && x != y ensures Before(order, x, y) || Before(order, y, x) {
      var i, j :| 0 <= i < |table| && 0 <= j < |table| && table[i] == x && table[j] == y;
      assert IdOf(table[i]) != IdOf(table[j]);
    }
  }

  lemma AnswerIgnoresTableOrder(f: ClaimFilters, table: seq<ClaimRow>, table': seq<ClaimRow>)
    requires Permutation(table, table') && DistinctKeys(IdOf, table)
    ensures Answer(f, table) == Answer(f, table')
  {
    var keep := r => Matches(f, r);
    FilterPermutation(keep, table, table');
    FilterMembers(keep, table);
    BeforeIsTotal(Ordering(f), table);
    SortIgnoresOrder((a, b) => Before(Ordering(f), a, b), Filter(keep, table), Filter(keep, table'));
  }
}
