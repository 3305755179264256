/** The SQL that reads the `claims` table, from its text to its answer: a reader for the
    statements that `getClaimsByFilter` may send, and what the database makes of them. */
module ClaimsSql {
  import opened Wrappers
  import opened JsStrings
  import opened Sequences
  import opened Sorting

  // ----- The table -----

  /** The columns of `claims` that a filter or an ordering reads; `payload` stands for the rest. */
  datatype ClaimRow = ClaimRow(
    id: int, creator: JsString, category: JsString, state: JsString, parentId: int, visibility: JsString,
    isFinal: int, updatedAt: int, deadline: int, payload: JsString)

  datatype Value = IntValue(n: int) | TextValue(s: JsString)

  datatype Column = Id | Creator | Category | State | ParentId | Visibility | IsFinal | UpdatedAt | Deadline

  function Cell(r: ClaimRow, column: Column): Value {
    match column
    case Id => IntValue(r.id)
    case Creator => TextValue(r.creator)
    case Category => TextValue(r.category)
    case State => TextValue(r.state)
    case ParentId => IntValue(r.parentId)
    case Visibility => TextValue(r.visibility)
    case IsFinal => IntValue(r.isFinal)
    case UpdatedAt => IntValue(r.updatedAt)
    case Deadline => IntValue(r.deadline)
  }

  // ----- Statements -----

  /** A condition on a row; a mark is the number of a placeholder. */
  datatype Condition =
    | OneOf(column: Column, marks: seq<nat>)
    | EqualTo(column: Column, mark: nat)
    | LessThan(column: Column, mark: nat)

  datatype OrderKey = OrderKey(column: Column, descending: bool)

  /** SELECT * FROM claims WHERE all conditions ORDER BY the keys LIMIT a placeholder. */
  datatype Statement = Statement(conditions: seq<Condition>, order: seq<OrderKey>, limit: Option<nat>)

  // ----- Meaning -----

  function MarksOf(c: Condition): seq<nat> { if c.OneOf? then c.marks else [c.mark] }

  function AllMarks(cs: seq<Condition>): seq<nat> {
    if cs == [] then [] else MarksOf(cs[0]) + AllMarks(cs[1..])
  }

  /** The `n` placeholders from `first`. */
  function MarksFrom(first: nat, n: nat): seq<nat> { seq(n, i requires 0 <= i => first + i) }

  /** Every argument has its placeholder and every placeholder its argument, in this order. */
  predicate Binds(st: Statement, args: seq<Value>) {
    && AllMarks(st.conditions) + (if st.limit.Some? then [st.limit.value] else []) == MarksFrom(1, |args|)
    && (st.limit.Some? ==> args[|args| - 1].IntValue? && args[|args| - 1].n >= 0)
  }

  /** Placeholder k stands for the k-th argument. */
  predicate IsArg(args: seq<Value>, k: nat, v: Value) { 1 <= k <= |args| && args[k - 1] == v }

  predicate Holds(c: Condition, args: seq<Value>, r: ClaimRow) {
    var cell := Cell(r, c.column);
    match c
    case OneOf(_, marks) => exists i | 0 <= i < |marks| :: IsArg(args, marks[i], cell)
    case EqualTo(_, k) => IsArg(args, k, cell)
    case LessThan(_, k) => cell.IntValue? && 1 <= k <= |args| && args[k - 1].IntValue? && cell.n < args[k - 1].n
  }

  predicate AllHold(cs: seq<Condition>, args: seq<Value>, r: ClaimRow) {
    forall i | 0 <= i < |cs| :: Holds(cs[i], args, r)
  }

  /** Text columns are never ordered by. */
  predicate Smaller(column: Column, a: ClaimRow, b: ClaimRow) {
    Cell(a, column).IntValue? && Cell(b, column).IntValue? && Cell(a, column).n < Cell(b, column).n
  }

  /** The keys in turn; a later one decides only between rows that are equal so far. */
  predicate ComesFirst(keys: seq<OrderKey>, a: ClaimRow, b: ClaimRow) {
    keys != [] &&
    var k := keys[0];
    if k.descending && Smaller(k.column, b, a) then true
    else if !k.descending && Smaller(k.column, a, b) then true
    else Cell(a, k.column) == Cell(b, k.column) && ComesFirst(keys[1..], a, b)
  }

  function Take<T>(n: int, xs: seq<T>): seq<T> {
    if n <= 0 then [] else if n < |xs| then xs[..n] else xs
  }

  function Execute(st: Statement, args: seq<Value>, table: seq<ClaimRow>): seq<ClaimRow>
    requires Binds(st, args)
  {
    var rows := Sort((a, b) => ComesFirst(st.order, a, b), Filter(r => AllHold(st.conditions, args, r), table));
    if st.limit.Some? then Take(args[|args| - 1].n, rows) else rows
  }

  /** What the database answers to a text and its arguments: nothing for a text it cannot
      read, or arguments that do not fit it. */
  function RunSql(sql: JsString, args: seq<Value>, table: seq<ClaimRow>): Option<seq<ClaimRow>> {
    match ReadStatement(sql)
    case None => None
    case Some(st) => if Binds(st, args) then Some(Execute(st, args, table)) else None
  }

  // ----- Reading words -----

  const BLANK: CodeUnit := 0x20
  const DOLLAR: CodeUnit := 0x24

  /** What a reader read, and the text after it. */
  datatype Read<T> = Read(value: T, rest: JsString)

  function ColumnNamed(word: JsString): Option<Column> {
    if word == Ascii("id") then Some(Id)
    else if word == Ascii("creator") then Some(Creator)
    else if word == Ascii("category") then Some(Category)
    else if word == Ascii("state") then Some(State)
    else if word == Ascii("parent_id") then Some(ParentId)
    else if word == Ascii("visibility") then Some(Visibility)
    else if word == Ascii("is_final") then Some(IsFinal)
    else if word == Ascii("updated_at") then Some(UpdatedAt)
    else if word == Ascii("deadline") then Some(Deadline)
    else None
  }

  /** A column name, up to the next blank. */
  function ReadColumn(s: JsString): (r: Option<Read<Column>>)
    ensures r.Some? ==> |r.value.rest| < |s|
  {
    var k := Until(s, BLANK);
    match ColumnNamed(s[..k])
    case None => None
    case Some(column) => Some(Read(column, s[k..]))
  }

  function DigitsPrefix(s: JsString): (k: nat)
    ensures k <= |s| && AllDigits(s[..k])
  {
    if s == [] || !IsDigit(s[0]) then 0
    else
      var k := DigitsPrefix(s[1..]);
      assert s[..k + 1] == [s[0]] + s[1..][..k];
      k + 1
  }

  /** A numbered placeholder. */
  function ReadMark(s: JsString): (r: Option<Read<nat>>)
    ensures r.Some? ==> |r.value.rest| < |s|
  {
    if s == [] || s[0] != DOLLAR then None
    else
      var k := DigitsPrefix(s[1..]);
      if k == 0 then None else Some(Read(DigitsValue(s[1..][..k]), s[1..][k..]))
  }

  function ReadMarks(s: JsString): (r: Option<Read<seq<nat>>>)
    ensures r.Some? ==> |r.value.rest| < |s|
    decreases |s|
  {
    match ReadMark(s)
    case None => None
    case Some(Read(mark, rest)) =>
      match StripPrefix(Ascii(", "), rest)
      case None => Some(Read([mark], rest))
      case Some(more) =>
        match ReadMarks(more)
        case None => None
        case Some(Read(marks, end)) => Some(Read([mark] + marks, end))
  }

  // ----- Reading statements -----

  /** The rest of a list of placeholders, which may be empty. */
  function ReadList(column: Column, s: JsString): (r: Option<Read<Condition>>)
    ensures r.Some? ==> |r.value.rest| <= |s|
  {
    match StripPrefix(Ascii(")"), s)
    case Some(end) => Some(Read(OneOf(column, []), end))
    case None =>
      match ReadMarks(s)
      case None => None
      case Some(Read(marks, rest)) =>
        match StripPrefix(Ascii(")"), rest)
        case None => None
        case Some(end) => Some(Read(OneOf(column, marks), end))
  }

  function ReadComparison(column: Column, less: bool, s: JsString): (r: Option<Read<Condition>>)
    ensures r.Some? ==> |r.value.rest| < |s|
  {
    match ReadMark(s)
    case None => None
    case Some(Read(k, rest)) => Some(Read(if less then LessThan(column, k) else EqualTo(column, k), rest))
  }

  function ReadOperator(column: Column, s: JsString): (r: Option<Read<Condition>>)
    ensures r.Some? ==> |r.value.rest| <= |s|
  {
    match StripPrefix(Ascii(" IN ("), s)
    case Some(list) => ReadList(column, list)
    case None =>
      match StripPrefix(Ascii(" = "), s)
      case Some(mark) => ReadComparison(column, false, mark)
      case None =>
        match StripPrefix(Ascii(" < "), s)
        case Some(mark) => ReadComparison(column, true, mark)
        case None => None
  }

  function ReadCondition(s: JsString): (r: Option<Read<Condition>>)
    ensures r.Some? ==> |r.value.rest| < |s|
  {
    match ReadColumn(s)
    case None => None
    case Some(Read(column, rest)) => ReadOperator(column, rest)
  }

  /** Conditions joined by AND. */
  function ReadConditions(s: JsString): Option<Read<seq<Condition>>>
    decreases |s|
  {
    match ReadCondition(s)
    case None => None
    case Some(Read(c, rest)) =>
      match StripPrefix(Ascii(" AND "), rest)
      case None => Some(Read([c], rest))
      case Some(more) =>
        match ReadConditions(more)
        case None => None
        case Some(Read(cs, end)) => Some(Read([c] + cs, end))
  }

  function ReadKey(s: JsString): (r: Option<Read<OrderKey>>)
    ensures r.Some? ==> |r.value.rest| < |s|
  {
    match ReadColumn(s)
    case None => None
    case Some(Read(column, rest)) =>
      match StripPrefix(Ascii(" ASC"), rest)
      case Some(end) => Some(Read(OrderKey(column, false), end))
      case None =>
        match StripPrefix(Ascii(" DESC"), rest)
        case Some(end) => Some(Read(OrderKey(column, true), end))
        case None => None
  }

  function ReadKeys(s: JsString): Option<Read<seq<OrderKey>>>
    decreases |s|
  {
    match ReadKey(s)
    case None => None
    case Some(Read(key, rest)) =>
      match StripPrefix(Ascii(", "), rest)
      case None => Some(Read([key], rest))
      case Some(more) =>
        match ReadKeys(more)
        case None => None
        case Some(Read(keys, end)) => Some(Read([key] + keys, end))
  }

  /** The end of a statement: nothing, or a limit. */
  function ReadLimit(s: JsString): Option<Option<nat>> {
    if s == [] then Some(None)
    else
      match StripPrefix(Ascii(" LIMIT "), s)
      case None => None
      case Some(mark) =>
        match ReadMark(mark)
        case Some(Read(k, rest)) => if rest == [] then Some(Some(k)) else None
        case None => None
  }

  function ReadOrder(conditions: seq<Condition>, s: JsString): Option<Statement> {
    match StripPrefix(Ascii(" ORDER BY "), s)
    case None => None
    case Some(text) =>
      match ReadKeys(text)
      case None => None
      case Some(Read(keys, rest)) =>
        match ReadLimit(rest)
        case None => None
        case Some(limit) => Some(Statement(conditions, keys, limit))
  }

  function ReadStatement(s: JsString): Option<Statement> {
    match StripPrefix(Ascii("SELECT * FROM claims "), s)
    case None => None
    case Some(text) =>
      match StripPrefix(Ascii("WHERE "), text)
      case None => ReadOrder([], text)
      case Some(clauses) =>
        match ReadConditions(clauses)
        case None => None
        case Some(Read(conditions, rest)) => ReadOrder(conditions, rest)
  }
}
