/** The text of the query that `getClaimsByFilter` builds, the numbering of its placeholders
    (lib/db.ts), and what the database reads in it. */
module QueryText {
  import opened Wrappers
  import opened JsStrings
  import opened ClaimsSql

  // ----- Queries -----

  datatype OrderBy = IdDesc | UpdatedDesc | DeadlineAsc | DeadlineDesc

  /** `column IN (?, ...)`, `column = ?` and `column < ?`. */
  datatype Clause = In(column: Column, count: nat) | Equals(column: Column) | Below(column: Column)

  datatype Query = Query(clauses: seq<Clause>, order: OrderBy, limited: bool)

  function Width(c: Clause): nat { if c.In? then c.count else 1 }

  function Widths(cs: seq<Clause>): nat {
    if cs == [] then 0 else Widths(cs[..|cs| - 1]) + Width(cs[|cs| - 1])
  }

  // ----- Text -----

  const QUESTION: CodeUnit := 0x3F
  const SELECT := Ascii("SELECT * FROM claims ")
  const WHERE := Ascii("WHERE ")
  const AND := Ascii(" AND ")
  const SPACE := Ascii(" ")
  const ORDER_BY := Ascii("ORDER BY ")
  const ASC := Ascii(" ASC")
  const DESC := Ascii(" DESC")
  const LIMIT := Ascii(" LIMIT ")
  const IN_OPEN := Ascii(" IN (")
  const COMMA := Ascii(", ")
  const CLOSE := Ascii(")")
  const EQUALS := Ascii(" = ")
  const BELOW := Ascii(" < ")

  function ColumnName(column: Column): JsString {
    match column
    case Id => Ascii("id")
    case Creator => Ascii("creator")
    case Category => Ascii("category")
    case State => Ascii("state")
    case ParentId => Ascii("parent_id")
    case Visibility => Ascii("visibility")
    case IsFinal => Ascii("is_final")
    case UpdatedAt => Ascii("updated_at")
    case Deadline => Ascii("deadline")
  }

  function KeyText(key: OrderKey): JsString { ColumnName(key.column) + if key.descending then DESC else ASC }

  /** The first key of an ordering; the others than `id_desc` go on with `id DESC`. */
  function FirstKey(order: OrderBy): OrderKey {
    match order
    case IdDesc => OrderKey(Id, true)
    case UpdatedDesc => OrderKey(UpdatedAt, true)
    case DeadlineAsc => OrderKey(Deadline, false)
    case DeadlineDesc => OrderKey(Deadline, true)
  }

  const ID_DESC := OrderKey(Id, true)

  function KeysText(order: OrderBy): JsString {
    KeyText(FirstKey(order)) + if order.IdDesc? then [] else COMMA + KeyText(ID_DESC)
  }

  function OrderText(order: OrderBy): JsString { ORDER_BY + KeysText(order) }

  /** A piece of query text: words, or a placeholder. */
  datatype Fragment = Words(text: JsString) | Mark

  /** `makeListPlaceholders`. */
  function ListFragments(count: nat): seq<Fragment> {
    if count == 0 then [] else if count == 1 then [Mark] else [Mark, Words(COMMA)] + ListFragments(count - 1)
  }

  function OperatorFragments(c: Clause): seq<Fragment> {
    match c
    case In(_, count) => [Words(IN_OPEN)] + ListFragments(count) + [Words(CLOSE)]
    case Equals(_) => [Words(EQUALS), Mark]
    case Below(_) => [Words(BELOW), Mark]
  }

  function ClauseFragments(c: Clause): seq<Fragment> { [Words(ColumnName(c.column))] + OperatorFragments(c) }

  /** The clauses joined by AND. */
  function ClausesFragments(cs: seq<Clause>): seq<Fragment> {
    if cs == [] then []
    else ClauseFragments(cs[0]) + if |cs| == 1 then [] else [Words(AND)] + ClausesFragments(cs[1..])
  }

  function WhereFragments(cs: seq<Clause>): seq<Fragment> {
    if cs == [] then [] else [Words(WHERE)] + ClausesFragments(cs)
  }

  function LimitFragments(limited: bool): seq<Fragment> { if limited then [Words(LIMIT), Mark] else [] }

  function QueryFragments(q: Query): seq<Fragment> {
    [Words(SELECT)]
    + (WhereFragments(q.clauses) + ([Words(SPACE)] + ([Words(OrderText(q.order))] + LimitFragments(q.limited))))
  }

  function Marks(fs: seq<Fragment>): nat {
    if fs == [] then 0 else Marks(fs[..|fs| - 1]) + if fs[|fs| - 1].Mark? then 1 else 0
  }

  /** The text of fragments after `k` placeholders; each is a bare question mark, or $i once
      numbered, counting from the left. */
  function Render(numbered: bool, fs: seq<Fragment>, k: nat): JsString {
    if fs == [] then []
    else
      var n := |fs| - 1;
      Render(numbered, fs[..n], k) +
      match fs[n]
      case Words(text) => text
      case Mark => if numbered then [DOLLAR] + Decimal(k + Marks(fs)) else [QUESTION]
  }

  function TextOf(numbered: bool, q: Query): JsString { Render(numbered, QueryFragments(q), 0) }

  // ----- Numbering -----

  function Questions(s: JsString): nat {
    if s == [] then 0 else Questions(s[..|s| - 1]) + if s[|s| - 1] == QUESTION then 1 else 0
  }

  /** The text with its i-th question mark replaced by $(k + i). */
  function Numbered(s: JsString, k: nat): JsString {
    if s == [] then []
    else
      var n := |s| - 1;
      Numbered(s[..n], k) + if s[n] == QUESTION then [DOLLAR] + Decimal(k + Questions(s)) else [s[n]]
  }

  /** `toPg`. */
  method ToPg(sql: JsString) returns (pg: JsString)
    ensures pg == Numbered(sql, 0)
  {
    pg := [];
    var i := 0;
    for j := 0 to |sql|
      invariant i == Questions(sql[..j]) && pg == Numbered(sql[..j], 0)
    {
      assert sql[..j + 1][..j] == sql[..j];
      if sql[j] == QUESTION {
        i := i + 1;
        pg := pg + [DOLLAR] + Decimal(i);
      } else {
        pg := pg + [sql[j]];
      }
    }
    assert sql[..|sql|] == sql;
  }

  predicate IsPlain(s: JsString) { QUESTION !in s && DOLLAR !in s }

  predicate PlainWords(fs: seq<Fragment>) {
    forall f | f in fs && f.Words? :: IsPlain(f.text)
  }

  /** Text without question marks stays as it is. */
  lemma {:induction false} NumberedThenPlain(a: JsString, text: JsString, k: nat)
    requires QUESTION !in text
    ensures Numbered(a + text, k) == Numbered(a, k) + text && Questions(a + text) == Questions(a)
  {
    if text == [] {
      assert a + text == a;
    } else {
      var n := |text| - 1;
      NumberedThenPlain(a, text[..n], k);
      assert (a + text)[..|a + text| - 1] == a + text[..n];
    }
  }

  lemma NumberedThenQuestion(a: JsString, k: nat)
    ensures Questions(a + [QUESTION]) == Questions(a) + 1
    ensures Numbered(a + [QUESTION], k) == Numbered(a, k) + ([DOLLAR] + Decimal(k + Questions(a) + 1))
  {
    assert (a + [QUESTION])[..|a|] == a;
  }

  /** Numbering the text of fragments numbers their placeholders from the left. */
  lemma {:induction false} RenderNumbered(fs: seq<Fragment>, k: nat)
    requires PlainWords(fs)
    ensures Numbered(Render(false, fs, k), k) == Render(true, fs, k)
    ensures Questions(Render(false, fs, k)) == Marks(fs) && DOLLAR !in Render(false, fs, k)
  {
    if fs != [] {
      var n := |fs| - 1;
      RenderNumbered(fs[..n], k);
      match fs[n]
      case Words(text) => NumberedThenPlain(Render(false, fs[..n], k), text, k);
      case Mark => NumberedThenQuestion(Render(false, fs[..n], k), k);
    }
  }

  /** The placeholders of later fragments continue the count of earlier ones. */
  lemma {:induction false} RenderConcat(numbered: bool, fs: seq<Fragment>, gs: seq<Fragment>, k: nat)
    ensures Marks(fs + gs) == Marks(fs) + Marks(gs)
    ensures Render(numbered, fs + gs, k) == Render(numbered, fs, k) + Render(numbered, gs, k + Marks(fs))
  {
    if gs == [] {
      assert fs + gs == fs;
    } else {
      var n := |gs| - 1;
      assert (fs + gs)[..|fs + gs| - 1] == fs + gs[..n];
      RenderConcat(numbered, fs, gs[..n], k);
    }
  }

  lemma MarksConcat(fs: seq<Fragment>, gs: seq<Fragment>)
    ensures Marks(fs + gs) == Marks(fs) + Marks(gs)
  {
    RenderConcat(true, fs, gs, 0);
  }

  lemma WordsFirst(text: JsString, fs: seq<Fragment>, k: nat)
    ensures Marks([Words(text)] + fs) == Marks(fs)
    ensures Render(true, [Words(text)] + fs, k) == text + Render(true, fs, k)
  {
    RenderConcat(true, [Words(text)], fs, k);
    assert [Words(text)][..0] == [];
  }

  lemma MarkFirst(fs: seq<Fragment>, k: nat)
    ensures Marks([Mark] + fs) == 1 + Marks(fs)
    ensures Render(true, [Mark] + fs, k) == [DOLLAR] + Decimal(k + 1) + Render(true, fs, k + 1)
  {
    RenderConcat(true, [Mark], fs, k);
    assert [Mark][..0] == [];
  }

  // ----- One placeholder for each argument -----

  lemma {:induction false} ListMarks(count: nat)
    ensures Marks(ListFragments(count)) == count
  {
    if count == 1 {
      assert [Mark][..0] == [];
    } else if count > 1 {
      ListMarks(count - 1);
      var rest := [Words(COMMA)] + ListFragments(count - 1);
      assert ListFragments(count) == [Mark] + rest;
      MarkFirst(rest, 0);
      WordsFirst(COMMA, ListFragments(count - 1), 0);
    }
  }

  lemma WordsThenMark(text: JsString, k: nat)
    ensures Marks([Words(text), Mark]) == 1
    ensures Render(true, [Words(text), Mark], k) == text + ([DOLLAR] + Decimal(k + 1))
  {
    assert [Words(text), Mark] == [Words(text)] + ([Mark] + []);
    MarkFirst([], k);
    WordsFirst(text, [Mark] + [], k);
  }

  /** A clause has as many placeholders as it takes arguments. */
  lemma ClauseMarks(c: Clause)
    ensures Marks(ClauseFragments(c)) == Width(c)
  {
    WordsFirst(ColumnName(c.column), OperatorFragments(c), 0);
    match c
    case In(_, count) =>
      ListMarks(count);
      WordsFirst(IN_OPEN, ListFragments(count), 0);
      MarksConcat([Words(IN_OPEN)] + ListFragments(count), [Words(CLOSE)]);
    case Equals(_) => WordsThenMark(EQUALS, 0);
    case Below(_) => WordsThenMark(BELOW, 0);
  }

  lemma {:induction false} WidthsCons(cs: seq<Clause>)
    requires cs != []
    ensures Widths(cs) == Width(cs[0]) + Widths(cs[1..])
  {
    var n := |cs| - 1;
    if n > 0 {
      WidthsCons(cs[..n]);
      assert cs[..n][1..] == cs[1..][..n - 1];
    }
  }

  lemma ClauseThenOthers(cs: seq<Clause>)
    requires |cs| > 1
    ensures ClausesFragments(cs) == ClauseFragments(cs[0]) + ([Words(AND)] + ClausesFragments(cs[1..]))
  {
  }

  lemma JoinedText(first: seq<Fragment>, rest: seq<Fragment>, k: nat, j: nat)
    requires j == k + Marks(first)
    ensures Marks(first + ([Words(AND)] + rest)) == Marks(first) + Marks(rest)
    ensures Render(true, first + ([Words(AND)] + rest), k) == Render(true, first, k) + (AND + Render(true, rest, j))
  {
    RenderConcat(true, first, [Words(AND)] + rest, k);
    WordsFirst(AND, rest, j);
  }

  function ClauseText(c: Clause, k: nat): JsString { Render(true, ClauseFragments(c), k) }

  /** Texts joined by AND. */
  function Joined(texts: seq<JsString>): JsString {
    if texts == [] then [] else if |texts| == 1 then texts[0] else texts[0] + (AND + Joined(texts[1..]))
  }

  /** Something made of each clause and a count that its predecessors' arguments advance. */
  function Spread<T>(f: (Clause, nat) -> T, cs: seq<Clause>, k: nat): seq<T> {
    seq(|cs|, i requires 0 <= i < |cs| => f(cs[i], k + Widths(cs[..i])))
  }

  lemma SpreadCons<T>(f: (Clause, nat) -> T, cs: seq<Clause>, k: nat, next: nat)
    requires cs != [] && next == k + Width(cs[0])
    ensures Spread(f, cs, k) == [f(cs[0], k)] + Spread(f, cs[1..], next)
  {
    var all := [f(cs[0], k)] + Spread(f, cs[1..], next);
    forall i | 0 < i < |cs| ensures Spread(f, cs, k)[i] == all[i] {
      WidthsShift(cs, i);
      assert k + Widths(cs[..i]) == next + Widths(cs[1..][..i - 1]);
      assert cs[1..][i - 1] == cs[i];
    }
    assert k + Widths(cs[..0]) == k;
  }

  /** The texts of the clauses after `k` placeholders. */
  function ClauseTexts(cs: seq<Clause>, k: nat): seq<JsString> { Spread(ClauseText, cs, k) }

  lemma WidthsShift(cs: seq<Clause>, i: nat)
    requires 0 < i <= |cs|
    ensures Widths(cs[..i]) == Width(cs[0]) + Widths(cs[1..][..i - 1])
  {
    WidthsCons(cs[..i]);
    assert cs[..i][1..] == cs[1..][..i - 1];
  }

  lemma JoinedCons(text: JsString, texts: seq<JsString>)
    requires texts != []
    ensures Joined([text] + texts) == text + (AND + Joined(texts))
  {
    assert ([text] + texts)[1..] == texts;
  }

  lemma {:induction false} ClausesRender(cs: seq<Clause>, k: nat)
    ensures Render(true, ClausesFragments(cs), k) == Joined(ClauseTexts(cs, k))
      && Marks(ClausesFragments(cs)) == Widths(cs)
  {
    if |cs| == 1 {
      ClauseMarks(cs[0]);
      assert ClausesFragments(cs) == ClauseFragments(cs[0]);
      WidthsCons(cs);
      SpreadCons(ClauseText, cs, k, k + Width(cs[0]));
      assert ClauseTexts(cs, k) == [ClauseText(cs[0], k)];
    } else if |cs| > 1 {
      var next := k + Width(cs[0]);
      ClausesRender(cs[1..], next);
      ClauseThenOthers(cs);
      ClauseMarks(cs[0]);
      JoinedText(ClauseFragments(cs[0]), ClausesFragments(cs[1..]), k, next);
      SpreadCons(ClauseText, cs, k, next);
      JoinedCons(ClauseText(cs[0], k), ClauseTexts(cs[1..], next));
      WidthsCons(cs);
    }
  }

  // ----- What the database reads -----

  /** A clause whose first placeholder is `first`. */
  function ConditionOf(c: Clause, first: nat): Condition {
    match c
    case In(column, count) => OneOf(column, MarksFrom(first, count))
    case Equals(column) => EqualTo(column, first)
    case Below(column) => LessThan(column, first)
  }

  /** Each clause is numbered from where the ones before it end. */
  function ConditionsFrom(cs: seq<Clause>, first: nat): seq<Condition> { Spread(ConditionOf, cs, first) }

  function KeysOf(order: OrderBy): seq<OrderKey> { [FirstKey(order)] + if order.IdDesc? then [] else [ID_DESC] }

  /** The limit is the last placeholder. */
  function StatementOf(q: Query): Statement {
    Statement(ConditionsFrom(q.clauses, 1), KeysOf(q.order), if q.limited then Some(Widths(q.clauses) + 1) else None)
  }

  predicate StartsWith(s: JsString, u: CodeUnit) { s != [] && s[0] == u }

  lemma NotAPrefix(prefix: JsString, s: JsString, i: nat)
    requires i < |prefix| && i < |s| && prefix[i] != s[i]
    ensures StripPrefix(prefix, s) == None
  {
  }

  lemma {:induction false} DigitsPrefixOf(digits: JsString, rest: JsString)
    requires AllDigits(digits) && (rest == [] || !IsDigit(rest[0]))
    ensures DigitsPrefix(digits + rest) == |digits|
    ensures (digits + rest)[..|digits|] == digits && (digits + rest)[|digits|..] == rest
  {
    if digits == [] {
      assert digits + rest == rest;
    } else {
      assert (digits + rest)[1..] == digits[1..] + rest;
      DigitsPrefixOf(digits[1..], rest);
    }
  }

  lemma DigitsRead(s: JsString, digits: JsString, rest: JsString)
    requires s != [] && s[0] == DOLLAR && s[1..] == digits + rest
    requires digits != [] && AllDigits(digits) && (rest == [] || !IsDigit(rest[0]))
    ensures ReadMark(s) == Some(Read(DigitsValue(digits), rest))
  {
    DigitsPrefixOf(digits, rest);
  }

  lemma NumberReads(digits: JsString, rest: JsString)
    requires digits != [] && AllDigits(digits) && (rest == [] || !IsDigit(rest[0]))
    ensures ReadMark([DOLLAR] + digits + rest) == Some(Read(DigitsValue(digits), rest))
  {
    assert ([DOLLAR] + digits + rest)[1..] == digits + rest;
    DigitsRead([DOLLAR] + digits + rest, digits, rest);
  }

  lemma MarkReads(k: nat, rest: JsString)
    requires rest == [] || !IsDigit(rest[0])
    ensures ReadMark([DOLLAR] + Decimal(k) + rest) == Some(Read(k, rest))
  {
    DecimalRoundTrip(k);
    NumberReads(Decimal(k), rest);
  }

  function MarkText(k: nat): JsString { [DOLLAR] + Decimal(k) }

  lemma LastMarkReads(k: nat, rest: JsString)
    requires StartsWith(rest, 0x29)
    ensures ReadMarks(MarkText(k) + rest) == Some(Read([k], rest))
  {
    MarkReads(k, rest);
    NotAPrefix(Ascii(", "), rest, 0);
  }

  lemma NextMarkReads(k: nat, more: JsString, marks: seq<nat>, rest: JsString)
    requires ReadMarks(more) == Some(Read(marks, rest))
    ensures ReadMarks(MarkText(k) + (COMMA + more)) == Some(Read([k] + marks, rest))
  {
    MarkReads(k, COMMA + more);
    StripOwnPrefix(COMMA, more);
  }

  lemma ListText(count: nat, k: nat)
    requires count > 0
    ensures Render(true, ListFragments(count), k)
         == MarkText(k + 1) + if count == 1 then [] else COMMA + Render(true, ListFragments(count - 1), k + 1)
  {
    if count == 1 {
      assert [Mark] == [Mark] + [];
      MarkFirst([], k);
    } else {
      assert ListFragments(count) == [Mark] + ([Words(COMMA)] + ListFragments(count - 1));
      MarkFirst([Words(COMMA)] + ListFragments(count - 1), k);
      WordsFirst(COMMA, ListFragments(count - 1), k + 1);
    }
  }

  lemma MarksFromCons(first: nat, n: nat)
    requires n > 0
    ensures MarksFrom(first, n) == [first] + MarksFrom(first + 1, n - 1)
  {
  }

  lemma Regroup(a: JsString, b: JsString, c: JsString, rest: JsString)
    ensures a + (b + c) + rest == a + (b + (c + rest))
  {
  }

  lemma {:induction false} MarksRead(count: nat, k: nat, rest: JsString)
    requires count > 0 && StartsWith(rest, 0x29)
    ensures ReadMarks(Render(true, ListFragments(count), k) + rest) == Some(Read(MarksFrom(k + 1, count), rest))
  {
    ListText(count, k);
    MarksFromCons(k + 1, count);
    if count == 1 {
      LastMarkReads(k + 1, rest);
      assert MarkText(k + 1) + [] == MarkText(k + 1) && MarksFrom(k + 1, 1) == [k + 1];
    } else {
      var list := Render(true, ListFragments(count - 1), k + 1);
      MarksRead(count - 1, k + 1, rest);
      NextMarkReads(k + 1, list + rest, MarksFrom(k + 2, count - 1), rest);
      Regroup(MarkText(k + 1), COMMA, list, rest);
    }
  }

  lemma CloseUnit()
    ensures CLOSE == [0x29]
  {
  }

  lemma ListReads(column: Column, count: nat, k: nat, rest: JsString)
    ensures ReadList(column, Render(true, ListFragments(count), k) + (CLOSE + rest))
      == Some(Read(OneOf(column, MarksFrom(k + 1, count)), rest))
  {
    CloseUnit();
    StripOwnPrefix(CLOSE, rest);
    var list := Render(true, ListFragments(count), k);
    if count == 0 {
      assert list + (CLOSE + rest) == CLOSE + rest;
      assert MarksFrom(k + 1, 0) == [];
    } else {
      ListText(count, k);
      NotAPrefix(CLOSE, list + (CLOSE + rest), 0);
      MarksRead(count, k, CLOSE + rest);
    }
  }

  /** The three operators differ after their blank. */
  lemma OperatorUnits()
    ensures |IN_OPEN| > 1 && |EQUALS| > 1 && |BELOW| > 1
    ensures IN_OPEN[1] == 0x49 && EQUALS[1] == 0x3D && BELOW[1] == 0x3C
  {
  }

  lemma OperatorReads(c: Clause, k: nat, rest: JsString)
    requires StartsWith(rest, BLANK)
    ensures ReadOperator(c.column, Render(true, OperatorFragments(c), k) + rest)
      == Some(Read(ConditionOf(c, k + 1), rest))
  {
    OperatorUnits();
    var s := Render(true, OperatorFragments(c), k) + rest;
    match c
    case In(column, count) =>
      var list := Render(true, ListFragments(count), k);
      RenderConcat(true, [Words(IN_OPEN)] + ListFragments(count), [Words(CLOSE)], k);
      WordsFirst(IN_OPEN, ListFragments(count), k);
      WordsFirst(CLOSE, [], k + count);
      ListMarks(count);
      assert [Words(CLOSE)] + [] == [Words(CLOSE)];
      assert s == IN_OPEN + (list + (CLOSE + rest));
      StripOwnPrefix(IN_OPEN, list + (CLOSE + rest));
      ListReads(column, count, k, rest);
    case Equals(_) => EqualsReads(c.column, k, rest);
    case Below(_) => BelowReads(c.column, k, rest);
  }

  lemma EqualsReads(column: Column, k: nat, rest: JsString)
    requires StartsWith(rest, BLANK)
    ensures ReadOperator(column, Render(true, [Words(EQUALS), Mark], k) + rest)
      == Some(Read(EqualTo(column, k + 1), rest))
  {
    OperatorUnits();
    WordsThenMark(EQUALS, k);
    var s := EQUALS + (MarkText(k + 1) + rest);
    assert Render(true, [Words(EQUALS), Mark], k) + rest == s;
    NotAPrefix(IN_OPEN, s, 1);
    StripOwnPrefix(EQUALS, MarkText(k + 1) + rest);
    MarkReads(k + 1, rest);
  }

  lemma BelowReads(column: Column, k: nat, rest: JsString)
    requires StartsWith(rest, BLANK)
    ensures ReadOperator(column, Render(true, [Words(BELOW), Mark], k) + rest)
      == Some(Read(LessThan(column, k + 1), rest))
  {
    OperatorUnits();
    WordsThenMark(BELOW, k);
    var s := BELOW + (MarkText(k + 1) + rest);
    assert Render(true, [Words(BELOW), Mark], k) + rest == s;
    NotAPrefix(IN_OPEN, s, 1);
    NotAPrefix(EQUALS, s, 1);
    StripOwnPrefix(BELOW, MarkText(k + 1) + rest);
    MarkReads(k + 1, rest);
  }

  lemma NamesHaveNoBlank(column: Column)
    ensures BLANK !in ColumnName(column)
  {
  }

  lemma NameLengths()
    ensures |ColumnName(Id)| == 2 && |ColumnName(State)| == 5 && |ColumnName(Creator)| == 7
      && |ColumnName(ParentId)| == 9
    ensures |ColumnName(Category)| == |ColumnName(IsFinal)| == |ColumnName(Deadline)| == 8
    ensures |ColumnName(Visibility)| == |ColumnName(UpdatedAt)| == 10
  {
  }

  lemma NameInitials()
    ensures ColumnName(Category)[0] == 0x63 && ColumnName(IsFinal)[0] == 0x69 && ColumnName(Deadline)[0] == 0x64
    ensures ColumnName(Visibility)[0] == 0x76 && ColumnName(UpdatedAt)[0] == 0x75
  {
  }

  lemma NamesAreNames(column: Column)
    ensures ColumnNamed(ColumnName(column)) == Some(column)
  {
    NameLengths();
    NameInitials();
  }

  lemma ColumnReads(column: Column, rest: JsString)
    requires StartsWith(rest, BLANK)
    ensures ReadColumn(ColumnName(column) + rest) == Some(Read(column, rest))
  {
    var name := ColumnName(column);
    NamesAreNames(column);
    NamesHaveNoBlank(column);
    assert name + rest == name + [BLANK] + rest[1..];
    UntilSeparator(name, BLANK, rest[1..]);
    assert (name + rest)[..|name|] == name && (name + rest)[|name|..] == rest;
  }

  lemma OperatorStarts(c: Clause, k: nat, rest: JsString)
    ensures StartsWith(Render(true, OperatorFragments(c), k) + rest, BLANK)
  {
    BlankUnits();
    match c
    case In(_, count) =>
      RenderConcat(true, [Words(IN_OPEN)] + ListFragments(count), [Words(CLOSE)], k);
      WordsFirst(IN_OPEN, ListFragments(count), k);
    case Equals(_) => WordsThenMark(EQUALS, k);
    case Below(_) => WordsThenMark(BELOW, k);
  }

  lemma BlankUnits()
    ensures StartsWith(IN_OPEN, BLANK) && StartsWith(EQUALS, BLANK) && StartsWith(BELOW, BLANK)
    ensures StartsWith(ASC, BLANK) && StartsWith(DESC, BLANK) && StartsWith(AND, BLANK) && SPACE == [BLANK]
  {
  }

  lemma ConditionReads(c: Clause, k: nat, rest: JsString)
    requires StartsWith(rest, BLANK)
    ensures ReadCondition(ClauseText(c, k) + rest) == Some(Read(ConditionOf(c, k + 1), rest))
  {
    var operator := Render(true, OperatorFragments(c), k);
    WordsFirst(ColumnName(c.column), OperatorFragments(c), k);
    OperatorStarts(c, k, rest);
    ColumnReads(c.column, operator + rest);
    OperatorReads(c, k, rest);
    Regroup([], ColumnName(c.column), operator, rest);
    assert [] + (ColumnName(c.column) + operator) == ColumnName(c.column) + operator;
    assert [] + (ColumnName(c.column) + (operator + rest)) == ColumnName(c.column) + (operator + rest);
  }

  /** What may follow the conditions: a blank, and no AND. */
  predicate EndsConditions(rest: JsString) { |rest| > 1 && rest[0] == BLANK && rest[1] == 0x4F }

  /** A text reads as a condition wherever a blank follows it. */
  ghost predicate ReadsAs(text: JsString, c: Condition) {
    forall rest | StartsWith(rest, BLANK) :: ReadCondition(text + rest) == Some(Read(c, rest))
  }

  lemma LastConditionReads(text: JsString, c: Condition, rest: JsString)
    requires ReadsAs(text, c) && EndsConditions(rest)
    ensures ReadConditions(text + rest) == Some(Read([c], rest))
  {
    AndUnits();
    NotAPrefix(AND, rest, 1);
  }

  lemma NextConditionReads(text: JsString, c: Condition, others: JsString, rest: JsString)
    requires ReadsAs(text, c)
    ensures ReadConditions(text + (AND + others) + rest)
      == match ReadConditions(others + rest)
         case None => None
         case Some(Read(cs, end)) => Some(Read([c] + cs, end))
  {
    var more := others + rest;
    BlankUnits();
    StripOwnPrefix(AND, more);
    Regroup(text, AND, others, rest);
    assert ReadCondition(text + (AND + more)) == Some(Read(c, AND + more));
  }

  lemma OneMoreCondition(
    whole: JsString, text: JsString, c: Condition, others: JsString, cs: seq<Condition>, rest: JsString)
    requires ReadsAs(text, c) && whole == text + (AND + others)
    ensures ReadConditions(others + rest) == Some(Read(cs, rest))
      ==> ReadConditions(whole + rest) == Some(Read([c] + cs, rest))
  {
    NextConditionReads(text, c, others, rest);
  }

  lemma {:induction false} ConditionsRead(texts: seq<JsString>, cs: seq<Condition>, rest: JsString)
    requires |texts| == |cs| > 0 && EndsConditions(rest)
    requires forall i | 0 <= i < |cs| :: ReadsAs(texts[i], cs[i])
    ensures ReadConditions(Joined(texts) + rest) == Some(Read(cs, rest))
  {
    if |cs| == 1 {
      LastConditionReads(texts[0], cs[0], rest);
      assert cs == [cs[0]];
    } else {
      ConditionsRead(texts[1..], cs[1..], rest);
      OneMoreCondition(Joined(texts), texts[0], cs[0], Joined(texts[1..]), cs[1..], rest);
      assert cs == [cs[0]] + cs[1..];
    }
  }

  lemma AndUnits()
    ensures |AND| > 1 && AND[1] == 0x41
  {
  }

  lemma ClausesRead(cs: seq<Clause>, rest: JsString)
    requires cs != [] && EndsConditions(rest)
    ensures ReadConditions(Joined(ClauseTexts(cs, 0)) + rest) == Some(Read(ConditionsFrom(cs, 1), rest))
  {
    var texts, conditions := ClauseTexts(cs, 0), ConditionsFrom(cs, 1);
    forall i | 0 <= i < |cs| ensures ReadsAs(texts[i], conditions[i]) {
      ClauseReads(cs[i], 0 + Widths(cs[..i]), 1 + Widths(cs[..i]), texts[i], conditions[i]);
    }
    ConditionsRead(texts, conditions, rest);
  }

  lemma ClauseReads(c: Clause, k: nat, first: nat, text: JsString, condition: Condition)
    requires first == k + 1 && text == ClauseText(c, k) && condition == ConditionOf(c, first)
    ensures ReadsAs(text, condition)
  {
    forall rest | StartsWith(rest, BLANK) ensures ReadCondition(text + rest) == Some(Read(condition, rest)) {
      ConditionReads(c, k, rest);
    }
  }

  // ----- The ordering and the limit -----

  function Direction(descending: bool): JsString { if descending then DESC else ASC }

  lemma KeyReads(key: OrderKey, rest: JsString)
    ensures ReadKey(KeyText(key) + rest) == Some(Read(key, rest))
  {
    var name, after := ColumnName(key.column), Direction(key.descending) + rest;
    BlankUnits();
    ColumnReads(key.column, after);
    assert KeyText(key) + rest == name + after;
    DirectionAfterColumn(name + after, key, rest);
  }

  lemma DirectionAfterColumn(s: JsString, key: OrderKey, rest: JsString)
    requires ReadColumn(s) == Some(Read(key.column, Direction(key.descending) + rest))
    ensures ReadKey(s) == Some(Read(key, rest))
  {
    DirectionReads(key, rest);
  }

  lemma DirectionReads(key: OrderKey, rest: JsString)
    ensures key.descending ==> StripPrefix(ASC, DESC + rest) == None && StripPrefix(DESC, DESC + rest) == Some(rest)
    ensures !key.descending ==> StripPrefix(ASC, ASC + rest) == Some(rest)
  {
    DirectionUnits();
    StripOwnPrefix(DESC, rest);
    StripOwnPrefix(ASC, rest);
    NotAPrefix(ASC, DESC + rest, 1);
  }

  lemma DirectionUnits()
    ensures |ASC| > 1 && |DESC| > 1 && ASC[1] == 0x41 && DESC[1] == 0x44
  {
  }

  lemma LastKeyReads(key: OrderKey, rest: JsString)
    requires rest == [] || rest[0] == BLANK
    ensures ReadKeys(KeyText(key) + rest) == Some(Read([key], rest))
  {
    KeyReads(key, rest);
    if rest != [] { NotAPrefix(COMMA, rest, 0); }
  }

  lemma NextKeyReads(key: OrderKey, more: JsString, keys: seq<OrderKey>, rest: JsString)
    requires ReadKeys(more) == Some(Read(keys, rest))
    ensures ReadKeys(KeyText(key) + (COMMA + more)) == Some(Read([key] + keys, rest))
  {
    KeyReads(key, COMMA + more);
    StripOwnPrefix(COMMA, more);
  }

  lemma KeysRead(order: OrderBy, rest: JsString)
    requires rest == [] || rest[0] == BLANK
    ensures ReadKeys(KeysText(order) + rest) == Some(Read(KeysOf(order), rest))
  {
    var first, last := KeyText(FirstKey(order)), KeyText(ID_DESC);
    if order.IdDesc? {
      LastKeyReads(FirstKey(order), rest);
      assert first + [] == first && KeysOf(order) == [FirstKey(order)];
    } else {
      LastKeyReads(ID_DESC, rest);
      NextKeyReads(FirstKey(order), last + rest, [ID_DESC], rest);
      Regroup(first, COMMA, last, rest);
      assert KeysOf(order) == [FirstKey(order)] + [ID_DESC];
    }
  }

  lemma LimitReads(limited: bool, k: nat)
    ensures ReadLimit(Render(true, LimitFragments(limited), k)) == Some(if limited then Some(k + 1) else None)
  {
    if limited {
      WordsThenMark(LIMIT, k);
      StripOwnPrefix(LIMIT, MarkText(k + 1));
      MarkReads(k + 1, []);
      assert MarkText(k + 1) + [] == MarkText(k + 1);
    }
  }

  lemma LimitStarts(limited: bool, k: nat)
    ensures var s := Render(true, LimitFragments(limited), k); s == [] || s[0] == BLANK
  {
    if limited {
      WordsThenMark(LIMIT, k);
      assert LIMIT[0] == BLANK;
    }
  }

  /** The text from the ordering on. */
  function TailText(order: OrderBy, limit: JsString): JsString { SPACE + (OrderText(order) + limit) }

  lemma RegroupTail(a: JsString, b: JsString, c: JsString, d: JsString)
    ensures a + ((b + c) + d) == (a + b) + (c + d)
  {
  }

  lemma OrderReads(conditions: seq<Condition>, order: OrderBy, limited: bool, k: nat, st: Statement)
    requires st == Statement(conditions, KeysOf(order), if limited then Some(k + 1) else None)
    ensures ReadOrder(conditions, TailText(order, Render(true, LimitFragments(limited), k))) == Some(st)
  {
    var limit := Render(true, LimitFragments(limited), k);
    LimitReads(limited, k);
    LimitStarts(limited, k);
    KeysRead(order, limit);
    OrderBySplits();
    RegroupTail(SPACE, ORDER_BY, KeysText(order), limit);
    StripOwnPrefix(Ascii(" ORDER BY "), KeysText(order) + limit);
  }

  lemma OrderBySplits()
    ensures Ascii(" ORDER BY ") == SPACE + ORDER_BY && |ORDER_BY| > 0 && ORDER_BY[0] == 0x4F
  {
  }

  // ----- The statement -----

  lemma WhereText(cs: seq<Clause>)
    ensures Marks(WhereFragments(cs)) == Widths(cs)
    ensures Render(true, WhereFragments(cs), 0) == if cs == [] then [] else WHERE + Joined(ClauseTexts(cs, 0))
  {
    if cs != [] {
      ClausesRender(cs, 0);
      WordsFirst(WHERE, ClausesFragments(cs), 0);
    }
  }

  lemma QueryParts(q: Query)
    ensures TextOf(true, q)
         == SELECT + (Render(true, WhereFragments(q.clauses), 0)
                      + TailText(q.order, Render(true, LimitFragments(q.limited), Widths(q.clauses))))
    ensures Marks(QueryFragments(q)) == Widths(q.clauses) + if q.limited then 1 else 0
  {
    var where, limit := WhereFragments(q.clauses), LimitFragments(q.limited);
    WhereText(q.clauses);
    PartsText(where, OrderText(q.order), limit, Widths(q.clauses));
    if q.limited { WordsThenMark(LIMIT, 0); }
  }

  lemma PartsText(where: seq<Fragment>, order: JsString, limit: seq<Fragment>, k: nat)
    requires k == Marks(where)
    ensures var fs := [Words(SELECT)] + (where + ([Words(SPACE)] + ([Words(order)] + limit)));
      && Marks(fs) == k + Marks(limit)
      && Render(true, fs, 0) == SELECT + (Render(true, where, 0) + (SPACE + (order + Render(true, limit, k))))
  {
    var tail := [Words(SPACE)] + ([Words(order)] + limit);
    WordsFirst(SPACE, [Words(order)] + limit, k);
    WordsFirst(order, limit, k);
    BeforeTail(where, tail, k);
  }

  lemma BeforeTail(where: seq<Fragment>, tail: seq<Fragment>, k: nat)
    requires k == Marks(where)
    ensures Marks([Words(SELECT)] + (where + tail)) == k + Marks(tail)
    ensures Render(true, [Words(SELECT)] + (where + tail), 0)
      == SELECT + (Render(true, where, 0) + Render(true, tail, k))
  {
    WordsFirst(SELECT, where + tail, 0);
    RenderConcat(true, where, tail, 0);
  }

  lemma ReadsWithoutWhere(tail: JsString, st: Statement)
    requires ReadOrder([], tail) == Some(st) && StartsWith(tail, BLANK)
    ensures ReadStatement(SELECT + ([] + tail)) == Some(st)
  {
    assert [] + tail == tail;
    WhereUnits();
    StripOwnPrefix(SELECT, tail);
    NotAPrefix(WHERE, tail, 0);
  }

  lemma ReadsWithWhere(clauses: JsString, tail: JsString)
    ensures ReadStatement(SELECT + ((WHERE + clauses) + tail))
      == match ReadConditions(clauses + tail)
         case None => None
         case Some(Read(conditions, rest)) => ReadOrder(conditions, rest)
  {
    assert (WHERE + clauses) + tail == WHERE + (clauses + tail);
    StripOwnPrefix(SELECT, WHERE + (clauses + tail));
    StripOwnPrefix(WHERE, clauses + tail);
  }

  lemma TailStarts(order: OrderBy, limit: JsString)
    ensures StartsWith(TailText(order, limit), BLANK) && EndsConditions(TailText(order, limit))
  {
    BlankUnits();
    OrderBySplits();
  }

  /** The database reads the numbered text back as the query: every clause with its own
      placeholders, in order from $1, the ordering, and the limit as the last placeholder. */
  lemma StatementReads(q: Query)
    ensures ReadStatement(TextOf(true, q)) == Some(StatementOf(q))
  {
    var limit := Render(true, LimitFragments(q.limited), Widths(q.clauses));
    var tail := TailText(q.order, limit);
    TailStarts(q.order, limit);
    if q.clauses == [] {
      assert ConditionsFrom(q.clauses, 1) == [];
      OrderReads([], q.order, q.limited, Widths(q.clauses), StatementOf(q));
      ReadsWithoutWhere(tail, StatementOf(q));
    } else {
      OrderReads(ConditionsFrom(q.clauses, 1), q.order, q.limited, Widths(q.clauses), StatementOf(q));
      ClausesRead(q.clauses, tail);
      ReadsWithWhere(Joined(ClauseTexts(q.clauses, 0)), tail);
    }
    QueryParts(q);
    WhereText(q.clauses);
  }

  lemma WhereUnits()
    ensures |WHERE| > 0 && WHERE[0] == 0x57
  {
  }

  // ----- Numbering the whole query -----

  lemma WordsPlain()
    ensures IsPlain(SELECT) && IsPlain(WHERE) && IsPlain(AND) && IsPlain(SPACE) && IsPlain(LIMIT)
    ensures IsPlain(IN_OPEN) && IsPlain(COMMA) && IsPlain(CLOSE) && IsPlain(EQUALS) && IsPlain(BELOW)
    ensures IsPlain(ORDER_BY) && IsPlain(ASC) && IsPlain(DESC)
  {
  }

  lemma NamesPlain(column: Column)
    ensures IsPlain(ColumnName(column))
  {
  }

  lemma OrderPlain(order: OrderBy)
    requires IsPlain(ORDER_BY) && IsPlain(ASC) && IsPlain(DESC) && IsPlain(COMMA)
    ensures IsPlain(OrderText(order))
  {
    NamesPlain(FirstKey(order).column);
    NamesPlain(Id);
  }

  lemma {:induction false} ListPlain(count: nat)
    requires IsPlain(COMMA)
    ensures PlainWords(ListFragments(count))
  {
    if count > 1 { ListPlain(count - 1); }
  }

  lemma ClausePlain(c: Clause)
    requires IsPlain(IN_OPEN) && IsPlain(COMMA) && IsPlain(CLOSE) && IsPlain(EQUALS) && IsPlain(BELOW)
    ensures PlainWords(ClauseFragments(c))
  {
    NamesPlain(c.column);
    if c.In? { ListPlain(c.count); }
  }

  lemma {:induction false} ClausesPlain(cs: seq<Clause>)
    requires IsPlain(IN_OPEN) && IsPlain(COMMA) && IsPlain(CLOSE) && IsPlain(EQUALS) && IsPlain(BELOW) && IsPlain(AND)
    ensures PlainWords(ClausesFragments(cs))
  {
    if cs != [] {
      ClausePlain(cs[0]);
      ClausesPlain(cs[1..]);
    }
  }

  lemma PlainConcat(fs: seq<Fragment>, gs: seq<Fragment>)
    requires PlainWords(fs) && PlainWords(gs)
    ensures PlainWords(fs + gs)
  {
  }

  lemma QueryPlain(q: Query)
    requires IsPlain(SELECT) && IsPlain(WHERE) && IsPlain(SPACE) && IsPlain(LIMIT) && IsPlain(OrderText(q.order))
    requires PlainWords(ClausesFragments(q.clauses))
    ensures PlainWords(QueryFragments(q))
  {
    PlainConcat([Words(WHERE)], ClausesFragments(q.clauses));
    var order, limit := [Words(OrderText(q.order))], LimitFragments(q.limited);
    assert PlainWords(limit);
    PlainConcat(order, limit);
    PlainConcat([Words(SPACE)], order + limit);
    PlainConcat(WhereFragments(q.clauses), [Words(SPACE)] + (order + limit));
    PlainConcat([Words(SELECT)], WhereFragments(q.clauses) + ([Words(SPACE)] + (order + limit)));
  }

  /** Numbering the generated text, which holds no dollar sign, gives the query with its k-th
      placeholder written $k, for every combination of clauses. */
  lemma QueryNumbered(q: Query)
    ensures DOLLAR !in TextOf(false, q) && Numbered(TextOf(false, q), 0) == TextOf(true, q)
    ensures Questions(TextOf(false, q)) == Widths(q.clauses) + if q.limited then 1 else 0
  {
    WordsPlain();
    OrderPlain(q.order);
    ClausesPlain(q.clauses);
    QueryPlain(q);
    RenderNumbered(QueryFragments(q), 0);
    QueryParts(q);
  }

  lemma MarksFromSplit(first: nat, m: nat, n: nat, next: nat)
    requires next == first + m
    ensures MarksFrom(first, m + n) == MarksFrom(first, m) + MarksFrom(next, n)
  {
  }

  lemma MarksOfClause(c: Clause, first: nat)
    ensures MarksOf(ConditionOf(c, first)) == MarksFrom(first, Width(c))
  {
  }

  lemma AllMarksCons(c: Condition, cs: seq<Condition>)
    ensures AllMarks([c] + cs) == MarksOf(c) + AllMarks(cs)
  {
    assert ([c] + cs)[1..] == cs;
  }

  lemma {:induction false} MarksInOrder(cs: seq<Clause>, first: nat)
    ensures AllMarks(ConditionsFrom(cs, first)) == MarksFrom(first, Widths(cs))
  {
    if cs == [] {
      assert ConditionsFrom(cs, first) == [];
    } else {
      var next := first + Width(cs[0]);
      MarksInOrder(cs[1..], next);
      SpreadCons(ConditionOf, cs, first, next);
      WidthsCons(cs);
      AllMarksCons(ConditionOf(cs[0], first), ConditionsFrom(cs[1..], next));
      MarksOfClause(cs[0], first);
      MarksFromSplit(first, Width(cs[0]), Widths(cs[1..]), next);
    }
  }

  /** The statement's placeholders are $1, $2, ... in order, one for each argument. */
  lemma StatementBinds(q: Query, args: seq<Value>)
    requires |args| == Widths(q.clauses) + if q.limited then 1 else 0
    requires q.limited ==> args[|args| - 1].IntValue? && args[|args| - 1].n >= 0
    ensures Binds(StatementOf(q), args)
  {
    MarksInOrder(q.clauses, 1);
    assert q.limited ==> MarksFrom(1, |args|) == MarksFrom(1, Widths(q.clauses)) + [Widths(q.clauses) + 1];
  }
}
