/** The stored audit log of copies (lib/db.ts): one row for each permission and source position,
    read back by its latest rows; and when the copy caps hold for a gate that is fed from it. */
module CopyLog {
  import opened Wrappers
  import opened JsNumbers
  import opened JsStrings
  import opened Sequences
  import opened CopyTrading

  // ----- The table -----

  datatype Execution = Execution(
    executionId: JsString, permissionId: JsString, sourcePositionId: JsString, status: JsString, stake: nat,
    createdAt: nat)

  datatype Inserted = Appended | Ignored | Refused

  predicate SameKey(a: Execution, b: Execution) {
    a.permissionId == b.permissionId && a.sourcePositionId == b.sourcePositionId
  }

  predicate KeyTaken(table: seq<Execution>, row: Execution) { exists i | 0 <= i < |table| :: SameKey(table[i], row) }

  predicate IdTaken(table: seq<Execution>, row: Execution) {
    exists i | 0 <= i < |table| :: table[i].executionId == row.executionId
  }

  /** INSERT ... ON CONFLICT(permission_id, source_position_id) DO NOTHING. */
  function InsertOutcome(table: seq<Execution>, row: Execution): Inserted {
    if KeyTaken(table, row) then Ignored else if IdTaken(table, row) then Refused else Appended
  }

  class CopyExecutions {
    var rows: seq<Execution>

    constructor ()
      ensures rows == []
    {
      rows := [];
    }

    /** The first row of a key stays; a reused primary key throws. */
    method InsertCopyExecution(row: Execution) returns (outcome: Inserted)
      modifies this
      ensures outcome == InsertOutcome(old(rows), row)
      ensures rows == old(rows) + if outcome.Appended? then [row] else []
    {
      if exists i | 0 <= i < |rows| :: SameKey(rows[i], row) {
        return Ignored;
      }
      if exists i | 0 <= i < |rows| :: rows[i].executionId == row.executionId {
        return Refused;
      }
      rows := rows + [row];
      outcome := Appended;
    }
  }

  function RowsOf(table: seq<Execution>, permissionId: JsString): seq<Execution> {
    Filter((r: Execution) => r.permissionId == permissionId, table)
  }

  /** What `listCopyExecutions` may return: the latest rows of a permission up to the limit,
      latest first; rows of the same instant come in any order. */
  ghost predicate IsRead(table: seq<Execution>, permissionId: JsString, limit: nat, read: seq<Execution>) {
    var all := RowsOf(table, permissionId);
    && multiset(read) <= multiset(all) && |read| == (if |all| <= limit then |all| else limit)
    && (forall i, j | 0 <= i < j < |read| :: read[i].createdAt >= read[j].createdAt)
    && forall r, left | r in read && left in multiset(all) - multiset(read) :: left.createdAt <= r.createdAt
  }

  predicate IsExecuted(r: Execution) { r.status == EXECUTED }

  function Executed(rows: seq<Execution>): seq<Execution> { Filter(IsExecuted, rows) }

  /** No executed row of the permission falls out of the read. */
  ghost predicate Complete(table: seq<Execution>, permissionId: JsString, read: seq<Execution>) {
    Permutation(Executed(read), Executed(RowsOf(table, permissionId)))
  }

  // ----- What the gate makes of rows -----

  /** NUMERIC and BIGINT columns are delivered as text. */
  function Delivered(r: Execution): Row {
    Row(Text(r.status), Text(Decimal(r.stake)), Missing, Text(Decimal(r.createdAt)), Missing)
  }

  function Deliver(rows: seq<Execution>): seq<Row> {
    seq(|rows|, i requires 0 <= i < |rows| => Delivered(rows[i]))
  }

  function Stake(r: Execution): int { r.stake }

  /** What executed rows stamped at or after an instant come to. */
  function StakesSince(rows: seq<Execution>, from: int): int {
    SumBy((r: Execution) => StakeFrom(Delivered(r), from), rows)
  }

  lemma SinceSnoc(rows: seq<Execution>, r: Execution, from: int)
    ensures StakesSince(rows + [r], from) == StakesSince(rows, from) + StakeFrom(Delivered(r), from)
  {
    SumBySnoc((r: Execution) => StakeFrom(Delivered(r), from), rows, r);
  }

  lemma SincePermutation(rows: seq<Execution>, rows': seq<Execution>, from: int)
    requires Permutation(rows, rows')
    ensures StakesSince(rows, from) == StakesSince(rows', from)
  {
    SumByPermutation((r: Execution) => StakeFrom(Delivered(r), from), rows, rows');
  }

  lemma DeliveredCounts(r: Execution, from: int)
    ensures Count(Delivered(r)).Some? <==> IsExecuted(r)
    ensures StakeOf(Delivered(r)) == if IsExecuted(r) then r.stake else 0
    ensures !IsExecuted(r) ==> StakeFrom(Delivered(r), from) == 0
    ensures IsExecuted(r) && r.createdAt >= from ==> StakeFrom(Delivered(r), from) == r.stake
  {
    AuditRowCounts(SnakeCaseText, r.stake, r.createdAt);
    if IsExecuted(r) { assert Delivered(r) == AuditRow(SnakeCaseText, r.stake, r.createdAt); }
  }

  lemma FilterOne<T>(keep: T -> bool, x: T)
    ensures Filter(keep, [x]) == if keep(x) then [x] else []
  {
    assert [x][1..] == [];
  }

  lemma ExecutedSnoc(rows: seq<Execution>, r: Execution)
    ensures Executed(rows + [r]) == if IsExecuted(r) then Executed(rows) + [r] else Executed(rows)
  {
    FilterConcat(IsExecuted, rows, [r]);
    FilterOne(IsExecuted, r);
  }

  lemma DeliverSnoc(rows: seq<Execution>, r: Execution, from: int)
    ensures UsedEver(Deliver(rows + [r])) == UsedEver(Deliver(rows)) + StakeOf(Delivered(r))
    ensures UsedSince(Deliver(rows + [r]), from) == UsedSince(Deliver(rows), from) + StakeFrom(Delivered(r), from)
  {
    assert Deliver(rows + [r])[..|rows|] == Deliver(rows);
  }

  /** The totals of a read are sums over its executed rows. */
  lemma {:induction false} UsedSums(rows: seq<Execution>, from: int)
    ensures UsedEver(Deliver(rows)) == SumBy(Stake, Executed(rows))
    ensures UsedSince(Deliver(rows), from) == StakesSince(Executed(rows), from)
  {
    if rows != [] {
      var front, r := rows[..|rows| - 1], rows[|rows| - 1];
      assert rows == front + [r];
      UsedSums(front, from);
      DeliverSnoc(front, r, from);
      ExecutedSnoc(front, r);
      DeliveredCounts(r, from);
      SumBySnoc(Stake, Executed(front), r);
      SinceSnoc(Executed(front), r, from);
    }
  }

  // ----- Runs -----

  /** The log, the copies that were made, and those among them whose row was not stored. */
  datatype Store = Store(table: seq<Execution>, copies: seq<Copy>, lost: seq<Copy>)

  /** `read` is what the log returned for the attempt. */
  datatype StoredStep =
    | Try(now: nat, signal: Signal, context: Context, executionId: JsString, read: seq<Execution>)
    | Record(row: Execution)

  /** The copy an attempt makes, if any. */
  function CopyMade(p: Permission, copies: seq<Copy>, step: StoredStep): Option<Copy>
    requires step.Try?
  {
    var l := Ledger(Deliver(step.read), copies);
    var after := Perform(p, l, Attempt(step.now, step.signal, step.context, SnakeCaseText));
    if |after.copies| > |copies| then Some(after.copies[|copies|]) else None
  }

  /** A copy is made before its row is stored; rows that are not executed copies under the
      permission may be recorded at any time. */
  function StoreStep(p: Permission, s: Store, step: StoredStep): Store {
    match step
    case Record(row) =>
      if (row.permissionId == p.permissionId && IsExecuted(row)) || !InsertOutcome(s.table, row).Appended? then s
      else s.(table := s.table + [row])
    case Try(now, signal, _, executionId, _) =>
      match CopyMade(p, s.copies, step)
      case None => s
      case Some(copy) =>
        var row := Execution(executionId, p.permissionId, signal.sourcePositionId, EXECUTED, copy.stake, now);
        if InsertOutcome(s.table, row).Appended? then Store(s.table + [row], s.copies + [copy], s.lost)
        else Store(s.table, s.copies + [copy], s.lost + [copy])
  }

  function StoredRun(p: Permission, steps: seq<StoredStep>): Store {
    if steps == [] then Store([], [], [])
    else StoreStep(p, StoredRun(p, steps[..|steps| - 1]), steps[|steps| - 1])
  }

  lemma CopyMadeIs(p: Permission, copies: seq<Copy>, step: StoredStep)
    requires step.Try? && CopyMade(p, copies, step).Some?
    ensures var l := Ledger(Deliver(step.read), copies);
      var copy := CopyMade(p, copies, step).value;
      && copy.at == step.now && copy.stake > 0
      && Perform(p, l, Attempt(step.now, step.signal, step.context, SnakeCaseText)).copies == copies + [copy]
  {
    var l := Ledger(Deliver(step.read), copies);
    var attempt := Attempt(step.now, step.signal, step.context, SnakeCaseText);
    var usage := UsageOf(l.log, step.now);
    AllowedIff(p, step.signal, step.context.(now := Finite(step.now as real), usage := usage.value));
  }

  // ----- What the log accounts for -----

  function Logged(p: Permission, s: Store): seq<Execution> { Executed(RowsOf(s.table, p.permissionId)) }

  /** Every copy is either in the log, stamped no earlier than it was made, or lost. */
  ghost predicate Accounts(logged: seq<Execution>, copies: seq<Copy>, lost: seq<Copy>) {
    && SumBy(Stake, logged) + SpentEver(lost) == SpentEver(copies)
    && (forall from: int :: StakesSince(logged, from) + SpentSince(lost, from) >= SpentSince(copies, from))
    && (forall r | r in logged :: r.stake > 0) && forall c | c in lost :: c.stake > 0
  }

  ghost predicate Accounted(p: Permission, s: Store) { Accounts(Logged(p, s), s.copies, s.lost) }

  lemma LoggedSnoc(p: Permission, table: seq<Execution>, row: Execution)
    ensures var mine := row.permissionId == p.permissionId && IsExecuted(row);
      var logged := Executed(RowsOf(table, p.permissionId));
      Executed(RowsOf(table + [row], p.permissionId)) == if mine then logged + [row] else logged
  {
    var own := (r: Execution) => r.permissionId == p.permissionId;
    FilterOne(own, row);
    FilterConcat(own, table, [row]);
    if own(row) { ExecutedSnoc(RowsOf(table, p.permissionId), row); }
    assert RowsOf(table, p.permissionId) + [] == RowsOf(table, p.permissionId);
  }

  lemma SpentSnoc(copies: seq<Copy>, copy: Copy, from: int)
    ensures SpentEver(copies + [copy]) == SpentEver(copies) + copy.stake
    ensures SpentSince(copies + [copy], from) == SpentSince(copies, from) + if from <= copy.at then copy.stake else 0
  {
    assert (copies + [copy])[..|copies|] == copies;
  }

  lemma StoredIsAccounted(logged: seq<Execution>, copies: seq<Copy>, lost: seq<Copy>, row: Execution, copy: Copy)
    requires Accounts(logged, copies, lost) && IsExecuted(row)
    requires row.stake == copy.stake > 0 && row.createdAt == copy.at
    ensures Accounts(logged + [row], copies + [copy], lost)
  {
    SumBySnoc(Stake, logged, row);
    forall from: int
      ensures StakesSince(logged + [row], from) + SpentSince(lost, from) >= SpentSince(copies + [copy], from)
    {
      SinceSnoc(logged, row, from);
      SpentSnoc(copies, copy, from);
      DeliveredCounts(row, from);
      assert StakesSince(logged, from) + SpentSince(lost, from) >= SpentSince(copies, from);
    }
    SpentSnoc(copies, copy, 0);
  }

  lemma LostIsAccounted(logged: seq<Execution>, copies: seq<Copy>, lost: seq<Copy>, copy: Copy)
    requires Accounts(logged, copies, lost) && copy.stake > 0
    ensures Accounts(logged, copies + [copy], lost + [copy])
  {
    forall from: int
      ensures StakesSince(logged, from) + SpentSince(lost + [copy], from) >= SpentSince(copies + [copy], from)
    {
      SpentSnoc(copies, copy, from);
      SpentSnoc(lost, copy, from);
      assert StakesSince(logged, from) + SpentSince(lost, from) >= SpentSince(copies, from);
    }
    SpentSnoc(copies, copy, 0);
    SpentSnoc(lost, copy, 0);
  }

  lemma StepKeepsAccounted(p: Permission, s: Store, step: StoredStep)
    requires Accounted(p, s)
    ensures Accounted(p, StoreStep(p, s, step))
  {
    if step.Record? {
      LoggedSnoc(p, s.table, step.row);
    } else if CopyMade(p, s.copies, step).Some? {
      var copy := CopyMade(p, s.copies, step).value;
      CopyMadeIs(p, s.copies, step);
      var row := Execution(
        step.executionId, p.permissionId, step.signal.sourcePositionId, EXECUTED, copy.stake, step.now);
      if InsertOutcome(s.table, row).Appended? {
        LoggedSnoc(p, s.table, row);
        StoredIsAccounted(Logged(p, s), s.copies, s.lost, row, copy);
      } else {
        LostIsAccounted(Logged(p, s), s.copies, s.lost, copy);
      }
    }
  }

  lemma {:induction false} RunIsAccounted(p: Permission, steps: seq<StoredStep>)
    ensures Accounted(p, StoredRun(p, steps))
  {
    if steps != [] {
      RunIsAccounted(p, steps[..|steps| - 1]);
      StepKeepsAccounted(p, StoredRun(p, steps[..|steps| - 1]), steps[|steps| - 1]);
    }
  }

  // ----- Reads -----

  lemma {:induction false} FilterCounts<T>(keep: T -> bool, xs: seq<T>, x: T)
    ensures multiset(Filter(keep, xs))[x] == if keep(x) then multiset(xs)[x] else 0
  {
    if xs != [] {
      FilterCounts(keep, xs[1..], x);
      assert xs == [xs[0]] + xs[1..];
    }
  }

  lemma ExecutedWithin(read: seq<Execution>, all: seq<Execution>)
    requires multiset(read) <= multiset(all)
    ensures multiset(Executed(read)) <= multiset(Executed(all))
  {
    forall x ensures multiset(Executed(read))[x] <= multiset(Executed(all))[x] {
      FilterCounts(IsExecuted, read, x);
      FilterCounts(IsExecuted, all, x);
    }
  }

  lemma LessOne(xs: seq<Execution>, ys: seq<Execution>, x: Execution, all: seq<Execution>, all': seq<Execution>)
    requires multiset(all) == multiset(xs) + multiset{x} && multiset(all') == multiset(ys) + multiset{x}
    requires multiset(all) <= multiset(all')
    ensures multiset(xs) <= multiset(ys)
    ensures Permutation(xs, ys) <==> Permutation(all, all')
  {
    forall e ensures multiset(xs)[e] <= multiset(ys)[e] {
      assert multiset(all)[e] <= multiset(all')[e];
    }
    if Permutation(all, all') {
      forall e ensures multiset(xs)[e] == multiset(ys)[e] {
        assert multiset(all)[e] == multiset(all')[e];
      }
    }
  }

  /** A part of some rows sums to no more, and to as much only if it is all of them. */
  lemma {:induction false} PartSum(xs: seq<Execution>, ys: seq<Execution>)
    requires multiset(xs) <= multiset(ys) && forall y | y in ys :: y.stake > 0
    ensures SumBy(Stake, xs) <= SumBy(Stake, ys)
    ensures SumBy(Stake, xs) == SumBy(Stake, ys) <==> Permutation(xs, ys)
    decreases |xs|
  {
    if xs == [] {
      PositiveSum(ys);
    } else {
      assert xs[0] in multiset(xs) && xs[0] in multiset(ys) && xs == [xs[0]] + xs[1..];
      var j :| 0 <= j < |ys| && ys[j] == xs[0];
      var rest := ys[..j] + ys[j + 1..];
      assert ys == ys[..j] + [ys[j]] + ys[j + 1..];
      LessOne(xs[1..], rest, xs[0], xs, ys);
      assert forall y | y in rest :: y in ys;
      PartSum(xs[1..], rest);
      SumByConcat(Stake, ys[..j], ys[j + 1..]);
      SumByConcat(Stake, ys[..j] + [ys[j]], ys[j + 1..]);
      SumBySnoc(Stake, ys[..j], ys[j]);
    }
  }

  lemma {:induction false} PositiveSum(ys: seq<Execution>)
    requires forall y | y in ys :: y.stake > 0
    ensures SumBy(Stake, ys) >= 0 && (SumBy(Stake, ys) == 0 <==> Permutation([], ys))
  {
    if ys == [] {
    } else {
      assert ys[0] in ys && forall y | y in ys[1..] :: y in ys;
      PositiveSum(ys[1..]);
      assert ys[0] in multiset(ys);
    }
  }

  lemma {:induction false} SpentPositive(copies: seq<Copy>)
    requires forall c | c in copies :: c.stake > 0
    ensures SpentEver(copies) == 0 <==> copies == []
  {
    if copies != [] { assert copies[|copies| - 1] in copies; }
  }

  /** The usage that a read gives never overstates what was copied in all, and is exact exactly
      when every copy found its key free and no executed row fell out of the read. */
  lemma ReadIsExactIff(p: Permission, steps: seq<StoredStep>, limit: nat, read: seq<Execution>)
    requires IsRead(StoredRun(p, steps).table, p.permissionId, limit, read)
    ensures var s := StoredRun(p, steps);
      && UsedEver(Deliver(read)) <= SpentEver(s.copies)
      && (UsedEver(Deliver(read)) == SpentEver(s.copies)
          <==> s.lost == [] && Complete(s.table, p.permissionId, read))
  {
    var s := StoredRun(p, steps);
    RunIsAccounted(p, steps);
    UsedSums(read, 0);
    ExecutedWithin(read, RowsOf(s.table, p.permissionId));
    PartSum(Executed(read), Logged(p, s));
    SpentPositive(s.lost);
  }

  /** A log no longer than the limit is read whole. */
  lemma ShortLogIsComplete(table: seq<Execution>, permissionId: JsString, limit: nat, read: seq<Execution>)
    requires IsRead(table, permissionId, limit, read) && |RowsOf(table, permissionId)| <= limit
    ensures Complete(table, permissionId, read)
  {
    var all := RowsOf(table, permissionId);
    SameSize(multiset(read), multiset(all));
    FilterPermutation(IsExecuted, read, all);
  }

  lemma SameSize(a: multiset<Execution>, b: multiset<Execution>)
    requires a <= b && |a| == |b|
    ensures a == b
  {
    assert b == a + (b - a);
    assert |b - a| == 0;
  }

  /** A longer log of executed rows never is. */
  lemma LongLogIsIncomplete(table: seq<Execution>, permissionId: JsString, limit: nat, read: seq<Execution>)
    requires IsRead(table, permissionId, limit, read) && |RowsOf(table, permissionId)| > limit
    requires forall r | r in RowsOf(table, permissionId) :: IsExecuted(r)
    ensures !Complete(table, permissionId, read)
  {
    var all := RowsOf(table, permissionId);
    AllExecuted(all);
    FilterShorter(read);
    assert |multiset(Executed(read))| == |Executed(read)| && |multiset(Executed(all))| == |Executed(all)|;
  }

  lemma {:induction false} AllExecuted(rows: seq<Execution>)
    requires forall r | r in rows :: IsExecuted(r)
    ensures Executed(rows) == rows
  {
    if rows != [] {
      assert rows[0] in rows && forall r | r in rows[1..] :: r in rows;
      AllExecuted(rows[1..]);
    }
  }

  lemma {:induction false} FilterShorter(rows: seq<Execution>)
    ensures |Executed(rows)| <= |rows|
  {
    if rows != [] { FilterShorter(rows[1..]); }
  }

  // ----- When the caps hold -----

  lemma ReadCovers(p: Permission, s: Store, read: seq<Execution>)
    requires Accounted(p, s) && s.lost == [] && Complete(s.table, p.permissionId, read)
    ensures Covers(Ledger(Deliver(read), s.copies))
  {
    UsedSums(read, 0);
    SumByPermutation(Stake, Executed(read), Logged(p, s));
    forall from: int ensures UsedSince(Deliver(read), from) >= SpentSince(s.copies, from) {
      UsedSums(read, from);
      SincePermutation(Executed(read), Logged(p, s), from);
      assert StakesSince(Logged(p, s), from) + SpentSince(s.lost, from) >= SpentSince(s.copies, from);
    }
  }

  /** Every attempt was given what the log may return. */
  ghost predicate ReadsAreGenuine(p: Permission, limit: nat, steps: seq<StoredStep>) {
    forall i | 0 <= i < |steps| && steps[i].Try? ::
      IsRead(StoredRun(p, steps[..i]).table, p.permissionId, limit, steps[i].read)
  }

  /** Every attempt of the run was given a complete read of the log. */
  ghost predicate ReadsAreComplete(p: Permission, steps: seq<StoredStep>) {
    forall i | 0 <= i < |steps| && steps[i].Try? ::
      Complete(StoredRun(p, steps[..i]).table, p.permissionId, steps[i].read)
  }

  lemma PrefixReads(p: Permission, steps: seq<StoredStep>, n: nat)
    requires ReadsAreComplete(p, steps) && n <= |steps|
    ensures ReadsAreComplete(p, steps[..n])
    ensures n < |steps| && steps[n].Try? ==>
      Complete(StoredRun(p, steps[..n]).table, p.permissionId, steps[n].read)
  {
    forall i | 0 <= i < n && steps[..n][i].Try?
      ensures Complete(StoredRun(p, steps[..n][..i]).table, p.permissionId, steps[..n][i].read)
    {
      assert steps[..n][i] == steps[i] && steps[..n][..i] == steps[..i];
    }
  }

  lemma LostGrows(p: Permission, s: Store, step: StoredStep)
    ensures s.lost <= StoreStep(p, s, step).lost
  {
  }

  lemma StepKeepsCaps(p: Permission, s: Store, step: StoredStep)
    requires Accounted(p, s) && s.lost == [] && WithinCaps(p, s.copies)
    requires step.Try? ==> Complete(s.table, p.permissionId, step.read)
    ensures WithinCaps(p, StoreStep(p, s, step).copies)
  {
    if step.Try? && CopyMade(p, s.copies, step).Some? {
      CopyMadeIs(p, s.copies, step);
      ReadCovers(p, s, step.read);
      PerformKeepsCaps(p, Ledger(Deliver(step.read), s.copies),
                       Attempt(step.now, step.signal, step.context, SnakeCaseText));
    }
  }

  /** When every copy found its key free and every attempt read all executed rows, the caps
      hold over the whole run, as they do for a log that is read whole. */
  lemma {:induction false} StoredRunStaysWithinCaps(p: Permission, steps: seq<StoredStep>)
    requires StoredRun(p, steps).lost == [] && ReadsAreComplete(p, steps)
    ensures WithinCaps(p, StoredRun(p, steps).copies)
  {
    if steps != [] {
      var n := |steps| - 1;
      var before := StoredRun(p, steps[..n]);
      PrefixReads(p, steps, n);
      LostGrows(p, before, steps[n]);
      StoredRunStaysWithinCaps(p, steps[..n]);
      RunIsAccounted(p, steps[..n]);
      StepKeepsCaps(p, before, steps[n]);
    }
  }

  lemma StepGrows(p: Permission, s: Store, step: StoredStep)
    ensures s.table <= StoreStep(p, s, step).table
  {
  }

  lemma {:induction false} TableGrows(p: Permission, steps: seq<StoredStep>, i: nat)
    requires i <= |steps|
    ensures StoredRun(p, steps[..i]).table <= StoredRun(p, steps).table
  {
    var n := |steps| - 1;
    if i > n {
      assert steps[..i] == steps;
    } else {
      var before := StoredRun(p, steps[..n]);
      assert steps[..n][..i] == steps[..i];
      TableGrows(p, steps[..n], i);
      StepGrows(p, before, steps[n]);
    }
  }

  lemma PrefixRows(table: seq<Execution>, more: seq<Execution>, permissionId: JsString)
    requires table <= more
    ensures |RowsOf(table, permissionId)| <= |RowsOf(more, permissionId)|
  {
    assert more == table + more[|table|..];
    FilterConcat((r: Execution) => r.permissionId == permissionId, table, more[|table|..]);
  }

  /** As long as the log of the permission is no longer than what is read, all reads are
      complete. */
  lemma ShortRunIsComplete(p: Permission, limit: nat, steps: seq<StoredStep>)
    requires ReadsAreGenuine(p, limit, steps) && |RowsOf(StoredRun(p, steps).table, p.permissionId)| <= limit
    ensures ReadsAreComplete(p, steps)
  {
    forall i | 0 <= i < |steps| && steps[i].Try?
      ensures Complete(StoredRun(p, steps[..i]).table, p.permissionId, steps[i].read)
    {
      var table := StoredRun(p, steps[..i]).table;
      TableGrows(p, steps, i);
      PrefixRows(table, StoredRun(p, steps).table, p.permissionId);
      ShortLogIsComplete(table, p.permissionId, limit, steps[i].read);
    }
  }

  // ----- When they do not -----

  /** The account of the all-zero key. */
  const ACCOUNT := Ascii("GAAAAAAAAAAAAAAAAAAAAAAAAAAAAAAAAAAAAAAAAAAAAAAAAAAAAWHF")

  /** A permission that passes validation, with one cap for the day, the week and in all. */
  function Example(cap: nat): Permission {
    Permission(Ascii("p"), ACCOUNT, Ascii("e"), Ascii("s"), Atomic(10), Atomic(cap), Atomic(cap), Atomic(cap),
               Ascii("99"), [], [], 0.0, 0.0, 1_000.0, 1.0, PermissionStatus.Active, ACCOUNT, ACCOUNT, 10, 1.0)
  }

  /** The i-th source position, on a claim of its own. */
  function Position(i: nat): Signal {
    Signal(Decimal(i), Ascii("s"), Finite(0.0), Finite(i as real), Ascii("c"), Ascii("m"), Finite(0.0), Finite(0.0),
           Atomic(10), Finite(1_000.0), Finite(1.0), Atomic(0), Atomic(0), Ascii("t"), None)
  }

  /** The claims of the earlier positions are already held. */
  function Held(i: nat): Context {
    Context(Finite(0.0), false, false, Usage(Atomic(0), Atomic(0), Atomic(0)), Ascii("0"),
            Earlier(i), [], ACCOUNT, ACCOUNT, 10, true, 0)
  }

  function Earlier(i: nat): (ids: set<int>)
    ensures forall k | k in ids :: k < i
  {
    if i == 0 then {} else Earlier(i - 1) + {i - 1}
  }

  lemma ExampleIsValid(cap: nat, isAddress: JsString -> bool)
    requires cap >= 10 && isAddress(ACCOUNT)
    ensures ValidateCopyPermission(Example(cap), 0.0, isAddress) == None
  {
    assert Ascii("p") == [0x70] && Ascii("e") == [0x65] && Ascii("s") == [0x73];
    LossLimit();
  }

  lemma LossLimit()
    ensures ParseCanonicalDecimal(Ascii("99")) == Some(99) && ParseCanonicalDecimal(Ascii("0")) == Some(0)
  {
    assert Ascii("99") == [0x39, 0x39] && Ascii("0") == [0x30];
    assert [0x39, 0x39][..1] == [0x39] && [0x39][..0] == [] && [0x30][..0] == [];
    assert DigitsValue([0x39]) == 9;
  }

  /** What the gate is given when a read shows so much usage in every window. */
  function Shown(i: nat, used: nat): Context {
    Held(i).(now := Finite(0.0), usage := Usage(Atomic(used), Atomic(used), Atomic(used)))
  }

  lemma ExampleIsEligible(cap: nat, i: nat, used: nat)
    requires i < 128 && used % 10 == 0 && used <= MAX_SAFE
    ensures Eligible(Example(cap), Position(i), Shown(i, used))
  {
    LossLimit();
    DecimalLength(i);
    assert Ascii("s") == [0x73] && Ascii("e") == [0x65] && Ascii("c") != [] && Ascii("m") != [] && |Ascii("t")| == 1;
  }

  lemma ExampleIsAffordable(cap: nat, i: nat, used: nat)
    requires used % 10 == 0 && used + 10 <= cap <= MAX_SAFE && GoodContext(Shown(i, used))
    ensures Affordable(Example(cap), Position(i), Shown(i, used))
  {
    LossLimit();
  }

  /** The example copies each position while its cap leaves room over the usage it is shown. */
  lemma ExampleCopies(cap: nat, copies: seq<Copy>, i: nat, executionId: JsString, read: seq<Execution>, used: nat)
    requires i < 128 && UsedEver(Deliver(read)) == used && UsedSince(Deliver(read), 0) == used
    requires UsedSince(Deliver(read), WeekStart(0)) == used && used % 10 == 0 && used + 10 <= cap <= MAX_SAFE
    ensures CopyMade(Example(cap), copies, Try(0, Position(i), Held(i), executionId, read)) == Some(Copy(10, 0))
  {
    assert DayStart(0) == 0;
    assert UsageOf(Deliver(read), 0) == Some(Usage(Atomic(used), Atomic(used), Atomic(used)));
    ExampleIsEligible(cap, i, used);
    ExampleIsAffordable(cap, i, used);
    AllowedIff(Example(cap), Position(i), Shown(i, used));
  }

  lemma {:induction false} DecimalLength(n: nat)
    ensures 0 < |Decimal(n)| <= n + 1
  {
    if n >= 10 { DecimalLength(n / 10); }
  }

  const SKIPPED := Ascii("skipped")

  function LogRow(status: JsString, stake: nat, i: nat): Execution {
    Execution(Decimal(i), Ascii("p"), Decimal(i), status, stake, 0)
  }

  function LogRows(status: JsString, stake: nat, n: nat): seq<Execution> {
    seq(n, i requires 0 <= i => LogRow(status, stake, i))
  }

  function Copies(n: nat): seq<Copy> { seq(n, i requires 0 <= i => Copy(10, 0)) }

  lemma {:induction false} CopiesSpend(n: nat)
    ensures SpentEver(Copies(n)) == 10 * n
  {
    if n > 0 {
      CopiesSpend(n - 1);
      assert Copies(n)[..n - 1] == Copies(n - 1);
    }
  }

  lemma NewKey(status: JsString, stake: nat, n: nat)
    ensures InsertOutcome(LogRows(status, stake, n), LogRow(status, stake, n)).Appended?
  {
    forall i | 0 <= i < n ensures Decimal(i) != Decimal(n) {
      DecimalRoundTrip(i);
      DecimalRoundTrip(n);
    }
  }

  lemma {:induction false} AllOwn(rows: seq<Execution>, permissionId: JsString)
    requires forall r | r in rows :: r.permissionId == permissionId
    ensures RowsOf(rows, permissionId) == rows
  {
    if rows != [] {
      assert rows[0] in rows && forall r | r in rows[1..] :: r in rows;
      AllOwn(rows[1..], permissionId);
    }
  }

  lemma PartOf(all: seq<Execution>, k: nat)
    requires k <= |all|
    ensures multiset(all[..k]) <= multiset(all)
    ensures forall x | x in multiset(all) - multiset(all[..k]) :: x in all
  {
    assert all == all[..k] + all[k..];
  }

  /** Of rows of one instant any may be read. */
  lemma TiedRead(all: seq<Execution>, permissionId: JsString, limit: nat, k: nat)
    requires forall x | x in all :: x.permissionId == permissionId && x.createdAt == 0
    requires k == if |all| <= limit then |all| else limit
    ensures IsRead(all, permissionId, limit, all[..k])
  {
    AllOwn(all, permissionId);
    PartOf(all, k);
    assert forall x | x in all[..k] :: x in all;
  }

  lemma LogRead(status: JsString, stake: nat, n: nat, limit: nat, k: nat)
    requires k == if n <= limit then n else limit
    ensures IsRead(LogRows(status, stake, n), Ascii("p"), limit, LogRows(status, stake, k))
  {
    TiedRead(LogRows(status, stake, n), Ascii("p"), limit, k);
    assert LogRows(status, stake, n)[..k] == LogRows(status, stake, k);
  }

  lemma OneMoreRow(status: JsString, stake: nat, n: nat, next: nat)
    requires next == n + 1
    ensures LogRows(status, stake, next) == LogRows(status, stake, n) + [LogRow(status, stake, n)]
  {
  }

  lemma OneMoreStep(
    p: Permission, limit: nat, steps: seq<StoredStep>, s: Store, step: StoredStep, after: Store)
    returns (more: seq<StoredStep>)
    requires StoredRun(p, steps) == s && StoreStep(p, s, step) == after && ReadsAreGenuine(p, limit, steps)
    requires step.Try? ==> IsRead(s.table, p.permissionId, limit, step.read)
    ensures more == steps + [step] && StoredRun(p, more) == after && ReadsAreGenuine(p, limit, more)
  {
    more := steps + [step];
    assert more[..|steps|] == steps;
    assert forall i | 0 <= i < |steps| :: more[i] == steps[i] && more[..i] == steps[..i];
  }

  lemma {:induction false} NoneExecuted(rows: seq<Execution>)
    requires forall r | r in rows :: !IsExecuted(r)
    ensures Executed(rows) == []
  {
    if rows != [] {
      assert rows[0] in rows && forall r | r in rows[1..] :: r in rows;
      NoneExecuted(rows[1..]);
    }
  }

  // ----- Positions that were skipped first -----

  lemma SkippedCount(n: nat, from: int)
    ensures Executed(LogRows(SKIPPED, 0, n)) == []
    ensures UsedEver(Deliver(LogRows(SKIPPED, 0, n))) == 0 && UsedSince(Deliver(LogRows(SKIPPED, 0, n)), from) == 0
  {
    assert |SKIPPED| == 7 && |EXECUTED| == 8;
    NoneExecuted(LogRows(SKIPPED, 0, n));
    UsedSums(LogRows(SKIPPED, 0, n), from);
  }

  function CopySkipped(n: nat, rows: seq<Execution>): StoredStep { Try(0, Position(n), Held(n), [], rows) }

  lemma SkipIsRecorded(cap: nat, n: nat, next: nat, copies: seq<Copy>)
    requires next == n + 1
    ensures StoreStep(Example(cap), Store(LogRows(SKIPPED, 0, n), copies, copies), Record(LogRow(SKIPPED, 0, n)))
      == Store(LogRows(SKIPPED, 0, next), copies, copies)
  {
    NewKey(SKIPPED, 0, n);
    OneMoreRow(SKIPPED, 0, n, next);
    assert |SKIPPED| == 7 && |EXECUTED| == 8;
  }

  lemma SkippedIsCopied(cap: nat, n: nat, next: nat)
    requires 10 <= cap <= MAX_SAFE && n < 128 && next == n + 1
    ensures var rows := LogRows(SKIPPED, 0, next);
      StoreStep(Example(cap), Store(rows, Copies(n), Copies(n)), CopySkipped(n, rows))
      == Store(rows, Copies(next), Copies(next))
  {
    var rows := LogRows(SKIPPED, 0, next);
    SkippedCount(next, 0);
    SkippedCount(next, WeekStart(0));
    ExampleCopies(cap, Copies(n), n, [], rows, 0);
    assert SameKey(rows[n], Execution([], Ascii("p"), Decimal(n), EXECUTED, 10, 0));
    assert Copies(next) == Copies(n) + [Copy(10, 0)];
  }

  /** Each position is recorded as skipped, and copied later. */
  lemma {:induction false} SkippedRun(cap: nat, limit: nat, n: nat) returns (steps: seq<StoredStep>)
    requires 10 <= cap <= MAX_SAFE && n <= limit && n < 128
    ensures StoredRun(Example(cap), steps) == Store(LogRows(SKIPPED, 0, n), Copies(n), Copies(n))
    ensures ReadsAreGenuine(Example(cap), limit, steps)
  {
    if n == 0 {
      steps := [];
      assert LogRows(SKIPPED, 0, 0) == [] && Copies(0) == [];
    } else {
      steps := SkippedRun(cap, limit, n - 1);
      steps := SkipAndCopy(cap, limit, n - 1, n, steps);
    }
  }

  lemma SkipAndCopy(cap: nat, limit: nat, n: nat, next: nat, steps: seq<StoredStep>) returns (more: seq<StoredStep>)
    requires 10 <= cap <= MAX_SAFE && n < limit && n < 128 && next == n + 1
    requires StoredRun(Example(cap), steps) == Store(LogRows(SKIPPED, 0, n), Copies(n), Copies(n))
    requires ReadsAreGenuine(Example(cap), limit, steps)
    ensures StoredRun(Example(cap), more) == Store(LogRows(SKIPPED, 0, next), Copies(next), Copies(next))
    ensures ReadsAreGenuine(Example(cap), limit, more)
  {
    var p, rows, copies := Example(cap), LogRows(SKIPPED, 0, next), Copies(n);
    SkipIsRecorded(cap, n, next, copies);
    more := OneMoreStep(p, limit, steps, Store(LogRows(SKIPPED, 0, n), copies, copies),
                        Record(LogRow(SKIPPED, 0, n)), Store(rows, copies, copies));
    LogRead(SKIPPED, 0, next, limit, next);
    SkippedIsCopied(cap, n, next);
    more := OneMoreStep(p, limit, more, Store(rows, copies, copies), CopySkipped(n, rows),
                        Store(rows, Copies(next), Copies(next)));
  }

  lemma OverCap(cap: nat, copies: seq<Copy>)
    requires cap >= 10 && SpentEver(copies) > cap
    ensures !WithinCaps(Example(cap), copies)
  {
  }

  /** Positions that were recorded as skipped before they are copied never show in the usage:
      with all reads genuine and complete, a valid permission copies any number of them, past
      whatever cap. */
  lemma SkippedPositionsEscapeCaps(cap: nat, limit: nat, n: nat)
    requires 10 <= cap < 10 * n && n <= limit && n < 128
    ensures exists steps: seq<StoredStep> ::
      && ReadsAreGenuine(Example(cap), limit, steps) && ReadsAreComplete(Example(cap), steps)
      && SpentEver(StoredRun(Example(cap), steps).copies) == 10 * n
      && !WithinCaps(Example(cap), StoredRun(Example(cap), steps).copies)
  {
    var steps := SkippedRun(cap, limit, n);
    AllOwn(LogRows(SKIPPED, 0, n), Ascii("p"));
    ShortRunIsComplete(Example(cap), limit, steps);
    CopiesSpend(n);
    OverCap(cap, Copies(n));
  }

  // ----- More copies than are read -----

  function CopyShown(n: nat, read: seq<Execution>): StoredStep { Try(0, Position(n), Held(n), Decimal(n), read) }

  lemma {:induction false} ExecutedCount(n: nat, from: int)
    requires from <= 0
    ensures UsedEver(Deliver(LogRows(EXECUTED, 10, n))) == 10 * n
    ensures UsedSince(Deliver(LogRows(EXECUTED, 10, n)), from) == 10 * n
  {
    if n > 0 {
      ExecutedCount(n - 1, from);
      OneMoreRow(EXECUTED, 10, n - 1, n);
      DeliverSnoc(LogRows(EXECUTED, 10, n - 1), LogRow(EXECUTED, 10, n - 1), from);
      DeliveredCounts(LogRow(EXECUTED, 10, n - 1), from);
    }
  }

  lemma ShownUsage(k: nat, used: nat)
    requires used == 10 * k
    ensures var rows := Deliver(LogRows(EXECUTED, 10, k));
      UsedEver(rows) == UsedSince(rows, 0) == UsedSince(rows, WeekStart(0)) == used
  {
    WeekStartIsMonday(0);
    ExecutedCount(k, 0);
    ExecutedCount(k, WeekStart(0));
  }

  lemma ShownIsCopied(cap: nat, copies: seq<Copy>, n: nat, k: nat, used: nat, read: seq<Execution>)
    requires n < 128 && used == 10 * k && used % 10 == 0 && used + 10 <= cap <= MAX_SAFE
    requires read == LogRows(EXECUTED, 10, k)
    ensures CopyMade(Example(cap), copies, CopyShown(n, read)) == Some(Copy(10, 0))
  {
    ShownUsage(k, used);
    ExampleCopies(cap, copies, n, Decimal(n), read, used);
  }

  lemma CopyIsStored(cap: nat, n: nat, next: nat, k: nat)
    requires n < 128 && next == n + 1 && 10 * k + 10 <= cap <= MAX_SAFE
    ensures StoreStep(Example(cap), Store(LogRows(EXECUTED, 10, n), Copies(n), []),
                      CopyShown(n, LogRows(EXECUTED, 10, k)))
      == Store(LogRows(EXECUTED, 10, next), Copies(next), [])
  {
    ShownIsCopied(cap, Copies(n), n, k, 10 * k, LogRows(EXECUTED, 10, k));
    NewKey(EXECUTED, 10, n);
    OneMoreRow(EXECUTED, 10, n, next);
    assert Copies(next) == Copies(n) + [Copy(10, 0)];
  }

  lemma {:induction false} CopiedRun(limit: nat, cap: nat, n: nat) returns (steps: seq<StoredStep>)
    requires n < 128 && limit < 128 && cap == 10 * (limit + 1)
    ensures StoredRun(Example(cap), steps) == Store(LogRows(EXECUTED, 10, n), Copies(n), [])
    ensures ReadsAreGenuine(Example(cap), limit, steps)
  {
    if n == 0 {
      steps := [];
      assert LogRows(EXECUTED, 10, 0) == [] && Copies(0) == [];
    } else {
      steps := CopiedRun(limit, cap, n - 1);
      steps := CopyAgain(limit, cap, n - 1, n, if n - 1 <= limit then n - 1 else limit, steps);
    }
  }

  lemma CopyAgain(limit: nat, cap: nat, n: nat, next: nat, k: nat, steps: seq<StoredStep>)
    returns (more: seq<StoredStep>)
    requires n < 128 && limit < 128 && cap == 10 * (limit + 1)
    requires next == n + 1 && k == if n <= limit then n else limit
    requires StoredRun(Example(cap), steps) == Store(LogRows(EXECUTED, 10, n), Copies(n), [])
    requires ReadsAreGenuine(Example(cap), limit, steps)
    ensures StoredRun(Example(cap), more) == Store(LogRows(EXECUTED, 10, next), Copies(next), [])
    ensures ReadsAreGenuine(Example(cap), limit, more)
  {
    LogRead(EXECUTED, 10, n, limit, k);
    CopyIsStored(cap, n, next, k);
    more := OneMoreStep(
      Example(cap), limit, steps, Store(LogRows(EXECUTED, 10, n), Copies(n), []),
      CopyShown(n, LogRows(EXECUTED, 10, k)), Store(LogRows(EXECUTED, 10, next), Copies(next), []));
  }

  /** Executed rows beyond the limit of a read do not count: a valid permission whose caps are
      one copy more than is read copies past them, with every row stored. */
  lemma LongLogEscapesCaps(limit: nat, cap: nat, n: nat)
    requires limit + 1 < n < 128 && cap == 10 * (limit + 1)
    ensures exists steps: seq<StoredStep> ::
      && ReadsAreGenuine(Example(cap), limit, steps) && StoredRun(Example(cap), steps).lost == []
      && SpentEver(StoredRun(Example(cap), steps).copies) == 10 * n
      && !WithinCaps(Example(cap), StoredRun(Example(cap), steps).copies)
  {
    var steps := CopiedRun(limit, cap, n);
    CopiesSpend(n);
    OverCap(cap, Copies(n));
  }
}
