/** The at-most-once ledger of council bonuses (lib/council-bonus-ledger.ts) and the workers
    that reserve, pay and record through it (agents/oracle/council-vote.ts). */
module CouncilBonus {
  import opened Wrappers
  import opened JsStrings

  datatype Key = Key(network: JsString, contractId: JsString, claimId: int, jurorSlug: JsString)

  datatype Reservation = Reservation(key: Key, recipient: JsString, amount: int, settlementTxHash: JsString)

  datatype Status = Reserved | Confirmed | Review

  datatype Payout = Payout(
    recipient: JsString, amount: int, settlementTxHash: JsString, status: Status, paymentTxHash: Option<JsString>)

  type Table = map<Key, Payout>

  datatype LedgerError = ConstraintViolated | ConflictingReservation | NotUpdated

  // ----- The three queries, each atomic -----

  datatype InsertResult = Inserted | DidNothing | Rejected

  /** The CHECK constraints of the table. */
  predicate MeetsChecks(r: Reservation) { r.key.claimId > 0 && r.amount > 0 }

  function InsertOutcome(t: Table, r: Reservation): InsertResult {
    if !MeetsChecks(r) then Rejected else if r.key in t then DidNothing else Inserted
  }

  function AfterInsert(t: Table, r: Reservation): Table {
    if InsertOutcome(t, r).Inserted?
    then t[r.key := Payout(r.recipient, r.amount, r.settlementTxHash, Reserved, None)]
    else t
  }

  /** The stored reservation, compared field by field. */
  predicate SameReservation(t: Table, r: Reservation) {
    r.key in t && t[r.key].recipient == r.recipient && t[r.key].amount == r.amount
    && t[r.key].settlementTxHash == r.settlementTxHash
  }

  predicate Updatable(t: Table, key: Key) { key in t && t[key].status.Reserved? }

  function AfterUpdate(t: Table, key: Key, paymentTxHash: Option<JsString>): Table {
    if !Updatable(t, key) then t
    else
      var paid := paymentTxHash.Some? && paymentTxHash.value != [];
      t[key := t[key].(status := if paid then Confirmed else Review, paymentTxHash := paymentTxHash)]
  }

  /** A row that was paid with a hash is confirmed, one without a hash is to be reviewed; either
      way the row keeps its terms and the hash as it was given. */
  predicate IsRecorded(before: Payout, paymentTxHash: Option<JsString>, after: Payout) {
    && after == before.(status := after.status, paymentTxHash := paymentTxHash)
    && (after.status == Confirmed <==> paymentTxHash !in {None, Some([])})
    && (after.status == Review <==> paymentTxHash in {None, Some([])})
  }

  class BonusLedger {
    var rows: Table

    constructor ()
      ensures rows == map[]
    {
      rows := map[];
    }

    /** True for a new reservation, false for the same one made before. */
    method ReserveCouncilBonus(r: Reservation) returns (result: Result<bool, LedgerError>)
      modifies this
      ensures rows == AfterInsert(old(rows), r)
      ensures result == Ok(true) <==> MeetsChecks(r) && r.key !in old(rows)
      ensures result == Ok(false) <==> MeetsChecks(r) && SameReservation(old(rows), r)
      ensures r.key in old(rows) ==> rows == old(rows)
    {
      if !(r.key.claimId > 0 && r.amount > 0) {
        return Err(ConstraintViolated);
      }
      if r.key !in rows {
        rows := rows[r.key := Payout(r.recipient, r.amount, r.settlementTxHash, Reserved, None)];
        return Ok(true);
      }
      var stored := rows[r.key];
      if stored.recipient != r.recipient || stored.amount != r.amount || stored.settlementTxHash != r.settlementTxHash {
        return Err(ConflictingReservation);
      }
      result := Ok(false);
    }

    method RecordCouncilBonusResult(key: Key, paymentTxHash: Option<JsString>)
      returns (result: Result<bool, LedgerError>)
      modifies this
      ensures rows == AfterUpdate(old(rows), key, paymentTxHash)
      ensures result.Ok? <==> Updatable(old(rows), key)
      ensures result.Ok? ==> key in rows && IsRecorded(old(rows)[key], paymentTxHash, rows[key])
    {
      if !(key in rows && rows[key].status.Reserved?) {
        return Err(NotUpdated);
      }
      var status := if paymentTxHash.Some? && paymentTxHash.value != [] then Confirmed else Review;
      rows := rows[key := rows[key].(status := status, paymentTxHash := paymentTxHash)];
      result := Ok(true);
    }
  }

  // ----- Workers -----

  /** Where a worker stands between two queries. */
  datatype Worker =
    | Idle
    | Comparing(r: Reservation)         // the insert did nothing; the stored row is to be compared
    | Holding(r: Reservation)           // reserved; about to pay
    | Paid(r: Reservation, tx: JsString) // paid; about to record the hash
    | Failed(r: Reservation)            // no hash to show; about to record null

  datatype Payment = Payment(key: Key, recipient: JsString, amount: int)

  datatype System = System(table: Table, workers: seq<Worker>, payments: seq<Payment>)

  /** How a transfer ends: with a hash, with a payment made but its reply lost, or not sent. */
  datatype Transfer = Replied(tx: JsString) | ReplyLost | NotSent

  datatype Action = TryReserve(r: Reservation) | Compare | Pay(transfer: Transfer) | Record | Crash

  datatype Step = Step(worker: nat, action: Action)

  predicate IsHex(u: CodeUnit) { 0x30 <= u <= 0x39 || 0x41 <= u <= 0x46 || 0x61 <= u <= 0x66 }

  predicate IsTxHash(tx: JsString) { |tx| == 64 && forall i | 0 <= i < 64 :: IsHex(tx[i]) }

  predicate Owns(w: Worker) { w.Holding? || w.Paid? || w.Failed? }

  /** A malformed but non-empty hash is held for review without a record. */
  function AfterTransfer(r: Reservation, transfer: Transfer): Worker {
    match transfer
    case Replied(tx) => if IsTxHash(tx) then Paid(r, tx) else if tx == [] then Failed(r) else Idle
    case ReplyLost => Failed(r)
    case NotSent => Failed(r)
  }

  function Perform(s: System, step: Step): System {
    if step.worker >= |s.workers| then s
    else
      var i, w := step.worker, s.workers[step.worker];
      match step.action
      case Crash => s.(workers := s.workers[i := Idle])
      case TryReserve(r) =>
        if !w.Idle? then s
        else
          var outcome := InsertOutcome(s.table, r);
          var next := if outcome.Inserted? then Holding(r) else if outcome.DidNothing? then Comparing(r) else Idle;
          System(AfterInsert(s.table, r), s.workers[i := next], s.payments)
      case Compare => if w.Comparing? then s.(workers := s.workers[i := Idle]) else s
      case Pay(transfer) =>
        if !w.Holding? then s
        else
          System(s.table, s.workers[i := AfterTransfer(w.r, transfer)],
                 if transfer.NotSent? then s.payments else s.payments + [Payment(w.r.key, w.r.recipient, w.r.amount)])
      case Record =>
        if w.Paid? then System(AfterUpdate(s.table, w.r.key, Some(w.tx)), s.workers[i := Idle], s.payments)
        else if w.Failed? then System(AfterUpdate(s.table, w.r.key, None), s.workers[i := Idle], s.payments)
        else s
  }

  function Run(workers: nat, steps: seq<Step>): System {
    if steps == [] then System(map[], seq(workers, i => Idle), [])
    else Perform(Run(workers, steps[..|steps| - 1]), steps[|steps| - 1])
  }

  // ----- What every step keeps -----

  ghost predicate PaidFor(s: System, key: Key) { exists i | 0 <= i < |s.payments| :: s.payments[i].key == key }

  /** What a worker past its reservation knows: the row is its own and still reserved, and it
      has been paid for exactly if the worker got that far. */
  ghost predicate WorkerKnows(s: System, w: Worker) {
    Owns(w) ==>
      && SameReservation(s.table, w.r) && Updatable(s.table, w.r.key)
      && (w.Holding? ==> !PaidFor(s, w.r.key))
      && (w.Paid? ==> PaidFor(s, w.r.key) && IsTxHash(w.tx))
  }

  ghost predicate OneOwner(s: System) {
    forall i, j | 0 <= i < j < |s.workers| && Owns(s.workers[i]) && Owns(s.workers[j]) ::
      s.workers[i].r.key != s.workers[j].r.key
  }

  ghost predicate PaymentsMatch(s: System) {
    && (forall p | p in s.payments ::
          p.key in s.table && s.table[p.key].recipient == p.recipient && s.table[p.key].amount == p.amount)
    && (forall i, j | 0 <= i < j < |s.payments| :: s.payments[i].key != s.payments[j].key)
    && (forall k | k in s.table && s.table[k].status.Confirmed? :: PaidFor(s, k))
  }

  ghost predicate Sound(s: System) {
    (forall i | 0 <= i < |s.workers| :: WorkerKnows(s, s.workers[i])) && OneOwner(s) && PaymentsMatch(s)
  }

  /** The table only gains rows; recipient, amount and settlement hash never change, and a
      row that has left `reserved` is frozen. */
  ghost predicate Evolves(t: Table, t': Table) {
    forall k | k in t ::
      && k in t' && t'[k].recipient == t[k].recipient && t'[k].amount == t[k].amount
      && t'[k].settlementTxHash == t[k].settlementTxHash
      && (!t[k].status.Reserved? ==> t'[k] == t[k])
  }

  lemma ReserveKeepsSound(s: System, i: nat, r: Reservation)
    requires Sound(s) && i < |s.workers| && s.workers[i].Idle?
    ensures Sound(Perform(s, Step(i, TryReserve(r))))
  {
    var s' := Perform(s, Step(i, TryReserve(r)));
    if InsertOutcome(s.table, r).Inserted? {
      assert forall j | 0 <= j < |s.payments| :: s.payments[j] in s.payments;
      assert forall k :: PaidFor(s', k) <==> PaidFor(s, k);
      forall j | 0 <= j < |s.workers| ensures WorkerKnows(s', s'.workers[j]) {
        assert WorkerKnows(s, s.workers[j]);
      }
    } else {
      assert forall k :: PaidFor(s', k) <==> PaidFor(s, k);
      assert forall j | 0 <= j < |s.workers| :: WorkerKnows(s, s.workers[j]);
    }
  }

  lemma PayKeepsSound(s: System, i: nat, transfer: Transfer)
    requires Sound(s) && i < |s.workers| && s.workers[i].Holding?
    ensures Sound(Perform(s, Step(i, Pay(transfer))))
  {
    var s' := Perform(s, Step(i, Pay(transfer)));
    var r := s.workers[i].r;
    assert WorkerKnows(s, s.workers[i]);
    var sent := if transfer.NotSent? then [] else [Payment(r.key, r.recipient, r.amount)];
    assert s'.payments == s.payments + sent;
    forall k ensures PaidFor(s', k) <==> PaidFor(s, k) || (!transfer.NotSent? && k == r.key) {
      if PaidFor(s, k) {
        var j :| 0 <= j < |s.payments| && s.payments[j].key == k;
        assert s'.payments[j].key == k;
      }
      if !transfer.NotSent? { assert s'.payments[|s.payments|].key == r.key; }
    }
    forall j | 0 <= j < |s.workers| ensures WorkerKnows(s', s'.workers[j]) {
      assert WorkerKnows(s, s.workers[j]);
    }
    forall j | 0 <= j < |s.payments| ensures s.payments[j].key != r.key {
      if s.payments[j].key == r.key { assert PaidFor(s, r.key); }
    }
  }

  lemma RecordKeepsSound(s: System, i: nat)
    requires Sound(s) && i < |s.workers| && (s.workers[i].Paid? || s.workers[i].Failed?)
    ensures Sound(Perform(s, Step(i, Record)))
  {
    var s' := Perform(s, Step(i, Record));
    assert WorkerKnows(s, s.workers[i]);
    assert forall k :: PaidFor(s', k) <==> PaidFor(s, k);
    forall j | 0 <= j < |s.workers| ensures WorkerKnows(s', s'.workers[j]) {
      assert WorkerKnows(s, s.workers[j]);
    }
  }

  lemma ForgetKeepsSound(s: System, i: nat)
    requires Sound(s) && i < |s.workers|
    ensures Sound(s.(workers := s.workers[i := Idle]))
  {
    var s' := s.(workers := s.workers[i := Idle]);
    assert forall k :: PaidFor(s', k) <==> PaidFor(s, k);
    forall j | 0 <= j < |s.workers| ensures WorkerKnows(s', s'.workers[j]) {
      assert WorkerKnows(s, s.workers[j]);
    }
  }

  lemma StepKeepsSound(s: System, step: Step)
    requires Sound(s)
    ensures Sound(Perform(s, step)) && Evolves(s.table, Perform(s, step).table)
  {
    if Perform(s, step) != s {
      match step.action
      case Crash => ForgetKeepsSound(s, step.worker);
      case Compare => ForgetKeepsSound(s, step.worker);
      case TryReserve(r) => ReserveKeepsSound(s, step.worker, r);
      case Pay(transfer) => PayKeepsSound(s, step.worker, transfer);
      case Record => RecordKeepsSound(s, step.worker);
    }
  }

  lemma {:induction false} RunIsSound(workers: nat, steps: seq<Step>)
    ensures Sound(Run(workers, steps))
  {
    if steps != [] {
      RunIsSound(workers, steps[..|steps| - 1]);
      StepKeepsSound(Run(workers, steps[..|steps| - 1]), steps[|steps| - 1]);
    }
  }

  /** With any number of workers, interleaved query by query and crashing between any two,
      no key is paid twice, and each payment is the one that was reserved. */
  lemma PaidAtMostOnce(workers: nat, steps: seq<Step>)
    ensures var s := Run(workers, steps);
      && (forall i, j | 0 <= i < j < |s.payments| :: s.payments[i].key != s.payments[j].key)
      && (forall p | p in s.payments ::
            p.key in s.table && s.table[p.key].recipient == p.recipient && s.table[p.key].amount == p.amount)
      && (forall k | k in s.table && s.table[k].status.Confirmed? :: PaidFor(s, k))
  {
    RunIsSound(workers, steps);
  }

  /** Between any two moments of a run every row keeps its terms, and its status leaves
      `reserved` at most once. */
  lemma {:induction false} RowsKeepTheirTerms(workers: nat, steps: seq<Step>, n: nat)
    requires n <= |steps|
    ensures Evolves(Run(workers, steps[..n]).table, Run(workers, steps).table)
    ensures Run(workers, steps[..n]).payments <= Run(workers, steps).payments
    decreases |steps|
  {
    if n == |steps| {
      assert steps[..n] == steps;
    } else {
      var m := |steps| - 1;
      assert steps[..m][..n] == steps[..n];
      RowsKeepTheirTerms(workers, steps[..m], n);
      RunIsSound(workers, steps[..m]);
      StepKeepsSound(Run(workers, steps[..m]), steps[m]);
    }
  }

  /** A row shows how far its payment got. */
  predicate ShowsOutcome(row: Payout) {
    match row.status
    case Reserved => row.paymentTxHash == None
    case Confirmed => row.paymentTxHash.Some? && IsTxHash(row.paymentTxHash.value)
    case Review => row.paymentTxHash == None
  }

  /** In every run a confirmed row holds a transaction hash, and no other row holds any. */
  lemma {:induction false} RowsShowTheirOutcome(workers: nat, steps: seq<Step>)
    ensures forall k | k in Run(workers, steps).table :: ShowsOutcome(Run(workers, steps).table[k])
  {
    if steps != [] {
      var n := |steps| - 1;
      var s := Run(workers, steps[..n]);
      RowsShowTheirOutcome(workers, steps[..n]);
      RunIsSound(workers, steps[..n]);
      if steps[n].worker < |s.workers| { assert WorkerKnows(s, s.workers[steps[n].worker]); }
    }
  }

  /** A worker that comes to record its result always finds its reservation still open. */
  lemma RecordNeverFails(workers: nat, steps: seq<Step>, i: nat)
    requires i < |Run(workers, steps).workers|
      && (Run(workers, steps).workers[i].Paid? || Run(workers, steps).workers[i].Failed?)
    ensures Updatable(Run(workers, steps).table, Run(workers, steps).workers[i].r.key)
  {
    RunIsSound(workers, steps);
    assert WorkerKnows(Run(workers, steps), Run(workers, steps).workers[i]);
  }

  /** A worker that is not interrupted pays for a fresh key and confirms the row. */
  lemma UninterruptedWorkerPays(s: System, i: nat, r: Reservation, tx: JsString)
    requires i < |s.workers| && s.workers[i].Idle? && MeetsChecks(r) && r.key !in s.table && IsTxHash(tx)
    ensures var paid := Perform(Perform(s, Step(i, TryReserve(r))), Step(i, Pay(Replied(tx))));
      var done := Perform(paid, Step(i, Record));
      && done.payments == s.payments + [Payment(r.key, r.recipient, r.amount)]
      && done.table == s.table[r.key := Payout(r.recipient, r.amount, r.settlementTxHash, Confirmed, Some(tx))]
  {
  }
}
