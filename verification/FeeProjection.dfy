/** The read index of fee events: idempotent inserts and the summaries read off them
    (lib/db.ts). */
module FeeProjection {
  import opened Wrappers
  import opened JsStrings
  import opened Sequences
  import Fees

  datatype Source = PlatformSource | AgentOwnerSource

  datatype Settlement = Settlement(
    claimId: int, grossVolume: int, payout: int, platformFee: int, agentOwnerFee: int, dust: int,
    transactionHash: JsString, settledAt: int)

  /** An x402 payment; `payload` stands for the columns that no summary reads. */
  datatype Payment = Payment(
    network: JsString, paymentIdentifier: JsString, amount: int, seller: Option<JsString>, payload: JsString)

  datatype FeeAccrual = FeeAccrual(
    accrualId: JsString, claimId: int, recipient: JsString, source: Source, amount: int,
    transactionHash: JsString, logIndex: int, accruedAt: int)

  datatype FeeClaim = FeeClaim(
    claimEventId: JsString, recipient: JsString, amount: int, transactionHash: JsString, logIndex: int, claimedAt: int)

  /** UNIQUE(transaction_hash, log_index). */
  datatype EventKey = EventKey(transactionHash: JsString, logIndex: int)

  function AccrualKey(e: FeeAccrual): EventKey { EventKey(e.transactionHash, e.logIndex) }
  function AccrualId(e: FeeAccrual): JsString { e.accrualId }
  function ClaimKey(e: FeeClaim): EventKey { EventKey(e.transactionHash, e.logIndex) }
  function ClaimId(e: FeeClaim): JsString { e.claimEventId }

  function SettlementKey(e: Settlement): int { e.claimId }
  function SettlementHash(e: Settlement): JsString { e.transactionHash }

  datatype PaymentKey = PaymentKey(network: JsString, paymentIdentifier: JsString)
  function KeyOfPayment(e: Payment): PaymentKey { PaymentKey(e.network, e.paymentIdentifier) }

  /** Rows are stored with hashes and payment identifiers folded to lower case. */
  function StoredAccrual(e: FeeAccrual): FeeAccrual { e.(transactionHash := LowerAscii(e.transactionHash)) }
  function StoredClaim(e: FeeClaim): FeeClaim { e.(transactionHash := LowerAscii(e.transactionHash)) }
  function StoredSettlement(e: Settlement): Settlement { e.(transactionHash := LowerAscii(e.transactionHash)) }
  function StoredPayment(e: Payment): Payment { e.(paymentIdentifier := LowerAscii(e.paymentIdentifier)) }

  // ----- Inserting -----

  predicate HasKey<T, K(==)>(key: T -> K, table: seq<T>, k: K) { exists i | 0 <= i < |table| :: key(table[i]) == k }

  /** INSERT ... ON CONFLICT(key) DO NOTHING; a repeated primary key fails, changing nothing. */
  function Insert<T, K(==), I(==)>(key: T -> K, id: T -> I, table: seq<T>, row: T): seq<T> {
    if HasKey(key, table, key(row)) || HasKey(id, table, id(row)) then table else table + [row]
  }

  function Replay<T, K(==), I(==)>(key: T -> K, id: T -> I, rows: seq<T>): seq<T> {
    if rows == [] then []
    else Insert(key, id, Replay(key, id, rows[..|rows| - 1]), rows[|rows| - 1])
  }

  /** Another claim's settlement has the transaction hash, which is UNIQUE. */
  predicate HashTaken(table: seq<Settlement>, row: Settlement) {
    exists i | 0 <= i < |table| :: table[i].claimId != row.claimId && table[i].transactionHash == row.transactionHash
  }

  /** The table with the row of the same claim replaced. */
  function Replaced(table: seq<Settlement>, row: Settlement): seq<Settlement> {
    seq(|table|, i requires 0 <= i < |table| => if table[i].claimId == row.claimId then row else table[i])
  }

  /** INSERT ... ON CONFLICT(claim_id) DO UPDATE; a hash of another claim fails, changing nothing. */
  function Upsert(table: seq<Settlement>, row: Settlement): seq<Settlement> {
    if HashTaken(table, row) then table
    else if HasKey(SettlementKey, table, row.claimId) then Replaced(table, row)
    else table + [row]
  }

  function ReplayUpserts(rows: seq<Settlement>): seq<Settlement> {
    if rows == [] then [] else Upsert(ReplayUpserts(rows[..|rows| - 1]), rows[|rows| - 1])
  }

  class FeeTables {
    var accruals: seq<FeeAccrual>
    var claims: seq<FeeClaim>
    var settlements: seq<Settlement>
    var payments: seq<Payment>

    constructor ()
      ensures accruals == [] && claims == [] && settlements == [] && payments == []
    {
      accruals, claims, settlements, payments := [], [], [], [];
    }

    /** False when another claim has the transaction hash: then the upsert throws. */
    method UpsertMarketSettlement(e: Settlement) returns (ok: bool)
      modifies this
      ensures settlements == Upsert(old(settlements), StoredSettlement(e))
      ensures accruals == old(accruals) && claims == old(claims) && payments == old(payments)
      ensures ok <==> !HashTaken(old(settlements), StoredSettlement(e))
      ensures ok ==>
        Settlement(e.claimId, e.grossVolume, e.payout, e.platformFee, e.agentOwnerFee, e.dust,
                   LowerAscii(e.transactionHash), e.settledAt) in settlements
    {
      var row := e.(transactionHash := LowerAscii(e.transactionHash));
      if exists i | 0 <= i < |settlements| ::
           settlements[i].claimId != row.claimId && settlements[i].transactionHash == row.transactionHash {
        return false;
      }
      ok := true;
      if HasKey(SettlementKey, settlements, row.claimId) {
        ghost var i :| 0 <= i < |settlements| && settlements[i].claimId == row.claimId;
        settlements := seq(|settlements|, i requires 0 <= i < |settlements| reads this =>
          if settlements[i].claimId == row.claimId then row else settlements[i]);
        assert settlements[i] == row;
      } else {
        settlements := settlements + [row];
      }
    }

    /** A payment that is known already is left alone. */
    method InsertPayment(e: Payment)
      modifies this
      ensures payments == Insert(KeyOfPayment, KeyOfPayment, old(payments), StoredPayment(e))
      ensures accruals == old(accruals) && claims == old(claims) && settlements == old(settlements)
      ensures payments
        == if forall x | x in old(payments) ::
                x.network == e.network ==> x.paymentIdentifier != LowerAscii(e.paymentIdentifier)
           then old(payments) + [Payment(e.network, LowerAscii(e.paymentIdentifier), e.amount, e.seller, e.payload)]
           else old(payments)
    {
      var row := e.(paymentIdentifier := LowerAscii(e.paymentIdentifier));
      if !HasKey(KeyOfPayment, payments, KeyOfPayment(row)) {
        payments := payments + [row];
        assert KeyOfPayment(payments[|payments| - 1]) == KeyOfPayment(row);
      }
    }

    /** False when the primary key, not the event key, is taken: then the insert throws. */
    method InsertFeeAccrual(e: FeeAccrual) returns (ok: bool)
      modifies this
      ensures accruals == Insert(AccrualKey, AccrualId, old(accruals), StoredAccrual(e))
      ensures claims == old(claims) && settlements == old(settlements) && payments == old(payments)
      ensures ok <==> HasKey(AccrualKey, accruals, AccrualKey(StoredAccrual(e)))
      ensures accruals
        == if forall x | x in old(accruals) ::
                x.accrualId != e.accrualId
                && (x.logIndex == e.logIndex ==> x.transactionHash != LowerAscii(e.transactionHash))
           then old(accruals) + [FeeAccrual(e.accrualId, e.claimId, e.recipient, e.source, e.amount,
                                            LowerAscii(e.transactionHash), e.logIndex, e.accruedAt)]
           else old(accruals)
    {
      var row := e.(transactionHash := LowerAscii(e.transactionHash));
      if HasKey(AccrualKey, accruals, AccrualKey(row)) {
        return true;
      }
      if HasKey(AccrualId, accruals, AccrualId(row)) {
        return false;
      }
      accruals := accruals + [row];
      ok := true;
      assert AccrualKey(accruals[|accruals| - 1]) == AccrualKey(row);
    }

    method InsertFeeClaim(e: FeeClaim) returns (ok: bool)
      modifies this
      ensures claims == Insert(ClaimKey, ClaimId, old(claims), StoredClaim(e))
      ensures accruals == old(accruals) && settlements == old(settlements) && payments == old(payments)
      ensures ok <==> HasKey(ClaimKey, claims, ClaimKey(StoredClaim(e)))
      ensures claims
        == if forall x | x in old(claims) ::
                x.claimEventId != e.claimEventId
                && (x.logIndex == e.logIndex ==> x.transactionHash != LowerAscii(e.transactionHash))
           then old(claims) + [FeeClaim(e.claimEventId, e.recipient, e.amount, LowerAscii(e.transactionHash),
                                        e.logIndex, e.claimedAt)]
           else old(claims)
    {
      var row := e.(transactionHash := LowerAscii(e.transactionHash));
      if HasKey(ClaimKey, claims, ClaimKey(row)) {
        return true;
      }
      if HasKey(ClaimId, claims, ClaimId(row)) {
        return false;
      }
      claims := claims + [row];
      ok := true;
      assert ClaimKey(claims[|claims| - 1]) == ClaimKey(row);
    }
  }

  // ----- Replays -----

  /** An event key, or a primary key, always comes with the same event. */
  ghost predicate Consistent<T, K, I>(key: T -> K, id: T -> I, rows: seq<T>) {
    forall x, y | x in rows && y in rows && (key(x) == key(y) || id(x) == id(y)) :: x == y
  }

  /** Replaying consistent events stores each of them once and nothing else. */
  lemma {:induction false} ReplayStoresEachOnce<T, K, I>(key: T -> K, id: T -> I, rows: seq<T>)
    requires Consistent(key, id, rows)
    ensures forall x :: x in Replay(key, id, rows) <==> x in rows
    ensures Distinct(Replay(key, id, rows))
  {
    if rows != [] {
      var n := |rows| - 1;
      var front, row := rows[..n], rows[n];
      assert rows == front + [row];
      assert forall x | x in front :: x in rows;
      ReplayStoresEachOnce(key, id, front);
      var table := Replay(key, id, front);
      if HasKey(key, table, key(row)) {
        var i :| 0 <= i < |table| && key(table[i]) == key(row);
        assert table[i] in table && table[i] == row;
      } else {
        forall i | 0 <= i < |table| ensures id(table[i]) != id(row) && table[i] != row {
          assert table[i] in table;
          assert key(table[i]) != key(row);
        }
      }
    }
  }

  /** Replays of the same events, in any order and with any repetitions, give the same table
      of rows. */
  lemma ReplayIsOrderFree<T, K, I>(key: T -> K, id: T -> I, rows: seq<T>, rows': seq<T>)
    requires Consistent(key, id, rows) && forall x :: x in rows <==> x in rows'
    ensures Permutation(Replay(key, id, rows), Replay(key, id, rows'))
  {
    ReplayStoresEachOnce(key, id, rows);
    ReplayStoresEachOnce(key, id, rows');
    SameMembersPermute(Replay(key, id, rows), Replay(key, id, rows'));
  }

  // ----- Replaying upserts -----

  /** No two claims were settled in one transaction. */
  ghost predicate OwnHashes(rows: seq<Settlement>) {
    forall x, y | x in rows && y in rows && x.transactionHash == y.transactionHash :: x.claimId == y.claimId
  }

  predicate Mentions(rows: seq<Settlement>, claimId: int) { exists j | 0 <= j < |rows| :: rows[j].claimId == claimId }

  /** The row stands in the list, and no later row is about its claim. */
  ghost predicate IsLast(rows: seq<Settlement>, x: Settlement) {
    exists i | 0 <= i < |rows| :: rows[i] == x && !Mentions(rows[i + 1..], x.claimId)
  }

  lemma MentionsConcat(a: seq<Settlement>, b: seq<Settlement>, claimId: int)
    ensures Mentions(a + b, claimId) <==> Mentions(a, claimId) || Mentions(b, claimId)
  {
    if Mentions(a, claimId) {
      var j :| 0 <= j < |a| && a[j].claimId == claimId;
      assert (a + b)[j] == a[j];
    }
    if Mentions(b, claimId) {
      var j :| 0 <= j < |b| && b[j].claimId == claimId;
      assert (a + b)[|a| + j] == b[j];
    }
  }

  lemma LastOfWhole(a: seq<Settlement>, b: seq<Settlement>, x: Settlement)
    requires IsLast(a + b, x)
    ensures IsLast(b, x) || (IsLast(a, x) && !Mentions(b, x.claimId))
  {
    var i :| 0 <= i < |a + b| && (a + b)[i] == x && !Mentions((a + b)[i + 1..], x.claimId);
    if i < |a| {
      assert (a + b)[i + 1..] == a[i + 1..] + b;
      MentionsConcat(a[i + 1..], b, x.claimId);
    } else {
      assert (a + b)[i + 1..] == b[i - |a| + 1..] && b[i - |a|] == x;
    }
  }

  lemma LastOfParts(a: seq<Settlement>, b: seq<Settlement>, x: Settlement)
    requires IsLast(b, x) || (IsLast(a, x) && !Mentions(b, x.claimId))
    ensures IsLast(a + b, x)
  {
    if IsLast(b, x) {
      var i :| 0 <= i < |b| && b[i] == x && !Mentions(b[i + 1..], x.claimId);
      assert (a + b)[|a| + i] == x && (a + b)[|a| + i + 1..] == b[i + 1..];
    } else {
      var i :| 0 <= i < |a| && a[i] == x && !Mentions(a[i + 1..], x.claimId);
      assert (a + b)[i] == x && (a + b)[i + 1..] == a[i + 1..] + b;
      MentionsConcat(a[i + 1..], b, x.claimId);
    }
  }

  lemma LastConcat(a: seq<Settlement>, b: seq<Settlement>, x: Settlement)
    ensures IsLast(a + b, x) <==> IsLast(b, x) || (IsLast(a, x) && !Mentions(b, x.claimId))
  {
    if IsLast(a + b, x) { LastOfWhole(a, b, x); }
    if IsLast(b, x) || (IsLast(a, x) && !Mentions(b, x.claimId)) { LastOfParts(a, b, x); }
  }

  lemma LastSnoc(rows: seq<Settlement>, row: Settlement, x: Settlement)
    ensures IsLast(rows + [row], x) <==> x == row || (IsLast(rows, x) && x.claimId != row.claimId)
  {
    LastConcat(rows, [row], x);
    assert [row][0] == row && [row][1..] == [];
  }

  lemma UpsertMembers(table: seq<Settlement>, row: Settlement)
    requires !HashTaken(table, row) && DistinctKeys(SettlementKey, table)
    ensures DistinctKeys(SettlementKey, Upsert(table, row))
    ensures forall x :: x in Upsert(table, row) <==> x == row || (x in table && x.claimId != row.claimId)
  {
    var after := Upsert(table, row);
    if HasKey(SettlementKey, table, row.claimId) {
      var i :| 0 <= i < |table| && SettlementKey(table[i]) == row.claimId;
      assert after[i] == row;
      forall x | x in table && x.claimId != row.claimId ensures x in after {
        var j :| 0 <= j < |table| && table[j] == x;
        assert after[j] == x;
      }
    } else {
      assert forall x | x in table :: exists j | 0 <= j < |table| :: SettlementKey(table[j]) == x.claimId;
      assert forall j | 0 <= j < |table| :: after[j] == table[j];
    }
  }

  /** Corrections included, replaying settlements stores the last row of every claim, one row
      for each, and nothing else. */
  lemma {:induction false} UpsertsHoldLast(rows: seq<Settlement>)
    requires OwnHashes(rows)
    ensures DistinctKeys(SettlementKey, ReplayUpserts(rows))
    ensures forall x :: x in ReplayUpserts(rows) <==> IsLast(rows, x)
  {
    if rows != [] {
      var n := |rows| - 1;
      var front, row := rows[..n], rows[n];
      assert rows == front + [row];
      assert forall x | x in front :: x in rows;
      UpsertsHoldLast(front);
      var table := ReplayUpserts(front);
      NoHashTaken(front, table, row);
      UpsertMembers(table, row);
      forall x { LastSnoc(front, row, x); }
    }
  }

  lemma NoHashTaken(front: seq<Settlement>, table: seq<Settlement>, row: Settlement)
    requires OwnHashes(front + [row]) && forall x :: x in table <==> IsLast(front, x)
    ensures !HashTaken(table, row)
  {
    forall i | 0 <= i < |table| && table[i].transactionHash == row.transactionHash
      ensures table[i].claimId == row.claimId
    {
      assert table[i] in table;
      assert table[i] in front + [row] && row in front + [row];
    }
  }

  function ClaimIds(table: seq<Settlement>): seq<int> {
    seq(|table|, i requires 0 <= i < |table| => table[i].claimId)
  }

  lemma KnownKeepsOrder(table: seq<Settlement>, row: Settlement)
    requires HasKey(SettlementKey, table, row.claimId)
    ensures ClaimIds(Upsert(table, row)) == ClaimIds(table)
  {
  }

  lemma UpsertsSnoc(front: seq<Settlement>, row: Settlement)
    ensures ReplayUpserts(front + [row]) == Upsert(ReplayUpserts(front), row)
  {
    assert (front + [row])[..|front|] == front;
  }

  /** Upserting known claims keeps the order of the table. */
  lemma {:induction false} UpsertsKeepOrder(rows: seq<Settlement>, more: seq<Settlement>)
    requires OwnHashes(rows + more) && forall x | x in more :: Mentions(rows, x.claimId)
    ensures ClaimIds(ReplayUpserts(rows + more)) == ClaimIds(ReplayUpserts(rows))
  {
    if more == [] {
      assert rows + more == rows;
    } else {
      var n := |more| - 1;
      var front, row := rows + more[..n], more[n];
      assert rows + more == front + [row];
      assert forall x | x in front :: x in rows + more;
      assert row in more;
      UpsertsKeepOrder(rows, more[..n]);
      MentionsConcat(rows, more[..n], row.claimId);
      MentionedIsStored(front, row.claimId);
      UpsertsSnoc(front, row);
      KnownKeepsOrder(ReplayUpserts(front), row);
    }
  }

  lemma {:induction false} LastExists(rows: seq<Settlement>, claimId: int) returns (x: Settlement)
    requires Mentions(rows, claimId)
    ensures IsLast(rows, x) && x.claimId == claimId
  {
    var n := |rows| - 1;
    assert rows == rows[..n] + [rows[n]];
    MentionsConcat(rows[..n], [rows[n]], claimId);
    if rows[n].claimId == claimId {
      x := rows[n];
    } else {
      x := LastExists(rows[..n], claimId);
    }
    LastSnoc(rows[..n], rows[n], x);
  }

  lemma MentionedIsStored(rows: seq<Settlement>, claimId: int)
    requires OwnHashes(rows) && Mentions(rows, claimId)
    ensures HasKey(SettlementKey, ReplayUpserts(rows), claimId)
  {
    var x := LastExists(rows, claimId);
    UpsertsHoldLast(rows);
    assert x in ReplayUpserts(rows);
  }

  lemma SameTable(a: seq<Settlement>, b: seq<Settlement>)
    requires ClaimIds(a) == ClaimIds(b) && DistinctKeys(SettlementKey, b) && forall x | x in a :: x in b
    ensures a == b
  {
    assert |ClaimIds(a)| == |a| && |ClaimIds(b)| == |b|;
    forall i | 0 <= i < |a| ensures a[i] == b[i] {
      assert ClaimIds(a)[i] == ClaimIds(b)[i];
      assert a[i] in b;
      var j :| 0 <= j < |b| && b[j] == a[i];
      assert SettlementKey(b[j]) == SettlementKey(b[i]);
    }
  }

  /** Replaying the settlements once more, from the start or from any later point, leaves the
      table as it was, although older rows come back in between. */
  lemma ReplayedSuffixChangesNothing(rows: seq<Settlement>, k: nat)
    requires OwnHashes(rows) && k <= |rows|
    ensures ReplayUpserts(rows + rows[k..]) == ReplayUpserts(rows)
  {
    var front, rest := rows[..k], rows[k..];
    assert rows == front + rest;
    assert forall x | x in rows + rest :: x in rows;
    assert forall x | x in rest :: Mentions(rows, x.claimId);
    UpsertsKeepOrder(rows, rest);
    UpsertsHoldLast(rows);
    UpsertsHoldLast(rows + rest);
    forall x ensures IsLast(rows + rest, x) <==> IsLast(rows, x) {
      LastConcat(rows, rest, x);
      LastConcat(front, rest, x);
    }
    SameTable(ReplayUpserts(rows + rest), ReplayUpserts(rows));
  }

  /** Where a claim always comes with the same row, every row is the last of its claim. */
  lemma ConsistentRowsAreLast(rows: seq<Settlement>)
    requires Consistent(SettlementKey, SettlementHash, rows)
    ensures OwnHashes(rows) && forall x :: IsLast(rows, x) <==> x in rows
  {
    forall x, y | x in rows && y in rows && x.transactionHash == y.transactionHash ensures x.claimId == y.claimId {
      assert SettlementHash(x) == SettlementHash(y);
    }
    forall x | x in rows ensures IsLast(rows, x) {
      assert Mentions(rows, x.claimId);
      var y := LastExists(rows, x.claimId);
      assert SettlementKey(x) == SettlementKey(y);
    }
  }

  // ----- Summaries -----

  function AccruedAmount(e: FeeAccrual): int { e.amount }
  function ClaimedAmount(e: FeeClaim): int { e.amount }
  function AccrualRecipient(e: FeeAccrual): JsString { e.recipient }
  function ClaimRecipient(e: FeeClaim): JsString { e.recipient }
  function AtLeastZero(n: int): int { if n > 0 then n else 0 }

  function GrossOf(e: Settlement): int { e.grossVolume }
  function PayoutOf(e: Settlement): int { e.payout }
  function PlatformFeeOf(e: Settlement): int { e.platformFee }
  function OwnerFeeOf(e: Settlement): int { e.agentOwnerFee }
  function DustOf(e: Settlement): int { e.dust }
  function PaymentAmount(e: Payment): int { e.amount }

  datatype Tables = Tables(
    accruals: seq<FeeAccrual>, claims: seq<FeeClaim>, settlements: seq<Settlement>, payments: seq<Payment>)

  datatype MarketRevenue = MarketRevenue(
    settledMarkets: nat, grossVolume: int, payout: int, platformFee: int, agentOwnerFee: int, dust: int, unclaimed: int)

  function MarketUnclaimed(accruals: seq<FeeAccrual>, claims: seq<FeeClaim>): int {
    AtLeastZero(SumBy(AccruedAmount, accruals) - SumBy(ClaimedAmount, claims))
  }

  /** `getMarketRevenueSummary`. */
  function MarketRevenueSummary(t: Tables): MarketRevenue {
    MarketRevenue(
      |t.settlements|, SumBy(GrossOf, t.settlements), SumBy(PayoutOf, t.settlements),
      SumBy(PlatformFeeOf, t.settlements),
      SumBy(OwnerFeeOf, t.settlements), SumBy(DustOf, t.settlements), MarketUnclaimed(t.accruals, t.claims))
  }

  datatype Earnings = Earnings(ownerFees: int, unclaimed: int, x402: int)

  function OwnerFees(wallet: JsString, accruals: seq<FeeAccrual>): int {
    SumBy(AccruedAmount, Filter((e: FeeAccrual) => e.recipient == wallet && e.source.AgentOwnerSource?, accruals))
  }

  /** `getAgentEarningsSummary`. */
  function AgentEarningsSummary(wallet: JsString, t: Tables): Earnings {
    Earnings(
      OwnerFees(wallet, t.accruals),
      AtLeastZero(Owed(wallet, t.accruals, t.claims)),
      SumBy(PaymentAmount, Filter((e: Payment) => e.seller == Some(wallet), t.payments)))
  }

  /** Accrued less claimed, which a claim past the accruals makes negative. */
  function Owed(wallet: JsString, accruals: seq<FeeAccrual>, claims: seq<FeeClaim>): int {
    SumBy(AccruedAmount, Filter((e: FeeAccrual) => e.recipient == wallet, accruals))
    - SumBy(ClaimedAmount, Filter((e: FeeClaim) => e.recipient == wallet, claims))
  }

  ghost predicate Reordered(t: Tables, t': Tables) {
    && Permutation(t.accruals, t'.accruals) && Permutation(t.claims, t'.claims)
    && Permutation(t.settlements, t'.settlements) && Permutation(t.payments, t'.payments)
  }

  lemma FilteredSumPermutation<T>(amount: T -> int, keep: T -> bool, rows: seq<T>, rows': seq<T>)
    requires Permutation(rows, rows')
    ensures SumBy(amount, Filter(keep, rows)) == SumBy(amount, Filter(keep, rows'))
  {
    FilterPermutation(keep, rows, rows');
    SumByPermutation(amount, Filter(keep, rows), Filter(keep, rows'));
  }

  lemma RevenueIgnoresRowOrder(t: Tables, t': Tables)
    requires Reordered(t, t')
    ensures MarketRevenueSummary(t) == MarketRevenueSummary(t')
  {
    SumByPermutation(AccruedAmount, t.accruals, t'.accruals);
    SumByPermutation(ClaimedAmount, t.claims, t'.claims);
    PermutationMembers(t.settlements, t'.settlements);
    SumByPermutation(GrossOf, t.settlements, t'.settlements);
    SumByPermutation(PayoutOf, t.settlements, t'.settlements);
    SumByPermutation(PlatformFeeOf, t.settlements, t'.settlements);
    SumByPermutation(OwnerFeeOf, t.settlements, t'.settlements);
    SumByPermutation(DustOf, t.settlements, t'.settlements);
  }

  /** Both summaries depend on the rows of the four tables only, not on their order. */
  lemma SummariesIgnoreRowOrder(wallet: JsString, t: Tables, t': Tables)
    requires Reordered(t, t')
    ensures MarketRevenueSummary(t) == MarketRevenueSummary(t')
    ensures AgentEarningsSummary(wallet, t) == AgentEarningsSummary(wallet, t')
  {
    RevenueIgnoresRowOrder(t, t');
    var owned := (e: FeeAccrual) => e.recipient == wallet && e.source.AgentOwnerSource?;
    FilteredSumPermutation(AccruedAmount, owned, t.accruals, t'.accruals);
    FilteredSumPermutation(AccruedAmount, (e: FeeAccrual) => e.recipient == wallet, t.accruals, t'.accruals);
    FilteredSumPermutation(ClaimedAmount, (e: FeeClaim) => e.recipient == wallet, t.claims, t'.claims);
    FilteredSumPermutation(PaymentAmount, (e: Payment) => e.seller == Some(wallet), t.payments, t'.payments);
  }

  /** The four lists of events with what is folded in storage folded. */
  function Stored(events: Tables): Tables {
    Tables(
      Map(StoredAccrual, events.accruals), Map(StoredClaim, events.claims),
      Map(StoredSettlement, events.settlements), Map(StoredPayment, events.payments))
  }

  /** The tables after the events of each list one after another. */
  function Project(events: Tables): Tables {
    var rows := Stored(events);
    Tables(
      Replay(AccrualKey, AccrualId, rows.accruals), Replay(ClaimKey, ClaimId, rows.claims),
      ReplayUpserts(rows.settlements), Replay(KeyOfPayment, KeyOfPayment, rows.payments))
  }

  /** Accruals, claims and payments do not change; a settlement may be corrected, but no
      transaction settles two claims. */
  ghost predicate ConsistentEvents(events: Tables) {
    var rows := Stored(events);
    && Consistent(AccrualKey, AccrualId, rows.accruals) && Consistent(ClaimKey, ClaimId, rows.claims)
    && OwnHashes(rows.settlements) && Consistent(KeyOfPayment, KeyOfPayment, rows.payments)
  }

  ghost predicate SameRows<T(!new)>(rows: seq<T>, rows': seq<T>) { forall x :: x in rows <==> x in rows' }

  /** The same accruals, claims and payments, and the same last settlement of every claim. */
  ghost predicate SameEvents(events: Tables, events': Tables) {
    var rows, rows' := Stored(events), Stored(events');
    && SameRows(rows.accruals, rows'.accruals) && SameRows(rows.claims, rows'.claims)
    && SameRows(rows.payments, rows'.payments)
    && forall x :: IsLast(rows.settlements, x) <==> IsLast(rows'.settlements, x)
  }

  /** The table depends only on the last settlement of every claim. */
  lemma UpsertsAreOrderFree(rows: seq<Settlement>, rows': seq<Settlement>)
    requires OwnHashes(rows) && OwnHashes(rows') && forall x :: IsLast(rows, x) <==> IsLast(rows', x)
    ensures Permutation(ReplayUpserts(rows), ReplayUpserts(rows'))
  {
    UpsertsHoldLast(rows);
    UpsertsHoldLast(rows');
    DistinctRows(ReplayUpserts(rows));
    DistinctRows(ReplayUpserts(rows'));
    SameMembersPermute(ReplayUpserts(rows), ReplayUpserts(rows'));
  }

  lemma DistinctRows(table: seq<Settlement>)
    requires DistinctKeys(SettlementKey, table)
    ensures Distinct(table)
  {
    forall i, j | 0 <= i < j < |table| ensures table[i] != table[j] {
      assert SettlementKey(table[i]) != SettlementKey(table[j]);
    }
  }

  /** Replaying the events any number of times, in any order that leaves each claim its last
      settlement, changes no summary. */
  lemma ProjectionIsIdempotent(wallet: JsString, events: Tables, events': Tables)
    requires ConsistentEvents(events) && ConsistentEvents(events') && SameEvents(events, events')
    ensures MarketRevenueSummary(Project(events)) == MarketRevenueSummary(Project(events'))
    ensures AgentEarningsSummary(wallet, Project(events)) == AgentEarningsSummary(wallet, Project(events'))
  {
    var rows, rows' := Stored(events), Stored(events');
    ReplayIsOrderFree(AccrualKey, AccrualId, rows.accruals, rows'.accruals);
    ReplayIsOrderFree(ClaimKey, ClaimId, rows.claims, rows'.claims);
    ReplayIsOrderFree(KeyOfPayment, KeyOfPayment, rows.payments, rows'.payments);
    UpsertsAreOrderFree(rows.settlements, rows'.settlements);
    SummariesIgnoreRowOrder(wallet, Project(events), Project(events'));
  }

  // ----- Revenue of settled markets -----

  datatype SettledMarket = SettledMarket(
    claimId: int, participants: seq<Fees.Participant>, snapshot: Fees.FeeSnapshot, outcome: Fees.Outcome,
    transactionHash: JsString, settledAt: int)

  function StakesIn(m: SettledMarket): int { SumBy(Fees.StakeOf, m.participants) }

  function PlatformLeg(m: SettledMarket): int {
    Fees.LegTotal(m.participants, m.snapshot.platformFeeBps, Some(m.snapshot.platformRecipient), m.outcome)
  }

  function OwnerLeg(m: SettledMarket): int {
    Fees.LegTotal(m.participants, m.snapshot.agentOwnerFeeBps, m.snapshot.agentOwnerRecipient, m.outcome)
  }

  function DueIn(m: SettledMarket): int { Fees.GrossDue(m.participants, m.outcome) }

  /** The row of a market that is fully settled. */
  function RowOf(m: SettledMarket): Settlement {
    var r := Fees.Settlement(m.participants, m.snapshot, m.outcome);
    Settlement(m.claimId, r.escrowInflowUnits, r.totalPayoutUnits, r.totalPlatformFeeUnits, r.totalAgentOwnerFeeUnits,
               r.dustUnits, m.transactionHash, m.settledAt)
  }

  predicate WellRated(m: SettledMarket) { Fees.ValidSnapshot(m.snapshot) && Fees.NonNegative(m.participants) }

  lemma RowIs(m: SettledMarket)
    requires WellRated(m)
    ensures var row := RowOf(m);
      && row.grossVolume == StakesIn(m) && row.platformFee == PlatformLeg(m) && row.agentOwnerFee == OwnerLeg(m)
      && row.dust == StakesIn(m) - DueIn(m) && row.payout == DueIn(m) - PlatformLeg(m) - OwnerLeg(m)
  {
    Fees.TotalsAreLegs(m.participants, m.snapshot, m.outcome);
    Fees.DustExact(m.participants, m.snapshot, m.outcome);
  }

  /** What the rows of settled markets add up to, column by column. */
  ghost predicate AddUp(ms: seq<SettledMarket>, r: MarketRevenue) {
    && r.settledMarkets == |ms| && r.grossVolume == SumBy(StakesIn, ms)
    && r.platformFee == SumBy(PlatformLeg, ms) && r.agentOwnerFee == SumBy(OwnerLeg, ms)
    && r.payout == SumBy(DueIn, ms) - SumBy(PlatformLeg, ms) - SumBy(OwnerLeg, ms)
    && r.dust == SumBy(StakesIn, ms) - SumBy(DueIn, ms)
  }

  function Totals(rows: seq<Settlement>, unclaimed: int): MarketRevenue {
    MarketRevenue(|rows|, SumBy(GrossOf, rows), SumBy(PayoutOf, rows), SumBy(PlatformFeeOf, rows),
                  SumBy(OwnerFeeOf, rows), SumBy(DustOf, rows), unclaimed)
  }

  lemma {:induction false} SumsOfRows(ms: seq<SettledMarket>, unclaimed: int)
    requires forall m | m in ms :: WellRated(m)
    ensures AddUp(ms, Totals(Map(RowOf, ms), unclaimed))
  {
    if ms != [] {
      assert ms[0] in ms && forall m | m in ms[1..] :: m in ms;
      SumsOfRows(ms[1..], unclaimed);
      RowIs(ms[0]);
    }
  }

  lemma RevenueOfRows(rows: seq<Settlement>, t: Tables)
    requires Permutation(t.settlements, rows)
    ensures MarketRevenueSummary(t) == Totals(rows, MarketUnclaimed(t.accruals, t.claims))
  {
    RevenueIgnoresRowOrder(t, t.(settlements := rows));
  }

  /** Over settled markets, the revenue summary reports how many there are, all stakes, all
      platform fees, all agent-owner fees, what was due less those fees, and what is left over. */
  lemma RevenueOfMarkets(ms: seq<SettledMarket>, t: Tables)
    requires (forall m | m in ms :: WellRated(m)) && Permutation(t.settlements, Map(RowOf, ms))
    ensures AddUp(ms, MarketRevenueSummary(t))
    ensures MarketRevenueSummary(t).unclaimed
      == AtLeastZero(SumBy(AccruedAmount, t.accruals) - SumBy(ClaimedAmount, t.claims))
  {
    SumsOfRows(ms, MarketUnclaimed(t.accruals, t.claims));
    RevenueOfRows(Map(RowOf, ms), t);
  }

  // ----- Per-recipient and global amounts -----

  function SumUnclaimed(wallets: seq<JsString>, accruals: seq<FeeAccrual>, claims: seq<FeeClaim>): int {
    if wallets == [] then 0
    else AtLeastZero(Owed(wallets[0], accruals, claims)) + SumUnclaimed(wallets[1..], accruals, claims)
  }

  function SumOwed(wallets: seq<JsString>, accruals: seq<FeeAccrual>, claims: seq<FeeClaim>): int {
    if wallets == [] then 0 else Owed(wallets[0], accruals, claims) + SumOwed(wallets[1..], accruals, claims)
  }

  lemma {:induction false} FilteredSum<T, K>(
    recipient: T -> K, amount: T -> int, keep: T -> bool, wallet: K, rows: seq<T>)
    requires forall x :: keep(x) <==> recipient(x) == wallet
    ensures SumBy(amount, Filter(keep, rows)) == SumFor(recipient, amount, rows, wallet)
  {
    if rows != [] {
      FilteredSum(recipient, amount, keep, wallet, rows[1..]);
      SumByConcat(amount, if keep(rows[0]) then [rows[0]] else [], Filter(keep, rows[1..]));
    }
  }

  lemma {:induction false} OwedByKeys(wallets: seq<JsString>, accruals: seq<FeeAccrual>, claims: seq<FeeClaim>)
    ensures SumOwed(wallets, accruals, claims)
         == SumOverKeys(AccrualRecipient, AccruedAmount, accruals, wallets)
          - SumOverKeys(ClaimRecipient, ClaimedAmount, claims, wallets)
  {
    if wallets != [] {
      var w := wallets[0];
      OwedByKeys(wallets[1..], accruals, claims);
      FilteredSum(AccrualRecipient, AccruedAmount, (e: FeeAccrual) => e.recipient == w, w, accruals);
      FilteredSum(ClaimRecipient, ClaimedAmount, (e: FeeClaim) => e.recipient == w, w, claims);
    }
  }

  function SumOwnerFees(wallets: seq<JsString>, accruals: seq<FeeAccrual>): int {
    if wallets == [] then 0 else OwnerFees(wallets[0], accruals) + SumOwnerFees(wallets[1..], accruals)
  }

  function OwnersOnly(accruals: seq<FeeAccrual>): seq<FeeAccrual> {
    Filter((e: FeeAccrual) => e.source.AgentOwnerSource?, accruals)
  }

  lemma {:induction false} FilterTwice<T>(p: T -> bool, q: T -> bool, both: T -> bool, rows: seq<T>)
    requires forall x :: both(x) <==> p(x) && q(x)
    ensures Filter(q, Filter(p, rows)) == Filter(both, rows)
  {
    if rows != [] {
      FilterTwice(p, q, both, rows[1..]);
      FilterConcat(q, if p(rows[0]) then [rows[0]] else [], Filter(p, rows[1..]));
    }
  }

  lemma {:induction false} OwnerFeesByKeys(wallets: seq<JsString>, accruals: seq<FeeAccrual>)
    ensures SumOwnerFees(wallets, accruals)
         == SumOverKeys(AccrualRecipient, AccruedAmount, OwnersOnly(accruals), wallets)
  {
    if wallets != [] {
      var w := wallets[0];
      OwnerFeesByKeys(wallets[1..], accruals);
      FilterTwice((e: FeeAccrual) => e.source.AgentOwnerSource?, (e: FeeAccrual) => e.recipient == w,
                  (e: FeeAccrual) => e.recipient == w && e.source.AgentOwnerSource?, accruals);
      FilteredSum(AccrualRecipient, AccruedAmount, (e: FeeAccrual) => e.recipient == w, w, OwnersOnly(accruals));
    }
  }

  /** Every agent-owner fee is reported to exactly one recipient: the per-wallet owner fees
      sum to all of them. */
  lemma OwnerFeesAddUp(wallets: seq<JsString>, accruals: seq<FeeAccrual>)
    requires Distinct(wallets) && forall e | e in accruals :: e.recipient in wallets
    ensures SumOwnerFees(wallets, accruals) == SumBy(AccruedAmount, OwnersOnly(accruals))
  {
    OwnerFeesByKeys(wallets, accruals);
    FilterMembers((e: FeeAccrual) => e.source.AgentOwnerSource?, accruals);
    PartitionSum(AccrualRecipient, AccruedAmount, OwnersOnly(accruals), wallets);
  }

  function SellerOf(e: Payment): Option<JsString> { e.seller }

  /** A wallet's earnings are the sums of its own rows: of agent-owner fees, of all fees less
      claims, and of payments it was the seller of. */
  lemma EarningsAreOwn(wallet: JsString, t: Tables)
    ensures var e := AgentEarningsSummary(wallet, t);
      && e.ownerFees == SumFor(AccrualRecipient, AccruedAmount, OwnersOnly(t.accruals), wallet)
      && e.unclaimed == AtLeastZero(SumFor(AccrualRecipient, AccruedAmount, t.accruals, wallet)
                                    - SumFor(ClaimRecipient, ClaimedAmount, t.claims, wallet))
      && e.x402 == SumFor(SellerOf, PaymentAmount, t.payments, Some(wallet))
  {
    var own := (e: FeeAccrual) => e.recipient == wallet;
    FilterTwice((e: FeeAccrual) => e.source.AgentOwnerSource?, own,
                (e: FeeAccrual) => e.recipient == wallet && e.source.AgentOwnerSource?, t.accruals);
    FilteredSum(AccrualRecipient, AccruedAmount, own, wallet, OwnersOnly(t.accruals));
    FilteredSum(AccrualRecipient, AccruedAmount, own, wallet, t.accruals);
    FilteredSum(ClaimRecipient, ClaimedAmount, (e: FeeClaim) => e.recipient == wallet, wallet, t.claims);
    FilteredSum(SellerOf, PaymentAmount, (e: Payment) => e.seller == Some(wallet), Some(wallet), t.payments);
  }

  ghost predicate SomeOverclaimed(wallets: seq<JsString>, accruals: seq<FeeAccrual>, claims: seq<FeeClaim>) {
    exists w | w in wallets :: Owed(w, accruals, claims) < 0
  }

  ghost predicate SomeOwed(wallets: seq<JsString>, accruals: seq<FeeAccrual>, claims: seq<FeeClaim>) {
    exists w | w in wallets :: Owed(w, accruals, claims) > 0
  }

  /** Rounding amounts up to zero loses nothing exactly when none is negative, and leaves
      nothing exactly when none is positive. */
  lemma {:induction false} ZeroedSums(wallets: seq<JsString>, accruals: seq<FeeAccrual>, claims: seq<FeeClaim>)
    ensures var zeroed, owed := SumUnclaimed(wallets, accruals, claims), SumOwed(wallets, accruals, claims);
      && zeroed >= 0 && zeroed >= owed
      && (zeroed == owed <==> !SomeOverclaimed(wallets, accruals, claims))
      && (zeroed == 0 <==> !SomeOwed(wallets, accruals, claims))
  {
    if wallets != [] {
      ZeroedSums(wallets[1..], accruals, claims);
      assert wallets == [wallets[0]] + wallets[1..];
      assert SomeOverclaimed(wallets, accruals, claims)
        <==> Owed(wallets[0], accruals, claims) < 0 || SomeOverclaimed(wallets[1..], accruals, claims);
      assert SomeOwed(wallets, accruals, claims)
        <==> Owed(wallets[0], accruals, claims) > 0 || SomeOwed(wallets[1..], accruals, claims);
    }
  }

  /** Over any list of the recipients, the per-recipient unclaimed amounts sum to the global
      one exactly when nobody over-claimed while somebody else is still owed. */
  lemma UnclaimedAddsUpIff(wallets: seq<JsString>, accruals: seq<FeeAccrual>, claims: seq<FeeClaim>)
    requires Distinct(wallets)
    requires forall e | e in accruals :: e.recipient in wallets
    requires forall e | e in claims :: e.recipient in wallets
    ensures SumUnclaimed(wallets, accruals, claims) == MarketUnclaimed(accruals, claims)
       <==> !(SomeOverclaimed(wallets, accruals, claims) && SomeOwed(wallets, accruals, claims))
  {
    OwedByKeys(wallets, accruals, claims);
    PartitionSum(AccrualRecipient, AccruedAmount, accruals, wallets);
    PartitionSum(ClaimRecipient, ClaimedAmount, claims, wallets);
    ZeroedSums(wallets, accruals, claims);
  }

  const ACCRUED := FeeAccrual(Ascii("1"), 1, Ascii("a"), PlatformSource, 5, Ascii("x"), 0, 0)
  const OVERCLAIMED := FeeClaim(Ascii("2"), Ascii("b"), 3, Ascii("y"), 0, 0)

  lemma OneEach(accrual: FeeAccrual, claim: FeeClaim)
    requires accrual.recipient != claim.recipient
    ensures Owed(accrual.recipient, [accrual], [claim]) == accrual.amount
    ensures Owed(claim.recipient, [accrual], [claim]) == -claim.amount
  {
    FilteredSum(AccrualRecipient, AccruedAmount, (e: FeeAccrual) => e.recipient == accrual.recipient,
                accrual.recipient, [accrual]);
    FilteredSum(AccrualRecipient, AccruedAmount, (e: FeeAccrual) => e.recipient == claim.recipient,
                claim.recipient, [accrual]);
    FilteredSum(ClaimRecipient, ClaimedAmount, (e: FeeClaim) => e.recipient == accrual.recipient,
                accrual.recipient, [claim]);
    FilteredSum(ClaimRecipient, ClaimedAmount, (e: FeeClaim) => e.recipient == claim.recipient,
                claim.recipient, [claim]);
  }

  lemma SumOfOne<T>(f: T -> int, x: T)
    ensures SumBy(f, [x]) == f(x)
  {
    assert [x][1..] == [];
  }

  /** One wallet is owed 5 while another has claimed 3 too much: 5 against a global 2. */
  lemma UnclaimedCanDisagree()
    ensures SumUnclaimed([ACCRUED.recipient, OVERCLAIMED.recipient], [ACCRUED], [OVERCLAIMED]) == 5
    ensures MarketUnclaimed([ACCRUED], [OVERCLAIMED]) == 2
  {
    assert ACCRUED.recipient == [0x61] && OVERCLAIMED.recipient == [0x62];
    OneEach(ACCRUED, OVERCLAIMED);
    assert SumUnclaimed([OVERCLAIMED.recipient], [ACCRUED], [OVERCLAIMED]) == 0;
    assert [ACCRUED.recipient, OVERCLAIMED.recipient][1..] == [OVERCLAIMED.recipient];
    SumOfOne(AccruedAmount, ACCRUED);
    SumOfOne(ClaimedAmount, OVERCLAIMED);
  }
}
