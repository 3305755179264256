/** Basket ownership and its append-only transfer log (lib/db.ts). */
module BasketTransfers {
  import opened JsStrings

  datatype Transfer = Transfer(
    transferId: JsString, basketId: JsString, fromWallet: JsString, toWallet: JsString, at: int, nonce: JsString)

  /** `user_baskets` (its id and wallet columns) and `basket_ownership_transfers`. */
  datatype Tables = Tables(owners: map<JsString, JsString>, transfers: seq<Transfer>)

  /** `Refused` is the false result, `Conflict` a violated UNIQUE constraint, which throws. */
  datatype Outcome = Committed | Refused | Conflict

  predicate Owns(t: Tables, basketId: JsString, wallet: JsString) {
    basketId in t.owners && t.owners[basketId] == wallet
  }

  predicate Taken(log: seq<Transfer>, x: Transfer) {
    exists y | y in log :: y.transferId == x.transferId || y.nonce == x.nonce
  }

  function AfterTransfer(t: Tables, x: Transfer): Tables {
    if Owns(t, x.basketId, x.fromWallet) && !Taken(t.transfers, x)
    then Tables(t.owners[x.basketId := x.toWallet], t.transfers + [x]) else t
  }

  function OutcomeOf(t: Tables, x: Transfer): Outcome {
    if !Owns(t, x.basketId, x.fromWallet) then Refused
    else if Taken(t.transfers, x) then Conflict
    else Committed
  }

  function AfterInsert(t: Tables, basketId: JsString, wallet: JsString): Tables {
    if basketId in t.owners then t else t.(owners := t.owners[basketId := wallet])
  }

  class BasketStore {
    var owners: map<JsString, JsString>
    var transfers: seq<Transfer>

    function Contents(): Tables
      reads this
    {
      Tables(owners, transfers)
    }

    constructor ()
      ensures Contents() == Tables(map[], [])
    {
      owners, transfers := map[], [];
    }

    /** The primary key refuses a second basket of the same id. */
    method InsertBasket(basketId: JsString, wallet: JsString) returns (outcome: Outcome)
      modifies this
      ensures Contents() == AfterInsert(old(Contents()), basketId, wallet)
      ensures outcome == if basketId in old(owners) then Conflict else Committed
    {
      if basketId in owners {
        return Conflict;
      }
      owners := owners[basketId := wallet];
      outcome := Committed;
    }

    /** One transaction: conditional update, then the log row; a violated constraint rolls
        the update back. A transfer that does not commit leaves both tables as they were. */
    method TransferBasket(x: Transfer) returns (outcome: Outcome)
      modifies this
      ensures Contents() == AfterTransfer(old(Contents()), x)
      ensures outcome == OutcomeOf(old(Contents()), x)
      ensures outcome.Committed? ==>
        Owns(old(Contents()), x.basketId, x.fromWallet) && Owns(Contents(), x.basketId, x.toWallet)
        && transfers == old(transfers) + [x]
        && forall b | b != x.basketId && b in old(owners) :: b in owners && owners[b] == old(owners)[b]
      ensures !outcome.Committed? ==> owners == old(owners) && transfers == old(transfers)
    {
      var before := owners;
      if !(x.basketId in owners && owners[x.basketId] == x.fromWallet) {
        return Refused;
      }
      owners := owners[x.basketId := x.toWallet];
      if exists y | y in transfers :: y.transferId == x.transferId || y.nonce == x.nonce {
        owners := before;
        return Conflict;
      }
      transfers := transfers + [x];
      outcome := Committed;
    }
  }

  // ----- Runs -----

  datatype Step = Create(basketId: JsString, wallet: JsString) | Move(transfer: Transfer)

  /** The tables, and who first created each basket. */
  datatype History = History(tables: Tables, creators: map<JsString, JsString>)

  function Perform(h: History, step: Step): History {
    match step
    case Move(x) => h.(tables := AfterTransfer(h.tables, x))
    case Create(b, w) =>
      if b in h.tables.owners then h
      else History(AfterInsert(h.tables, b, w), h.creators[b := w])
  }

  function Run(h: History, steps: seq<Step>): History {
    if steps == [] then h else Perform(Run(h, steps[..|steps| - 1]), steps[|steps| - 1])
  }

  const START := History(Tables(map[], []), map[])

  /** The committed transfers of one basket, in commit order. */
  function TransfersOf(basketId: JsString, log: seq<Transfer>): seq<Transfer> {
    if log == [] then []
    else
      var n := |log| - 1;
      TransfersOf(basketId, log[..n]) + if log[n].basketId == basketId then [log[n]] else []
  }

  /** Each transfer starts with the wallet the one before it ended with. */
  predicate Chain(creator: JsString, log: seq<Transfer>, owner: JsString) {
    if log == [] then creator == owner
    else
      var n := |log| - 1;
      log[n].toWallet == owner && Chain(creator, log[..n], log[n].fromWallet)
  }

  ghost predicate DistinctNonces(log: seq<Transfer>) {
    forall i, j | 0 <= i < j < |log| :: log[i].nonce != log[j].nonce && log[i].transferId != log[j].transferId
  }

  ghost predicate Accounted(h: History) {
    && h.creators.Keys == h.tables.owners.Keys
    && (forall b | b in h.tables.owners :: Chain(h.creators[b], TransfersOf(b, h.tables.transfers), h.tables.owners[b]))
    && (forall x | x in h.tables.transfers :: x.basketId in h.tables.owners)
    && DistinctNonces(h.tables.transfers)
  }

  lemma {:induction false} NoTransfers(b: JsString, log: seq<Transfer>)
    requires forall x | x in log :: x.basketId != b
    ensures TransfersOf(b, log) == []
  {
    if log != [] { NoTransfers(b, log[..|log| - 1]); }
  }

  lemma PerformKeepsAccount(h: History, step: Step)
    requires Accounted(h)
    ensures Accounted(Perform(h, step))
  {
    match step
    case Create(b, w) => CreateKeepsAccount(h, b, w);
    case Move(x) => MoveKeepsAccount(h, x);
  }

  lemma CreateKeepsAccount(h: History, b: JsString, w: JsString)
    requires Accounted(h)
    ensures Accounted(Perform(h, Create(b, w)))
  {
    if b !in h.tables.owners { NoTransfers(b, h.tables.transfers); }
  }

  lemma MoveKeepsAccount(h: History, x: Transfer)
    requires Accounted(h)
    ensures Accounted(Perform(h, Move(x)))
  {
    var g := Perform(h, Move(x));
    if g != h {
      NoncesStayDistinct(h.tables.transfers, x);
      assert g.tables.owners.Keys == h.tables.owners.Keys;
      forall b | b in g.tables.owners
        ensures Chain(g.creators[b], TransfersOf(b, g.tables.transfers), g.tables.owners[b])
      {
        ChainExtends(h, x, b);
      }
    }
  }

  lemma NoncesStayDistinct(log: seq<Transfer>, x: Transfer)
    requires DistinctNonces(log) && !Taken(log, x)
    ensures DistinctNonces(log + [x])
  {
    assert forall i | 0 <= i < |log| :: log[i] in log && log[i].nonce != x.nonce && log[i].transferId != x.transferId;
  }

  lemma ChainExtends(h: History, x: Transfer, b: JsString)
    requires Owns(h.tables, x.basketId, x.fromWallet) && b in h.tables.owners && b in h.creators
    requires Chain(h.creators[b], TransfersOf(b, h.tables.transfers), h.tables.owners[b])
    ensures Chain(h.creators[b], TransfersOf(b, h.tables.transfers + [x]), h.tables.owners[x.basketId := x.toWallet][b])
  {
    var log := h.tables.transfers;
    assert (log + [x])[..|log|] == log;
    var before := TransfersOf(b, log);
    if b == x.basketId {
      assert (before + [x])[..|before|] == before;
    } else {
      assert before + [] == before;
    }
  }

  /** In every reachable state the transfers of a basket lead, in commit order, from its
      creator to its owner, and no nonce or transfer id is used twice. */
  lemma {:induction false} OwnershipIsAChain(steps: seq<Step>)
    ensures Accounted(Run(START, steps))
  {
    if steps != [] {
      OwnershipIsAChain(steps[..|steps| - 1]);
      PerformKeepsAccount(Run(START, steps[..|steps| - 1]), steps[|steps| - 1]);
    }
  }

  /** The log only grows, and nobody's creation is rewritten. */
  lemma {:induction false} LogOnlyGrows(h: History, steps: seq<Step>)
    ensures h.tables.transfers <= Run(h, steps).tables.transfers
    ensures forall b | b in h.creators && h.creators.Keys == h.tables.owners.Keys ::
      b in Run(h, steps).creators && Run(h, steps).creators[b] == h.creators[b]
    ensures h.creators.Keys == h.tables.owners.Keys ==> Run(h, steps).creators.Keys == Run(h, steps).tables.owners.Keys
  {
    if steps != [] { LogOnlyGrows(h, steps[..|steps| - 1]); }
  }

  /** A consumed nonce stays consumed: whatever happens in between, and even if ownership has
      come back, submitting it again moves nothing. */
  lemma ConsumedNonceNeverMoves(h: History, x: Transfer, steps: seq<Step>, again: Transfer)
    requires OutcomeOf(h.tables, x).Committed? && again.nonce == x.nonce
    ensures var later := Run(Perform(h, Move(x)), steps);
      !OutcomeOf(later.tables, again).Committed? && Perform(later, Move(again)) == later
  {
    var after := Perform(h, Move(x));
    LogOnlyGrows(after, steps);
    var log := Run(after, steps).tables.transfers;
    assert log[|h.tables.transfers|] == x;
    assert x in log;
  }
}
