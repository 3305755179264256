/** No funds of the market contract can get stuck: from whatever a run has come to, further
    calls pay everything out (contracts-soroban/mimir-market). */
module WindingUp {
  import opened Wrappers
  import opened JsStrings
  import opened Sequences
  import opened PullSettlement
  import opened ContractLedger

  /** Every claim's stakes could lie in one token account, and the fees that are still to come
      fit the lifetime total. */
  ghost predicate InBounds(l: Ledger) {
    && Solvent(l) && (forall m | m in l.markets :: Inflow(m.claim) <= MAX_I64)
    && l.feesAccrued + SumBy(Liability, l.markets) <= MAX_I128
  }

  lemma {:induction false} HistoryConcat(l: Ledger, a: seq<Action>, b: seq<Action>)
    ensures History(l, a + b) == History(History(l, a), b)
  {
    if b == [] {
      assert a + b == a;
    } else {
      var n := |b| - 1;
      assert (a + b)[..|a + b| - 1] == a + b[..n];
      HistoryConcat(l, a, b[..n]);
    }
  }

  lemma HistoryCons(l: Ledger, action: Action, rest: seq<Action>)
    ensures History(l, [action] + rest) == History(Act(l, action), rest)
  {
    HistoryConcat(l, [action], rest);
    assert [action][..0] == [];
  }

  // ----- One claim -----

  /** The contract after something happened to one claim: that claim is `m` now, the others are
      as they were, and there is room for what is still to come. */
  ghost predicate Moved(l: Ledger, id: int, m: Market, after: Ledger) {
    Known(l, id) && InBounds(after) && after.markets == l.markets[id - 1 := m]
  }

  /** A market that pays out and charges leaves less to come. */
  lemma StaysInBounds(l: Ledger, id: int, m: Market, after: Ledger, paid: int, fee: int)
    requires InBounds(l) && Known(l, id) && Solvent(after) && after.markets == l.markets[id - 1 := m]
    requires paid >= 0 && Liability(MarketAt(l, id)) == Liability(m) + paid + fee
    requires FeesTaken(m) == FeesTaken(MarketAt(l, id)) + fee && Inflow(m.claim) <= MAX_I64
    ensures Moved(l, id, m, after)
  {
    SumByUpdate(Liability, l.markets, id - 1, m);
    SumByUpdate(FeesTaken, l.markets, id - 1, m);
  }

  /** The fee on a payout is part of what the claim holds. */
  lemma FeeFits(l: Ledger, id: int, m: Market, paid: int, fee: int)
    requires InBounds(l) && Known(l, id) && Sound(m) && paid >= 0
    requires Liability(MarketAt(l, id)) == Liability(m) + paid + fee
    ensures l.feesAccrued + fee <= MAX_I128
  {
    LiabilityWithinSum(l.markets, id - 1);
    HoldsNothingNegative(m);
  }

  /** What settles in a contract that is in bounds goes through, and leaves it in bounds. */
  lemma SettlesInBounds(
    l: Ledger, id: int, m: Market, outcome: Result<Ledger, Error>, to: JsString, paid: int, fee: int)
    requires InBounds(l) && Known(l, id) && Sound(m) && paid >= 0 && Inflow(m.claim) <= MAX_I64
    requires Liability(MarketAt(l, id)) == Liability(m) + paid + fee
    requires FeesTaken(m) == FeesTaken(MarketAt(l, id)) + fee
    requires Settles(l, id, m, outcome, to, paid, fee, true)
    ensures outcome.Ok? && Moved(l, id, m, outcome.value)
  {
    FeeFits(l, id, m, paid, fee);
    StaysInBounds(l, id, m, outcome.value, paid, fee);
  }

  lemma PullKeepsInflow(m: Market, who: JsString)
    requires Pull(m, who).Ok?
    ensures Inflow(Pull(m, who).value.claim) == Inflow(m.claim)
  {
  }

  lemma PullIsAllowed(m: Market, who: JsString)
    requires Sound(m) && Inflow(m.claim) <= MAX_I64 && CanPull(m.claim, who)
    ensures Pull(m, who).Ok?
  {
    HeldAmountsInRange(m.claim);
    PullSucceedsIff(m, who);
  }

  lemma ActsAs(l: Ledger, action: Action, after: Ledger)
    requires Outcome(l, action) == Ok(after)
    ensures Act(l, action) == after
  {
  }

  /** What one pull changes of the claim. */
  lemma PullCounts(m: Market, who: JsString)
    requires Sound(m) && Pull(m, who).Ok?
    ensures var c := Pull(m, who).value.claim;
      && c.state.Resolved? && c.claims == m.claim.claims + 1 <= |c.roster| && |c.roster| == |m.claim.roster|
  {
    PullDraws(m, who);
    EnoughRemains(m, who);
  }

  lemma PullEffects(m: Market, who: JsString) returns (next: Market, paid: int, fee: int)
    requires Sound(m) && Inflow(m.claim) <= MAX_I64 && CanPull(m.claim, who)
    ensures Pull(m, who) == Ok(next) && paid == next.payments[|m.payments|].owed
    ensures Sound(next) && Inflow(next.claim) == Inflow(m.claim) && paid >= 0
    ensures fee == FeeOf(next.payments[|m.payments|]) && Liability(m) == Liability(next) + paid + fee
    ensures FeesTaken(next) == FeesTaken(m) + fee
  {
    PullIsAllowed(m, who);
    PullMoves(m, who);
    PullKeepsInflow(m, who);
    next := Pull(m, who).value;
    paid, fee := next.payments[|m.payments|].owed, FeeOf(next.payments[|m.payments|]);
  }

  lemma PullOutcome(l: Ledger, id: int, who: JsString, next: Market, paid: int, fee: int)
    returns (outcome: Result<Ledger, Error>)
    requires Solvent(l) && Known(l, id) && Pull(MarketAt(l, id), who) == Ok(next)
    requires paid == next.payments[|MarketAt(l, id).payments|].owed
    requires fee == FeeOf(next.payments[|MarketAt(l, id).payments|])
    ensures outcome == Outcome(l, Pulls(id, who, true)) && Settles(l, id, next, outcome, who, paid, fee, true)
  {
    PullSettles(l, id, who, true);
    outcome := PullAt(l, id, who, true);
  }

  lemma IsInBounds(l: Ledger, id: int)
    requires InBounds(l) && Known(l, id)
    ensures Sound(MarketAt(l, id)) && Inflow(MarketAt(l, id).claim) <= MAX_I64
  {
    assert MarketAt(l, id) in l.markets;
  }

  /** A pull goes through, and is one pull less to come. */
  lemma PullGoesThrough(l: Ledger, id: int, who: JsString) returns (after: Ledger, next: Market)
    requires InBounds(l) && Known(l, id) && CanPull(MarketAt(l, id).claim, who)
    ensures after == Act(l, Pulls(id, who, true)) && Moved(l, id, next, after)
    ensures var c := MarketAt(l, id).claim;
      && next.claim.state.Resolved? && next.claim.claims == c.claims + 1 <= |next.claim.roster|
      && |next.claim.roster| == |c.roster|
  {
    IsInBounds(l, id);
    var paid, fee;
    next, paid, fee := PullEffects(MarketAt(l, id), who);
    PullCounts(MarketAt(l, id), who);
    var outcome := PullOutcome(l, id, who, next, paid, fee);
    SettlesInBounds(l, id, next, outcome, who, paid, fee);
    after := outcome.value;
    ActsAs(l, Pulls(id, who, true), after);
  }

  lemma {:induction false} PullRest(l: Ledger, id: int) returns (more: seq<Action>, done: Market)
    requires InBounds(l) && Known(l, id) && MarketAt(l, id).claim.state.Resolved?
    ensures IsDone(done) && Moved(l, id, done, History(l, more))
    decreases |MarketAt(l, id).claim.roster| - MarketAt(l, id).claim.claims
  {
    var m := MarketAt(l, id);
    if exists who :: CanPull(m.claim, who) {
      var who :| CanPull(m.claim, who);
      var after, next := PullGoesThrough(l, id, who);
      var rest;
      rest, done := PullRest(after, id);
      more := [Pulls(id, who, true)] + rest;
      Afterwards(l, id, next, after, Pulls(id, who, true), rest, done);
    } else {
      more, done := [], m;
      assert l.markets[id - 1 := m] == l.markets;
    }
  }

  /** What happens to a claim after one call on it happens to it from the start. */
  lemma Afterwards(
    l: Ledger, id: int, next: Market, after: Ledger, action: Action, rest: seq<Action>, done: Market)
    requires after == Act(l, action) && Moved(l, id, next, after) && Moved(after, id, done, History(after, rest))
    ensures Moved(l, id, done, History(l, [action] + rest))
  {
    HistoryCons(l, action, rest);
    assert after.markets[id - 1 := done] == l.markets[id - 1 := done];
  }

  lemma VerdictKeepsInflow(m: Market, winner: Winner, record: JsString)
    requires Resolve(m, winner, record).Ok?
    ensures Inflow(Resolve(m, winner, record).value.claim) == Inflow(m.claim)
  {
  }

  lemma VerdictIsAllowed(m: Market, winner: Winner, record: JsString)
    requires Sound(m) && Inflow(m.claim) <= MAX_I64 && m.claim.state.Active? && !winner.Undecided?
    ensures Resolve(m, winner, record).Ok?
  {
    HeldAmountsInRange(m.claim);
    ResolveSucceedsIff(m, winner, record);
  }

  lemma VerdictEffects(m: Market, verdict: Winner) returns (next: Market)
    requires Sound(m) && Inflow(m.claim) <= MAX_I64 && m.claim.state.Active? && !verdict.Undecided?
    ensures Resolve(m, verdict, []) == Ok(next) && Sound(next) && next.claim.state.Resolved?
    ensures Inflow(next.claim) == Inflow(m.claim) && next.creatorPaid >= 0
    ensures Liability(m) == Liability(next) + next.creatorPaid + next.creatorFees
    ensures FeesTaken(next) == FeesTaken(m) + next.creatorFees
  {
    VerdictIsAllowed(m, verdict, []);
    VerdictKeepsInflow(m, verdict, []);
    ResolveKeepsSound(m, verdict, []);
    ResolveMoves(m, verdict, []);
    next := Resolve(m, verdict, []).value;
  }

  lemma VerdictOutcome(l: Ledger, id: int, verdict: Winner, next: Market) returns (outcome: Result<Ledger, Error>)
    requires Solvent(l) && Known(l, id) && MarketAt(l, id).claim.state.Active?
    requires Resolve(MarketAt(l, id), verdict, []) == Ok(next)
    ensures outcome == Outcome(l, Resolves(id, verdict, [], true))
    ensures Settles(l, id, next, outcome, MarketAt(l, id).claim.creator, next.creatorPaid, next.creatorFees, true)
  {
    ResolveSettles(l, id, verdict, [], true);
    outcome := ResolveAt(l, id, verdict, [], true);
  }

  lemma VerdictGoesThrough(l: Ledger, id: int, verdict: Winner) returns (after: Ledger, next: Market)
    requires InBounds(l) && Known(l, id) && MarketAt(l, id).claim.state.Active? && !verdict.Undecided?
    ensures after == Act(l, Resolves(id, verdict, [], true)) && Moved(l, id, next, after)
    ensures next.claim.state.Resolved?
  {
    IsInBounds(l, id);
    next := VerdictEffects(MarketAt(l, id), verdict);
    var outcome := VerdictOutcome(l, id, verdict, next);
    SettlesInBounds(
      l, id, next, outcome, MarketAt(l, id).claim.creator, next.creatorPaid, next.creatorFees);
    after := outcome.value;
    ActsAs(l, Resolves(id, verdict, [], true), after);
  }

  lemma RefundGoesThrough(l: Ledger, id: int) returns (after: Ledger, next: Market)
    requires InBounds(l) && Known(l, id) && MarketAt(l, id).claim.state.Open?
    ensures after == Act(l, Cancels(id, true)) && Moved(l, id, next, after) && next.claim.state.Cancelled?
  {
    var m := MarketAt(l, id);
    assert m in l.markets;
    CancelSucceedsIff(m);
    next := Cancel(m).value;
    RefundSettles(l, id, next, true);
    CancelKeepsSound(m);
    SettlesInBounds(l, id, next, CancelAt(l, id, true), m.claim.creator, m.claim.creatorStake, 0);
    after := CancelAt(l, id, true).value;
    ActsAs(l, Cancels(id, true), after);
  }

  /** Any claim can be brought to its end: an open one cancelled, an active one resolved with
      whatever verdict, and what is left to pull pulled. */
  lemma ClaimCanEnd(l: Ledger, id: int, verdict: Winner) returns (more: seq<Action>, done: Market)
    requires InBounds(l) && Known(l, id) && !verdict.Undecided?
    ensures IsDone(done) && Moved(l, id, done, History(l, more))
  {
    var m := MarketAt(l, id);
    if m.claim.state.Open? {
      var after;
      after, done := RefundGoesThrough(l, id);
      more := [Cancels(id, true)];
      HistoryCons(l, Cancels(id, true), []);
    } else if m.claim.state.Active? {
      var after, next := VerdictGoesThrough(l, id, verdict);
      var rest;
      rest, done := PullRest(after, id);
      more := [Resolves(id, verdict, [], true)] + rest;
      Afterwards(l, id, next, after, Resolves(id, verdict, [], true), rest, done);
    } else if m.claim.state.Resolved? {
      more, done := PullRest(l, id);
    } else {
      more, done := [], m;
      assert l.markets[id - 1 := m] == l.markets;
    }
  }

  // ----- All claims -----

  ghost predicate DoneUpTo(l: Ledger, n: nat) { n <= |l.markets| && forall i | 0 <= i < n :: IsDone(l.markets[i]) }

  lemma {:induction false} ClaimsCanEnd(l: Ledger, verdict: int -> Winner, n: nat) returns (more: seq<Action>)
    requires InBounds(l) && n <= |l.markets| && forall id :: !verdict(id).Undecided?
    ensures var after := History(l, more); InBounds(after) && |after.markets| == |l.markets| && DoneUpTo(after, n)
  {
    if n == 0 {
      more := [];
    } else {
      var before := ClaimsCanEnd(l, verdict, n - 1);
      var rest, done := ClaimCanEnd(History(l, before), n, verdict(n));
      more := before + rest;
      HistoryConcat(l, before, rest);
    }
  }

  // ----- What is parked and accrued -----

  function Owners(b: Balances): set<JsString> { set who | who in b && b[who] != 0 }

  lemma {:induction false} AllCanWithdraw(l: Ledger) returns (more: seq<Action>)
    requires Solvent(l)
    ensures var after := History(l, more);
      Solvent(after) && after.markets == l.markets && after.accrued == l.accrued && Owners(after.parked) == {}
    decreases |Owners(l.parked)|
  {
    if Owners(l.parked) == {} {
      more := [];
    } else {
      var who :| who in Owners(l.parked);
      var after := Act(l, Withdraws(who, true));
      WithdrawSucceedsIff(l, who, true);
      Covered(l, 0, 0, who);
      assert Owners(after.parked) == Owners(l.parked) - {who};
      var rest := AllCanWithdraw(after);
      more := [Withdraws(who, true)] + rest;
      HistoryCons(l, Withdraws(who, true), rest);
    }
  }

  lemma {:induction false} AllCanCollect(l: Ledger) returns (more: seq<Action>)
    requires Solvent(l)
    ensures var after := History(l, more);
      Solvent(after) && after.markets == l.markets && after.parked == l.parked && Owners(after.accrued) == {}
    decreases |Owners(l.accrued)|
  {
    if Owners(l.accrued) == {} {
      more := [];
    } else {
      var who :| who in Owners(l.accrued);
      var after := Act(l, CollectsFees(who, true));
      ClaimFeesSucceedsIff(l, who, true);
      Covered(l, 0, 0, who);
      assert Owners(after.accrued) == Owners(l.accrued) - {who};
      var rest := AllCanCollect(after);
      more := [CollectsFees(who, true)] + rest;
      HistoryCons(l, CollectsFees(who, true), rest);
    }
  }

  // ----- Everything -----

  /** Every claim is over and nobody has anything left to collect. */
  ghost predicate WoundUp(l: Ledger) {
    && (forall m | m in l.markets :: IsDone(m))
    && forall who :: BalanceOf(l.parked, who) == 0 && BalanceOf(l.accrued, who) == 0
  }

  lemma CanWindUp(l: Ledger, verdict: int -> Winner) returns (more: seq<Action>)
    requires InBounds(l) && forall id :: !verdict(id).Undecided?
    ensures WoundUp(History(l, more))
  {
    var first := ClaimsCanEnd(l, verdict, |l.markets|);
    var second := AllCanWithdraw(History(l, first));
    var third := AllCanCollect(History(History(l, first), second));
    more := first + second + third;
    HistoryConcat(l, first, second);
    HistoryConcat(l, first + second, third);
    var after := History(l, more);
    forall who ensures BalanceOf(after.parked, who) == 0 && BalanceOf(after.accrued, who) == 0 {
      assert who !in Owners(after.parked) && who !in Owners(after.accrued);
    }
  }

  /** From wherever a run has come to, whatever verdicts are still to be given: further calls,
      whose receivers accept their tokens, wind the contract up, with all that was paid in paid
      out and nothing left but plain transfers. */
  lemma NoFundsGetStuck(policy: FeePolicy, actions: seq<Action>, verdict: int -> Winner)
    requires ValidPolicy(policy) && forall id :: !verdict(id).Undecided?
    requires InBounds(History(Deployed(policy), actions))
    ensures exists more: seq<Action> ::
      var after := History(Deployed(policy), actions + more);
      WoundUp(after) && after.balance == after.received && Total(after.paidOut) == Total(after.paidIn)
  {
    var more := CanWindUp(History(Deployed(policy), actions), verdict);
    HistoryConcat(Deployed(policy), actions, more);
    NothingIsStranded(policy, actions + more);
    var after := History(Deployed(policy), actions + more);
    assert WoundUp(after) && after.balance == after.received && Total(after.paidOut) == Total(after.paidIn);
  }
}
