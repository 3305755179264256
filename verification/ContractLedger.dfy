/** All the money of the market contract: many claims, pushes that park, withdrawals and fee
    claims over one token balance (contracts-soroban/mimir-market). */
module ContractLedger {
  import opened Arithmetic
  import opened Wrappers
  import opened JsStrings
  import opened Sequences
  import opened PullSettlement

  const DEFAULT_PAYOUT_BPS: U32 := 20_000

  // ----- Balances by address -----

  type Balances = map<JsString, int>

  function BalanceOf(b: Balances, who: JsString): int { if who in b then b[who] else 0 }

  function Credited(b: Balances, who: JsString, n: int): Balances { b[who := BalanceOf(b, who) + n] }

  ghost predicate NonNegative(b: Balances) { forall who | who in b :: b[who] >= 0 }

  ghost function Total(b: Balances): int {
    if b == map[] then 0
    else
      var who :| who in b;
      b[who] + Total(b - {who})
  }

  lemma {:induction false} TotalWithout(b: Balances, who: JsString)
    requires who in b
    ensures Total(b) == b[who] + Total(b - {who})
    decreases |b|
  {
    var first :| first in b && Total(b) == b[first] + Total(b - {first});
    if first != who {
      TotalWithout(b - {first}, who);
      TotalWithout(b - {who}, first);
      assert b - {first} - {who} == b - {who} - {first};
    }
  }

  /** Setting one balance changes the total by as much. */
  lemma TotalAfter(b: Balances, who: JsString, n: int)
    ensures Total(b[who := n]) == Total(b) - BalanceOf(b, who) + n
  {
    TotalWithout(b[who := n], who);
    if who in b {
      TotalWithout(b, who);
      assert b[who := n] - {who} == b - {who};
    } else {
      assert b[who := n] - {who} == b;
    }
  }

  lemma TotalCredited(b: Balances, who: JsString, n: int)
    ensures Total(Credited(b, who, n)) == Total(b) + n
  {
    TotalAfter(b, who, BalanceOf(b, who) + n);
  }

  lemma {:induction false} BalanceWithinTotal(b: Balances, who: JsString)
    requires NonNegative(b)
    ensures 0 <= BalanceOf(b, who) <= Total(b)
    decreases |b|
  {
    if b != map[] {
      var first :| first in b && Total(b) == b[first] + Total(b - {first});
      BalanceWithinTotal(b - {first}, who);
    }
  }

  // ----- The contract's storage and its token balance -----

  datatype FeePolicy = FeePolicy(platformBps: U32, ownerBps: U32, platform: Option<JsString>)

  /** `markets[i]` is claim i + 1. The token knows who paid what in and was paid what out, and
      what reached the contract by plain transfers; the contract does not. */
  datatype Ledger = Ledger(
    policy: FeePolicy, markets: seq<Market>, balance: int, parked: Balances, accrued: Balances,
    feesAccrued: int, feesClaimed: int, paidIn: Balances, paidOut: Balances, received: int)

  function Deployed(policy: FeePolicy): Ledger { Ledger(policy, [], 0, map[], map[], 0, 0, map[], map[], 0) }

  predicate Known(l: Ledger, id: int) { 1 <= id <= |l.markets| }

  function MarketAt(l: Ledger, id: int): Market
    requires Known(l, id)
  {
    l.markets[id - 1]
  }

  function WithMarket(l: Ledger, id: int, m: Market): Ledger
    requires Known(l, id)
  {
    l.(markets := l.markets[id - 1 := m])
  }

  // ----- Moving tokens -----

  /** `pull`: `moved` is what the transfer added to the contract's balance. */
  function TakenIn(l: Ledger, from: JsString, amount: int, moved: int): Result<Ledger, Error> {
    if Checked(l.balance + amount).Err? then Err(Overflow)
    else if moved != amount then Err(UnsupportedToken)
    else Ok(l.(balance := l.balance + amount, paidIn := Credited(l.paidIn, from, amount)))
  }

  /** A transfer from the contract. */
  function Sent(l: Ledger, to: JsString, amount: int): Ledger {
    l.(balance := l.balance - amount, paidOut := Credited(l.paidOut, to, amount))
  }

  /** `push_or_park`: what cannot be delivered is kept for the receiver. The token refuses a
      transfer that the receiver does not accept, and one beyond the contract's balance. */
  function Pushed(l: Ledger, to: JsString, amount: int, accepts: bool): Result<Ledger, Error> {
    if amount == 0 then Ok(l)
    else if accepts && 0 <= amount <= l.balance then Ok(Sent(l, to, amount))
    else if Checked(BalanceOf(l.parked, to) + amount).Err? then Err(Overflow)
    else Ok(l.(parked := Credited(l.parked, to, amount)))
  }

  function Accrued(l: Ledger, to: Option<JsString>, fee: int): Result<Ledger, Error>
    requires fee > 0 ==> to.Some?
  {
    if fee <= 0 then Ok(l)
    else if Checked(BalanceOf(l.accrued, to.value) + fee).Err? || Checked(l.feesAccrued + fee).Err? then Err(Overflow)
    else
      Ok(l.(accrued := Credited(l.accrued, to.value, fee), feesAccrued := l.feesAccrued + fee))
  }

  function TwoLegs(l: Ledger, platform: Option<JsString>, a: int, owner: Option<JsString>, b: int)
    : Result<Ledger, Error>
    requires (a > 0 ==> platform.Some?) && (b > 0 ==> owner.Some?)
  {
    match Accrued(l, platform, a)
    case Err(e) => Err(e)
    case Ok(next) => Accrued(next, owner, b)
  }

  /** `apply_fees` without what it returns. */
  function FeesApplied(l: Ledger, principal: nat, gross: int, fees: FeeTerms): Result<Ledger, Error>
    requires QuoteFees(principal, gross, fees).Ok?
  {
    var taken := QuoteFees(principal, gross, fees).value.1;
    if taken == 0 then Ok(l)
    else
      var platform := LegFee(gross - principal, fees.platformBps, fees.platform).value;
      TwoLegs(l, fees.platform, platform, fees.owner, taken - platform)
  }

  // ----- Entry points -----

  /** What a creator asks for; `owner` is the agent the market is attributed to. */
  datatype CreateParams = CreateParams(
    stake: int, fixed: bool, payoutBps: U32, maxChallengers: nat, owner: Option<JsString>)

  function NewMarket(policy: FeePolicy, creator: JsString, params: CreateParams): Market
    requires params.stake >= 0
  {
    var odds :=
      if !params.fixed then Pool
      else Fixed(if params.payoutBps >= BPS_DIVISOR then params.payoutBps else DEFAULT_PAYOUT_BPS);
    var room :=
      if params.maxChallengers == 0 || params.maxChallengers > MAX_CHALLENGERS then MAX_CHALLENGERS
      else params.maxChallengers;
    var fees := FeeTerms(policy.platformBps, policy.ownerBps, policy.platform, params.owner);
    Market(Claim(creator, params.stake, 0, 0, odds, room, fees, Open, Undecided, [], 0, 0, 0, []), [], 0, 0)
  }

  /** A claim just created: what the creator asked for, under the fee terms of a policy. */
  predicate IsAsAsked(policy: FeePolicy, creator: JsString, params: CreateParams, m: Market) {
    var c := m.claim;
    && c.creator == creator && c.creatorStake == params.stake
    && c.fees.platformBps == policy.platformBps && c.fees.platform == policy.platform
    && c.fees.ownerBps == policy.ownerBps && c.fees.owner == params.owner
    && (params.fixed ==> c.odds == if params.payoutBps < 10_000 then Fixed(20_000) else Fixed(params.payoutBps))
    && (!params.fixed ==> c.odds == Pool)
    && c.maxChallengers == (if 1 <= params.maxChallengers <= 100 then params.maxChallengers else 100)
  }

  function Create(l: Ledger, creator: JsString, params: CreateParams, moved: int): Result<Ledger, Error> {
    if params.stake < MIN_STAKE then Err(StakeTooSmall)
    else
      match TakenIn(l, creator, params.stake, moved)
      case Err(e) => Err(e)
      case Ok(next) => Ok(next.(markets := l.markets + [NewMarket(l.policy, creator, params)]))
  }

  function ChallengeAt(l: Ledger, id: int, who: JsString, stake: int, moved: int): Result<Ledger, Error> {
    if !Known(l, id) then Err(ClaimNotFound)
    else
      var m := MarketAt(l, id);
      match Challenge(m.claim, who, stake)
      case Err(e) => Err(e)
      case Ok(claim) =>
        if claim == m.claim then Ok(l)
        else TakenIn(WithMarket(l, id, m.(claim := claim)), who, stake, moved)
  }

  /** Books a market that has moved on: the fee on a payout, then the payout itself. */
  function Booked(
    l: Ledger, id: int, after: Market, principal: nat, gross: int, to: JsString, owed: int, accepts: bool)
    : Result<Ledger, Error>
    requires Known(l, id) && QuoteFees(principal, gross, after.claim.fees).Ok?
  {
    match FeesApplied(WithMarket(l, id, after), principal, gross, after.claim.fees)
    case Err(e) => Err(e)
    case Ok(next) => Pushed(next, to, owed, accepts)
  }

  function ResolveAt(l: Ledger, id: int, winner: Winner, record: JsString, accepts: bool): Result<Ledger, Error> {
    if !Known(l, id) then Err(ClaimNotFound)
    else
      var m := MarketAt(l, id);
      match Resolve(m, winner, record)
      case Err(e) => Err(e)
      case Ok(after) =>
        var c := m.claim;
        if m.claim.state.Resolved? then Ok(l)
        else if winner.Creator? then
          Booked(l, id, after, c.creatorStake, Inflow(c), c.creator, after.creatorPaid, accepts)
        else Pushed(WithMarket(l, id, after), c.creator, after.creatorPaid, accepts)
  }

  function PullAt(l: Ledger, id: int, who: JsString, accepts: bool): Result<Ledger, Error> {
    if !Known(l, id) then Err(ClaimNotFound)
    else
      var m := MarketAt(l, id);
      match Pull(m, who)
      case Err(e) => Err(e)
      case Ok(after) =>
        var p := after.payments[|m.payments|];
        Booked(l, id, after, p.stake, p.gross, who, p.owed, accepts)
  }

  function RefundAt(l: Ledger, id: int, after: Result<Market, Error>, accepts: bool): Result<Ledger, Error>
    requires Known(l, id)
  {
    match after
    case Err(e) => Err(e)
    case Ok(m) =>
      if m.claim.state == MarketAt(l, id).claim.state then Ok(l)
      else Pushed(WithMarket(l, id, m), m.claim.creator, m.creatorPaid, accepts)
  }

  function CancelAt(l: Ledger, id: int, accepts: bool): Result<Ledger, Error> {
    if !Known(l, id) then Err(ClaimNotFound) else RefundAt(l, id, Cancel(MarketAt(l, id)), accepts)
  }

  function ExpireAt(l: Ledger, id: int, passed: bool, accepts: bool): Result<Ledger, Error> {
    if !Known(l, id) then Err(ClaimNotFound) else RefundAt(l, id, Expire(MarketAt(l, id), passed), accepts)
  }

  /** `withdraw`: a transfer that fails undoes the call. */
  function Withdrawn(l: Ledger, who: JsString, accepts: bool): Result<Ledger, Error> {
    var amount := BalanceOf(l.parked, who);
    if amount <= 0 then Ok(l)
    else if !accepts || amount > l.balance then Err(TransferFailed)
    else Ok(Sent(l.(parked := l.parked[who := 0]), who, amount))
  }

  /** `claim_fees`. */
  function FeesClaimed(l: Ledger, who: JsString, accepts: bool): Result<Ledger, Error> {
    var amount := BalanceOf(l.accrued, who);
    if amount <= 0 then Ok(l)
    else if Checked(l.feesClaimed + amount).Err? then Err(Overflow)
    else if !accepts || amount > l.balance then Err(TransferFailed)
    else Ok(Sent(l.(accrued := l.accrued[who := 0], feesClaimed := l.feesClaimed + amount), who, amount))
  }

  /** `validate_policy`, at whatever time a policy takes effect. */
  function PolicySet(l: Ledger, policy: FeePolicy): Result<Ledger, Error> {
    if policy.platformBps + policy.ownerBps > MAX_TOTAL_FEE_BPS then Err(FeeCapExceeded)
    else if policy.platformBps > 0 && policy.platform.None? then Err(FeeNeedsRecipient)
    else Ok(l.(policy := policy))
  }

  /** Somebody sends tokens to the contract without calling it. */
  function Received(l: Ledger, amount: nat): Result<Ledger, Error> {
    if Checked(l.balance + amount).Err? then Err(Overflow)
    else Ok(l.(balance := l.balance + amount, received := l.received + amount))
  }

  // ----- The contract -----

  /** The host undoes everything that a refused call did. */
  class MarketContract {
    var ledger: Ledger

    constructor (policy: FeePolicy)
      ensures ledger == Deployed(policy)
    {
      ledger := Deployed(policy);
    }

    /** A transfer that goes through. */
    method Transfer(to: JsString, amount: int)
      modifies this
      ensures ledger == Sent(old(ledger), to, amount)
    {
      ledger := ledger.(balance := ledger.balance - amount, paidOut := Credited(ledger.paidOut, to, amount));
    }

    method PushOrPark(to: JsString, amount: int, accepts: bool) returns (r: Result<(), Error>)
      modifies this
      ensures var after := Pushed(old(ledger), to, amount, accepts);
        if after.Ok? then r == Ok(()) && ledger == after.value else r == Err(after.error)
    {
      if amount == 0 {
        return Ok(());
      }
      if accepts && 0 <= amount <= ledger.balance {
        Transfer(to, amount);
        return Ok(());
      }
      var next := BalanceOf(ledger.parked, to) + amount;
      if Checked(next).Err? {
        return Err(Overflow);
      }
      ledger := ledger.(parked := ledger.parked[to := next]);
      r := Ok(());
    }

    method AddAccruedFees(to: JsString, fee: int) returns (r: Result<(), Error>)
      requires fee > 0
      modifies this
      ensures var after := Accrued(old(ledger), Some(to), fee);
        if after.Ok? then r == Ok(()) && ledger == after.value else r == Err(after.error)
    {
      var next, lifetime := BalanceOf(ledger.accrued, to) + fee, ledger.feesAccrued + fee;
      if Checked(next).Err? || Checked(lifetime).Err? {
        return Err(Overflow);
      }
      ledger := ledger.(accrued := ledger.accrued[to := next], feesAccrued := lifetime);
      r := Ok(());
    }

    /** Books the fee legs and returns what is owed after them. */
    method ApplyFees(principal: nat, gross: int, fees: FeeTerms) returns (r: Result<int, Error>)
      modifies this
      ensures QuoteFees(principal, gross, fees).Err? ==> r == Err(QuoteFees(principal, gross, fees).error)
      ensures QuoteFees(principal, gross, fees).Ok? ==>
        var after := FeesApplied(old(ledger), principal, gross, fees);
        if after.Ok? then r == Ok(QuoteFees(principal, gross, fees).value.0) && ledger == after.value
        else r == Err(after.error)
    {
      var quote := QuoteFees(principal, gross, fees);
      if quote.Err? {
        return Err(quote.error);
      }
      var (owed, taken) := quote.value;
      if taken == 0 {
        return Ok(owed);
      }
      var platform := LegFee(gross - principal, fees.platformBps, fees.platform).value;
      if platform > 0 {
        var booked := AddAccruedFees(fees.platform.value, platform);
        if booked.Err? {
          return Err(booked.error);
        }
      }
      if taken - platform > 0 {
        var booked := AddAccruedFees(fees.owner.value, taken - platform);
        if booked.Err? {
          return Err(booked.error);
        }
      }
      r := Ok(owed);
    }

    method CreateClaim(creator: JsString, params: CreateParams, moved: int) returns (r: Result<nat, Error>)
      modifies this
      ensures var after := Create(old(ledger), creator, params, moved);
        if after.Ok? then r == Ok(|after.value.markets|) && ledger == after.value
        else r == Err(after.error) && ledger == old(ledger)
      ensures r.Ok? ==>
        && r.value == |old(ledger).markets| + 1 && ledger.markets[..r.value - 1] == old(ledger).markets
        && Known(ledger, r.value) && IsAsAsked(old(ledger).policy, creator, params, MarketAt(ledger, r.value))
    {
      if params.stake < MIN_STAKE {
        return Err(StakeTooSmall);
      }
      var taken := TakenIn(ledger, creator, params.stake, moved);
      if taken.Err? {
        return Err(taken.error);
      }
      ledger := taken.value.(markets := ledger.markets + [NewMarket(ledger.policy, creator, params)]);
      r := Ok(|ledger.markets|);
    }

    method ChallengeClaim(id: int, who: JsString, stake: int, moved: int) returns (r: Result<(), Error>)
      modifies this
      ensures var after := ChallengeAt(old(ledger), id, who, stake, moved);
        if after.Ok? then r == Ok(()) && ledger == after.value else r == Err(after.error) && ledger == old(ledger)
    {
      if !Known(ledger, id) {
        return Err(ClaimNotFound);
      }
      var m := MarketAt(ledger, id);
      var claim := Challenge(m.claim, who, stake);
      if claim.Err? {
        return Err(claim.error);
      }
      if claim.value == m.claim {
        return Ok(());
      }
      var taken := TakenIn(ledger, who, stake, moved);
      if taken.Err? {
        return Err(taken.error);
      }
      ledger := WithMarket(taken.value, id, m.(claim := claim.value));
      r := Ok(());
    }

    method ResolveClaim(id: int, winner: Winner, record: JsString, accepts: bool) returns (r: Result<(), Error>)
      modifies this
      ensures var after := ResolveAt(old(ledger), id, winner, record, accepts);
        if after.Ok? then r == Ok(()) && ledger == after.value else r == Err(after.error) && ledger == old(ledger)
    {
      if !Known(ledger, id) {
        return Err(ClaimNotFound);
      }
      var before, m := ledger, MarketAt(ledger, id);
      var after := Resolve(m, winner, record);
      if after.Err? {
        return Err(after.error);
      }
      if m.claim.state.Resolved? {
        return Ok(());
      }
      ledger := WithMarket(ledger, id, after.value);
      var owed := after.value.creatorPaid;
      if winner.Creator? {
        var charged := ApplyFees(m.claim.creatorStake, Inflow(m.claim), m.claim.fees);
        if charged.Err? {
          ledger := before;
          return Err(charged.error);
        }
        owed := charged.value;
      }
      r := PushOrPark(m.claim.creator, owed, accepts);
      if r.Err? { ledger := before; }
    }

    method ClaimChallengerPayout(id: int, who: JsString, accepts: bool) returns (r: Result<int, Error>)
      modifies this
      ensures var after := PullAt(old(ledger), id, who, accepts);
        if after.Ok? then r.Ok? && ledger == after.value else r == Err(after.error) && ledger == old(ledger)
      ensures r.Ok? ==> var m := MarketAt(old(ledger), id); r.value == Pull(m, who).value.payments[|m.payments|].owed
    {
      if !Known(ledger, id) {
        return Err(ClaimNotFound);
      }
      var before, m := ledger, MarketAt(ledger, id);
      var after := Pull(m, who);
      if after.Err? {
        return Err(after.error);
      }
      var p := after.value.payments[|m.payments|];
      ledger := WithMarket(ledger, id, after.value);
      r := ApplyFees(p.stake, p.gross, m.claim.fees);
      if r.Err? {
        ledger := before;
        return;
      }
      var delivered := PushOrPark(who, p.owed, accepts);
      if delivered.Err? {
        ledger := before;
        r := Err(delivered.error);
      }
    }

    /** The refund of `cancel_claim` and `transition_deadline`. */
    method Refund(id: int, after: Market, accepts: bool) returns (r: Result<(), Error>)
      requires Known(ledger, id)
      modifies this
      ensures var l := RefundAt(old(ledger), id, Ok(after), accepts);
        if l.Ok? then r == Ok(()) && ledger == l.value else r == Err(l.error) && ledger == old(ledger)
    {
      if after.claim.state == MarketAt(ledger, id).claim.state {
        return Ok(());
      }
      var before := ledger;
      ledger := WithMarket(ledger, id, after);
      r := PushOrPark(after.claim.creator, after.creatorPaid, accepts);
      if r.Err? { ledger := before; }
    }

    method CancelClaim(id: int, accepts: bool) returns (r: Result<(), Error>)
      modifies this
      ensures var after := CancelAt(old(ledger), id, accepts);
        if after.Ok? then r == Ok(()) && ledger == after.value else r == Err(after.error) && ledger == old(ledger)
    {
      if !Known(ledger, id) {
        return Err(ClaimNotFound);
      }
      var after := Cancel(MarketAt(ledger, id));
      if after.Err? {
        return Err(after.error);
      }
      r := Refund(id, after.value, accepts);
    }

    method TransitionDeadline(id: int, passed: bool, accepts: bool) returns (r: Result<(), Error>)
      modifies this
      ensures var after := ExpireAt(old(ledger), id, passed, accepts);
        if after.Ok? then r == Ok(()) && ledger == after.value else r == Err(after.error) && ledger == old(ledger)
    {
      if !Known(ledger, id) {
        return Err(ClaimNotFound);
      }
      var after := Expire(MarketAt(ledger, id), passed);
      if after.Err? {
        return Err(after.error);
      }
      r := Refund(id, after.value, accepts);
    }

    method Withdraw(who: JsString, accepts: bool) returns (r: Result<int, Error>)
      modifies this
      ensures var after := Withdrawn(old(ledger), who, accepts);
        if after.Ok? then r.Ok? && ledger == after.value else r == Err(after.error) && ledger == old(ledger)
      ensures r.Ok? ==> r.value == old(ledger).balance - ledger.balance
    {
      var amount := BalanceOf(ledger.parked, who);
      if amount <= 0 {
        return Ok(0);
      }
      if !accepts || amount > ledger.balance {
        return Err(TransferFailed);
      }
      ledger := ledger.(parked := ledger.parked[who := 0]);
      Transfer(who, amount);
      r := Ok(amount);
    }

    method ClaimFees(who: JsString, accepts: bool) returns (r: Result<int, Error>)
      modifies this
      ensures var after := FeesClaimed(old(ledger), who, accepts);
        if after.Ok? then r.Ok? && ledger == after.value else r == Err(after.error) && ledger == old(ledger)
      ensures r.Ok? ==> r.value == old(ledger).balance - ledger.balance
    {
      var before, amount := ledger, BalanceOf(ledger.accrued, who);
      if amount <= 0 {
        return Ok(0);
      }
      ledger := ledger.(accrued := ledger.accrued[who := 0]);
      var claimed := ledger.feesClaimed + amount;
      if Checked(claimed).Err? {
        ledger := before;
        return Err(Overflow);
      }
      ledger := ledger.(feesClaimed := claimed);
      if !accepts || amount > ledger.balance {
        ledger := before;
        return Err(TransferFailed);
      }
      Transfer(who, amount);
      r := Ok(amount);
    }
  }

  // ----- What the contract owes -----

  /** What a claim still holds of the tokens that came in for it. */
  function Liability(m: Market): int {
    match m.claim.state
    case Open => Inflow(m.claim)
    case Active => Inflow(m.claim)
    case Resolved => m.claim.remaining
    case Cancelled => 0
  }

  function FeeOf(p: Payment): int { p.gross - p.owed }

  function FeesTaken(m: Market): int { m.creatorFees + SumBy(FeeOf, m.payments) }

  predicate ValidPolicy(policy: FeePolicy) { policy.platformBps + policy.ownerBps <= MAX_TOTAL_FEE_BPS }

  /** The books while `unpaid` is still to be pushed and `unbooked` to be accrued. */
  ghost predicate Books(l: Ledger, unpaid: int, unbooked: int) {
    && unpaid >= 0 && unbooked >= 0 && l.received >= 0 && l.feesClaimed >= 0
    && NonNegative(l.parked) && NonNegative(l.accrued)
    && l.balance == Total(l.paidIn) + l.received - Total(l.paidOut)
    && l.balance <= MAX_I128 && l.feesAccrued <= MAX_I128
    && ValidPolicy(l.policy) && (forall m | m in l.markets :: Sound(m))
    && l.balance
       == SumBy(Liability, l.markets) + Total(l.parked) + Total(l.accrued) + l.received + unpaid + unbooked
    && l.feesAccrued == l.feesClaimed + Total(l.accrued) && l.feesAccrued + unbooked == SumBy(FeesTaken, l.markets)
  }

  /** The token balance is what open and settled claims hold, what is parked, what is accrued
      and what was sent besides; and the fee totals are those of the markets. */
  ghost predicate Solvent(l: Ledger) { Books(l, 0, 0) }

  lemma {:induction false} LiabilitiesNonNegative(markets: seq<Market>)
    requires forall m | m in markets :: Sound(m)
    ensures SumBy(Liability, markets) >= 0
  {
    if markets != [] {
      assert markets[0] in markets && forall m | m in markets[1..] :: m in markets;
      HoldsNothingNegative(markets[0]);
      LiabilitiesNonNegative(markets[1..]);
    }
  }

  lemma HoldsNothingNegative(m: Market)
    requires Sound(m)
    ensures Liability(m) >= 0
  {
    if m.claim.state.Resolved? && !m.claim.winner.Creator? && m.claim.claims != |m.claim.roster| {
      CountBounds(TermsOf(m.claim), m.claim.roster);
      SpareBounds(m.claim);
    }
  }

  /** Nothing owed is more than what is there. */
  lemma Covered(l: Ledger, unpaid: int, unbooked: int, who: JsString)
    requires Books(l, unpaid, unbooked)
    ensures 0 <= BalanceOf(l.parked, who) && 0 <= BalanceOf(l.accrued, who)
    ensures BalanceOf(l.parked, who) + BalanceOf(l.accrued, who) + unpaid + unbooked <= l.balance
    ensures BalanceOf(l.accrued, who) + l.feesClaimed <= l.feesAccrued
  {
    BalanceWithinTotal(l.parked, who);
    BalanceWithinTotal(l.accrued, who);
    LiabilitiesNonNegative(l.markets);
  }

  // ----- Moving the books -----

  /** A market that moves on leaves what it paid and charged to be pushed and booked. */
  lemma MarketMoves(l: Ledger, id: int, after: Market, paid: int, fee: int)
    requires Solvent(l) && Known(l, id) && Sound(after) && paid >= 0 && fee >= 0
    requires Liability(MarketAt(l, id)) == Liability(after) + paid + fee
    requires FeesTaken(after) == FeesTaken(MarketAt(l, id)) + fee
    ensures Books(WithMarket(l, id, after), paid, fee)
  {
    SumByUpdate(Liability, l.markets, id - 1, after);
    SumByUpdate(FeesTaken, l.markets, id - 1, after);
  }

  predicate OnlyAccrues(l: Ledger, next: Ledger) {
    next == l.(accrued := next.accrued, feesAccrued := next.feesAccrued)
  }

  lemma LegBooked(l: Ledger, to: Option<JsString>, fee: int, unpaid: int, unbooked: int)
    requires Books(l, unpaid, unbooked) && 0 <= fee <= unbooked && (fee > 0 ==> to.Some?)
    ensures Accrued(l, to, fee).Ok? <==> l.feesAccrued + fee <= MAX_I128
    ensures Accrued(l, to, fee).Ok? ==>
      var next := Accrued(l, to, fee).value;
      && Books(next, unpaid, unbooked - fee) && OnlyAccrues(l, next) && next.feesAccrued == l.feesAccrued + fee
  {
    if fee > 0 {
      Covered(l, unpaid, unbooked, to.value);
      TotalCredited(l.accrued, to.value, fee);
    }
  }

  lemma LegsOf(principal: nat, gross: int, fees: FeeTerms)
    requires QuoteFees(principal, gross, fees).Ok? && QuoteFees(principal, gross, fees).value.1 != 0
    ensures gross > principal
    ensures var platform := LegFee(gross - principal, fees.platformBps, fees.platform);
      && platform.Ok? && 0 <= platform.value <= QuoteFees(principal, gross, fees).value.1
      && (platform.value > 0 ==> fees.platform.Some?)
      && (QuoteFees(principal, gross, fees).value.1 - platform.value > 0 ==> fees.owner.Some?)
  {
    MulNonNegative(gross - principal, fees.platformBps);
    MulNonNegative(gross - principal, fees.ownerBps);
  }

  lemma TwoLegsBooked(
    l: Ledger, platform: Option<JsString>, a: int, owner: Option<JsString>, b: int, unpaid: int, fee: int)
    requires a >= 0 && b >= 0 && fee == a + b && Books(l, unpaid, fee)
    requires (a > 0 ==> platform.Some?) && (b > 0 ==> owner.Some?)
    ensures var booked := TwoLegs(l, platform, a, owner, b);
      && (booked.Ok? <==> l.feesAccrued + fee <= MAX_I128)
      && (booked.Ok? ==> Books(booked.value, unpaid, 0) && OnlyAccrues(l, booked.value))
  {
    LegBooked(l, platform, a, unpaid, fee);
    if Accrued(l, platform, a).Ok? { LegBooked(Accrued(l, platform, a).value, owner, b, unpaid, b); }
  }

  /** The fee legs together book exactly the fee; they fail only past the range of the lifetime
      total. */
  lemma FeesBooked(l: Ledger, principal: nat, gross: int, fees: FeeTerms, unpaid: int)
    requires QuoteFees(principal, gross, fees).Ok? && Books(l, unpaid, QuoteFees(principal, gross, fees).value.1)
    ensures var applied := FeesApplied(l, principal, gross, fees);
      && (applied.Ok? <==> l.feesAccrued + QuoteFees(principal, gross, fees).value.1 <= MAX_I128)
      && (applied.Ok? ==> Books(applied.value, unpaid, 0) && OnlyAccrues(l, applied.value))
  {
    var taken := QuoteFees(principal, gross, fees).value.1;
    if taken != 0 {
      LegsOf(principal, gross, fees);
      var platform := LegFee(gross - principal, fees.platformBps, fees.platform).value;
      TwoLegsBooked(l, fees.platform, platform, fees.owner, taken - platform, unpaid, taken);
    }
  }

  /** A push is always covered: it parks exactly what a receiver does not accept. */
  lemma PushSettles(l: Ledger, to: JsString, amount: int, accepts: bool)
    requires Books(l, amount, 0)
    ensures Pushed(l, to, amount, accepts).Ok?
    ensures var next := Pushed(l, to, amount, accepts).value;
      && Solvent(next) && next.markets == l.markets && next.received == l.received
      && next == if amount == 0 then l
                 else if accepts then Sent(l, to, amount)
                 else l.(parked := Credited(l.parked, to, amount))
  {
    Covered(l, amount, 0, to);
    TotalCredited(l.parked, to, amount);
    TotalCredited(l.paidOut, to, amount);
  }

  /** What happens to the books when a market pays `owed` after a fee: nothing but an
      overflow of the lifetime total can stop it, and only a refusal parks it. */
  ghost predicate Settles(
    l: Ledger, id: int, m: Market, after: Result<Ledger, Error>, to: JsString, owed: int, fee: int, accepts: bool)
    requires Known(l, id)
  {
    && (after.Ok? <==> l.feesAccrued + fee <= MAX_I128)
    && (after.Ok? ==>
          && Solvent(after.value) && after.value.received == l.received
          && after.value.markets == l.markets[id - 1 := m]
          && after.value.paidIn == l.paidIn
          && after.value.paidOut == (if accepts && owed != 0 then Credited(l.paidOut, to, owed) else l.paidOut)
          && after.value.parked == if accepts || owed == 0 then l.parked else Credited(l.parked, to, owed))
  }

  lemma BookedSettles(
    l: Ledger, id: int, after: Market, principal: nat, gross: int, to: JsString, owed: int, accepts: bool)
    requires Solvent(l) && Known(l, id) && Sound(after) && QuoteFees(principal, gross, after.claim.fees).Ok?
    requires owed >= 0 && QuoteFees(principal, gross, after.claim.fees).value.1 >= 0
    requires var fee := QuoteFees(principal, gross, after.claim.fees).value.1;
      && Liability(MarketAt(l, id)) == Liability(after) + owed + fee
      && FeesTaken(after) == FeesTaken(MarketAt(l, id)) + fee
    ensures Settles(l, id, after, Booked(l, id, after, principal, gross, to, owed, accepts), to, owed,
                    QuoteFees(principal, gross, after.claim.fees).value.1, accepts)
  {
    var fee := QuoteFees(principal, gross, after.claim.fees).value.1;
    MarketMoves(l, id, after, owed, fee);
    var moved := WithMarket(l, id, after);
    FeesBooked(moved, principal, gross, after.claim.fees, owed);
    if FeesApplied(moved, principal, gross, after.claim.fees).Ok? {
      PushSettles(FeesApplied(moved, principal, gross, after.claim.fees).value, to, owed, accepts);
    }
  }

  lemma PushedSettles(l: Ledger, id: int, after: Market, to: JsString, owed: int, accepts: bool)
    requires Solvent(l) && Known(l, id) && Sound(after) && owed >= 0
    requires Liability(MarketAt(l, id)) == Liability(after) + owed && FeesTaken(after) == FeesTaken(MarketAt(l, id))
    ensures Settles(l, id, after, Pushed(WithMarket(l, id, after), to, owed, accepts), to, owed, 0, accepts)
  {
    MarketMoves(l, id, after, owed, 0);
    PushSettles(WithMarket(l, id, after), to, owed, accepts);
  }

  // ----- Every entry point -----

  /** A verdict on a market that can be resolved goes through, replays change nothing, and its
      payment to the creator is covered. */
  lemma ResolveSettles(l: Ledger, id: int, winner: Winner, record: JsString, accepts: bool)
    requires Solvent(l) && Known(l, id) && Resolve(MarketAt(l, id), winner, record).Ok?
    ensures var m := MarketAt(l, id);
      var after := Resolve(m, winner, record).value;
      if m.claim.state.Resolved? then ResolveAt(l, id, winner, record, accepts) == Ok(l)
      else
        Settles(l, id, after, ResolveAt(l, id, winner, record, accepts), m.claim.creator, after.creatorPaid,
                after.creatorFees, accepts)
  {
    var m := MarketAt(l, id);
    var c, after := m.claim, Resolve(m, winner, record).value;
    assert m in l.markets;
    if !c.state.Resolved? {
      ResolveKeepsSound(m, winner, record);
      ResolveMoves(m, winner, record);
      if winner.Creator? {
        BookedSettles(l, id, after, c.creatorStake, Inflow(c), c.creator, after.creatorPaid, accepts);
      } else {
        PushedSettles(l, id, after, c.creator, after.creatorPaid, accepts);
      }
    }
  }

  lemma ResolveMoves(m: Market, winner: Winner, record: JsString)
    requires Sound(m) && Resolve(m, winner, record).Ok? && !m.claim.state.Resolved?
    ensures var after := Resolve(m, winner, record).value;
      && after.creatorPaid >= 0 && after.creatorFees >= 0
      && Liability(m) == Liability(after) + after.creatorPaid + after.creatorFees
      && FeesTaken(after) == FeesTaken(m) + after.creatorFees
      && (winner.Creator? ==>
            QuoteFees(m.claim.creatorStake, Inflow(m.claim), m.claim.fees)
            == Ok((after.creatorPaid, after.creatorFees)))
      && (!winner.Creator? ==> after.creatorFees == 0)
  {
    ResolveKeepsSound(m, winner, record);
    if winner.Creator? { QuoteFits(m.claim.creatorStake, Inflow(m.claim), m.claim.fees); }
  }

  lemma PullQuotes(m: Market, who: JsString)
    requires Pull(m, who).Ok?
    ensures var p := Pull(m, who).value.payments[|m.payments|];
      QuoteFees(p.stake, p.gross, m.claim.fees) == Ok((p.owed, FeeOf(p)))
  {
  }

  lemma PullLowers(m: Market, who: JsString)
    requires Sound(m) && Pull(m, who).Ok?
    ensures var after := Pull(m, who).value;
      var p := after.payments[|m.payments|];
      && after.payments == m.payments + [p] && after.creatorFees == m.creatorFees
      && 0 <= p.owed <= p.gross && Liability(m) == Liability(after) + p.gross
  {
    PullDraws(m, who);
  }

  lemma PullMoves(m: Market, who: JsString)
    requires Sound(m) && Pull(m, who).Ok?
    ensures var after := Pull(m, who).value;
      var p := after.payments[|m.payments|];
      && Sound(after) && p.owed >= 0 && FeeOf(p) >= 0
      && Liability(m) == Liability(after) + p.owed + FeeOf(p) && FeesTaken(after) == FeesTaken(m) + FeeOf(p)
  {
    PullLowers(m, who);
    SumBySnoc(FeeOf, m.payments, Pull(m, who).value.payments[|m.payments|]);
    PullKeepsSound(m, who);
  }

  /** A challenger's pull that the market allows goes through and is covered. */
  lemma PullSettles(l: Ledger, id: int, who: JsString, accepts: bool)
    requires Solvent(l) && Known(l, id) && Pull(MarketAt(l, id), who).Ok?
    ensures var m := MarketAt(l, id);
      var after := Pull(m, who).value;
      var p := after.payments[|m.payments|];
      Settles(l, id, after, PullAt(l, id, who, accepts), who, p.owed, FeeOf(p), accepts)
  {
    var m := MarketAt(l, id);
    assert m in l.markets;
    var after := Pull(m, who).value;
    var p := after.payments[|m.payments|];
    PullMoves(m, who);
    PullQuotes(m, who);
    PullKeepsDeal(m, who);
    BookedSettles(l, id, after, p.stake, p.gross, who, p.owed, accepts);
  }

  /** A refund that the market allows goes through, and is covered without any token of
      another claim. */
  lemma RefundSettles(l: Ledger, id: int, after: Market, accepts: bool)
    requires Solvent(l) && Known(l, id)
    requires Cancel(MarketAt(l, id)) == Ok(after) || exists passed :: Expire(MarketAt(l, id), passed) == Ok(after)
    ensures var m := MarketAt(l, id);
      if m.claim.state.Open? then
        Settles(l, id, after, RefundAt(l, id, Ok(after), accepts), m.claim.creator, m.claim.creatorStake, 0, accepts)
      else RefundAt(l, id, Ok(after), accepts) == Ok(l)
  {
    var m := MarketAt(l, id);
    assert m in l.markets;
    CancelKeepsSound(m);
    if m.claim.state.Open? { PushedSettles(l, id, after, m.claim.creator, m.claim.creatorStake, accepts); }
  }

  lemma MarketGrows(l: Ledger, id: int, after: Market, from: JsString, stake: int)
    requires Solvent(l) && Known(l, id) && Sound(after) && stake >= 0 && l.balance + stake <= MAX_I128
    requires Liability(after) == Liability(MarketAt(l, id)) + stake && FeesTaken(after) == FeesTaken(MarketAt(l, id))
    ensures Solvent(WithMarket(l, id, after).(balance := l.balance + stake, paidIn := Credited(l.paidIn, from, stake)))
  {
    TotalCredited(l.paidIn, from, stake);
    SumByUpdate(Liability, l.markets, id - 1, after);
    SumByUpdate(FeesTaken, l.markets, id - 1, after);
  }

  lemma JoiningRaises(m: Market, e: Entry, reserved: nat)
    requires m.claim.state.Open? || m.claim.state.Active?
    ensures var after := m.(claim := Joined(m.claim, e, reserved));
      Liability(after) == Liability(m) + e.stake && FeesTaken(after) == FeesTaken(m)
  {
  }

  /** A challenge adds its stake to the claim, paid in by the challenger. */
  lemma ChallengeKeepsSolvent(l: Ledger, id: int, who: JsString, stake: int, moved: int)
    requires Solvent(l) && ChallengeAt(l, id, who, stake, moved).Ok?
    ensures var after := ChallengeAt(l, id, who, stake, moved).value;
      && Solvent(after)
      && after.paidIn == if after == l then l.paidIn else Credited(l.paidIn, who, stake)
  {
    var m := MarketAt(l, id);
    assert m in l.markets;
    var claim := Challenge(m.claim, who, stake).value;
    if claim != m.claim {
      var after := m.(claim := claim);
      ChallengeKeepsSound(m, who, stake);
      ChallengeAdds(m.claim, who, stake);
      JoiningRaises(m, Entry(who, stake, false), Reserve(m.claim, stake).value);
      MarketGrows(l, id, after, who, stake);
    }
  }

  /** A policy takes effect exactly when its rates are within the cap and a positive platform rate
      has somebody to pay; it changes nothing else. */
  lemma PolicySetIff(l: Ledger, policy: FeePolicy)
    ensures PolicySet(l, policy).Ok?
       <==> policy.platformBps + policy.ownerBps <= 1_000 && (policy.platformBps == 0 || policy.platform != None)
    ensures PolicySet(l, policy).Ok? ==> PolicySet(l, policy).value == l.(policy := policy)
    ensures PolicySet(l, policy) == Err(FeeCapExceeded) <==> policy.platformBps + policy.ownerBps > 1_000
  {
  }

  /** A claim is created exactly when the stake is enough and comes in whole; it is as it was
      asked for, with the fee terms of the policy in force. */
  lemma CreateSucceedsIff(l: Ledger, creator: JsString, params: CreateParams, moved: int)
    requires l.balance >= 0
    ensures Create(l, creator, params, moved).Ok?
       <==> params.stake >= 20_000_000 && moved == params.stake && l.balance + params.stake <= MAX_I128
    ensures Create(l, creator, params, moved).Ok? ==>
      var after := Create(l, creator, params, moved).value;
      && after == l.(markets := after.markets, balance := l.balance + params.stake, paidIn := after.paidIn)
      && after.markets == l.markets + [MarketAt(after, |l.markets| + 1)]
      && after.paidIn == Credited(l.paidIn, creator, params.stake)
      && IsNew(MarketAt(after, |l.markets| + 1)) == (l.policy.platformBps + l.policy.ownerBps <= 1_000)
      && IsAsAsked(l.policy, creator, params, MarketAt(after, |l.markets| + 1))
  {
  }

  /** A claim is created with the terms of the policy in force. */
  lemma CreateKeepsSolvent(l: Ledger, creator: JsString, params: CreateParams, moved: int)
    requires Solvent(l) && Create(l, creator, params, moved).Ok?
    ensures var after := Create(l, creator, params, moved).value;
      && Solvent(after) && |after.markets| == |l.markets| + 1 && after.markets[..|l.markets|] == l.markets
      && IsNew(MarketAt(after, |after.markets|))
      && IsAsAsked(l.policy, creator, params, MarketAt(after, |after.markets|))
      && after.paidIn == Credited(l.paidIn, creator, params.stake)
  {
    TotalCredited(l.paidIn, creator, params.stake);
    var m := NewMarket(l.policy, creator, params);
    RunIsSound(m, []);
    SumBySnoc(Liability, l.markets, m);
    SumBySnoc(FeesTaken, l.markets, m);
  }

  /** A withdrawal pays the whole parked balance whenever its owner can take it: the contract
      never falls short. */
  lemma WithdrawSucceedsIff(l: Ledger, who: JsString, accepts: bool)
    requires Solvent(l)
    ensures Withdrawn(l, who, accepts).Ok? <==> accepts || BalanceOf(l.parked, who) == 0
    ensures Withdrawn(l, who, accepts).Ok? ==>
      var after := Withdrawn(l, who, accepts).value;
      && Solvent(after) && BalanceOf(after.parked, who) == 0
      && BalanceOf(after.paidOut, who) == BalanceOf(l.paidOut, who) + BalanceOf(l.parked, who)
      && forall other | other != who :: BalanceOf(after.parked, other) == BalanceOf(l.parked, other)
  {
    Covered(l, 0, 0, who);
    TotalAfter(l.parked, who, 0);
    TotalCredited(l.paidOut, who, BalanceOf(l.parked, who));
  }

  /** So does a fee claim, for the whole accrued balance. */
  lemma ClaimFeesSucceedsIff(l: Ledger, who: JsString, accepts: bool)
    requires Solvent(l)
    ensures FeesClaimed(l, who, accepts).Ok? <==> accepts || BalanceOf(l.accrued, who) == 0
    ensures FeesClaimed(l, who, accepts).Ok? ==>
      var after := FeesClaimed(l, who, accepts).value;
      && Solvent(after) && BalanceOf(after.accrued, who) == 0
      && BalanceOf(after.paidOut, who) == BalanceOf(l.paidOut, who) + BalanceOf(l.accrued, who)
      && after.feesClaimed == l.feesClaimed + BalanceOf(l.accrued, who)
      && forall other | other != who :: BalanceOf(after.accrued, other) == BalanceOf(l.accrued, other)
  {
    Covered(l, 0, 0, who);
    TotalAfter(l.accrued, who, 0);
    TotalCredited(l.paidOut, who, BalanceOf(l.accrued, who));
  }

  function LegTo(profit: int, bps: nat, recipient: Option<JsString>, who: JsString): int {
    if recipient == Some(who) then profit * bps / 10_000 else 0
  }

  /** Each recipient is credited with its own leg, and nobody else with anything. */
  lemma FeesReachRecipients(l: Ledger, principal: nat, gross: int, fees: FeeTerms, who: JsString)
    requires QuoteFees(principal, gross, fees).Ok? && FeesApplied(l, principal, gross, fees).Ok?
    ensures var profit := if gross > principal then gross - principal else 0;
      BalanceOf(FeesApplied(l, principal, gross, fees).value.accrued, who)
      == BalanceOf(l.accrued, who) + LegTo(profit, fees.platformBps, fees.platform, who)
         + LegTo(profit, fees.ownerBps, fees.owner, who)
  {
    var taken := QuoteFees(principal, gross, fees).value.1;
    if gross > principal {
      MulNonNegative(gross - principal, fees.platformBps);
      MulNonNegative(gross - principal, fees.ownerBps);
    }
    if taken != 0 {
      LegsOf(principal, gross, fees);
    }
  }

  // ----- Runs -----

  datatype Action =
    | Governs(policy: FeePolicy)
    | Sends(amount: nat)
    | Creates(creator: JsString, params: CreateParams, moved: int)
    | Challenges(id: int, who: JsString, stake: int, moved: int)
    | Resolves(id: int, winner: Winner, record: JsString, accepts: bool)
    | Pulls(id: int, who: JsString, accepts: bool)
    | Cancels(id: int, accepts: bool)
    | Expires(id: int, passed: bool, accepts: bool)
    | Withdraws(who: JsString, accepts: bool)
    | CollectsFees(who: JsString, accepts: bool)

  function Outcome(l: Ledger, action: Action): Result<Ledger, Error> {
    match action
    case Governs(policy) => PolicySet(l, policy)
    case Sends(amount) => Received(l, amount)
    case Creates(creator, params, moved) => Create(l, creator, params, moved)
    case Challenges(id, who, stake, moved) => ChallengeAt(l, id, who, stake, moved)
    case Resolves(id, winner, record, accepts) => ResolveAt(l, id, winner, record, accepts)
    case Pulls(id, who, accepts) => PullAt(l, id, who, accepts)
    case Cancels(id, accepts) => CancelAt(l, id, accepts)
    case Expires(id, passed, accepts) => ExpireAt(l, id, passed, accepts)
    case Withdraws(who, accepts) => Withdrawn(l, who, accepts)
    case CollectsFees(who, accepts) => FeesClaimed(l, who, accepts)
  }

  /** A refused call changes nothing. */
  function Act(l: Ledger, action: Action): Ledger {
    if Outcome(l, action).Ok? then Outcome(l, action).value else l
  }

  function History(l: Ledger, actions: seq<Action>): Ledger {
    if actions == [] then l else Act(History(l, actions[..|actions| - 1]), actions[|actions| - 1])
  }

  lemma ActKeepsSolvent(l: Ledger, action: Action)
    requires Solvent(l)
    ensures Solvent(Act(l, action))
  {
    if Outcome(l, action).Ok? {
      match action
      case Governs(_) =>
      case Sends(_) =>
      case Creates(creator, params, moved) => CreateKeepsSolvent(l, creator, params, moved);
      case Challenges(id, who, stake, moved) => ChallengeKeepsSolvent(l, id, who, stake, moved);
      case Resolves(id, winner, record, accepts) => ResolveSettles(l, id, winner, record, accepts);
      case Pulls(id, who, accepts) => PullSettles(l, id, who, accepts);
      case Cancels(id, accepts) => RefundSettles(l, id, Cancel(MarketAt(l, id)).value, accepts);
      case Expires(id, passed, accepts) =>
        assert Expire(MarketAt(l, id), passed).Ok?;
        RefundSettles(l, id, Expire(MarketAt(l, id), passed).value, accepts);
      case Withdraws(who, accepts) => WithdrawSucceedsIff(l, who, accepts);
      case CollectsFees(who, accepts) => ClaimFeesSucceedsIff(l, who, accepts);
    }
  }

  /** Over every run of calls on any number of claims, whoever refuses tokens when: the token
      balance is exactly what the claims hold, what is parked and what is accrued, besides
      what was sent without a call, and what came in less what went out; and the fee totals
      reconcile. */
  lemma {:induction false} RunIsSolvent(policy: FeePolicy, actions: seq<Action>)
    requires ValidPolicy(policy)
    ensures var l := History(Deployed(policy), actions);
      && Solvent(l)
      && l.balance == SumBy(Liability, l.markets) + Total(l.parked) + Total(l.accrued) + l.received
      && l.balance == Total(l.paidIn) + l.received - Total(l.paidOut)
      && l.feesAccrued - l.feesClaimed == Total(l.accrued) && l.feesAccrued == SumBy(FeesTaken, l.markets)
  {
    if actions != [] {
      RunIsSolvent(policy, actions[..|actions| - 1]);
      ActKeepsSolvent(History(Deployed(policy), actions[..|actions| - 1]), actions[|actions| - 1]);
    }
  }

  // ----- Fees over a run -----

  /** The same claims, each with what it was created with. */
  ghost predicate SameDeals(l: Ledger, next: Ledger) {
    |next.markets| == |l.markets|
    && forall i | 0 <= i < |l.markets| :: SameDeal(next.markets[i].claim, l.markets[i].claim)
  }

  lemma VerdictKeepsDeals(l: Ledger, id: int, winner: Winner, record: JsString, accepts: bool)
    requires Solvent(l) && ResolveAt(l, id, winner, record, accepts).Ok?
    ensures SameDeals(l, ResolveAt(l, id, winner, record, accepts).value)
  {
    VerdictKeepsDeal(MarketAt(l, id), winner, record);
    ResolveSettles(l, id, winner, record, accepts);
  }

  lemma PullKeepsDeals(l: Ledger, id: int, who: JsString, accepts: bool)
    requires Solvent(l) && PullAt(l, id, who, accepts).Ok?
    ensures SameDeals(l, PullAt(l, id, who, accepts).value)
  {
    PullKeepsDeal(MarketAt(l, id), who);
    PullSettles(l, id, who, accepts);
  }

  lemma RefundKeepsDeals(l: Ledger, id: int, after: Market, accepts: bool)
    requires Solvent(l) && Known(l, id) && RefundAt(l, id, Ok(after), accepts).Ok?
    requires Cancel(MarketAt(l, id)) == Ok(after) || exists passed :: Expire(MarketAt(l, id), passed) == Ok(after)
    ensures SameDeals(l, RefundAt(l, id, Ok(after), accepts).value)
  {
    RefundSettles(l, id, after, accepts);
  }

  lemma ChallengeKeepsDeals(l: Ledger, id: int, who: JsString, stake: int, moved: int)
    requires ChallengeAt(l, id, who, stake, moved).Ok?
    ensures SameDeals(l, ChallengeAt(l, id, who, stake, moved).value)
  {
    ChallengeKeepsDeal(MarketAt(l, id).claim, who, stake);
  }

  /** A call adds at most one claim, and every other one keeps what it was created with. */
  lemma ActKeepsDeals(l: Ledger, action: Action)
    requires Solvent(l) && Outcome(l, action).Ok? && !action.Creates?
    ensures SameDeals(l, Outcome(l, action).value)
  {
    match action
    case Governs(_) =>
    case Sends(_) =>
    case Challenges(id, who, stake, moved) => ChallengeKeepsDeals(l, id, who, stake, moved);
    case Resolves(id, winner, record, accepts) => VerdictKeepsDeals(l, id, winner, record, accepts);
    case Pulls(id, who, accepts) => PullKeepsDeals(l, id, who, accepts);
    case Cancels(id, accepts) => RefundKeepsDeals(l, id, Cancel(MarketAt(l, id)).value, accepts);
    case Expires(id, passed, accepts) =>
      assert Expire(MarketAt(l, id), passed).Ok?;
      RefundKeepsDeals(l, id, Expire(MarketAt(l, id), passed).value, accepts);
    case Withdraws(_, _) =>
    case CollectsFees(_, _) =>
  }

  /** Every claim of every run was created by one of its calls, and is still as it was asked for,
      under the fee terms of the policy that was in force at that call. */
  lemma {:induction false} DealIsFrozen(policy: FeePolicy, actions: seq<Action>, id: int) returns (k: nat)
    requires ValidPolicy(policy) && Known(History(Deployed(policy), actions), id)
    ensures k < |actions| && actions[k].Creates?
    ensures var before := History(Deployed(policy), actions[..k]);
      && |before.markets| == id - 1
      && IsAsAsked(before.policy, actions[k].creator, actions[k].params,
                   MarketAt(History(Deployed(policy), actions), id))
  {
    var n := |actions| - 1;
    var l := History(Deployed(policy), actions[..n]);
    RunIsSolvent(policy, actions[..n]);
    if Outcome(l, actions[n]).Ok? && !actions[n].Creates? { ActKeepsDeals(l, actions[n]); }
    if Known(l, id) {
      k := DealIsFrozen(policy, actions[..n], id);
      assert actions[..n][..k] == actions[..k];
    } else {
      k := n;
    }
  }

  /** The profit that a verdict or a pull settles. */
  function ProfitOf(l: Ledger, action: Action): int
    requires (action.Resolves? || action.Pulls?) && Known(l, action.id)
  {
    var c := MarketAt(l, action.id).claim;
    match action
    case Resolves(_, winner, _, _) => if c.state == Active && winner == Creator then c.totalStake else 0
    case Pulls(_, who, _) =>
      if IndexOf(c.roster, who).Some? then DrawnBy(c, who) - EntryOf(c, who).stake else 0
  }

  lemma PushKeepsAccrued(l: Ledger, to: JsString, amount: int, accepts: bool)
    requires Pushed(l, to, amount, accepts).Ok?
    ensures Pushed(l, to, amount, accepts).value.accrued == l.accrued
  {
  }

  lemma BookedCredits(
    l: Ledger, id: int, after: Market, principal: nat, gross: int, to: JsString, owed: int, accepts: bool,
    who: JsString)
    requires Known(l, id) && QuoteFees(principal, gross, after.claim.fees).Ok? && gross >= principal
    requires Booked(l, id, after, principal, gross, to, owed, accepts).Ok?
    ensures var fees := after.claim.fees;
      BalanceOf(Booked(l, id, after, principal, gross, to, owed, accepts).value.accrued, who)
      == BalanceOf(l.accrued, who) + LegTo(gross - principal, fees.platformBps, fees.platform, who)
         + LegTo(gross - principal, fees.ownerBps, fees.owner, who)
  {
    var moved := WithMarket(l, id, after);
    FeesReachRecipients(moved, principal, gross, after.claim.fees, who);
    PushKeepsAccrued(FeesApplied(moved, principal, gross, after.claim.fees).value, to, owed, accepts);
  }

  predicate IsCredited(l: Ledger, next: Ledger, profit: int, fees: FeeTerms, to: JsString) {
    BalanceOf(next.accrued, to)
    == BalanceOf(l.accrued, to) + LegTo(profit, fees.platformBps, fees.platform, to)
       + LegTo(profit, fees.ownerBps, fees.owner, to)
  }

  lemma VerdictCredits(l: Ledger, id: int, winner: Winner, record: JsString, accepts: bool, to: JsString)
    requires Solvent(l) && ResolveAt(l, id, winner, record, accepts).Ok?
    ensures IsCredited(l, ResolveAt(l, id, winner, record, accepts).value,
                       ProfitOf(l, Resolves(id, winner, record, accepts)), MarketAt(l, id).claim.fees, to)
  {
    var m := MarketAt(l, id);
    assert m in l.markets;
    if m.claim.state.Active? {
      var after := Resolve(m, winner, record).value;
      VerdictKeepsDeal(m, winner, record);
      ResolveMoves(m, winner, record);
      if winner.Creator? {
        var c := m.claim;
        BookedCredits(l, id, after, c.creatorStake, Inflow(c), c.creator, after.creatorPaid, accepts, to);
      } else {
        PushKeepsAccrued(WithMarket(l, id, after), m.claim.creator, after.creatorPaid, accepts);
      }
    }
  }

  lemma PullCredits(l: Ledger, id: int, who: JsString, accepts: bool, to: JsString)
    requires Solvent(l) && PullAt(l, id, who, accepts).Ok?
    ensures IsCredited(l, PullAt(l, id, who, accepts).value,
                       ProfitOf(l, Pulls(id, who, accepts)), MarketAt(l, id).claim.fees, to)
  {
    var m := MarketAt(l, id);
    assert m in l.markets;
    var after, p := PullParts(m, who);
    BookedCredits(l, id, after, p.stake, p.gross, who, p.owed, accepts, to);
  }

  lemma PullParts(m: Market, who: JsString) returns (after: Market, p: Payment)
    requires Sound(m) && Pull(m, who).Ok?
    ensures Pull(m, who) == Ok(after) && |after.payments| > |m.payments| && p == after.payments[|m.payments|]
    ensures IndexOf(m.claim.roster, who).Some?
    ensures p.stake == EntryOf(m.claim, who).stake <= p.gross == DrawnBy(m.claim, who)
    ensures after.claim.fees == m.claim.fees && QuoteFees(p.stake, p.gross, m.claim.fees).Ok?
  {
    after := Pull(m, who).value;
    PullDraws(m, who);
    PullQuotes(m, who);
    p := after.payments[|m.payments|];
  }

  /** No other call accrues anything. */
  lemma OnlyProfitAccrues(l: Ledger, action: Action)
    requires !action.Resolves? && !action.Pulls? && !action.CollectsFees?
    ensures Act(l, action).accrued == l.accrued
  {
    match action
    case Cancels(id, accepts) =>
    case Expires(id, passed, accepts) =>
    case _ =>
  }

  /** In every run, the profit that a verdict or a pull settles credits the recipients of the
      policy that was in force when the claim was created, and the agent owner it was created
      with, at the rates of that time, whatever the policy has become since. */
  lemma ProfitPaysItsPolicy(policy: FeePolicy, actions: seq<Action>, action: Action, to: JsString) returns (k: nat)
    requires ValidPolicy(policy) && (action.Resolves? || action.Pulls?)
    requires Outcome(History(Deployed(policy), actions), action).Ok?
    ensures k < |actions| && actions[k].Creates? && Known(History(Deployed(policy), actions), action.id)
    ensures var l, frozen := History(Deployed(policy), actions), History(Deployed(policy), actions[..k]).policy;
      && |History(Deployed(policy), actions[..k]).markets| == action.id - 1
      && IsCredited(l, Outcome(l, action).value, ProfitOf(l, action),
                    FeeTerms(frozen.platformBps, frozen.ownerBps, frozen.platform, actions[k].params.owner), to)
  {
    RunIsSolvent(policy, actions);
    var l := History(Deployed(policy), actions);
    match action {
      case Resolves(id, winner, record, accepts) => VerdictCredits(l, id, winner, record, accepts, to);
      case Pulls(id, who, accepts) => PullCredits(l, id, who, accepts, to);
    }
    k := DealIsFrozen(policy, actions, action.id);
  }

  /** In every run, a challenger of a settled claim who has something to pull gets at least
      the stake, into the account or parked for a later withdrawal, whatever the other claims
      and their challengers do. */
  lemma ChallengerIsAlwaysPaid(policy: FeePolicy, actions: seq<Action>, id: int, who: JsString, accepts: bool)
    requires ValidPolicy(policy) && Known(History(Deployed(policy), actions), id)
    requires var l := History(Deployed(policy), actions);
      var c := MarketAt(l, id).claim;
      CanPull(c, who) && Inflow(c) <= MAX_I64 && l.feesAccrued <= MAX_I128 - MAX_I64
    ensures var l := History(Deployed(policy), actions);
      var after := PullAt(l, id, who, accepts);
      && after.Ok?
      && BalanceOf(after.value.paidOut, who) + BalanceOf(after.value.parked, who)
         >= BalanceOf(l.paidOut, who) + BalanceOf(l.parked, who) + EntryOf(MarketAt(l, id).claim, who).stake
  {
    RunIsSolvent(policy, actions);
    var l := History(Deployed(policy), actions);
    var m := MarketAt(l, id);
    assert m in l.markets;
    HeldAmountsInRange(m.claim);
    PullSucceedsIff(m, who);
    PullSettles(l, id, who, accepts);
    PullDraws(m, who);
    DrawWithinInflow(m, who);
  }

  lemma {:induction false} LiabilityWithinSum(markets: seq<Market>, i: nat)
    requires i < |markets| && forall m | m in markets :: Sound(m)
    ensures 0 <= Liability(markets[i]) <= SumBy(Liability, markets)
  {
    assert markets[0] in markets && forall m | m in markets[1..] :: m in markets;
    HoldsNothingNegative(markets[0]);
    if i == 0 { LiabilitiesNonNegative(markets[1..]); } else { LiabilityWithinSum(markets[1..], i - 1); }
  }

  /** In every run `cancel_claim` answers as documented: no reachable open claim is exposed, and
      the balance always covers the refund. */
  lemma CancelAnswersAsDocumented(policy: FeePolicy, actions: seq<Action>, id: int)
    requires ValidPolicy(policy) && Known(History(Deployed(policy), actions), id)
    ensures var l := History(Deployed(policy), actions);
      ActualAnswer(MarketAt(l, id)) == DocumentedAnswer(MarketAt(l, id), l.balance)
  {
    var l := History(Deployed(policy), actions);
    RunIsSolvent(policy, actions);
    LiabilityIsCovered(l, id);
    CancelSucceedsIff(MarketAt(l, id));
    CancelAsDocumentedIff(MarketAt(l, id), l.balance);
  }

  lemma LiabilityIsCovered(l: Ledger, id: int)
    requires Solvent(l) && Known(l, id)
    ensures Sound(MarketAt(l, id)) && Liability(MarketAt(l, id)) <= l.balance
  {
    assert MarketAt(l, id) in l.markets;
    LiabilityWithinSum(l.markets, id - 1);
    NobodyOwes(l.parked);
    NobodyOwes(l.accrued);
  }

  lemma NobodyOwes(b: Balances)
    requires NonNegative(b)
    ensures Total(b) >= 0
  {
    BalanceWithinTotal(b, []);
  }

  // ----- When all is paid out -----

  ghost predicate IsDone(m: Market) {
    m.claim.state.Cancelled? || (m.claim.state.Resolved? && forall who :: !CanPull(m.claim, who))
  }

  lemma {:induction false} DoneHoldsNothing(markets: seq<Market>)
    requires forall m | m in markets :: Sound(m) && IsDone(m)
    ensures SumBy(Liability, markets) == 0
  {
    if markets != [] {
      assert markets[0] in markets && forall m | m in markets[1..] :: m in markets;
      if markets[0].claim.state.Resolved? { AllPulledIsEmpty(markets[0]); }
      DoneHoldsNothing(markets[1..]);
    }
  }

  lemma {:induction false} NobodyHasAnything(b: Balances)
    requires forall who :: BalanceOf(b, who) == 0
    ensures Total(b) == 0
    decreases |b|
  {
    if b != map[] {
      var who :| who in b && Total(b) == b[who] + Total(b - {who});
      assert BalanceOf(b, who) == 0;
      forall other ensures BalanceOf(b - {who}, other) == 0 { assert BalanceOf(b, other) == 0; }
      NobodyHasAnything(b - {who});
    }
  }

  /** When every claim is over and everybody has collected, the contract holds nothing but what
      was sent to it without a call: no unit is stranded and none is missing. */
  lemma NothingIsStranded(policy: FeePolicy, actions: seq<Action>)
    requires ValidPolicy(policy)
    requires forall m | m in History(Deployed(policy), actions).markets :: IsDone(m)
    requires forall who ::
      BalanceOf(History(Deployed(policy), actions).parked, who) == 0
      && BalanceOf(History(Deployed(policy), actions).accrued, who) == 0
    ensures var l := History(Deployed(policy), actions);
      l.balance == l.received && Total(l.paidOut) == Total(l.paidIn) && l.feesAccrued == l.feesClaimed
  {
    var l := History(Deployed(policy), actions);
    RunIsSolvent(policy, actions);
    DoneHoldsNothing(l.markets);
    NobodyHasAnything(l.parked);
    NobodyHasAnything(l.accrued);
  }
}
