/** Fee accounting in atomic units: policies, per-winner splits, whole-market settlement
    and merged accruals (lib/fees.ts), with the pool payout rule (lib/payout.ts). */
module Fees {
  import opened Arithmetic
  import opened Wrappers
  import opened JsNumbers
  import opened JsStrings
  import opened Sequences
  import opened Sorting

  const BPS_DIVISOR: int := 10_000
  const MAX_TOTAL_FEE_BPS: int := 1_000
  const ZERO_ADDRESS := Ascii("0x0000000000000000000000000000000000000000")

  // ----- Policies -----

  datatype FeePolicy = FeePolicy(
    platformFeeBps: real, agentOwnerFeeBps: real, platformRecipient: JsString, agentOwnerRecipient: Option<JsString>)

  datatype PolicyError = PlatformBpsInvalid | OwnerBpsInvalid | TotalTooHigh
    | PlatformRecipientMissing | OwnerRecipientMissing

  predicate Missing(recipient: Option<JsString>) { recipient.None? || recipient.value == [] }

  predicate ValidBps(bps: real) { IsInteger(bps) && bps >= 0.0 }

  /** What a policy must meet before it may be stored on a claim. */
  predicate ValidPolicy(p: FeePolicy) {
    && ValidBps(p.platformFeeBps) && ValidBps(p.agentOwnerFeeBps)
    && p.platformFeeBps + p.agentOwnerFeeBps <= MAX_TOTAL_FEE_BPS as real
    && (p.platformFeeBps > 0.0 ==> p.platformRecipient != [])
    && (p.agentOwnerFeeBps > 0.0 ==> !Missing(p.agentOwnerRecipient))
  }

  method ValidateFeePolicy(policy: FeePolicy) returns (errors: seq<PolicyError>)
    ensures errors == [] <==> ValidPolicy(policy)
    ensures PlatformBpsInvalid in errors <==> !ValidBps(policy.platformFeeBps)
    ensures OwnerBpsInvalid in errors <==> !ValidBps(policy.agentOwnerFeeBps)
    ensures TotalTooHigh in errors
      <==> Trunc(policy.platformFeeBps) + Trunc(policy.agentOwnerFeeBps) > MAX_TOTAL_FEE_BPS
    ensures PlatformRecipientMissing in errors <==> policy.platformFeeBps >= 1.0 && policy.platformRecipient == []
    ensures OwnerRecipientMissing in errors <==> policy.agentOwnerFeeBps >= 1.0 && Missing(policy.agentOwnerRecipient)
  {
    errors := [];
    var platform, owner := Trunc(policy.platformFeeBps), Trunc(policy.agentOwnerFeeBps);
    if !IsInteger(policy.platformFeeBps) || platform < 0 {
      errors := errors + [PlatformBpsInvalid];
    }
    if !IsInteger(policy.agentOwnerFeeBps) || owner < 0 {
      errors := errors + [OwnerBpsInvalid];
    }
    if platform + owner > MAX_TOTAL_FEE_BPS {
      errors := errors + [TotalTooHigh];
    }
    if platform > 0 && policy.platformRecipient == [] {
      errors := errors + [PlatformRecipientMissing];
    }
    if owner > 0 && Missing(policy.agentOwnerRecipient) {
      errors := errors + [OwnerRecipientMissing];
    }
  }

  datatype FeeSnapshot = FeeSnapshot(
    platformFeeBps: int, agentOwnerFeeBps: int, platformRecipient: JsString, agentOwnerRecipient: Option<JsString>,
    agentId: Option<JsString>, takenAt: int)

  function SnapshotFeePolicy(policy: FeePolicy, agentId: Option<JsString>, at: int): FeeSnapshot {
    FeeSnapshot(
      Trunc(policy.platformFeeBps), Trunc(policy.agentOwnerFeeBps), Trim(policy.platformRecipient),
      if Missing(policy.agentOwnerRecipient) then None else Some(Trim(policy.agentOwnerRecipient.value)),
      agentId, at)
  }

  predicate ValidSnapshot(s: FeeSnapshot) {
    s.platformFeeBps >= 0 && s.agentOwnerFeeBps >= 0 && s.platformFeeBps + s.agentOwnerFeeBps <= MAX_TOTAL_FEE_BPS
  }

  // ----- One winner -----

  datatype Outcome = CreatorWins | ChallengersWin | Draw | Unresolvable | Cancelled

  predicate IsRefund(outcome: Outcome) { outcome.Draw? || outcome.Unresolvable? || outcome.Cancelled? }

  predicate HasRecipient(recipient: Option<JsString>) {
    recipient.Some? && recipient.value != [] && LowerAscii(Trim(recipient.value)) !in {[], ZERO_ADDRESS}
  }

  datatype FeeSplit = FeeSplit(
    principalUnits: int, grossProfitUnits: int, platformFeeUnits: int, agentOwnerFeeUnits: int,
    netProfitUnits: int, payoutUnits: int)

  function Profit(principal: int, gross: int): int { if gross > principal then gross - principal else 0 }

  function Charge(profit: int, bps: int, recipient: Option<JsString>): int {
    if HasRecipient(recipient) then TruncDiv(profit * bps, BPS_DIVISOR) else 0
  }

  function SplitFees(principal: int, gross: int, s: FeeSnapshot, outcome: Outcome): FeeSplit {
    if IsRefund(outcome) then FeeSplit(principal, 0, 0, 0, 0, principal)
    else
      var profit := Profit(principal, gross);
      var platform := Charge(profit, s.platformFeeBps, Some(s.platformRecipient));
      var owner := Charge(profit, s.agentOwnerFeeBps, s.agentOwnerRecipient);
      FeeSplit(principal, profit, platform, owner, profit - platform - owner, gross - platform - owner)
  }

  /** Truncated legs never take more than the single leg at the summed rate. */
  lemma LegsWithinSum(profit: nat, a: nat, b: nat)
    ensures 0 <= profit * a / BPS_DIVISOR && 0 <= profit * b / BPS_DIVISOR
    ensures profit * a / BPS_DIVISOR + profit * b / BPS_DIVISOR <= profit * (a + b) / BPS_DIVISOR
         <= profit * a / BPS_DIVISOR + profit * b / BPS_DIVISOR + 1
  {
    assert profit * (a + b) == profit * a + profit * b;
    assert profit * a >= 0 && profit * b >= 0;
  }

  lemma RateWithinWhole(profit: nat, bps: nat)
    requires bps <= BPS_DIVISOR
    ensures profit * bps / BPS_DIVISOR <= profit
  {
    assert profit * bps <= profit * BPS_DIVISOR;
  }

  /** Under a valid snapshot, fees come out of profit only and never exceed it. */
  lemma FeesWithinProfit(principal: int, gross: int, s: FeeSnapshot, outcome: Outcome)
    requires ValidSnapshot(s)
    ensures var f := SplitFees(principal, gross, s, outcome);
      && f.platformFeeUnits >= 0 && f.agentOwnerFeeUnits >= 0
      && f.platformFeeUnits + f.agentOwnerFeeUnits <= Profit(principal, gross)
      && (!IsRefund(outcome) ==> f.payoutUnits + f.platformFeeUnits + f.agentOwnerFeeUnits == gross)
      && (gross > principal ==> f.payoutUnits >= principal)
  {
    var profit := Profit(principal, gross);
    LegsWithinSum(profit, s.platformFeeBps, s.agentOwnerFeeBps);
    RateWithinWhole(profit, s.platformFeeBps + s.agentOwnerFeeBps);
    RateWithinWhole(profit, s.platformFeeBps);
    RateWithinWhole(profit, s.agentOwnerFeeBps);
    assert profit * s.platformFeeBps >= 0 && profit * s.agentOwnerFeeBps >= 0;
  }

  // ----- A whole market -----

  datatype Participant = Participant(address: JsString, stakeUnits: int, grossPayoutUnits: int)
  datatype Payout = Payout(address: JsString, amountUnits: int)
  datatype FeeKind = PlatformFee | AgentOwnerFee
  datatype AccrualLine = AccrualLine(recipient: JsString, amountUnits: int, kind: FeeKind)

  datatype MarketSettlement = MarketSettlement(
    payouts: seq<Payout>, accruals: seq<AccrualLine>, totalPayoutUnits: int, totalPlatformFeeUnits: int,
    totalAgentOwnerFeeUnits: int, dustUnits: int, escrowInflowUnits: int)

  function StakeOf(p: Participant): int { p.stakeUnits }
  function GrossOf(p: Participant): int { p.grossPayoutUnits }
  function PlatformOf(f: FeeSplit): int { f.platformFeeUnits }
  function OwnerOf(f: FeeSplit): int { f.agentOwnerFeeUnits }
  function PaidBy(p: Payout): int { p.amountUnits }
  function AmountOf(line: AccrualLine): int { line.amountUnits }
  function RecipientOf(line: AccrualLine): JsString { Trim(line.recipient) }
  predicate IsPositive(p: Payout) { p.amountUnits > 0 }

  function SplitOf(p: Participant, s: FeeSnapshot, outcome: Outcome): FeeSplit {
    SplitFees(p.stakeUnits, p.grossPayoutUnits, s, outcome)
  }

  function Splits(ps: seq<Participant>, s: FeeSnapshot, outcome: Outcome): seq<FeeSplit> {
    seq(|ps|, i requires 0 <= i < |ps| => SplitOf(ps[i], s, outcome))
  }

  /** Everyone's payout, those of nothing included. */
  function Dues(ps: seq<Participant>, s: FeeSnapshot, outcome: Outcome): seq<Payout> {
    seq(|ps|, i requires 0 <= i < |ps| => Payout(ps[i].address, SplitOf(ps[i], s, outcome).payoutUnits))
  }

  function Accruals(s: FeeSnapshot, platform: int, owner: int): seq<AccrualLine> {
    (if platform > 0 then [AccrualLine(s.platformRecipient, platform, PlatformFee)] else [])
    + (if owner > 0 && !Missing(s.agentOwnerRecipient)
       then [AccrualLine(s.agentOwnerRecipient.value, owner, AgentOwnerFee)] else [])
  }

  /** What settling a market comes to, as sums over its participants. */
  function Settlement(ps: seq<Participant>, s: FeeSnapshot, outcome: Outcome): MarketSettlement {
    var payouts := Filter(IsPositive, Dues(ps, s, outcome));
    var platform, owner := SumBy(PlatformOf, Splits(ps, s, outcome)), SumBy(OwnerOf, Splits(ps, s, outcome));
    var paid, inflow := SumBy(PaidBy, payouts), SumBy(StakeOf, ps);
    MarketSettlement(
      payouts, Accruals(s, platform, owner), paid, platform, owner, inflow - paid - platform - owner, inflow)
  }

  method SettleMarket(participants: seq<Participant>, snapshot: FeeSnapshot, outcome: Outcome)
    returns (r: MarketSettlement)
    ensures r == Settlement(participants, snapshot, outcome)
  {
    var escrowInflow := SumBy(StakeOf, participants);
    var payouts: seq<Payout>, totalPayout, totalPlatform, totalOwner := [], 0, 0, 0;
    for i := 0 to |participants|
      invariant payouts == Filter(IsPositive, Dues(participants[..i], snapshot, outcome))
      invariant totalPayout == SumBy(PaidBy, payouts)
      invariant totalPlatform == SumBy(PlatformOf, Splits(participants[..i], snapshot, outcome))
      invariant totalOwner == SumBy(OwnerOf, Splits(participants[..i], snapshot, outcome))
    {
      PrefixSnoc(participants, i);
      SettlementSnoc(participants[..i], participants[i], snapshot, outcome);
      var split := SplitFees(participants[i].stakeUnits, participants[i].grossPayoutUnits, snapshot, outcome);
      if split.payoutUnits > 0 {
        SumBySnoc(PaidBy, payouts, Payout(participants[i].address, split.payoutUnits));
        payouts := payouts + [Payout(participants[i].address, split.payoutUnits)];
        totalPayout := totalPayout + split.payoutUnits;
      }
      totalPlatform := totalPlatform + split.platformFeeUnits;
      totalOwner := totalOwner + split.agentOwnerFeeUnits;
    }
    assert participants[..|participants|] == participants;
    var accruals := AccrualLines(snapshot, totalPlatform, totalOwner);
    var dust := escrowInflow - totalPayout - totalPlatform - totalOwner;
    r := MarketSettlement(payouts, accruals, totalPayout, totalPlatform, totalOwner, dust, escrowInflow);
  }

  method AccrualLines(snapshot: FeeSnapshot, totalPlatform: int, totalOwner: int) returns (accruals: seq<AccrualLine>)
    ensures accruals == Accruals(snapshot, totalPlatform, totalOwner)
  {
    accruals := [];
    if totalPlatform > 0 {
      accruals := accruals + [AccrualLine(snapshot.platformRecipient, totalPlatform, PlatformFee)];
    }
    if totalOwner > 0 && !Missing(snapshot.agentOwnerRecipient) {
      accruals := accruals + [AccrualLine(snapshot.agentOwnerRecipient.value, totalOwner, AgentOwnerFee)];
    }
  }

  lemma PrefixSnoc<T>(xs: seq<T>, i: nat)
    requires i < |xs|
    ensures xs[..i + 1] == xs[..i] + [xs[i]]
  {
  }

  lemma SettlementSnoc(ps: seq<Participant>, p: Participant, s: FeeSnapshot, outcome: Outcome)
    ensures var f := SplitOf(p, s, outcome);
      var due := Payout(p.address, f.payoutUnits);
      && Splits(ps + [p], s, outcome) == Splits(ps, s, outcome) + [f]
      && Dues(ps + [p], s, outcome) == Dues(ps, s, outcome) + [due]
      && Filter(IsPositive, Dues(ps + [p], s, outcome))
         == Filter(IsPositive, Dues(ps, s, outcome)) + (if due.amountUnits > 0 then [due] else [])
      && SumBy(PlatformOf, Splits(ps + [p], s, outcome))
         == SumBy(PlatformOf, Splits(ps, s, outcome)) + f.platformFeeUnits
      && SumBy(OwnerOf, Splits(ps + [p], s, outcome)) == SumBy(OwnerOf, Splits(ps, s, outcome)) + f.agentOwnerFeeUnits
  {
    var f := SplitOf(p, s, outcome);
    var due := Payout(p.address, f.payoutUnits);
    assert Splits(ps + [p], s, outcome) == Splits(ps, s, outcome) + [f];
    assert Dues(ps + [p], s, outcome) == Dues(ps, s, outcome) + [due];
    FilterConcat(IsPositive, Dues(ps, s, outcome), [due]);
    SumBySnoc(PlatformOf, Splits(ps, s, outcome), f);
    SumBySnoc(OwnerOf, Splits(ps, s, outcome), f);
  }

  // ----- Dust -----

  /** How far a payout lies below zero; such a payout is dropped, not collected. */
  function Overdraft(p: Payout): int { if p.amountUnits < 0 then -p.amountUnits else 0 }

  function GrossDue(ps: seq<Participant>, outcome: Outcome): int {
    if IsRefund(outcome) then SumBy(StakeOf, ps) else SumBy(GrossOf, ps)
  }

  /** For any participants, rates and outcome: dust is what came in less what was due before
      fees, less the payouts that would have been negative. */
  lemma {:induction false} DustIdentity(ps: seq<Participant>, s: FeeSnapshot, outcome: Outcome)
    ensures Settlement(ps, s, outcome).dustUnits
      == SumBy(StakeOf, ps) - GrossDue(ps, outcome) - SumBy(Overdraft, Dues(ps, s, outcome))
  {
    if ps != [] {
      var n := |ps| - 1;
      var front, p := ps[..n], ps[n];
      var due := Payout(p.address, SplitOf(p, s, outcome).payoutUnits);
      assert ps == front + [p];
      DustIdentity(front, s, outcome);
      SettlementSnoc(front, p, s, outcome);
      SumBySnoc(StakeOf, front, p);
      SumBySnoc(GrossOf, front, p);
      SumBySnoc(Overdraft, Dues(front, s, outcome), due);
      SumBySnoc(PaidBy, Filter(IsPositive, Dues(front, s, outcome)), due);
      assert Filter(IsPositive, Dues(front, s, outcome)) + [] == Filter(IsPositive, Dues(front, s, outcome));
    }
  }

  predicate NonNegative(ps: seq<Participant>) {
    forall i | 0 <= i < |ps| :: ps[i].stakeUnits >= 0 && ps[i].grossPayoutUnits >= 0
  }

  lemma {:induction false} NoOverdraft(dues: seq<Payout>)
    ensures SumBy(Overdraft, dues) >= 0
    ensures SumBy(Overdraft, dues) == 0 <==> forall i | 0 <= i < |dues| :: dues[i].amountUnits >= 0
  {
    if dues != [] {
      NoOverdraft(dues[1..]);
      assert forall i | 0 < i < |dues| :: dues[i] == dues[1..][i - 1];
      assert (forall i | 0 <= i < |dues| :: dues[i].amountUnits >= 0)
        <==> dues[0].amountUnits >= 0 && forall i | 0 <= i < |dues[1..]| :: dues[1..][i].amountUnits >= 0;
    }
  }

  /** Fees create no dust: it is stakes less gross payouts exactly when no payout is negative. */
  lemma DustIgnoresFeesIff(ps: seq<Participant>, s: FeeSnapshot, outcome: Outcome)
    ensures Settlement(ps, s, outcome).dustUnits == SumBy(StakeOf, ps) - GrossDue(ps, outcome)
       <==> forall i | 0 <= i < |ps| :: SplitOf(ps[i], s, outcome).payoutUnits >= 0
  {
    DustIdentity(ps, s, outcome);
    NoOverdraft(Dues(ps, s, outcome));
    assert forall i | 0 <= i < |ps| :: Dues(ps, s, outcome)[i].amountUnits == SplitOf(ps[i], s, outcome).payoutUnits;
  }

  const OVERCHARGED := Participant(Ascii("a"), 0, 10)
  const TWICE_OVER := FeeSnapshot(20_000, 0, Ascii("p"), None, None, 0)

  lemma TwiceOver()
    ensures HasRecipient(Some(TWICE_OVER.platformRecipient))
  {
    assert Ascii("p") == [0x70];
    assert |ZERO_ADDRESS| == 42 && LowerAscii(Trim([0x70])) == [0x70];
  }

  lemma Overdrawn(p: Participant, s: FeeSnapshot)
    requires HasRecipient(Some(s.platformRecipient)) && s.platformFeeBps == 20_000 && s.agentOwnerRecipient.None?
    requires p.stakeUnits == 0 && p.grossPayoutUnits == 10
    ensures SplitOf(p, s, ChallengersWin).payoutUnits == -10
  {
  }

  /** With a rate of 200 percent, which no valid snapshot has, a payout is negative and what
      is left over is no longer stakes less gross payouts. */
  lemma OverchargingLeavesDust()
    ensures Settlement([OVERCHARGED], TWICE_OVER, ChallengersWin).dustUnits
         != SumBy(StakeOf, [OVERCHARGED]) - GrossDue([OVERCHARGED], ChallengersWin)
  {
    TwiceOver();
    Overdrawn(OVERCHARGED, TWICE_OVER);
    DustIgnoresFeesIff([OVERCHARGED], TWICE_OVER, ChallengersWin);
  }

  /** The case that matters: valid rates and non-negative amounts, whatever the rates are. */
  lemma DustExact(ps: seq<Participant>, s: FeeSnapshot, outcome: Outcome)
    requires ValidSnapshot(s) && NonNegative(ps)
    ensures Settlement(ps, s, outcome).dustUnits == SumBy(StakeOf, ps) - GrossDue(ps, outcome)
    ensures IsRefund(outcome) ==> Settlement(ps, s, outcome).dustUnits == 0
  {
    forall i | 0 <= i < |ps| ensures SplitOf(ps[i], s, outcome).payoutUnits >= 0 {
      FeesWithinProfit(ps[i].stakeUnits, ps[i].grossPayoutUnits, s, outcome);
    }
    DustIgnoresFeesIff(ps, s, outcome);
  }

  // ----- The pool rule -----

  function PoolChallengerPayout(stake: int, creatorStake: int, pool: int): int {
    if stake <= 0 then 0
    else if pool <= 0 then stake
    else stake + TruncDiv(stake * creatorStake, pool)
  }

  predicate TakesPoolShare(p: Participant, creatorStake: int, pool: int) {
    p.stakeUnits > 0 && p.grossPayoutUnits == PoolChallengerPayout(p.stakeUnits, creatorStake, pool)
  }

  predicate IsPoolWin(ps: seq<Participant>, creatorStake: int, pool: int) {
    forall p {:trigger TakesPoolShare(p, creatorStake, pool)} | p in ps :: TakesPoolShare(p, creatorStake, pool)
  }

  /** Multiplied by the pool, the floored shares fall short of the exact ones by less than
      one pool each. */
  lemma {:induction false} SharesWithRemainders(ps: seq<Participant>, creatorStake: nat, pool: int)
    requires pool > 0 && IsPoolWin(ps, creatorStake, pool)
    ensures var shares := SumBy(GrossOf, ps) - SumBy(StakeOf, ps);
      shares * pool <= SumBy(StakeOf, ps) * creatorStake <= shares * pool + |ps| * (pool - 1)
  {
    if ps != [] {
      assert forall q | q in ps[1..] :: q in ps;
      SharesWithRemainders(ps[1..], creatorStake, pool);
      var p, rest := ps[0], ps[1..];
      assert TakesPoolShare(p, creatorStake, pool);
      ShareBounds(p.stakeUnits, creatorStake, pool);
      MulDistributes(p.grossPayoutUnits - p.stakeUnits, SumBy(GrossOf, rest) - SumBy(StakeOf, rest), pool);
      MulDistributes(p.stakeUnits, SumBy(StakeOf, rest), creatorStake);
      MulDistributes(1, |rest|, pool - 1);
    }
  }

  lemma ShareBounds(stake: int, creatorStake: nat, pool: int)
    requires pool > 0 && stake > 0
    ensures var share := PoolChallengerPayout(stake, creatorStake, pool) - stake;
      0 <= share && share * pool <= stake * creatorStake <= share * pool + pool - 1
  {
    MulNonNegative(stake, creatorStake);
    FloorBounds(stake * creatorStake, pool);
  }

  predicate LeavesLess(ps: seq<Participant>, n: int) {
    NonNegative(ps) && 0 <= SumBy(StakeOf, ps) - SumBy(GrossOf, ps) < n
  }

  /** When n challengers, listed after the creator, win a pool, less than n units are left
      over, whatever the fee rates. */
  lemma PoolDustBound(ps: seq<Participant>, s: FeeSnapshot)
    requires ValidSnapshot(s) && |ps| > 1
    requires ps[0].stakeUnits >= 0 && ps[0].grossPayoutUnits == 0
    requires IsPoolWin(ps[1..], ps[0].stakeUnits, SumBy(StakeOf, ps[1..]))
    ensures 0 <= Settlement(ps, s, ChallengersWin).dustUnits < |ps| - 1
  {
    PoolLeftOver(ps);
    DustWithin(ps, s, ChallengersWin, |ps| - 1);
  }

  lemma DustWithin(ps: seq<Participant>, s: FeeSnapshot, outcome: Outcome, n: int)
    requires ValidSnapshot(s) && LeavesLess(ps, n) && !IsRefund(outcome)
    ensures 0 <= Settlement(ps, s, outcome).dustUnits < n
  {
    DustExact(ps, s, outcome);
  }

  lemma PoolLeftOver(ps: seq<Participant>)
    requires |ps| > 1 && ps[0].stakeUnits >= 0 && ps[0].grossPayoutUnits == 0
    requires IsPoolWin(ps[1..], ps[0].stakeUnits, SumBy(StakeOf, ps[1..]))
    ensures LeavesLess(ps, |ps| - 1)
  {
    var pool, c := SumBy(StakeOf, ps[1..]), ps[0].stakeUnits;
    PoolAmounts(ps[1..], c, pool);
    PoolResidue(ps[1..], c, pool);
    assert forall i | 0 < i < |ps| :: ps[i] == ps[1..][i - 1];
  }

  /** The creator's stake less the shares paid out of it. */
  lemma PoolResidue(challengers: seq<Participant>, c: nat, pool: int)
    requires challengers != [] && pool == SumBy(StakeOf, challengers) && IsPoolWin(challengers, c, pool)
    ensures 0 <= c + pool - SumBy(GrossOf, challengers) < |challengers|
  {
    PoolPositive(challengers, c, pool);
    SharesWithRemainders(challengers, c, pool);
    DivideBounds(SumBy(GrossOf, challengers) - pool, c, pool, |challengers|);
  }

  lemma PoolAmounts(ps: seq<Participant>, creatorStake: nat, pool: int)
    requires IsPoolWin(ps, creatorStake, pool)
    ensures NonNegative(ps)
  {
    forall i | 0 <= i < |ps| ensures ps[i].stakeUnits >= 0 && ps[i].grossPayoutUnits >= 0 {
      assert TakesPoolShare(ps[i], creatorStake, pool);
      if pool > 0 { ShareBounds(ps[i].stakeUnits, creatorStake, pool); }
    }
  }

  lemma {:induction false} PoolPositive(ps: seq<Participant>, creatorStake: int, pool: int)
    requires IsPoolWin(ps, creatorStake, pool)
    ensures SumBy(StakeOf, ps) >= |ps|
  {
    if ps != [] {
      assert TakesPoolShare(ps[0], creatorStake, pool);
      assert forall q | q in ps[1..] :: q in ps;
      PoolPositive(ps[1..], creatorStake, pool);
    }
  }

  lemma DivideBounds(shares: int, c: int, pool: int, n: nat)
    requires pool > 0 && n > 0 && shares * pool <= pool * c <= shares * pool + n * (pool - 1)
    ensures 0 <= c - shares <= n - 1
  {
    MulDistributes(c, shares, pool);
    MulDistributes(pool, 1, n);
    CancelFactor(shares, c, pool);
    if c - shares >= n { MulMonotone(n, c - shares, pool); }
  }

  const UNIT_WINNER := Participant(Ascii("c"), 1, 1)

  /** n challengers of one unit each against a creator with n - 1 units. */
  function UnitMarket(n: nat): seq<Participant>
    requires n > 0
  {
    [Participant(Ascii("creator"), n - 1, 0)] + seq(n, i => UNIT_WINNER)
  }

  /** The bound is attained for every n: all n - 1 units of this market's creator are dust. */
  lemma PoolDustBoundAttained(n: nat, s: FeeSnapshot)
    requires n > 0 && ValidSnapshot(s)
    ensures var ps := UnitMarket(n);
      && |ps| == n + 1 && ps[0].stakeUnits >= 0 && ps[0].grossPayoutUnits == 0
      && IsPoolWin(ps[1..], ps[0].stakeUnits, SumBy(StakeOf, ps[1..]))
      && Settlement(ps, s, ChallengersWin).dustUnits == n - 1
  {
    var ps := UnitMarket(n);
    var challengers := seq(n, i => UNIT_WINNER);
    assert ps[1..] == challengers;
    UnitSums(challengers);
    UnitShares(challengers, n);
    assert NonNegative(ps);
    DustExact(ps, s, ChallengersWin);
  }

  lemma UnitShares(ps: seq<Participant>, n: nat)
    requires n > 0 && forall p | p in ps :: p.stakeUnits == p.grossPayoutUnits == 1
    ensures IsPoolWin(ps, n - 1, n)
  {
    assert forall p | p in ps :: TakesPoolShare(p, n - 1, n);
  }

  lemma {:induction false} UnitSums(ps: seq<Participant>)
    requires forall p | p in ps :: p.stakeUnits == p.grossPayoutUnits == 1
    ensures SumBy(StakeOf, ps) == |ps| && SumBy(GrossOf, ps) == |ps|
  {
    if ps != [] { UnitSums(ps[1..]); }
  }

  // ----- Winners keep their principal -----

  /** `new Map(payouts.map(...))`: for a repeated address the last payout stays. */
  function PaidTo(payouts: seq<Payout>): map<JsString, int> {
    if payouts == [] then map[]
    else
      var n := |payouts| - 1;
      PaidTo(payouts[..n])[Trim(payouts[n].address) := payouts[n].amountUnits]
  }

  predicate NoWinnerLosesPrincipal(ps: seq<Participant>, r: MarketSettlement) {
    var paid := PaidTo(r.payouts);
    forall i | 0 <= i < |ps| && ps[i].grossPayoutUnits > ps[i].stakeUnits ::
      (if Trim(ps[i].address) in paid then paid[Trim(ps[i].address)] else 0) >= ps[i].stakeUnits
  }

  /** The last positive amount due to a trimmed address, or nothing. */
  function LastPaid(dues: seq<Payout>, address: JsString): int {
    if dues == [] then 0
    else
      var n := |dues| - 1;
      if Trim(dues[n].address) == address && IsPositive(dues[n]) then dues[n].amountUnits
      else LastPaid(dues[..n], address)
  }

  lemma PaidSnoc(payouts: seq<Payout>, p: Payout)
    ensures PaidTo(payouts + [p]) == PaidTo(payouts)[Trim(p.address) := p.amountUnits]
  {
    assert (payouts + [p])[..|payouts|] == payouts;
  }

  lemma PositiveSnoc(dues: seq<Payout>, p: Payout)
    ensures var paid := Filter(IsPositive, dues);
      Filter(IsPositive, dues + [p]) == if IsPositive(p) then paid + [p] else paid
  {
    FilterConcat(IsPositive, dues, [p]);
  }

  lemma {:induction false} PaidIsLast(dues: seq<Payout>, address: JsString)
    ensures var paid := PaidTo(Filter(IsPositive, dues));
      LastPaid(dues, address) == if address in paid then paid[address] else 0
  {
    if dues != [] {
      var n := |dues| - 1;
      assert dues == dues[..n] + [dues[n]];
      PaidIsLast(dues[..n], address);
      PositiveSnoc(dues[..n], dues[n]);
      PaidSnoc(Filter(IsPositive, dues[..n]), dues[n]);
    }
  }

  /** Each winner's principal is covered by the last payment to their address. */
  predicate LastPaymentsCover(ps: seq<Participant>, dues: seq<Payout>) {
    forall i | 0 <= i < |ps| && ps[i].grossPayoutUnits > ps[i].stakeUnits ::
      LastPaid(dues, Trim(ps[i].address)) >= ps[i].stakeUnits
  }

  /** For any participants, rates and outcome, the invariant as computed holds exactly when
      the last payment to each winner's address covers that winner's principal. */
  lemma PrincipalIff(ps: seq<Participant>, s: FeeSnapshot, outcome: Outcome)
    ensures NoWinnerLosesPrincipal(ps, Settlement(ps, s, outcome)) <==> LastPaymentsCover(ps, Dues(ps, s, outcome))
  {
    var dues := Dues(ps, s, outcome);
    forall i | 0 <= i < |ps| { PaidIsLast(dues, Trim(ps[i].address)); }
  }

  predicate DistinctAddresses(ps: seq<Participant>) {
    forall i, j | 0 <= i < j < |ps| :: Trim(ps[i].address) != Trim(ps[j].address)
  }

  lemma DueOfWinner(p: Participant, s: FeeSnapshot, outcome: Outcome)
    requires ValidSnapshot(s) && p.grossPayoutUnits > p.stakeUnits
    ensures SplitOf(p, s, outcome).payoutUnits >= p.stakeUnits
  {
    FeesWithinProfit(p.stakeUnits, p.grossPayoutUnits, s, outcome);
  }

  /** The last participant at an address is the last to be paid there, if paid at all. */
  lemma {:induction false} LastPaidAt(dues: seq<Payout>, i: nat)
    requires i < |dues| && forall j | i < j < |dues| :: Trim(dues[j].address) != Trim(dues[i].address)
    requires dues[i].amountUnits > 0
    ensures LastPaid(dues, Trim(dues[i].address)) == dues[i].amountUnits
  {
    var n := |dues| - 1;
    if i < n {
      LastPaidAt(dues[..n], i);
      assert Trim(dues[n].address) != Trim(dues[i].address);
    }
  }

  lemma {:induction false} LastPaidNonNegative(dues: seq<Payout>, address: JsString)
    ensures LastPaid(dues, address) >= 0
  {
    if dues != [] { LastPaidNonNegative(dues[..|dues| - 1], address); }
  }

  /** No later participant shares a winner's address. */
  predicate WinnersComeLast(ps: seq<Participant>) {
    forall i, j | 0 <= i < j < |ps| && ps[i].grossPayoutUnits > ps[i].stakeUnits ::
      Trim(ps[i].address) != Trim(ps[j].address)
  }

  /** So no valid rates make a winner lose principal, unless somebody after the winner is
      listed under the same address. */
  lemma WinnersKeepPrincipal(ps: seq<Participant>, s: FeeSnapshot, outcome: Outcome)
    requires ValidSnapshot(s) && WinnersComeLast(ps)
    ensures NoWinnerLosesPrincipal(ps, Settlement(ps, s, outcome))
  {
    var dues := Dues(ps, s, outcome);
    forall i | 0 <= i < |ps| && ps[i].grossPayoutUnits > ps[i].stakeUnits
      ensures LastPaid(dues, Trim(ps[i].address)) >= ps[i].stakeUnits
    {
      DueOfWinner(ps[i], s, outcome);
      LastPaidNonNegative(dues, Trim(ps[i].address));
      if dues[i].amountUnits > 0 { LastPaidAt(dues, i); }
    }
    PrincipalIff(ps, s, outcome);
  }

  // ----- Merged accruals -----

  function Recipients(lines: seq<AccrualLine>): set<JsString> { set line | line in lines :: RecipientOf(line) }

  datatype Merged = Merged(recipient: JsString, amountUnits: int)
  function MergedAmount(m: Merged): int { m.amountUnits }
  function MergedRecipient(m: Merged): JsString { m.recipient }

  predicate ByRecipient(less: (JsString, JsString) -> bool, a: Merged, b: Merged) { less(a.recipient, b.recipient) }

  /** Adds up the lines of each trimmed recipient and sorts by recipient. `less` stands for
      `localeCompare`, a fixed strict total order. */
  method MergeAccruals(lines: seq<AccrualLine>, less: (JsString, JsString) -> bool) returns (merged: seq<Merged>)
    requires StrictTotalOrder(less)
    ensures forall i | 0 <= i < |merged| ::
      merged[i].amountUnits == SumFor(RecipientOf, AmountOf, lines, merged[i].recipient)
    ensures forall r :: r in Recipients(lines) <==> exists i | 0 <= i < |merged| :: merged[i].recipient == r
    ensures forall i, j | 0 <= i < j < |merged| :: less(merged[i].recipient, merged[j].recipient)
    ensures SumBy(MergedAmount, merged) == SumBy(AmountOf, lines)
  {
    var byRecipient := AccumulateAccruals(lines);
    var entries := EntriesOf(byRecipient);
    merged := Sort((a, b) => ByRecipient(less, a, b), entries);
    SortedEntries(less, entries, merged);
    forall r ensures r in Recipients(lines) <==> exists i | 0 <= i < |merged| :: merged[i].recipient == r {
      if r in byRecipient {
        assert Merged(r, byRecipient[r]) in merged;
      }
    }
    forall i | 0 <= i < |merged|
      ensures merged[i].recipient in byRecipient && merged[i].amountUnits == byRecipient[merged[i].recipient]
    {
      assert merged[i] in entries;
    }
    MergedTotal(lines, merged);
  }

  method AccumulateAccruals(lines: seq<AccrualLine>) returns (byRecipient: map<JsString, int>)
    ensures byRecipient.Keys == Recipients(lines)
    ensures forall r | r in byRecipient :: byRecipient[r] == SumFor(RecipientOf, AmountOf, lines, r)
  {
    byRecipient := map[];
    for i := 0 to |lines|
      invariant byRecipient.Keys == Recipients(lines[..i])
      invariant forall r | r in byRecipient :: byRecipient[r] == SumFor(RecipientOf, AmountOf, lines[..i], r)
    {
      PrefixSnoc(lines, i);
      var key := Trim(lines[i].recipient);
      if key !in byRecipient { AbsentSum(lines[..i], key); }
      forall r ensures SumFor(RecipientOf, AmountOf, lines[..i + 1], r)
        == SumFor(RecipientOf, AmountOf, lines[..i], r) + if RecipientOf(lines[i]) == r then lines[i].amountUnits else 0
      {
        SumForSnoc(RecipientOf, AmountOf, lines[..i], lines[i], r);
      }
      byRecipient := byRecipient[key := (if key in byRecipient then byRecipient[key] else 0) + lines[i].amountUnits];
    }
    assert lines[..|lines|] == lines;
  }

  /** The entries of a map, in any order. */
  method EntriesOf(m: map<JsString, int>) returns (entries: seq<Merged>)
    ensures forall e :: e in entries <==> e.recipient in m && m[e.recipient] == e.amountUnits
    ensures DistinctKeys(MergedRecipient, entries)
  {
    var left := m.Keys;
    entries := [];
    while left != {}
      invariant left <= m.Keys
      invariant forall e :: e in entries <==> e.recipient in m.Keys - left && m[e.recipient] == e.amountUnits
      invariant DistinctKeys(MergedRecipient, entries)
    {
      var r :| r in left;
      assert forall e | e in entries :: e.recipient != r;
      entries := entries + [Merged(r, m[r])];
      left := left - {r};
    }
  }

  lemma {:induction false} AbsentSum(lines: seq<AccrualLine>, r: JsString)
    requires r !in Recipients(lines)
    ensures SumFor(RecipientOf, AmountOf, lines, r) == 0
  {
    if lines != [] {
      assert RecipientOf(lines[0]) in Recipients(lines);
      assert Recipients(lines[1..]) <= Recipients(lines);
      AbsentSum(lines[1..], r);
    }
  }

  lemma SortedEntries(less: (JsString, JsString) -> bool, entries: seq<Merged>, merged: seq<Merged>)
    requires StrictTotalOrder(less)
    requires DistinctKeys(MergedRecipient, entries)
    requires merged == Sort((a, b) => ByRecipient(less, a, b), entries)
    ensures forall m :: m in merged <==> m in entries
    ensures forall i, j | 0 <= i < j < |merged| :: less(merged[i].recipient, merged[j].recipient)
  {
    var order := (a, b) => ByRecipient(less, a, b);
    forall x, y | x in entries && y in entries && x != y ensures order(x, y) || order(y, x) {
      var i, j :| 0 <= i < |entries| && 0 <= j < |entries| && entries[i] == x && entries[j] == y;
      assert MergedRecipient(entries[i]) != MergedRecipient(entries[j]);
    }
    SortStrictly(order, entries);
  }

  lemma {:induction false} SumsAgree(lines: seq<AccrualLine>, merged: seq<Merged>, ks: seq<JsString>)
    requires |ks| == |merged| && forall i | 0 <= i < |merged| :: (ks[i] == merged[i].recipient
      && merged[i].amountUnits == SumFor(RecipientOf, AmountOf, lines, ks[i]))
    ensures SumBy(MergedAmount, merged) == SumOverKeys(RecipientOf, AmountOf, lines, ks)
  {
    if merged != [] { SumsAgree(lines, merged[1..], ks[1..]); }
  }

  lemma MergedTotal(lines: seq<AccrualLine>, merged: seq<Merged>)
    requires forall i | 0 <= i < |merged| ::
      merged[i].amountUnits == SumFor(RecipientOf, AmountOf, lines, merged[i].recipient)
    requires forall r | r in Recipients(lines) :: exists i | 0 <= i < |merged| :: merged[i].recipient == r
    requires forall i, j | 0 <= i < j < |merged| :: merged[i].recipient != merged[j].recipient
    ensures SumBy(MergedAmount, merged) == SumBy(AmountOf, lines)
  {
    var ks := seq(|merged|, i requires 0 <= i < |merged| => merged[i].recipient);
    SumsAgree(lines, merged, ks);
    forall line | line in lines ensures RecipientOf(line) in ks {
      assert RecipientOf(line) in Recipients(lines);
      var i :| 0 <= i < |merged| && merged[i].recipient == RecipientOf(line);
      assert ks[i] == RecipientOf(line);
    }
    PartitionSum(RecipientOf, AmountOf, lines, ks);
  }

  /** A leg with nobody to pay is never charged, so the accrual lines hold all the fees. */
  lemma AccrualsHoldTheFees(ps: seq<Participant>, s: FeeSnapshot, outcome: Outcome)
    requires ValidSnapshot(s)
    ensures var r := Settlement(ps, s, outcome);
      SumBy(AmountOf, r.accruals) == r.totalPlatformFeeUnits + r.totalAgentOwnerFeeUnits
  {
    var r := Settlement(ps, s, outcome);
    FeesNonNegative(ps, s, outcome);
    if r.totalAgentOwnerFeeUnits > 0 { OwnerFeeNeedsRecipient(ps, s, outcome); }
    var first :=
      if r.totalPlatformFeeUnits > 0 then [AccrualLine(s.platformRecipient, r.totalPlatformFeeUnits, PlatformFee)]
      else [];
    SumByConcat(AmountOf, first, r.accruals[|first|..]);
    assert r.accruals == first + r.accruals[|first|..];
  }

  // ----- Who is paid what -----

  /** Somebody who can be paid a fee. */
  predicate Payable(recipient: Option<JsString>) {
    && recipient.Some? && !AllWhite(recipient.value)
    && LowerAscii(Trim(recipient.value)) != Ascii("0x0000000000000000000000000000000000000000")
  }

  /** A rate on what a participant won, rounded down; nothing on a loss or with nobody to pay. */
  function FeeOn(p: Participant, bps: int, recipient: Option<JsString>): int {
    if Payable(recipient) && p.stakeUnits < p.grossPayoutUnits
    then (p.grossPayoutUnits - p.stakeUnits) * bps / 10_000 else 0
  }

  function LegTotal(ps: seq<Participant>, bps: int, recipient: Option<JsString>, outcome: Outcome): int {
    if outcome in {Draw, Unresolvable, Cancelled} then 0 else SumBy((p: Participant) => FeeOn(p, bps, recipient), ps)
  }

  lemma PayableIff(recipient: Option<JsString>)
    ensures HasRecipient(recipient) <==> Payable(recipient)
  {
    if recipient.Some? {
      BlankIff(recipient.value);
      assert |LowerAscii(Trim(recipient.value))| == |Trim(recipient.value)|;
    }
  }

  lemma ChargeIsFloor(p: Participant, bps: nat, recipient: Option<JsString>)
    ensures Charge(Profit(p.stakeUnits, p.grossPayoutUnits), bps, recipient) == FeeOn(p, bps, recipient)
  {
    PayableIff(recipient);
    MulNonNegative(Profit(p.stakeUnits, p.grossPayoutUnits), bps);
  }

  lemma LegTotalSnoc(ps: seq<Participant>, p: Participant, bps: int, recipient: Option<JsString>, outcome: Outcome)
    ensures LegTotal(ps + [p], bps, recipient, outcome)
         == LegTotal(ps, bps, recipient, outcome) + if IsRefund(outcome) then 0 else FeeOn(p, bps, recipient)
  {
    SumBySnoc((q: Participant) => FeeOn(q, bps, recipient), ps, p);
  }

  /** The totals of a settlement are the rates on everybody's profit. */
  lemma {:induction false} TotalsAreLegs(ps: seq<Participant>, s: FeeSnapshot, outcome: Outcome)
    requires ValidSnapshot(s)
    ensures SumBy(PlatformOf, Splits(ps, s, outcome))
         == LegTotal(ps, s.platformFeeBps, Some(s.platformRecipient), outcome)
    ensures SumBy(OwnerOf, Splits(ps, s, outcome)) == LegTotal(ps, s.agentOwnerFeeBps, s.agentOwnerRecipient, outcome)
  {
    if ps != [] {
      var n := |ps| - 1;
      var front, p := ps[..n], ps[n];
      assert ps == front + [p];
      TotalsAreLegs(front, s, outcome);
      SettlementSnoc(front, p, s, outcome);
      LegTotalSnoc(front, p, s.platformFeeBps, Some(s.platformRecipient), outcome);
      LegTotalSnoc(front, p, s.agentOwnerFeeBps, s.agentOwnerRecipient, outcome);
      ChargeIsFloor(p, s.platformFeeBps, Some(s.platformRecipient));
      ChargeIsFloor(p, s.agentOwnerFeeBps, s.agentOwnerRecipient);
    }
  }

  /** A refund returns the stake; otherwise everybody is due the gross payout less the two fees
      on the profit, and is paid it unless it is nothing or less. */
  lemma EveryoneIsPaid(ps: seq<Participant>, s: FeeSnapshot, outcome: Outcome)
    requires ValidSnapshot(s)
    ensures Settlement(ps, s, outcome).payouts == Filter(IsPositive, Dues(ps, s, outcome))
    ensures |Dues(ps, s, outcome)| == |ps|
    ensures forall i | 0 <= i < |ps| ::
      Dues(ps, s, outcome)[i].address == ps[i].address
      && Dues(ps, s, outcome)[i].amountUnits
         == if outcome in {Draw, Unresolvable, Cancelled} then ps[i].stakeUnits
            else ps[i].grossPayoutUnits - FeeOn(ps[i], s.platformFeeBps, Some(s.platformRecipient))
                 - FeeOn(ps[i], s.agentOwnerFeeBps, s.agentOwnerRecipient)
  {
    forall i | 0 <= i < |ps|
      ensures Charge(Profit(ps[i].stakeUnits, ps[i].grossPayoutUnits), s.platformFeeBps, Some(s.platformRecipient))
           == FeeOn(ps[i], s.platformFeeBps, Some(s.platformRecipient))
      ensures Charge(Profit(ps[i].stakeUnits, ps[i].grossPayoutUnits), s.agentOwnerFeeBps, s.agentOwnerRecipient)
           == FeeOn(ps[i], s.agentOwnerFeeBps, s.agentOwnerRecipient)
    {
      ChargeIsFloor(ps[i], s.platformFeeBps, Some(s.platformRecipient));
      ChargeIsFloor(ps[i], s.agentOwnerFeeBps, s.agentOwnerRecipient);
    }
  }

  function KindOf(line: AccrualLine): FeeKind { line.kind }

  /** The one or two lines of a settlement, by kind and by recipient. */
  lemma {:induction false} SumOfLines<K>(key: AccrualLine -> K, s: FeeSnapshot, platform: nat, owner: nat, k: K)
    requires Missing(s.agentOwnerRecipient) ==> owner == 0
    ensures SumFor(key, AmountOf, Accruals(s, platform, owner), k)
      == (if key(AccrualLine(s.platformRecipient, platform, PlatformFee)) == k then platform else 0)
         + (if owner > 0 && key(AccrualLine(s.agentOwnerRecipient.value, owner, AgentOwnerFee)) == k then owner else 0)
  {
    if owner > 0 {
      var line := AccrualLine(s.agentOwnerRecipient.value, owner, AgentOwnerFee);
      assert Accruals(s, platform, owner) == Accruals(s, platform, 0) + [line];
      SumForSnoc(key, AmountOf, Accruals(s, platform, 0), line, k);
    }
  }

  /** Each line is made out to its own leg's recipient, and the lines of a leg hold its fees. */
  lemma LinesReachRecipients(ps: seq<Participant>, s: FeeSnapshot, outcome: Outcome)
    requires ValidSnapshot(s)
    ensures var lines := Settlement(ps, s, outcome).accruals;
      && (forall line | line in lines ::
            match line.kind
            case PlatformFee => line.recipient == s.platformRecipient
            case AgentOwnerFee => s.agentOwnerRecipient == Some(line.recipient))
      && SumFor(KindOf, AmountOf, lines, PlatformFee)
         == LegTotal(ps, s.platformFeeBps, Some(s.platformRecipient), outcome)
      && SumFor(KindOf, AmountOf, lines, AgentOwnerFee)
         == LegTotal(ps, s.agentOwnerFeeBps, s.agentOwnerRecipient, outcome)
  {
    FeesNonNegative(ps, s, outcome);
    OwnerFeeNeedsRecipient(ps, s, outcome);
    TotalsAreLegs(ps, s, outcome);
    var platform, owner := SumBy(PlatformOf, Splits(ps, s, outcome)), SumBy(OwnerOf, Splits(ps, s, outcome));
    SumOfLines(KindOf, s, platform, owner, PlatformFee);
    SumOfLines(KindOf, s, platform, owner, AgentOwnerFee);
  }

  function DueTo(recipient: Option<JsString>, who: JsString, amount: int): int {
    if recipient.Some? && Trim(recipient.value) == who then amount else 0
  }

  /** Merged by recipient, everybody has the legs that are due to them and nothing else. */
  lemma MergedLegs(ps: seq<Participant>, s: FeeSnapshot, outcome: Outcome, who: JsString)
    requires ValidSnapshot(s)
    ensures SumFor(RecipientOf, AmountOf, Settlement(ps, s, outcome).accruals, who)
         == DueTo(Some(s.platformRecipient), who, LegTotal(ps, s.platformFeeBps, Some(s.platformRecipient), outcome))
            + DueTo(s.agentOwnerRecipient, who, LegTotal(ps, s.agentOwnerFeeBps, s.agentOwnerRecipient, outcome))
  {
    FeesNonNegative(ps, s, outcome);
    OwnerFeeNeedsRecipient(ps, s, outcome);
    TotalsAreLegs(ps, s, outcome);
    var platform, owner := SumBy(PlatformOf, Splits(ps, s, outcome)), SumBy(OwnerOf, Splits(ps, s, outcome));
    SumOfLines(RecipientOf, s, platform, owner, who);
  }

  lemma {:induction false} FeesNonNegative(ps: seq<Participant>, s: FeeSnapshot, outcome: Outcome)
    requires ValidSnapshot(s)
    ensures SumBy(PlatformOf, Splits(ps, s, outcome)) >= 0 && SumBy(OwnerOf, Splits(ps, s, outcome)) >= 0
  {
    if ps != [] {
      var n := |ps| - 1;
      assert ps == ps[..n] + [ps[n]];
      FeesNonNegative(ps[..n], s, outcome);
      SettlementSnoc(ps[..n], ps[n], s, outcome);
      FeesWithinProfit(ps[n].stakeUnits, ps[n].grossPayoutUnits, s, outcome);
    }
  }

  lemma {:induction false} OwnerFeeNeedsRecipient(ps: seq<Participant>, s: FeeSnapshot, outcome: Outcome)
    ensures Missing(s.agentOwnerRecipient) ==> SumBy(OwnerOf, Splits(ps, s, outcome)) == 0
  {
    if ps != [] {
      var n := |ps| - 1;
      assert ps == ps[..n] + [ps[n]];
      OwnerFeeNeedsRecipient(ps[..n], s, outcome);
      SettlementSnoc(ps[..n], ps[n], s, outcome);
    }
  }

  /** A snapshot of a valid policy charges exactly the policy's rates. */
  lemma ValidPolicyGivesValidSnapshot(policy: FeePolicy, agentId: Option<JsString>, at: int)
    requires ValidPolicy(policy)
    ensures var s := SnapshotFeePolicy(policy, agentId, at);
      && ValidSnapshot(s)
      && s.platformFeeBps as real == policy.platformFeeBps && s.agentOwnerFeeBps as real == policy.agentOwnerFeeBps
      && s.platformRecipient == Trim(policy.platformRecipient)
      && s.agentOwnerRecipient == (match policy.agentOwnerRecipient
                                   case None => None
                                   case Some(owner) => if owner == [] then None else Some(Trim(owner)))
  {
    var p, o := policy.platformFeeBps, policy.agentOwnerFeeBps;
    assert Trunc(p) as real == p && Trunc(o) as real == o;
    assert (Trunc(p) + Trunc(o)) as real <= 1000.0;
  }

  ghost predicate IsCharged(bps: int, recipient: Option<JsString>) {
    exists profit: nat :: Charge(profit, bps, recipient) > 0
  }

  lemma ChargedIff(bps: int, recipient: Option<JsString>)
    requires bps >= 0
    ensures IsCharged(bps, recipient) <==> bps > 0 && HasRecipient(recipient)
  {
    if bps > 0 && HasRecipient(recipient) { assert Charge(BPS_DIVISOR, bps, recipient) == bps; }
  }

  lemma TrimmedRecipient(recipient: JsString)
    ensures HasRecipient(Some(Trim(recipient))) <==> HasRecipient(Some(recipient))
  {
    TrimTwice(recipient);
    assert LowerAscii([]) == [];
  }

  /** Validation asks only for a non-empty recipient: a validated rate is charged exactly when
      it is positive and its recipient is neither blank nor the zero address. */
  lemma ValidatedRateChargedIff(policy: FeePolicy, agentId: Option<JsString>, at: int)
    requires ValidPolicy(policy)
    ensures var s := SnapshotFeePolicy(policy, agentId, at);
      && (IsCharged(s.platformFeeBps, Some(s.platformRecipient))
          <==> policy.platformFeeBps > 0.0 && Payable(Some(policy.platformRecipient)))
      && (IsCharged(s.agentOwnerFeeBps, s.agentOwnerRecipient)
          <==> policy.agentOwnerFeeBps > 0.0 && Payable(policy.agentOwnerRecipient))
  {
    PayableIff(Some(policy.platformRecipient));
    PayableIff(policy.agentOwnerRecipient);
    var s := SnapshotFeePolicy(policy, agentId, at);
    ValidPolicyGivesValidSnapshot(policy, agentId, at);
    ChargedIff(s.platformFeeBps, Some(s.platformRecipient));
    ChargedIff(s.agentOwnerFeeBps, s.agentOwnerRecipient);
    TrimmedRecipient(policy.platformRecipient);
    if !Missing(policy.agentOwnerRecipient) { TrimmedRecipient(policy.agentOwnerRecipient.value); }
  }

  const BLANK_POLICY := FeePolicy(100.0, 0.0, Ascii(" "), None)

  /** A policy that passes validation with a rate nobody is ever charged. */
  lemma BlankRecipientIsNeverCharged(agentId: Option<JsString>, at: int)
    ensures ValidPolicy(BLANK_POLICY) && BLANK_POLICY.platformFeeBps > 0.0
    ensures var s := SnapshotFeePolicy(BLANK_POLICY, agentId, at);
      !IsCharged(s.platformFeeBps, Some(s.platformRecipient))
  {
    assert TrimStart([0x20]) == [] && Ascii(" ") == [0x20];
    ValidatedRateChargedIff(BLANK_POLICY, agentId, at);
  }

  /** A policy that passes validation settles any market safely: fees leave no dust, the
      accrual lines hold exactly the fees, and the principal invariant holds exactly when the
      last payment to each winner's address covers the winner, as it does for distinct ones. */
  lemma ValidatedPolicySettlesSafely(
    policy: FeePolicy, agentId: Option<JsString>, at: int, ps: seq<Participant>, outcome: Outcome)
    requires ValidPolicy(policy) && NonNegative(ps)
    ensures var s := SnapshotFeePolicy(policy, agentId, at);
      var r := Settlement(ps, s, outcome);
      && r.dustUnits == SumBy(StakeOf, ps) - GrossDue(ps, outcome)
      && SumBy(AmountOf, r.accruals) == r.totalPlatformFeeUnits + r.totalAgentOwnerFeeUnits
      && (NoWinnerLosesPrincipal(ps, r) <==> LastPaymentsCover(ps, Dues(ps, s, outcome)))
      && (DistinctAddresses(ps) ==> NoWinnerLosesPrincipal(ps, r))
  {
    var s := SnapshotFeePolicy(policy, agentId, at);
    ValidPolicyGivesValidSnapshot(policy, agentId, at);
    PrincipalIff(ps, s, outcome);
    if DistinctAddresses(ps) { WinnersKeepPrincipal(ps, s, outcome); }
    DustExact(ps, s, outcome);
    AccrualsHoldTheFees(ps, s, outcome);
  }

  const FIRST_TWIN := Participant(Ascii("a"), 10, 30)
  const SECOND_TWIN := Participant(Ascii("a"), 1, 2)

  /** Two winners at one address: in one order a later, smaller payout hides the larger one
      and the invariant as computed fails; in the other it holds. */
  lemma RepeatedAddressHidesPayout(s: FeeSnapshot)
    requires ValidSnapshot(s)
    ensures !NoWinnerLosesPrincipal([FIRST_TWIN, SECOND_TWIN], Settlement([FIRST_TWIN, SECOND_TWIN], s, ChallengersWin))
    ensures NoWinnerLosesPrincipal([SECOND_TWIN, FIRST_TWIN], Settlement([SECOND_TWIN, FIRST_TWIN], s, ChallengersWin))
  {
    var ps, qs := [FIRST_TWIN, SECOND_TWIN], [SECOND_TWIN, FIRST_TWIN];
    FeesWithinProfit(10, 30, s, ChallengersWin);
    FeesWithinProfit(1, 2, s, ChallengersWin);
    PrincipalIff(ps, s, ChallengersWin);
    PrincipalIff(qs, s, ChallengersWin);
    assert LastPaid(Dues(ps, s, ChallengersWin), Trim(ps[0].address)) <= 2;
    assert LastPaid(Dues(qs, s, ChallengersWin), Trim(qs[1].address)) >= 10;
  }

  // ----- The attributed split -----

  datatype Schedule = Schedule(platformBps: nat, agentOwnerBps: nat, basketCreatorBps: nat)
  datatype Leg = Platform | AgentOwner | BasketCreator

  datatype AttributedFeeSplit = AttributedFeeSplit(
    split: FeeSplit, basketCreatorFeeUnits: int, waived: seq<Leg>, totalFeeUnits: int)

  predicate SameParty(recipient: Option<JsString>, earner: JsString) {
    !Missing(recipient) && Trim(recipient.value) == Trim(earner)
  }

  predicate Waives(recipient: Option<JsString>, earner: JsString) {
    HasRecipient(recipient) && SameParty(recipient, earner)
  }

  /** A leg is charged when it has a recipient other than the earner. */
  predicate Charges(recipient: Option<JsString>, earner: JsString) {
    HasRecipient(recipient) && !SameParty(recipient, earner)
  }

  function LegFee(profit: int, bps: nat, recipient: Option<JsString>, earner: JsString): int {
    if Charges(recipient, earner) then TruncDiv(profit * bps, BPS_DIVISOR) else 0
  }

  function SplitAttributedFees(
    principal: int, gross: int, outcome: Outcome, earner: JsString, platform: Option<JsString>,
    agentOwner: Option<JsString>, basketCreator: Option<JsString>, schedule: Schedule): AttributedFeeSplit
  {
    if IsRefund(outcome) then AttributedFeeSplit(FeeSplit(principal, 0, 0, 0, 0, principal), 0, [], 0)
    else
      var profit := Profit(principal, gross);
      var p := LegFee(profit, schedule.platformBps, platform, earner);
      var a := LegFee(profit, schedule.agentOwnerBps, agentOwner, earner);
      var b := LegFee(profit, schedule.basketCreatorBps, basketCreator, earner);
      var waived := (if Waives(platform, earner) then [Platform] else [])
        + (if Waives(agentOwner, earner) then [AgentOwner] else [])
        + (if Waives(basketCreator, earner) then [BasketCreator] else []);
      AttributedFeeSplit(
        FeeSplit(principal, profit, p, a, profit - (p + a + b), gross - (p + a + b)), b, waived, p + a + b)
  }

  /** Without a basket creator, and for an earner who is neither recipient, the attributed
      split is the on-chain one. */
  lemma SplittersAgree(principal: int, gross: int, outcome: Outcome, earner: JsString, s: FeeSnapshot, basketBps: nat)
    requires s.platformFeeBps >= 0 && s.agentOwnerFeeBps >= 0
    requires Trim(s.platformRecipient) != Trim(earner)
    requires s.agentOwnerRecipient.Some? ==> Trim(s.agentOwnerRecipient.value) != Trim(earner)
    ensures var split := SplitFees(principal, gross, s, outcome);
      SplitAttributedFees(principal, gross, outcome, earner, Some(s.platformRecipient), s.agentOwnerRecipient, None,
        Schedule(s.platformFeeBps, s.agentOwnerFeeBps, basketBps))
      == AttributedFeeSplit(split, 0, [], split.platformFeeUnits + split.agentOwnerFeeUnits)
  {
  }

  function ChargedBps(bps: nat, recipient: Option<JsString>, earner: JsString): nat {
    if Charges(recipient, earner) then bps else 0
  }

  function ChargedLeg(recipient: Option<JsString>, earner: JsString): nat {
    if Charges(recipient, earner) then 1 else 0
  }

  lemma LegFeeIsFloor(profit: nat, bps: nat, recipient: Option<JsString>, earner: JsString)
    ensures LegFee(profit, bps, recipient, earner) == profit * ChargedBps(bps, recipient, earner) / BPS_DIVISOR
  {
    MulNonNegative(profit, bps);
  }

  /** Payout and fees make up the gross, and the charged legs fall short of the single floor
      at their summed rate by at most one unit less than their number. */
  lemma AttributedLegs(
    principal: int, gross: int, outcome: Outcome, earner: JsString, platform: Option<JsString>,
    agentOwner: Option<JsString>, basketCreator: Option<JsString>, schedule: Schedule)
    requires !IsRefund(outcome)
    ensures var f :=
        SplitAttributedFees(principal, gross, outcome, earner, platform, agentOwner, basketCreator, schedule);
      var rate := ChargedBps(schedule.platformBps, platform, earner)
        + ChargedBps(schedule.agentOwnerBps, agentOwner, earner)
        + ChargedBps(schedule.basketCreatorBps, basketCreator, earner);
      var legs := ChargedLeg(platform, earner) + ChargedLeg(agentOwner, earner) + ChargedLeg(basketCreator, earner);
      var single := Profit(principal, gross) * rate / BPS_DIVISOR;
      && f.split.payoutUnits + f.totalFeeUnits == gross
      && f.totalFeeUnits <= single <= f.totalFeeUnits + (if legs == 0 then 0 else legs - 1)
  {
    var profit := Profit(principal, gross);
    var p, a, b := ChargedBps(schedule.platformBps, platform, earner),
      ChargedBps(schedule.agentOwnerBps, agentOwner, earner),
      ChargedBps(schedule.basketCreatorBps, basketCreator, earner);
    LegFeeIsFloor(profit, schedule.platformBps, platform, earner);
    LegFeeIsFloor(profit, schedule.agentOwnerBps, agentOwner, earner);
    LegFeeIsFloor(profit, schedule.basketCreatorBps, basketCreator, earner);
    LegsWithinSum(profit, p, a);
    LegsWithinSum(profit, p + a, b);
    LegsWithinSum(profit, p, b);
    LegsWithinSum(profit, a, b);
  }

  predicate IsSelf(recipient: Option<JsString>, earner: JsString) {
    recipient.Some? && Trim(recipient.value) == Trim(earner)
  }

  /** Each leg is the fee at its own rate for its own recipient, and waived exactly when that is
      the earner; a refund has no legs. */
  lemma NobodyPaysThemselves(
    principal: int, gross: int, outcome: Outcome, earner: JsString, platform: Option<JsString>,
    agentOwner: Option<JsString>, basketCreator: Option<JsString>, schedule: Schedule)
    ensures var f :=
        SplitAttributedFees(principal, gross, outcome, earner, platform, agentOwner, basketCreator, schedule);
      var won := Participant(earner, principal, gross);
      if outcome in {Draw, Unresolvable, Cancelled} then
        f.waived == [] && f.totalFeeUnits == 0 && f.split.payoutUnits == principal
      else
        && f.split.platformFeeUnits
           == (if IsSelf(platform, earner) then 0 else FeeOn(won, schedule.platformBps, platform))
        && f.split.agentOwnerFeeUnits
           == (if IsSelf(agentOwner, earner) then 0 else FeeOn(won, schedule.agentOwnerBps, agentOwner))
        && f.basketCreatorFeeUnits
           == (if IsSelf(basketCreator, earner) then 0 else FeeOn(won, schedule.basketCreatorBps, basketCreator))
        && (Platform in f.waived <==> Payable(platform) && IsSelf(platform, earner))
        && (AgentOwner in f.waived <==> Payable(agentOwner) && IsSelf(agentOwner, earner))
        && (BasketCreator in f.waived <==> Payable(basketCreator) && IsSelf(basketCreator, earner))
  {
    var won := Participant(earner, principal, gross);
    PayableIff(platform);
    PayableIff(agentOwner);
    PayableIff(basketCreator);
    ChargeIsFloor(won, schedule.platformBps, platform);
    ChargeIsFloor(won, schedule.agentOwnerBps, agentOwner);
    ChargeIsFloor(won, schedule.basketCreatorBps, basketCreator);
  }
}
