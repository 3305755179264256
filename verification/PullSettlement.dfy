/** The escrow of one market on chain: stakes come in, a verdict seeds what challengers are
    owed, and each challenger pulls their own settlement, the last one taking what is left
    (contracts-soroban/mimir-market). */
module PullSettlement {
  import opened Arithmetic
  import opened Wrappers
  import opened JsStrings
  import opened Sequences
  import Fees

  type U32 = n: int | 0 <= n <= 0xFFFF_FFFF

  const MAX_I128: int := 0x7FFF_FFFF_FFFF_FFFF_FFFF_FFFF_FFFF_FFFF
  const MAX_I64: int := 0x7FFF_FFFF_FFFF_FFFF
  const BPS_DIVISOR := Fees.BPS_DIVISOR
  const MAX_TOTAL_FEE_BPS := Fees.MAX_TOTAL_FEE_BPS
  const MIN_STAKE: int := 20_000_000
  const MAX_CHALLENGERS: nat := 100

  datatype Error = Overflow | ClaimNotOpen | Timelocked | SelfChallenge | ClaimFull | StakeTooSmall
    | DuelNeedsEqualStake | InsufficientCreatorLiquidity | ConservationViolation | InvalidVerdict | ClaimNotActive
    | ClaimNotResolved | ChallengersDidNotWin | NotAChallenger | AlreadyClaimedPayout | PayoutExceedsEscrow
    | ClaimNotFound | UnsupportedToken | FeeCapExceeded | FeeNeedsRecipient | TransferFailed

  datatype Odds = Pool | Fixed(payoutBps: U32)
  datatype State = Open | Active | Resolved | Cancelled
  datatype Winner = Undecided | Creator | Challengers | Draw | Unresolvable

  datatype FeeTerms = FeeTerms(platformBps: nat, ownerBps: nat, platform: Option<JsString>, owner: Option<JsString>)
  datatype Entry = Entry(address: JsString, stake: nat, claimed: bool)

  /** `record` stands for what a verdict carries besides the winner. */
  datatype Claim = Claim(
    creator: JsString, creatorStake: nat, totalStake: nat, reserved: nat, odds: Odds, maxChallengers: nat,
    fees: FeeTerms, state: State, winner: Winner, record: JsString, challengerCount: nat, remaining: int, claims: nat,
    roster: seq<Entry>)

  datatype Payment = Payment(address: JsString, stake: nat, gross: int, owed: int)

  /** The claim, what was paid out of its escrow, and what the creator's own win was charged. */
  datatype Market = Market(claim: Claim, payments: seq<Payment>, creatorPaid: int, creatorFees: int)

  function Checked(n: int): Result<int, Error> { if -MAX_I128 - 1 <= n <= MAX_I128 then Ok(n) else Err(Overflow) }

  // ----- Payout arithmetic -----

  /** `amount * bps / BPS_DIVISOR`. */
  function BpsOf(amount: nat, bps: nat): Result<int, Error> {
    if Checked(amount * bps).Err? then Err(Overflow) else Ok(amount * bps / BPS_DIVISOR)
  }

  function PoolShare(stake: nat, creatorStake: nat, totalStake: nat): Result<int, Error> {
    if totalStake == 0 then Ok(0)
    else if Checked(stake * creatorStake).Err? then Err(Overflow)
    else Ok(stake * creatorStake / totalStake)
  }

  function LegFee(profit: nat, bps: nat, recipient: Option<JsString>): Result<int, Error> {
    if recipient.None? then Ok(0) else BpsOf(profit, bps)
  }

  /** `quote_fees`: the amount owed after fees on profit, and the fees. */
  function QuoteFees(principal: nat, gross: int, fees: FeeTerms): Result<(int, int), Error> {
    if gross <= principal then Ok((gross, 0))
    else
      var profit := gross - principal;
      var platform, owner := LegFee(profit, fees.platformBps, fees.platform), LegFee(profit, fees.ownerBps, fees.owner);
      if platform.Err? then Err(platform.error)
      else if owner.Err? then Err(owner.error)
      else Ok((gross - (platform.value + owner.value), platform.value + owner.value))
  }

  // ----- Challenging -----

  function IndexOf(roster: seq<Entry>, who: JsString): (i: Option<nat>)
    ensures i.Some? ==> i.value < |roster| && roster[i.value].address == who
    ensures i.None? ==> forall j | 0 <= j < |roster| :: roster[j].address != who
  {
    if roster == [] then None
    else if roster[0].address == who then Some(0)
    else
      match IndexOf(roster[1..], who)
      case None => None
      case Some(i) => Some(i + 1)
  }

  predicate Conserved(c: Claim) {
    && c.remaining >= 0 && c.reserved <= c.creatorStake
    && (c.state.Resolved? ==> c.remaining <= c.creatorStake + c.totalStake)
  }

  function Profit(stake: int, gross: int): nat { if gross > stake then gross - stake else 0 }

  /** The creator's liability after one more stake under fixed odds. */
  function Reserve(c: Claim, stake: nat): (r: Result<int, Error>)
    ensures r.Ok? ==> r.value >= c.reserved
  {
    match c.odds
    case Pool => Ok(c.reserved)
    case Fixed(bps) =>
      match BpsOf(stake, bps)
      case Err(e) => Err(e)
      case Ok(gross) =>
        if c.creatorStake - c.reserved < Profit(stake, gross) then Err(InsufficientCreatorLiquidity)
        else Checked(c.reserved + Profit(stake, gross))
  }

  /** The claim with one more challenger. */
  function Joined(c: Claim, e: Entry, reserved: nat): Claim {
    c.(reserved := reserved, totalStake := c.totalStake + e.stake, challengerCount := c.challengerCount + 1,
       roster := c.roster + [e], state := Active)
  }

  function Challenge(c: Claim, who: JsString, stake: int): Result<Claim, Error> {
    var room := if c.maxChallengers < MAX_CHALLENGERS then c.maxChallengers else MAX_CHALLENGERS;
    if !c.state.Open? && !c.state.Active? then Err(ClaimNotOpen)
    else if who == c.creator then Err(SelfChallenge)
    else if IndexOf(c.roster, who).Some? then Ok(c)
    else if c.challengerCount >= room || |c.roster| >= room then Err(ClaimFull)
    else if stake < MIN_STAKE then Err(StakeTooSmall)
    else if c.maxChallengers == 1 && stake != c.creatorStake then Err(DuelNeedsEqualStake)
    else
      match Reserve(c, stake)
      case Err(e) => Err(e)
      case Ok(reserved) =>
        if Checked(c.totalStake + stake).Err? then Err(Overflow)
        else
          var next := Joined(c, Entry(who, stake, false), reserved);
          if Conserved(next) then Ok(next) else Err(ConservationViolation)
  }

  // ----- Cancelling -----

  /** The claim cancelled and the creator refunded. */
  function Refunded(m: Market): Market {
    m.(claim := m.claim.(state := Cancelled), creatorPaid := m.claim.creatorStake, creatorFees := 0)
  }

  /** `cancel_claim`. */
  function Cancel(m: Market): Result<Market, Error> {
    var c := m.claim;
    if c.state.Cancelled? then Ok(m)
    else if !c.state.Open? || c.challengerCount > 0 || c.totalStake > 0 then Err(ClaimNotOpen)
    else if !Conserved(c) then Err(ConservationViolation)
    else Ok(Refunded(m.(claim := c.(remaining := 0))))
  }

  /** `transition_deadline`: an unanswered claim is cancelled once its deadline has passed. */
  function Expire(m: Market, passed: bool): Result<Market, Error> {
    if m.claim.state.Active? then Ok(m)
    else if !m.claim.state.Open? then Err(ClaimNotOpen)
    else if !passed then Err(Timelocked)
    else Ok(Refunded(m))
  }

  // ----- The verdict -----

  function Inflow(c: Claim): nat { c.creatorStake + c.totalStake }

  /** What the verdict leaves to challengers. */
  function Seed(c: Claim, winner: Winner): nat {
    if winner.Creator? then 0
    else if winner.Challengers? && c.odds.Fixed? then c.totalStake + c.reserved
    else if winner.Challengers? then Inflow(c)
    else c.totalStake
  }

  /** What the creator is paid at once, and the fees on it. */
  function CreatorLeg(c: Claim, winner: Winner): Result<(int, int), Error> {
    if winner.Creator? then QuoteFees(c.creatorStake, Inflow(c), c.fees)
    else if winner.Challengers? && c.odds.Fixed? then
      Ok((if c.creatorStake > c.reserved then c.creatorStake - c.reserved else 0, 0))
    else if winner.Challengers? then Ok((0, 0))
    else Ok((c.creatorStake, 0))
  }

  function Resolve(m: Market, winner: Winner, record: JsString): Result<Market, Error> {
    var c := m.claim;
    if winner.Undecided? then Err(InvalidVerdict)
    else if c.state.Resolved? && winner == c.winner && record == c.record then Ok(m)
    else if !c.state.Active? then Err(ClaimNotActive)
    else if Checked(Inflow(c)).Err? then Err(Overflow)
    else
      match CreatorLeg(c, winner)
      case Err(e) => Err(e)
      case Ok((paid, taken)) =>
        if Checked(paid + taken + Seed(c, winner)).Err? then Err(Overflow)
        else if paid + taken + Seed(c, winner) > Inflow(c) then Err(PayoutExceedsEscrow)
        else
          Ok(Market(c.(state := Resolved, winner := winner, record := record, remaining := Seed(c, winner)),
                    m.payments, paid, taken))
  }

  // ----- Pulling a settlement -----

  /** What decides a challenger's gross payout; settlement does not change it. */
  datatype Terms = Terms(winner: Winner, odds: Odds, creatorStake: nat, totalStake: nat)

  function GrossFor(t: Terms, stake: nat): Result<int, Error> {
    if !t.winner.Challengers? then Ok(stake)
    else
      match t.odds
      case Fixed(bps) => BpsOf(stake, bps)
      case Pool =>
        match PoolShare(stake, t.creatorStake, t.totalStake)
        case Err(e) => Err(e)
        case Ok(share) => Checked(stake + share)
  }

  function TermsOf(c: Claim): Terms { Terms(c.winner, c.odds, c.creatorStake, c.totalStake) }

  /** `claim_challenger_payout`. The last claimant takes what remains. */
  function Pull(m: Market, who: JsString): Result<Market, Error> {
    var c := m.claim;
    var index := IndexOf(c.roster, who);
    if !c.state.Resolved? then Err(ClaimNotResolved)
    else if c.winner.Creator? then Err(ChallengersDidNotWin)
    else if index.None? then Err(NotAChallenger)
    else if c.roster[index.value].claimed then Err(AlreadyClaimedPayout)
    else
      var entry := c.roster[index.value];
      var gross := if c.claims + 1 == c.challengerCount then Ok(c.remaining) else GrossFor(TermsOf(c), entry.stake);
      if gross.Err? then Err(gross.error)
      else if gross.value > c.remaining then Err(PayoutExceedsEscrow)
      else
        match QuoteFees(entry.stake, gross.value, c.fees)
        case Err(e) => Err(e)
        case Ok((owed, _)) =>
          var next := c.(roster := c.roster[index.value := entry.(claimed := true)],
                         remaining := c.remaining - gross.value, claims := c.claims + 1);
          if Conserved(next) then
            Ok(m.(claim := next, payments := m.payments + [Payment(who, entry.stake, gross.value, owed)]))
          else Err(ConservationViolation)
  }

  // ----- The contract's storage -----

  class Escrow {
    var market: Market

    constructor (m: Market)
      ensures market == m
    {
      market := m;
    }

    /** `find_challenger`. */
    static method FindChallenger(roster: seq<Entry>, who: JsString) returns (found: Option<nat>)
      ensures found == IndexOf(roster, who)
    {
      for i := 0 to |roster|
        invariant forall j | 0 <= j < i :: roster[j].address != who
      {
        if roster[i].address == who {
          FirstIndex(roster, who, i);
          return Some(i);
        }
      }
      found := None;
    }

    method ChallengeClaim(who: JsString, stake: int) returns (r: Result<(), Error>)
      modifies this
      ensures var after := Challenge(old(market).claim, who, stake);
        if after.Ok? then r == Ok(()) && market == old(market).(claim := after.value)
        else r == Err(after.error) && market == old(market)
    {
      var c := market.claim;
      if !c.state.Open? && !c.state.Active? {
        return Err(ClaimNotOpen);
      }
      if who == c.creator {
        return Err(SelfChallenge);
      }
      var existing := FindChallenger(c.roster, who);
      if existing.Some? {
        return Ok(());
      }
      var room := if c.maxChallengers < MAX_CHALLENGERS then c.maxChallengers else MAX_CHALLENGERS;
      if c.challengerCount >= room || |c.roster| >= room {
        return Err(ClaimFull);
      }
      if stake < MIN_STAKE {
        return Err(StakeTooSmall);
      }
      if c.maxChallengers == 1 && stake != c.creatorStake {
        return Err(DuelNeedsEqualStake);
      }
      var reserved: int := c.reserved;
      if c.odds.Fixed? {
        var gross := BpsOf(stake, c.odds.payoutBps);
        if gross.Err? {
          return Err(gross.error);
        }
        var profit := Profit(stake, gross.value);
        if c.creatorStake - c.reserved < profit {
          return Err(InsufficientCreatorLiquidity);
        }
        reserved := reserved + profit;
        if Checked(reserved).Err? {
          return Err(Overflow);
        }
      }
      if Checked(c.totalStake + stake).Err? {
        return Err(Overflow);
      }
      var next := c.(reserved := reserved, totalStake := c.totalStake + stake, challengerCount := c.challengerCount + 1,
                     roster := c.roster + [Entry(who, stake, false)], state := Active);
      if !Conserved(next) {
        return Err(ConservationViolation);
      }
      market := market.(claim := next);
      r := Ok(());
    }

    method CancelClaim() returns (r: Result<(), Error>)
      modifies this
      ensures var after := Cancel(old(market));
        if after.Ok? then r == Ok(()) && market == after.value else r == Err(after.error) && market == old(market)
    {
      var c := market.claim;
      if c.state.Cancelled? {
        return Ok(());
      }
      if !c.state.Open? {
        return Err(ClaimNotOpen);
      }
      if c.challengerCount > 0 || c.totalStake > 0 {
        return Err(ClaimNotOpen);
      }
      if !Conserved(c) {
        return Err(ConservationViolation);
      }
      market := Market(c.(state := Cancelled, remaining := 0), market.payments, c.creatorStake, 0);
      r := Ok(());
    }

    /** `passed` says whether the ledger's clock has reached the deadline. */
    method TransitionDeadline(passed: bool) returns (r: Result<(), Error>)
      modifies this
      ensures var after := Expire(old(market), passed);
        if after.Ok? then r == Ok(()) && market == after.value else r == Err(after.error) && market == old(market)
    {
      var c := market.claim;
      if c.state.Active? {
        return Ok(());
      }
      if !c.state.Open? {
        return Err(ClaimNotOpen);
      }
      if !passed {
        return Err(Timelocked);
      }
      market := Market(c.(state := Cancelled), market.payments, c.creatorStake, 0);
      r := Ok(());
    }

    method ResolveClaim(winner: Winner, record: JsString) returns (r: Result<(), Error>)
      modifies this
      ensures var after := Resolve(old(market), winner, record);
        if after.Ok? then r == Ok(()) && market == after.value else r == Err(after.error) && market == old(market)
    {
      var c := market.claim;
      if winner.Undecided? {
        return Err(InvalidVerdict);
      }
      if c.state.Resolved? && winner == c.winner && record == c.record {
        return Ok(());
      }
      if !c.state.Active? {
        return Err(ClaimNotActive);
      }
      var inflow := c.creatorStake + c.totalStake;
      if Checked(inflow).Err? {
        return Err(Overflow);
      }
      var paid, taken, remaining := 0, 0, 0;
      if winner.Creator? {
        var quote := QuoteFees(c.creatorStake, inflow, c.fees);
        if quote.Err? {
          return Err(quote.error);
        }
        paid, taken := quote.value.0, quote.value.1;
      } else if winner.Challengers? {
        if c.odds.Fixed? {
          var refund := c.creatorStake - c.reserved;
          if refund > 0 { paid := refund; }
          remaining := c.totalStake + c.reserved;
        } else {
          remaining := inflow;
        }
      } else {
        paid := c.creatorStake;
        remaining := c.totalStake;
      }
      if Checked(paid + taken + remaining).Err? {
        return Err(Overflow);
      }
      if paid + taken + remaining > inflow {
        return Err(PayoutExceedsEscrow);
      }
      market := Market(c.(state := Resolved, winner := winner, record := record, remaining := remaining),
                       market.payments, paid, taken);
      r := Ok(());
    }

    /** Refuses, with the escrow as it was, or draws it down by the gross and pays what is owed. */
    method ClaimChallengerPayout(who: JsString) returns (owed: Result<int, Error>)
      modifies this
      ensures var after := Pull(old(market), who);
        if after.Ok? then market == after.value && owed == Ok(after.value.payments[|old(market).payments|].owed)
        else owed == Err(after.error) && market == old(market)
    {
      var c := market.claim;
      if !c.state.Resolved? {
        return Err(ClaimNotResolved);
      }
      if c.winner.Creator? {
        return Err(ChallengersDidNotWin);
      }
      var index := FindChallenger(c.roster, who);
      if index.None? {
        return Err(NotAChallenger);
      }
      var entry := c.roster[index.value];
      if entry.claimed {
        return Err(AlreadyClaimedPayout);
      }
      var gross := GrossFor(TermsOf(c), entry.stake);
      if c.claims + 1 == c.challengerCount { gross := Ok(c.remaining); }
      if gross.Err? {
        return Err(gross.error);
      }
      if gross.value > c.remaining {
        return Err(PayoutExceedsEscrow);
      }
      var quote := QuoteFees(entry.stake, gross.value, c.fees);
      if quote.Err? {
        return Err(quote.error);
      }
      var next := c.(roster := c.roster[index.value := entry.(claimed := true)],
                     remaining := c.remaining - gross.value, claims := c.claims + 1);
      if !Conserved(next) {
        return Err(ConservationViolation);
      }
      owed := Ok(quote.value.0);
      var payment := Payment(who, entry.stake, gross.value, quote.value.0);
      market := market.(claim := next, payments := market.payments + [payment]);
    }
  }

  lemma {:induction false} FirstIndex(roster: seq<Entry>, who: JsString, i: nat)
    requires i < |roster| && roster[i].address == who && forall j | 0 <= j < i :: roster[j].address != who
    ensures IndexOf(roster, who) == Some(i)
  {
    if i > 0 { FirstIndex(roster[1..], who, i - 1); }
  }

  // ----- What each challenger is due -----

  /** The gross payout by formula. */
  function Formula(t: Terms, stake: nat): nat {
    if !t.winner.Challengers? then stake
    else
      match t.odds
      case Fixed(bps) => stake * bps / BPS_DIVISOR
      case Pool => stake + if t.totalStake == 0 then 0 else stake * t.creatorStake / t.totalStake
  }

  function Due(t: Terms, roster: seq<Entry>): nat {
    if roster == [] then 0 else Formula(t, roster[0].stake) + Due(t, roster[1..])
  }

  /** What is due to those who have not claimed. */
  function Owing(t: Terms, roster: seq<Entry>): nat {
    if roster == [] then 0 else (if roster[0].claimed then 0 else Formula(t, roster[0].stake)) + Owing(t, roster[1..])
  }

  function ClaimedCount(roster: seq<Entry>): nat {
    if roster == [] then 0 else (if roster[0].claimed then 1 else 0) + ClaimedCount(roster[1..])
  }

  function Stakes(roster: seq<Entry>): nat { if roster == [] then 0 else roster[0].stake + Stakes(roster[1..]) }

  function Profits(bps: nat, roster: seq<Entry>): nat {
    if roster == [] then 0 else Profit(roster[0].stake, roster[0].stake * bps / BPS_DIVISOR) + Profits(bps, roster[1..])
  }

  /** What truncation leaves over; the last claimant takes it. */
  function Spare(c: Claim): int { Seed(c, c.winner) - Due(TermsOf(c), c.roster) }

  lemma {:induction false} ClaimOne(t: Terms, roster: seq<Entry>, i: nat)
    requires i < |roster| && !roster[i].claimed
    ensures var after := roster[i := roster[i].(claimed := true)];
      && Owing(t, after) == Owing(t, roster) - Formula(t, roster[i].stake)
      && ClaimedCount(after) == ClaimedCount(roster) + 1
      && Due(t, after) == Due(t, roster) && Stakes(after) == Stakes(roster)
  {
    var after := roster[i := roster[i].(claimed := true)];
    if i > 0 {
      assert after[1..] == roster[1..][i - 1 := roster[i].(claimed := true)];
      ClaimOne(t, roster[1..], i - 1);
    }
  }

  lemma {:induction false} ProfitsUnchanged(bps: nat, roster: seq<Entry>, i: nat)
    requires i < |roster|
    ensures Profits(bps, roster[i := roster[i].(claimed := true)]) == Profits(bps, roster)
  {
    if i > 0 {
      assert roster[i := roster[i].(claimed := true)][1..] == roster[1..][i - 1 := roster[i].(claimed := true)];
      ProfitsUnchanged(bps, roster[1..], i - 1);
    }
  }

  lemma {:induction false} CountBounds(t: Terms, roster: seq<Entry>)
    ensures ClaimedCount(roster) <= |roster|
    ensures ClaimedCount(roster) == |roster| ==> Owing(t, roster) == 0
    ensures ClaimedCount(roster) == 0 <==> forall e | e in roster :: !e.claimed
    ensures ClaimedCount(roster) == |roster| <==> forall e | e in roster :: e.claimed
    ensures (forall e | e in roster :: !e.claimed) ==> Owing(t, roster) == Due(t, roster)
  {
    if roster != [] {
      CountBounds(t, roster[1..]);
      assert roster == [roster[0]] + roster[1..];
    }
  }

  lemma {:induction false} Appended(bps: nat, roster: seq<Entry>, e: Entry)
    ensures Stakes(roster + [e]) == Stakes(roster) + e.stake
    ensures Profits(bps, roster + [e]) == Profits(bps, roster) + Profit(e.stake, e.stake * bps / BPS_DIVISOR)
  {
    if roster != [] {
      assert (roster + [e])[1..] == roster[1..] + [e];
      Appended(bps, roster[1..], e);
    }
  }

  /** The challengers as the off-chain settlement sees them. */
  function Participants(t: Terms, roster: seq<Entry>): seq<Fees.Participant> {
    if roster == [] then []
    else
      var e := roster[0];
      [Fees.Participant(e.address, e.stake, Formula(t, e.stake))] + Participants(t, roster[1..])
  }

  lemma {:induction false} ParticipantSums(t: Terms, roster: seq<Entry>)
    ensures var ps := Participants(t, roster);
      && |ps| == |roster| && SumBy(Fees.StakeOf, ps) == Stakes(roster) && SumBy(Fees.GrossOf, ps) == Due(t, roster)
      && forall i | 0 <= i < |ps| :: ps[i].stakeUnits >= 0 && ps[i].grossPayoutUnits >= 0
  {
    if roster != [] {
      var e, rest := roster[0], Participants(t, roster[1..]);
      ParticipantSums(t, roster[1..]);
      var first := Fees.Participant(e.address, e.stake, Formula(t, e.stake));
      SumByConcat(Fees.StakeOf, [first], rest);
      SumByConcat(Fees.GrossOf, [first], rest);
    }
  }

  /** The contract's pool payouts are those of the off-chain rule. */
  lemma {:induction false} ParticipantsWinPool(t: Terms, roster: seq<Entry>)
    requires t.winner.Challengers? && t.odds.Pool? && t.totalStake > 0 && forall e | e in roster :: e.stake > 0
    ensures Fees.IsPoolWin(Participants(t, roster), t.creatorStake, t.totalStake)
  {
    if roster != [] {
      var e := roster[0];
      ParticipantsWinPool(t, roster[1..]);
      MulNonNegative(e.stake, t.creatorStake);
      var first := Fees.Participant(e.address, e.stake, Formula(t, e.stake));
      assert Fees.TakesPoolShare(first, t.creatorStake, t.totalStake);
    }
  }

  lemma FixedGross(stake: nat, bps: nat)
    requires bps >= BPS_DIVISOR
    ensures stake * bps / BPS_DIVISOR >= stake
  {
    MulMonotone(BPS_DIVISOR, bps, stake);
    FloorAtLeast(stake * bps, BPS_DIVISOR, stake);
  }

  lemma {:induction false} FixedDue(t: Terms, roster: seq<Entry>)
    requires t.winner.Challengers? && t.odds.Fixed? && t.odds.payoutBps >= BPS_DIVISOR
    ensures Due(t, roster) == Stakes(roster) + Profits(t.odds.payoutBps, roster)
  {
    if roster != [] {
      FixedDue(t, roster[1..]);
      FixedGross(roster[0].stake, t.odds.payoutBps);
    }
  }

  lemma {:induction false} RefundDue(t: Terms, roster: seq<Entry>)
    requires !t.winner.Challengers?
    ensures Due(t, roster) == Stakes(roster)
  {
    if roster != [] { RefundDue(t, roster[1..]); }
  }

  lemma FormulaCoversStake(t: Terms, stake: nat)
    requires t.odds.Fixed? ==> t.odds.payoutBps >= BPS_DIVISOR
    ensures Formula(t, stake) >= stake
  {
    if t.odds.Fixed? { FixedGross(stake, t.odds.payoutBps); } else { MulNonNegative(stake, t.creatorStake); }
  }

  // ----- What every step keeps -----

  ghost predicate DistinctEntries(roster: seq<Entry>) {
    forall i, j | 0 <= i < j < |roster| :: roster[i].address != roster[j].address
  }

  predicate ValidOdds(odds: Odds) { odds.Fixed? ==> odds.payoutBps >= BPS_DIVISOR }

  ghost predicate Staked(c: Claim) {
    && c.creatorStake >= MIN_STAKE && c.totalStake == Stakes(c.roster) && c.challengerCount == |c.roster|
    && (forall e | e in c.roster :: e.stake >= MIN_STAKE && e.address != c.creator) && DistinctEntries(c.roster)
    && ValidOdds(c.odds) && c.reserved <= c.creatorStake
    && c.reserved == (if c.odds.Fixed? then Profits(c.odds.payoutBps, c.roster) else 0)
    && (c.state.Open? || c.state.Cancelled? <==> c.roster == [])
    && c.fees.platformBps + c.fees.ownerBps <= MAX_TOTAL_FEE_BPS
  }

  /** What is left over is less than one unit per challenger, and nothing unless a pool is won. */
  lemma SpareBounds(c: Claim)
    requires Staked(c) && c.roster != [] && !c.winner.Creator?
    ensures 0 <= Spare(c) < |c.roster|
    ensures !(c.winner.Challengers? && c.odds.Pool?) ==> Spare(c) == 0
  {
    var t := TermsOf(c);
    if c.winner.Challengers? && c.odds.Pool? {
      assert c.totalStake > 0 by { assert c.roster[0] in c.roster; }
      ParticipantSums(t, c.roster);
      ParticipantsWinPool(t, c.roster);
      Fees.PoolResidue(Participants(t, c.roster), c.creatorStake, c.totalStake);
    } else if c.winner.Challengers? {
      FixedDue(t, c.roster);
    } else {
      RefundDue(t, c.roster);
    }
  }

  function GrossPaid(payments: seq<Payment>): int {
    if payments == [] then 0 else GrossPaid(payments[..|payments| - 1]) + payments[|payments| - 1].gross
  }

  predicate IsOwed(fees: FeeTerms, p: Payment) {
    QuoteFees(p.stake, p.gross, fees).Ok? && QuoteFees(p.stake, p.gross, fees).value.0 == p.owed
  }

  /** The payment is a challenger's formula payout, the last one with what is left over, and
      covers the stake after the claim's fees. */
  ghost predicate Pays(c: Claim, i: nat, p: Payment) {
    && Entry(p.address, p.stake, true) in c.roster
    && p.gross == Formula(TermsOf(c), p.stake) + (if i + 1 == |c.roster| then Spare(c) else 0)
    && p.stake <= p.owed <= p.gross && IsOwed(c.fees, p)
  }

  ghost predicate PaymentsMatch(c: Claim, payments: seq<Payment>) {
    && (forall i | 0 <= i < |payments| :: Pays(c, i, payments[i]))
    && (forall i, j | 0 <= i < j < |payments| :: payments[i].address != payments[j].address)
  }

  ghost predicate Settled(m: Market) {
    var c := m.claim;
    && ClaimedCount(c.roster) == c.claims == |m.payments| && !c.winner.Undecided?
    && m.creatorPaid + m.creatorFees + Seed(c, c.winner) == Inflow(c)
    && GrossPaid(m.payments) + c.remaining == Seed(c, c.winner)
    && (c.winner.Creator? ==> c.remaining == c.claims == 0)
    && (!c.winner.Creator? ==>
          c.remaining == if c.claims == |c.roster| then 0 else Owing(TermsOf(c), c.roster) + Spare(c))
    && PaymentsMatch(c, m.payments)
  }

  ghost predicate Sound(m: Market) {
    && Staked(m.claim)
    && if m.claim.state.Resolved? then Settled(m)
       else
         && ClaimedCount(m.claim.roster) == m.claim.claims == m.claim.remaining == 0 && m.payments == []
         && m.creatorFees == 0 && m.creatorPaid == if m.claim.state.Cancelled? then m.claim.creatorStake else 0
  }

  // ----- Challenges and the verdict -----

  lemma ReserveIsProfits(c: Claim, stake: nat)
    requires Staked(c) && Reserve(c, stake).Ok?
    ensures var reserved := Reserve(c, stake).value;
      0 <= reserved <= c.creatorStake
      && reserved == c.reserved + if c.odds.Fixed? then Profit(stake, stake * c.odds.payoutBps / BPS_DIVISOR) else 0
  {
  }

  const CHALLENGE_CHECKS: seq<Error> :=
    [ClaimNotOpen, SelfChallenge, ClaimFull, StakeTooSmall, DuelNeedsEqualStake, InsufficientCreatorLiquidity]

  /** What a stake wins under fixed odds. */
  function FixedProfit(odds: Odds, stake: int): int {
    if odds.Fixed? && odds.payoutBps > 10_000 then stake * odds.payoutBps / 10_000 - stake else 0
  }

  /** What each refusal of a challenge objects to. */
  predicate Bars(reason: Error, c: Claim, who: JsString, stake: int) {
    match reason
    case ClaimNotOpen => c.state in {Resolved, Cancelled}
    case SelfChallenge => who == c.creator
    case ClaimFull => c.challengerCount >= 100 || c.challengerCount >= c.maxChallengers
    case StakeTooSmall => stake < 20_000_000
    case DuelNeedsEqualStake => c.maxChallengers == 1 && c.creatorStake != stake
    case InsufficientCreatorLiquidity => c.creatorStake < c.reserved + FixedProfit(c.odds, stake)
    case _ => false
  }

  predicate HasStaked(c: Claim, who: JsString) { exists e | e in c.roster :: e.address == who }

  lemma HasStakedIff(c: Claim, who: JsString)
    ensures HasStaked(c, who) <==> IndexOf(c.roster, who).Some?
  {
    if IndexOf(c.roster, who).Some? { assert c.roster[IndexOf(c.roster, who).value] in c.roster; }
  }

  /** While amounts fit, a first challenge is refused for the first check that fails and for
      nothing else; a second one changes nothing. */
  lemma ChallengeRefusedIff(m: Market, who: JsString, stake: int, k: nat)
    requires Sound(m) && m.claim.creatorStake <= MAX_I128 && m.claim.totalStake + stake <= MAX_I128
    requires m.claim.odds.Fixed? ==> stake * m.claim.odds.payoutBps <= MAX_I128
    requires k < |CHALLENGE_CHECKS|
    ensures var c := m.claim;
      !HasStaked(c, who) ==>
        (Challenge(c, who, stake) == Err(CHALLENGE_CHECKS[k])
         <==> Bars(CHALLENGE_CHECKS[k], c, who, stake)
              && forall j | 0 <= j < k :: !Bars(CHALLENGE_CHECKS[j], c, who, stake))
    ensures var c := m.claim;
      Challenge(c, who, stake).Ok?
      <==> if HasStaked(c, who) then c.state in {Open, Active}
           else forall j | 0 <= j < |CHALLENGE_CHECKS| :: !Bars(CHALLENGE_CHECKS[j], c, who, stake)
    ensures HasStaked(m.claim, who) && Challenge(m.claim, who, stake).Ok?
      ==> Challenge(m.claim, who, stake) == Ok(m.claim)
  {
    var c, checks := m.claim, CHALLENGE_CHECKS;
    HasStakedIff(c, who);
    assert checks[0] == ClaimNotOpen && checks[1] == SelfChallenge && checks[2] == ClaimFull;
    assert checks[3] == StakeTooSmall && checks[4] == DuelNeedsEqualStake;
    assert checks[5] == InsufficientCreatorLiquidity;
    if !HasStaked(c, who) { FirstChallenge(m, who, stake); }
  }

  lemma FirstChallenge(m: Market, who: JsString, stake: int)
    requires Sound(m) && m.claim.creatorStake <= MAX_I128 && m.claim.totalStake + stake <= MAX_I128
    requires m.claim.odds.Fixed? ==> stake * m.claim.odds.payoutBps <= MAX_I128
    requires IndexOf(m.claim.roster, who).None?
    ensures var c, after := m.claim, Challenge(m.claim, who, stake);
      if Bars(ClaimNotOpen, c, who, stake) then after == Err(ClaimNotOpen)
      else if Bars(SelfChallenge, c, who, stake) then after == Err(SelfChallenge)
      else if Bars(ClaimFull, c, who, stake) then after == Err(ClaimFull)
      else if Bars(StakeTooSmall, c, who, stake) then after == Err(StakeTooSmall)
      else if Bars(DuelNeedsEqualStake, c, who, stake) then after == Err(DuelNeedsEqualStake)
      else if Bars(InsufficientCreatorLiquidity, c, who, stake) then after == Err(InsufficientCreatorLiquidity)
      else after.Ok?
  {
    if m.claim.odds.Fixed? && stake >= 0 { MulNonNegative(stake, m.claim.odds.payoutBps); }
  }

  /** A challenge that counts adds one stake and its profit under fixed odds. */
  lemma ChallengeAdds(c: Claim, who: JsString, stake: int)
    requires Staked(c) && Challenge(c, who, stake).Ok? && Challenge(c, who, stake).value != c
    ensures stake >= MIN_STAKE && who != c.creator && IndexOf(c.roster, who).None?
    ensures (c.state.Open? || c.state.Active?) && Reserve(c, stake).Ok?
    ensures Challenge(c, who, stake).value == Joined(c, Entry(who, stake, false), Reserve(c, stake).value)
  {
  }

  lemma JoinedIsStaked(c: Claim, e: Entry, reserved: nat)
    requires Staked(c) && e.stake >= MIN_STAKE && e.address != c.creator && IndexOf(c.roster, e.address).None?
    requires c.reserved <= reserved <= c.creatorStake
    requires reserved
      == c.reserved + if c.odds.Fixed? then Profit(e.stake, e.stake * c.odds.payoutBps / BPS_DIVISOR) else 0
    ensures Staked(Joined(c, e, reserved))
  {
    Appended(if c.odds.Fixed? then c.odds.payoutBps else 0, c.roster, e);
    assert forall x | x in c.roster + [e] :: x in c.roster || x == e;
  }

  lemma {:induction false} NoneClaimed(roster: seq<Entry>, e: Entry)
    requires ClaimedCount(roster) == 0 && !e.claimed
    ensures ClaimedCount(roster + [e]) == 0
  {
    if roster != [] {
      assert (roster + [e])[1..] == roster[1..] + [e];
      NoneClaimed(roster[1..], e);
    }
  }

  lemma ChallengeKeepsSound(m: Market, who: JsString, stake: int)
    requires Sound(m) && Challenge(m.claim, who, stake).Ok?
    ensures Sound(m.(claim := Challenge(m.claim, who, stake).value))
  {
    var c := m.claim;
    if Challenge(c, who, stake).value != c {
      var e := Entry(who, stake, false);
      ChallengeAdds(c, who, stake);
      ReserveIsProfits(c, stake);
      JoinedIsStaked(c, e, Reserve(c, stake).value);
      NoneClaimed(c.roster, e);
    }
  }

  lemma CancelKeepsSound(m: Market)
    requires Sound(m)
    ensures Cancel(m).Ok? ==> Sound(Cancel(m).value)
    ensures forall passed :: Expire(m, passed).Ok? ==> Sound(Expire(m, passed).value)
  {
  }

  /** No open claim of a sound market has anything to settle, so every open claim can be
      cancelled; what was cancelled stays so, and everything else is refused. */
  lemma CancelSucceedsIff(m: Market)
    requires Sound(m)
    ensures Cancel(m).Ok? <==> m.claim.state.Open? || m.claim.state.Cancelled?
    ensures Cancel(m).Err? ==> Cancel(m).error == ClaimNotOpen
    ensures m.claim.state.Open? ==> !Exposed(m.claim)
  {
    if m.claim.state.Open? { assert m.claim.roster == []; }
  }

  /** Nothing but the state has changed, and the creator has the whole stake back. */
  predicate IsCancelled(m: Market, after: Market) {
    if m.claim.state == Cancelled then after == m
    else
      && after.claim == m.claim.(state := Cancelled) && after.payments == m.payments
      && after.creatorPaid == m.claim.creatorStake && after.creatorFees == 0
  }

  lemma CancelRefunds(m: Market)
    requires Sound(m) && Cancel(m).Ok?
    ensures IsCancelled(m, Cancel(m).value)
  {
  }

  /** An open claim can be cancelled by anybody once its deadline has passed; an active one is
      left to its verdict. */
  lemma ExpireSucceedsIff(m: Market, passed: bool)
    ensures Expire(m, passed).Ok? <==> m.claim.state == Active || (m.claim.state == Open && passed)
    ensures Expire(m, passed).Err? ==>
      Expire(m, passed).error == if m.claim.state == Open then Timelocked else ClaimNotOpen
    ensures Expire(m, passed).Ok? ==>
      if m.claim.state == Active then Expire(m, passed) == Ok(m) else IsCancelled(m, Expire(m, passed).value)
  {
  }

  // ----- What the documents say of cancelling -----

  /** Money or liability that belongs to somebody else than the creator. */
  predicate Exposed(c: Claim) { c.challengerCount != 0 || c.totalStake != 0 || c.reserved != 0 }

  datatype CancelAnswer = Refund | Unchanged | NotOpen | HasActiveClaims | NotEscrowed | NotConserved

  /** What `cancel_claim` answers as documented: exposure has an error of its own, a reserve
      counts as exposure, and so has a refund that the contract's balance does not cover. */
  function DocumentedAnswer(m: Market, balance: int): CancelAnswer {
    if m.claim.state.Cancelled? then Unchanged
    else if !m.claim.state.Open? then NotOpen
    else if Exposed(m.claim) then HasActiveClaims
    else if m.claim.creatorStake > balance then NotEscrowed
    else Refund
  }

  function ActualAnswer(m: Market): CancelAnswer {
    match Cancel(m)
    case Ok(after) => if m.claim.state.Cancelled? then Unchanged else Refund
    case Err(ConservationViolation) => NotConserved
    case Err(_) => NotOpen
  }

  /** For every claim whatever: code and documents differ exactly on open claims that are
      exposed, not covered, or hold less than nothing. */
  lemma CancelAsDocumentedIff(m: Market, balance: int)
    ensures ActualAnswer(m) == DocumentedAnswer(m, balance)
       <==> !m.claim.state.Open?
            || (!Exposed(m.claim) && m.claim.creatorStake <= balance && m.claim.remaining >= 0)
  {
  }

  /** Open claims that the code answers differently; no run leads to either. */
  lemma CancelDiffers()
    ensures var challenged := Market(EXPOSED_CLAIM.(challengerCount := 1), [], 0, 0);
      && ActualAnswer(challenged) == NotOpen && DocumentedAnswer(challenged, MIN_STAKE) == HasActiveClaims
      && !Sound(challenged)
    ensures var reserved := Market(EXPOSED_CLAIM.(reserved := 1), [], 0, 0);
      && ActualAnswer(reserved) == Refund && DocumentedAnswer(reserved, MIN_STAKE) == HasActiveClaims
      && !Sound(reserved)
  {
  }

  const EXPOSED_CLAIM := Claim(
    Ascii("c"), MIN_STAKE, 0, 0, Pool, 1, FeeTerms(0, 0, None, None), Open, Undecided, [], 0, 0, 0, [])

  lemma QuoteFits(principal: nat, gross: int, fees: FeeTerms)
    requires gross >= principal && fees.platformBps + fees.ownerBps <= MAX_TOTAL_FEE_BPS
    requires QuoteFees(principal, gross, fees).Ok?
    ensures var (owed, taken) := QuoteFees(principal, gross, fees).value;
      principal <= owed <= gross && owed + taken == gross
  {
    if gross > principal {
      var profit := gross - principal;
      Fees.LegsWithinSum(profit, fees.platformBps, fees.ownerBps);
      Fees.RateWithinWhole(profit, fees.platformBps + fees.ownerBps);
    }
  }

  /** One fee on a profit. */
  function Leg(profit: int, bps: nat, recipient: Option<JsString>): int {
    if recipient.None? || profit <= 0 then 0 else profit * bps / 10_000
  }

  lemma QuoteIsLegs(principal: nat, gross: int, fees: FeeTerms)
    requires QuoteFees(principal, gross, fees).Ok?
    ensures var taken := Leg(gross - principal, fees.platformBps, fees.platform)
        + Leg(gross - principal, fees.ownerBps, fees.owner);
      QuoteFees(principal, gross, fees).value == (gross - taken, taken)
  {
  }

  /** What a verdict pays the creator at once, what it charges, and what it leaves to challengers:
      all stakes less the two fees on the challengers' to a creator who won; the stake back, less
      what fixed odds put at risk or all of it in a pool, to one who lost; else each their own. */
  lemma VerdictPays(m: Market, winner: Winner, record: JsString)
    requires Sound(m) && m.claim.state.Active? && Resolve(m, winner, record).Ok?
    ensures var c, after := m.claim, Resolve(m, winner, record).value;
      var fees := Leg(c.totalStake, c.fees.platformBps, c.fees.platform)
        + Leg(c.totalStake, c.fees.ownerBps, c.fees.owner);
      && after.claim.state == Resolved && after.claim.winner == winner && after.claim.record == record
      && after.claim.roster == c.roster && after.payments == []
      && (after.creatorPaid, after.creatorFees, after.claim.remaining)
         == match winner
            case Creator => (c.creatorStake + c.totalStake - fees, fees, 0)
            case Challengers =>
              if c.odds.Pool? then (0, 0, c.creatorStake + c.totalStake)
              else (c.creatorStake - c.reserved, 0, c.totalStake + c.reserved)
            case _ => (c.creatorStake, 0, c.totalStake)
  {
    if winner.Creator? { QuoteIsLegs(m.claim.creatorStake, Inflow(m.claim), m.claim.fees); }
  }

  lemma ResolveKeepsSound(m: Market, winner: Winner, record: JsString)
    requires Sound(m) && Resolve(m, winner, record).Ok?
    ensures Sound(Resolve(m, winner, record).value)
  {
    var after := Resolve(m, winner, record).value;
    if after != m {
      var c := after.claim;
      if winner.Creator? { QuoteFits(m.claim.creatorStake, Inflow(m.claim), m.claim.fees); }
      CountBounds(TermsOf(c), c.roster);
      assert GrossPaid([]) == 0;
    }
  }

  /** The verdict never finds more committed than came in. */
  lemma ResolveNeverOverdraws(m: Market, winner: Winner, record: JsString)
    requires Sound(m)
    ensures Resolve(m, winner, record) != Err(PayoutExceedsEscrow)
  {
    var c := m.claim;
    if winner.Creator? && QuoteFees(c.creatorStake, Inflow(c), c.fees).Ok? {
      QuoteFits(c.creatorStake, Inflow(c), c.fees);
    }
  }

  // ----- Pulling -----

  /** There is something to pull. */
  predicate CanPull(c: Claim, who: JsString) {
    && c.state.Resolved? && !c.winner.Creator?
    && IndexOf(c.roster, who).Some? && !c.roster[IndexOf(c.roster, who).value].claimed
  }

  function EntryOf(c: Claim, who: JsString): Entry
    requires IndexOf(c.roster, who).Some?
  {
    c.roster[IndexOf(c.roster, who).value]
  }

  /** What a pull draws: the formula payout, and for the last claimant what is left over too. */
  function DrawnBy(c: Claim, who: JsString): int
    requires IndexOf(c.roster, who).Some?
  {
    Formula(TermsOf(c), EntryOf(c, who).stake) + if c.claims + 1 == |c.roster| then Spare(c) else 0
  }

  function Marked(c: Claim, who: JsString): seq<Entry>
    requires IndexOf(c.roster, who).Some?
  {
    c.roster[IndexOf(c.roster, who).value := EntryOf(c, who).(claimed := true)]
  }

  /** The escrow holds what a pull draws, and after it what is due to the others. */
  lemma EnoughRemains(m: Market, who: JsString)
    requires Sound(m) && CanPull(m.claim, who)
    ensures var c := m.claim;
      && c.claims < |c.roster| && 0 <= EntryOf(c, who).stake <= DrawnBy(c, who) <= c.remaining
      && ClaimedCount(Marked(c, who)) == c.claims + 1
      && c.remaining - DrawnBy(c, who)
         == if c.claims + 1 == |c.roster| then 0 else Owing(TermsOf(c), Marked(c, who)) + Spare(c)
  {
    var c, i := m.claim, IndexOf(m.claim.roster, who).value;
    var t := TermsOf(c);
    ClaimOne(t, c.roster, i);
    CountBounds(t, c.roster);
    CountBounds(t, Marked(c, who));
    SpareBounds(c);
    FormulaCoversStake(t, EntryOf(c, who).stake);
    assert c.roster[i] in c.roster;
  }

  lemma GrossIsFormula(t: Terms, stake: nat)
    ensures GrossFor(t, stake).Ok? ==> GrossFor(t, stake).value == Formula(t, stake)
  {
  }

  /** A pull that succeeds draws exactly that. */
  lemma PullDraws(m: Market, who: JsString)
    requires Sound(m) && Pull(m, who).Ok?
    ensures CanPull(m.claim, who)
    ensures var c, after := m.claim, Pull(m, who).value;
      && after.claim == c.(roster := Marked(c, who), remaining := c.remaining - DrawnBy(c, who), claims := c.claims + 1)
      && after.creatorPaid == m.creatorPaid && after.creatorFees == m.creatorFees
      && |after.payments| == |m.payments| + 1 && after.payments[..|m.payments|] == m.payments
      && var p := after.payments[|m.payments|];
      && p.address == who && p.stake == EntryOf(c, who).stake && p.gross == DrawnBy(c, who)
      && p.stake <= p.owed <= p.gross
      && IsOwed(c.fees, p)
  {
    var c := m.claim;
    EnoughRemains(m, who);
    GrossIsFormula(TermsOf(c), EntryOf(c, who).stake);
    LastRemains(m, who);
    var gross := DrawnBy(c, who);
    QuoteFits(EntryOf(c, who).stake, gross, c.fees);
  }

  lemma LastRemains(m: Market, who: JsString)
    requires Sound(m) && CanPull(m.claim, who)
    ensures m.claim.claims + 1 == m.claim.challengerCount ==> m.claim.remaining == DrawnBy(m.claim, who)
  {
    EnoughRemains(m, who);
  }

  lemma SameFormulas(c: Claim, who: JsString)
    requires CanPull(c, who)
    ensures var next := c.(roster := Marked(c, who));
      && TermsOf(next) == TermsOf(c) && Spare(next) == Spare(c) && Seed(next, c.winner) == Seed(c, c.winner)
      && Stakes(next.roster) == Stakes(c.roster)
      && (c.odds.Fixed? ==> Profits(c.odds.payoutBps, next.roster) == Profits(c.odds.payoutBps, c.roster))
  {
    ClaimOne(TermsOf(c), c.roster, IndexOf(c.roster, who).value);
    if c.odds.Fixed? { ProfitsUnchanged(c.odds.payoutBps, c.roster, IndexOf(c.roster, who).value); }
  }

  lemma MarkedEntries(c: Claim, who: JsString)
    requires DistinctEntries(c.roster) && CanPull(c, who)
    ensures DistinctEntries(Marked(c, who))
    ensures forall e | e in c.roster && e.claimed :: e in Marked(c, who)
    ensures EntryOf(c, who).(claimed := true) in Marked(c, who)
    ensures forall e | e in Marked(c, who) :: e in c.roster || e == EntryOf(c, who).(claimed := true)
    ensures forall e | e in c.roster && e.claimed :: e.address != who
  {
    var i := IndexOf(c.roster, who).value;
    forall e | e in c.roster && e.claimed ensures e in Marked(c, who) && e.address != who {
      var j :| 0 <= j < |c.roster| && c.roster[j] == e;
      assert Marked(c, who)[j] == e;
    }
    assert Marked(c, who)[i] == EntryOf(c, who).(claimed := true);
  }

  /** A payment stays what it was while terms, left-overs and its own entry do. */
  lemma StillPays(c: Claim, next: Claim, i: nat, p: Payment)
    requires Pays(c, i, p) && TermsOf(next) == TermsOf(c) && Spare(next) == Spare(c) && |next.roster| == |c.roster|
    requires next.fees == c.fees
    requires Entry(p.address, p.stake, true) in next.roster
    ensures Pays(next, i, p)
  {
  }

  lemma EarlierStillPay(c: Claim, next: Claim, payments: seq<Payment>, who: JsString)
    requires DistinctEntries(c.roster) && CanPull(c, who) && next.roster == Marked(c, who)
    requires TermsOf(next) == TermsOf(c) && Spare(next) == Spare(c) && next.fees == c.fees
    requires PaymentsMatch(c, payments)
    ensures forall i | 0 <= i < |payments| :: Pays(next, i, payments[i]) && payments[i].address != who
  {
    MarkedEntries(c, who);
    forall i | 0 <= i < |payments| ensures Pays(next, i, payments[i]) && payments[i].address != who {
      var p := payments[i];
      assert Pays(c, i, p);
      assert Entry(p.address, p.stake, true) in c.roster;
      StillPays(c, next, i, p);
    }
  }

  lemma OneMorePayment(c: Claim, payments: seq<Payment>, p: Payment)
    requires forall i | 0 <= i < |payments| :: Pays(c, i, payments[i]) && payments[i].address != p.address
    requires forall i, j | 0 <= i < j < |payments| :: payments[i].address != payments[j].address
    requires Pays(c, |payments|, p)
    ensures PaymentsMatch(c, payments + [p])
  {
  }

  lemma PaymentsStillMatch(m: Market, who: JsString)
    requires Sound(m) && Pull(m, who).Ok?
    ensures PaymentsMatch(Pull(m, who).value.claim, Pull(m, who).value.payments)
  {
    var c, after := m.claim, Pull(m, who).value;
    PullDraws(m, who);
    SameFormulas(c, who);
    var p := after.payments[|m.payments|];
    EarlierStillPay(c, after.claim, m.payments, who);
    assert Pays(after.claim, |m.payments|, p) by { MarkedEntries(c, who); }
    OneMorePayment(after.claim, m.payments, p);
    assert after.payments == m.payments + [p];
  }

  lemma PullKeepsStaked(m: Market, who: JsString)
    requires Sound(m) && Pull(m, who).Ok?
    ensures Staked(Pull(m, who).value.claim)
  {
    var c := m.claim;
    PullDraws(m, who);
    SameFormulas(c, who);
    MarkedEntries(c, who);
    assert EntryOf(c, who) in c.roster;
  }

  lemma PullKeepsSound(m: Market, who: JsString)
    requires Sound(m) && Pull(m, who).Ok?
    ensures Sound(Pull(m, who).value)
  {
    var c, after := m.claim, Pull(m, who).value;
    PullKeepsStaked(m, who);
    PullDraws(m, who);
    EnoughRemains(m, who);
    SameFormulas(c, who);
    PaymentsStillMatch(m, who);
    assert TermsOf(after.claim) == TermsOf(c) && Spare(after.claim) == Spare(c);
  }

  lemma {:induction false} OwingWithinDue(t: Terms, roster: seq<Entry>)
    ensures Owing(t, roster) <= Due(t, roster)
  {
    if roster != [] { OwingWithinDue(t, roster[1..]); }
  }

  lemma StaysConserved(m: Market, who: JsString)
    requires Sound(m) && CanPull(m.claim, who)
    ensures Conserved(m.claim.(roster := Marked(m.claim, who), remaining := m.claim.remaining - DrawnBy(m.claim, who),
                               claims := m.claim.claims + 1))
  {
    var c := m.claim;
    EnoughRemains(m, who);
    SpareBounds(c);
    OwingWithinDue(TermsOf(c), c.roster);
    assert c.remaining <= Seed(c, c.winner) <= Inflow(c);
  }

  /** The gross as the contract reads it. */
  function GrossOf(c: Claim, who: JsString): Result<int, Error>
    requires IndexOf(c.roster, who).Some?
  {
    if c.claims + 1 == c.challengerCount then Ok(c.remaining) else GrossFor(TermsOf(c), EntryOf(c, who).stake)
  }

  lemma GrossIsDraw(m: Market, who: JsString)
    requires Sound(m) && CanPull(m.claim, who)
    ensures GrossOf(m.claim, who).Ok? ==> GrossOf(m.claim, who).value == DrawnBy(m.claim, who)
    ensures GrossOf(m.claim, who).Err? ==> GrossOf(m.claim, who).error == Overflow
  {
    LastRemains(m, who);
    GrossIsFormula(TermsOf(m.claim), EntryOf(m.claim, who).stake);
  }

  /** Only an overflow can keep a challenger from a settlement they have not pulled yet: the
      escrow never falls short. */
  lemma PullFailsOnlyOnOverflow(m: Market, who: JsString)
    requires Sound(m) && CanPull(m.claim, who)
    ensures var c := m.claim;
      Pull(m, who).Ok? <==> GrossOf(c, who).Ok? && QuoteFees(EntryOf(c, who).stake, DrawnBy(c, who), c.fees).Ok?
    ensures Pull(m, who).Err? ==> Pull(m, who).error == Overflow
  {
    GrossIsDraw(m, who);
    EnoughRemains(m, who);
    StaysConserved(m, who);
  }

  lemma PullNeverOverdraws(m: Market, who: JsString)
    requires Sound(m)
    ensures Pull(m, who) != Err(PayoutExceedsEscrow) && Pull(m, who) != Err(ConservationViolation)
  {
    if CanPull(m.claim, who) { PullFailsOnlyOnOverflow(m, who); }
  }

  /** The products of a settlement fit 128 bits. */
  predicate InRange(t: Terms) {
    && t.totalStake * t.creatorStake <= MAX_I128 && (t.creatorStake + t.totalStake) * MAX_TOTAL_FEE_BPS <= MAX_I128
    && (t.odds.Fixed? ==> t.totalStake * t.odds.payoutBps <= MAX_I128)
  }

  /** They do whenever one token account could hold the stakes. */
  lemma HeldAmountsInRange(c: Claim)
    requires Inflow(c) <= MAX_I64
    ensures InRange(TermsOf(c))
  {
    MulMonotone(c.totalStake, MAX_I64, c.creatorStake);
    MulMonotone(c.creatorStake, MAX_I64, MAX_I64);
    if c.odds.Fixed? {
      MulMonotone(c.totalStake, MAX_I64, c.odds.payoutBps);
      MulMonotone(c.odds.payoutBps, 0xFFFF_FFFF, MAX_I64);
    }
  }

  lemma {:induction false} StakeWithinTotal(roster: seq<Entry>, i: nat)
    requires i < |roster|
    ensures roster[i].stake <= Stakes(roster)
  {
    if i > 0 { StakeWithinTotal(roster[1..], i - 1); }
  }

  lemma GrossInRange(t: Terms, stake: nat, limit: nat)
    requires InRange(t) && stake <= t.totalStake && Formula(t, stake) <= limit <= MAX_I128
    ensures GrossFor(t, stake).Ok?
  {
    MulMonotone(stake, t.totalStake, t.creatorStake);
    if t.odds.Fixed? { MulMonotone(stake, t.totalStake, t.odds.payoutBps); }
    MulNonNegative(stake, t.creatorStake);
  }

  lemma QuoteInRange(principal: nat, gross: int, fees: FeeTerms, most: nat)
    requires gross <= most && most * MAX_TOTAL_FEE_BPS <= MAX_I128
    requires fees.platformBps + fees.ownerBps <= MAX_TOTAL_FEE_BPS
    ensures QuoteFees(principal, gross, fees).Ok?
  {
    if gross > principal {
      ProductInRange(gross - principal, most, fees.platformBps);
      ProductInRange(gross - principal, most, fees.ownerBps);
    }
  }

  lemma ProductInRange(amount: nat, most: nat, bps: nat)
    requires amount <= most && bps <= MAX_TOTAL_FEE_BPS && most * MAX_TOTAL_FEE_BPS <= MAX_I128
    ensures 0 <= amount * bps <= MAX_I128
  {
    MulMonotone(amount, most, bps);
    MulMonotone(bps, MAX_TOTAL_FEE_BPS, most);
  }

  lemma DrawWithinInflow(m: Market, who: JsString)
    requires Sound(m) && CanPull(m.claim, who)
    ensures 0 <= EntryOf(m.claim, who).stake <= DrawnBy(m.claim, who) <= Inflow(m.claim)
  {
    EnoughRemains(m, who);
    SpareBounds(m.claim);
    OwingWithinDue(TermsOf(m.claim), m.claim.roster);
  }

  /** While the products fit, a pull succeeds exactly when there is something to pull, and
      otherwise says why there is not. */
  lemma PullSucceedsIff(m: Market, who: JsString)
    requires Sound(m) && InRange(TermsOf(m.claim))
    ensures Pull(m, who).Ok? <==> CanPull(m.claim, who)
    ensures Pull(m, who).Err? ==>
      Pull(m, who).error
      == if m.claim.state != Resolved then ClaimNotResolved
         else if m.claim.winner == Creator then ChallengersDidNotWin
         else if HasStaked(m.claim, who) then AlreadyClaimedPayout
         else NotAChallenger
  {
    HasStakedIff(m.claim, who);
    var c := m.claim;
    if CanPull(c, who) {
      PullFailsOnlyOnOverflow(m, who);
      EnoughRemains(m, who);
      StaysConserved(m, who);
      StakeWithinTotal(c.roster, IndexOf(c.roster, who).value);
      SpareBounds(c);
      assert c.remaining <= Inflow(c) by { OwingWithinDue(TermsOf(c), c.roster); }
      GrossInRange(TermsOf(c), EntryOf(c, who).stake, Inflow(c));
      QuoteInRange(EntryOf(c, who).stake, DrawnBy(c, who), c.fees, Inflow(c));
    } else if Pull(m, who).Ok? {
      PullDraws(m, who);
    }
  }

  /** While they fit, a verdict succeeds exactly on an active claim, and repeated as it was. */
  lemma ResolveSucceedsIff(m: Market, winner: Winner, record: JsString)
    requires Sound(m) && InRange(TermsOf(m.claim)) && Inflow(m.claim) <= MAX_I128
    ensures var c := m.claim;
      Resolve(m, winner, record).Ok?
      <==> !winner.Undecided? && (c.state.Active? || (c.state.Resolved? && winner == c.winner && record == c.record))
    ensures Resolve(m, winner, record).Err? ==>
      Resolve(m, winner, record).error == if winner == Undecided then InvalidVerdict else ClaimNotActive
    ensures Resolve(m, winner, record).Ok? && m.claim.state == Resolved ==> Resolve(m, winner, record) == Ok(m)
  {
    var c := m.claim;
    if winner.Creator? {
      QuoteInRange(c.creatorStake, Inflow(c), c.fees, Inflow(c));
      QuoteFits(c.creatorStake, Inflow(c), c.fees);
    }
  }

  // ----- Runs -----

  datatype Step = Stake(who: JsString, amount: int) | Verdict(winner: Winner, record: JsString)
    | Claims(who: JsString) | Cancellation | Deadline(passed: bool)

  /** A refused step changes nothing. */
  function Perform(m: Market, step: Step): Market {
    match step
    case Stake(who, amount) =>
      var after := Challenge(m.claim, who, amount);
      if after.Ok? then m.(claim := after.value) else m
    case Verdict(winner, record) => (var after := Resolve(m, winner, record); if after.Ok? then after.value else m)
    case Claims(who) => (var after := Pull(m, who); if after.Ok? then after.value else m)
    case Cancellation => (var after := Cancel(m); if after.Ok? then after.value else m)
    case Deadline(passed) => (var after := Expire(m, passed); if after.Ok? then after.value else m)
  }

  function Run(m: Market, steps: seq<Step>): Market {
    if steps == [] then m else Perform(Run(m, steps[..|steps| - 1]), steps[|steps| - 1])
  }

  /** A market that was just created. */
  predicate IsNew(m: Market) {
    && m.claim.creatorStake >= MIN_STAKE && ValidOdds(m.claim.odds) && m.claim.state.Open? && m.claim.roster == []
    && m.claim.totalStake == m.claim.reserved == m.claim.challengerCount == m.claim.claims == m.claim.remaining == 0
    && m.claim.fees.platformBps + m.claim.fees.ownerBps <= MAX_TOTAL_FEE_BPS
    && m.payments == [] && m.creatorPaid == m.creatorFees == 0
  }

  lemma StepKeepsSound(m: Market, step: Step)
    requires Sound(m)
    ensures Sound(Perform(m, step))
  {
    match step
    case Stake(who, amount) => if Challenge(m.claim, who, amount).Ok? { ChallengeKeepsSound(m, who, amount); }
    case Verdict(winner, record) => if Resolve(m, winner, record).Ok? { ResolveKeepsSound(m, winner, record); }
    case Claims(who) => if Pull(m, who).Ok? { PullKeepsSound(m, who); }
    case Cancellation => CancelKeepsSound(m);
    case Deadline(_) => CancelKeepsSound(m);
  }

  lemma {:induction false} RunIsSound(m: Market, steps: seq<Step>)
    requires IsNew(m)
    ensures Sound(Run(m, steps))
  {
    if steps != [] {
      RunIsSound(m, steps[..|steps| - 1]);
      StepKeepsSound(Run(m, steps[..|steps| - 1]), steps[|steps| - 1]);
    }
  }

  /** What a claim was created with, and keeps. */
  predicate SameDeal(c: Claim, d: Claim) {
    && c.creator == d.creator && c.creatorStake == d.creatorStake && c.odds == d.odds
    && c.maxChallengers == d.maxChallengers && c.fees == d.fees
  }

  lemma ChallengeKeepsDeal(c: Claim, who: JsString, amount: int)
    requires Challenge(c, who, amount).Ok?
    ensures SameDeal(Challenge(c, who, amount).value, c)
  {
  }

  lemma VerdictKeepsDeal(m: Market, winner: Winner, record: JsString)
    requires Resolve(m, winner, record).Ok?
    ensures SameDeal(Resolve(m, winner, record).value.claim, m.claim)
  {
  }

  lemma PullKeepsDeal(m: Market, who: JsString)
    requires Pull(m, who).Ok?
    ensures SameDeal(Pull(m, who).value.claim, m.claim)
  {
  }

  /** The terms and the odds are frozen on the claim. */
  lemma StepKeepsDeal(m: Market, step: Step)
    ensures SameDeal(Perform(m, step).claim, m.claim)
  {
    match step
    case Stake(who, amount) => if Challenge(m.claim, who, amount).Ok? { ChallengeKeepsDeal(m.claim, who, amount); }
    case Verdict(winner, record) => if Resolve(m, winner, record).Ok? { VerdictKeepsDeal(m, winner, record); }
    case Claims(who) => if Pull(m, who).Ok? { PullKeepsDeal(m, who); }
    case Cancellation =>
    case Deadline(_) =>
  }

  lemma {:induction false} DealNeverChanges(m: Market, steps: seq<Step>)
    ensures SameDeal(Run(m, steps).claim, m.claim)
  {
    if steps != [] {
      DealNeverChanges(m, steps[..|steps| - 1]);
      StepKeepsDeal(Run(m, steps[..|steps| - 1]), steps[|steps| - 1]);
    }
  }

  /** In every run, whoever stakes and pulls in whatever order: nobody is paid twice, every
      payment covers the payee's stake after fees, and from the verdict or cancellation on what was
      paid and what remains is exactly what came in. */
  lemma EveryUnitAccounted(m: Market, steps: seq<Step>)
    requires IsNew(m)
    ensures var after := Run(m, steps);
      && (forall i, j | 0 <= i < j < |after.payments| :: after.payments[i].address != after.payments[j].address)
      && (forall p | p in after.payments ::
            Entry(p.address, p.stake, true) in after.claim.roster && MIN_STAKE <= p.stake <= p.owed <= p.gross)
      && (after.claim.state.Resolved? || after.claim.state.Cancelled? ==>
           after.creatorPaid + after.creatorFees + GrossPaid(after.payments) + after.claim.remaining
             == Inflow(after.claim))
  {
    RunIsSound(m, steps);
    var after := Run(m, steps);
    forall p | p in after.payments
      ensures Entry(p.address, p.stake, true) in after.claim.roster && MIN_STAKE <= p.stake <= p.owed <= p.gross
    {
      var i :| 0 <= i < |after.payments| && after.payments[i] == p;
      assert Pays(after.claim, i, p);
    }
  }

  lemma AllPulledIsEmpty(m: Market)
    requires Sound(m) && m.claim.state.Resolved? && forall who :: !CanPull(m.claim, who)
    ensures m.claim.remaining == 0 && (!m.claim.winner.Creator? ==> |m.payments| == |m.claim.roster|)
  {
    var c := m.claim;
    if !c.winner.Creator? {
      forall e | e in c.roster ensures e.claimed {
        var i :| 0 <= i < |c.roster| && c.roster[i] == e;
        assert !CanPull(c, e.address);
        OnlyIndex(c.roster, i);
      }
      CountBounds(TermsOf(c), c.roster);
    }
  }

  /** When everybody who can pull has pulled, the escrow of the market is empty, and every
      challenger has a payment of their own. */
  lemma EscrowEndsEmpty(m: Market, steps: seq<Step>)
    requires IsNew(m)
    requires Run(m, steps).claim.state.Resolved? && forall who :: !CanPull(Run(m, steps).claim, who)
    ensures var after := Run(m, steps);
      && after.claim.remaining == 0
      && after.creatorPaid + after.creatorFees + GrossPaid(after.payments) == Inflow(after.claim)
      && (!after.claim.winner.Creator? ==> |after.payments| == |after.claim.roster|)
  {
    RunIsSound(m, steps);
    AllPulledIsEmpty(Run(m, steps));
  }

  lemma {:induction false} OnlyIndex(roster: seq<Entry>, i: nat)
    requires DistinctEntries(roster) && i < |roster|
    ensures IndexOf(roster, roster[i].address) == Some(i)
  {
    FirstIndex(roster, roster[i].address, i);
  }

  // ----- Every order of pulling -----

  /** Challengers pull one after another; a refused pull changes nothing. */
  function PullAll(m: Market, order: seq<JsString>): Market {
    if order == [] then m else Perform(PullAll(m, order[..|order| - 1]), Claims(order[|order| - 1]))
  }

  ghost predicate SameStakes(a: seq<Entry>, b: seq<Entry>) {
    |a| == |b| && forall i | 0 <= i < |a| :: a[i].address == b[i].address && a[i].stake == b[i].stake
  }

  lemma {:induction false} SameIndex(a: seq<Entry>, b: seq<Entry>, who: JsString)
    requires SameStakes(a, b)
    ensures IndexOf(a, who) == IndexOf(b, who)
  {
    if a != [] { SameIndex(a[1..], b[1..], who); }
  }

  /** Exactly the first `n` of the order have pulled. */
  ghost predicate Pulled(roster: seq<Entry>, payments: seq<Payment>, order: seq<JsString>, n: nat)
    requires n <= |order|
  {
    && (forall e | e in roster :: e.claimed <==> e.address in order[..n])
    && |payments| == n && forall i | 0 <= i < n :: payments[i].address == order[i]
  }

  /** An order in which every challenger pulls once. */
  ghost predicate IsOrder(roster: seq<Entry>, order: seq<JsString>) {
    Distinct(order) && forall a :: a in order <==> IndexOf(roster, a).Some?
  }

  /** The market after some pulls: settled on the same terms, with the same challengers. */
  ghost predicate Continues(m: Market, after: Market) {
    && Sound(after) && after.claim.state.Resolved? && after.claim.winner == m.claim.winner
    && TermsOf(after.claim) == TermsOf(m.claim) && Spare(after.claim) == Spare(m.claim)
    && SameStakes(m.claim.roster, after.claim.roster)
  }

  lemma PullContinues(m: Market, before: Market, who: JsString)
    requires Continues(m, before) && Pull(before, who).Ok?
    ensures Continues(m, Pull(before, who).value)
  {
    var after := Pull(before, who).value;
    PullDraws(before, who);
    PullKeepsSound(before, who);
    SameFormulas(before.claim, who);
    assert Spare(after.claim) == Spare(before.claim);
  }

  lemma CanPullNext(m: Market, c: Claim, payments: seq<Payment>, order: seq<JsString>, n: nat)
    requires n < |order| && IsOrder(m.claim.roster, order) && SameStakes(m.claim.roster, c.roster)
    requires Pulled(c.roster, payments, order, n) && c.state.Resolved? && !c.winner.Creator?
    ensures CanPull(c, order[n])
  {
    SameIndex(m.claim.roster, c.roster, order[n]);
    assert order[n] in order && order[n] !in order[..n];
    var i := IndexOf(c.roster, order[n]).value;
    assert c.roster[i] in c.roster;
  }

  lemma ClaimedAfter(c: Claim, order: seq<JsString>, n: nat)
    requires n < |order| && DistinctEntries(c.roster) && IndexOf(c.roster, order[n]).Some?
    requires forall e | e in c.roster :: e.claimed <==> e.address in order[..n]
    ensures forall e | e in Marked(c, order[n]) :: e.claimed <==> e.address in order[..n + 1]
  {
    var marked, i := Marked(c, order[n]), IndexOf(c.roster, order[n]).value;
    assert order[..n + 1] == order[..n] + [order[n]];
    forall e | e in marked ensures e.claimed <==> e.address in order[..n + 1] {
      var j :| 0 <= j < |marked| && marked[j] == e;
      if j != i { assert e == c.roster[j] && c.roster[j] in c.roster && c.roster[j].address != c.roster[i].address; }
    }
  }

  lemma PaidAfter(before: seq<Payment>, after: seq<Payment>, order: seq<JsString>, n: nat)
    requires n < |order| && |before| == n && (forall i | 0 <= i < n :: before[i].address == order[i])
    requires |after| == n + 1 && after[..n] == before && after[n].address == order[n]
    ensures forall i | 0 <= i < n + 1 :: after[i].address == order[i]
  {
    assert forall i | 0 <= i < n :: after[i] == before[i];
  }

  lemma PullNext(m: Market, before: Market, order: seq<JsString>, n: nat, next: nat)
    requires n < |order| && next == n + 1 && Continues(m, before) && IsOrder(m.claim.roster, order)
    requires Pulled(before.claim.roster, before.payments, order, n)
    requires !m.claim.winner.Creator? && InRange(TermsOf(m.claim))
    ensures Pull(before, order[n]).Ok?
    ensures Pulled(Pull(before, order[n]).value.claim.roster, Pull(before, order[n]).value.payments, order, next)
    ensures Continues(m, Pull(before, order[n]).value)
  {
    CanPullNext(m, before.claim, before.payments, order, n);
    PullSucceedsIff(before, order[n]);
    PullDraws(before, order[n]);
    ClaimedAfter(before.claim, order, n);
    PaidAfter(before.payments, Pull(before, order[n]).value.payments, order, n);
    PullContinues(m, before, order[n]);
  }

  lemma NothingPulled(m: Market, order: seq<JsString>)
    requires Sound(m) && m.claim.state.Resolved? && m.payments == []
    ensures Continues(m, m) && Pulled(m.claim.roster, m.payments, order, 0)
  {
    CountBounds(TermsOf(m.claim), m.claim.roster);
  }

  lemma LastPull(m: Market, order: seq<JsString>, n: nat, before: Market)
    requires n < |order| && before == PullAll(m, order[..n]) && Pull(before, order[n]).Ok?
    ensures PullAll(m, order[..n + 1]) == Pull(before, order[n]).value
  {
    assert order[..n + 1][..n] == order[..n];
  }

  lemma OneMorePull(m: Market, before: Market, order: seq<JsString>, n: nat, next: nat) returns (after: Market)
    requires n < |order| && next == n + 1 && Continues(m, before) && IsOrder(m.claim.roster, order)
    requires Pulled(before.claim.roster, before.payments, order, n) && before == PullAll(m, order[..n])
    requires !m.claim.winner.Creator? && InRange(TermsOf(m.claim))
    ensures after == PullAll(m, order[..next])
    ensures Continues(m, after) && Pulled(after.claim.roster, after.payments, order, next)
  {
    PullNext(m, before, order, n, next);
    LastPull(m, order, n, before);
    after := Pull(before, order[n]).value;
  }

  lemma {:induction false} PullsInOrder(m: Market, order: seq<JsString>, n: nat) returns (after: Market)
    requires Sound(m) && m.claim.state.Resolved? && !m.claim.winner.Creator? && InRange(TermsOf(m.claim))
    requires m.payments == [] && IsOrder(m.claim.roster, order) && n <= |order|
    ensures after == PullAll(m, order[..n])
    ensures Continues(m, after) && Pulled(after.claim.roster, after.payments, order, n)
  {
    if n == 0 {
      after := m;
      NothingPulled(m, order);
    } else {
      var before := PullsInOrder(m, order, n - 1);
      after := OneMorePull(m, before, order, n - 1, n);
    }
  }

  lemma AllClaimed(m: Market, c: Claim, payments: seq<Payment>, order: seq<JsString>)
    requires IsOrder(m.claim.roster, order) && SameStakes(m.claim.roster, c.roster)
      && Pulled(c.roster, payments, order, |order|)
    ensures ClaimedCount(c.roster) == |c.roster|
  {
    assert order[..|order|] == order;
    forall e | e in c.roster ensures e.claimed {
      var i :| 0 <= i < |c.roster| && c.roster[i] == e;
      assert IndexOf(m.claim.roster, m.claim.roster[i].address).Some?;
    }
    CountBounds(TermsOf(c), c.roster);
  }

  lemma StakeOfEntry(roster: seq<Entry>, after: seq<Entry>, who: JsString, stake: nat)
    requires SameStakes(roster, after) && DistinctEntries(after) && Entry(who, stake, true) in after
    ensures IndexOf(roster, who).Some? && roster[IndexOf(roster, who).value].stake == stake
  {
    SameIndex(roster, after, who);
    var i :| 0 <= i < |after| && after[i] == Entry(who, stake, true);
    OnlyIndex(after, i);
  }

  /** The payments of the challengers who pulled in this order. */
  ghost predicate PaidInOrder(c: Claim, payments: seq<Payment>, order: seq<JsString>)
    requires IsOrder(c.roster, order)
  {
    |payments| == |order| && forall i | 0 <= i < |order| ::
      var p := payments[i];
      assert order[i] in order;
      && p.address == order[i] && p.stake == EntryOf(c, order[i]).stake && p.stake <= p.owed <= p.gross
      && p.gross == Formula(TermsOf(c), p.stake) + if i + 1 == |order| then Spare(c) else 0
  }

  /** In whatever order the challengers pull, all are paid, in that order; everybody but the
      last gets the formula payout of their stake, the last also what truncation left over; and
      the escrow ends at zero. */
  lemma EveryOrderInRange(m: Market, order: seq<JsString>)
    requires Sound(m) && m.claim.state.Resolved? && !m.claim.winner.Creator? && InRange(TermsOf(m.claim))
    requires m.payments == [] && IsOrder(m.claim.roster, order)
    ensures var after := PullAll(m, order);
      after.claim.remaining == 0 && |order| == |m.claim.roster| && PaidInOrder(m.claim, after.payments, order)
  {
    assert order[..|order|] == order;
    var after := PullsInOrder(m, order, |order|);
    AllClaimed(m, after.claim, after.payments, order);
    forall i | 0 <= i < |order|
      ensures Pays(after.claim, i, after.payments[i])
      ensures EntryOf(m.claim, order[i]).stake == after.payments[i].stake
    {
      var p := after.payments[i];
      assert Pays(after.claim, i, p);
      StakeOfEntry(m.claim.roster, after.claim.roster, order[i], p.stake);
    }
  }

  /** So it is for all stakes that one token account can hold. */
  lemma EveryOrderEmptiesTheEscrow(m: Market, order: seq<JsString>)
    requires Sound(m) && m.claim.state.Resolved? && !m.claim.winner.Creator? && Inflow(m.claim) <= MAX_I64
    requires m.payments == [] && IsOrder(m.claim.roster, order)
    ensures var after := PullAll(m, order);
      after.claim.remaining == 0 && |order| == |m.claim.roster| && PaidInOrder(m.claim, after.payments, order)
  {
    HeldAmountsInRange(m.claim);
    EveryOrderInRange(m, order);
  }

  // ----- Two winners of a pool -----

  const ANN := Ascii("a")
  const BOB := Ascii("b")

  /** A pool of 2 against 2 and 4, just won by the challengers. */
  const TWO_WINNERS := Market(
    Claim(Ascii("c"), 20_000_000, 60_000_000, 0, Pool, 2, FeeTerms(0, 0, None, None), Resolved, Challengers, [], 2,
          80_000_000, 0, [Entry(ANN, 20_000_000, false), Entry(BOB, 40_000_000, false)]),
    [], 0, 0)

  lemma TwoEntries(t: Terms, a: Entry, b: Entry)
    ensures Stakes([a, b]) == a.stake + b.stake && Due(t, [a, b]) == Formula(t, a.stake) + Formula(t, b.stake)
  {
    assert [a, b][1..] == [b] && [b][1..] == [];
    assert Stakes([b]) == b.stake && Due(t, [b]) == Formula(t, b.stake);
  }

  lemma TwoWinners()
    ensures Sound(TWO_WINNERS) && Inflow(TWO_WINNERS.claim) <= MAX_I64 && Spare(TWO_WINNERS.claim) == 1
    ensures IsOrder(TWO_WINNERS.claim.roster, [ANN, BOB]) && IsOrder(TWO_WINNERS.claim.roster, [BOB, ANN])
  {
    var c := TWO_WINNERS.claim;
    assert ANN == [0x61] && BOB == [0x62] && c.creator == [0x63];
    TwoEntries(TermsOf(c), c.roster[0], c.roster[1]);
    assert IndexOf(c.roster[1..], BOB) == Some(0);
    CountBounds(TermsOf(c), c.roster);
  }

  /** The unit that truncation leaves over goes to whoever pulls last. */
  lemma LastTakesTheSpareUnit()
    ensures var first := PullAll(TWO_WINNERS, [ANN, BOB]);
      |first.payments| == 2 && first.payments[0].gross == 26_666_666 && first.payments[1].gross == 53_333_334
    ensures var second := PullAll(TWO_WINNERS, [BOB, ANN]);
      |second.payments| == 2 && second.payments[0].gross == 53_333_333 && second.payments[1].gross == 26_666_667
  {
    TwoWinners();
    EveryOrderEmptiesTheEscrow(TWO_WINNERS, [ANN, BOB]);
    EveryOrderEmptiesTheEscrow(TWO_WINNERS, [BOB, ANN]);
    assert ANN != BOB by { assert ANN == [0x61] && BOB == [0x62]; }
    OnlyIndex(TWO_WINNERS.claim.roster, 0);
    OnlyIndex(TWO_WINNERS.claim.roster, 1);
  }
}
