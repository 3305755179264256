/** The contract's settlement (contracts-soroban/mimir-market) and its off-chain mirror
    (lib/fees.ts, lib/payout.ts) agree. */
module SettlementMirror {
  import opened Arithmetic
  import opened Wrappers
  import opened PullSettlement
  import Fees

  /** The same rates, charged to a recipient on both sides or on neither. */
  predicate SameTerms(fees: FeeTerms, s: Fees.FeeSnapshot) {
    && fees.platformBps == s.platformFeeBps && fees.ownerBps == s.agentOwnerFeeBps
    && (fees.platform.Some? <==> Fees.HasRecipient(Some(s.platformRecipient)))
    && (fees.owner.Some? <==> Fees.HasRecipient(s.agentOwnerRecipient))
  }

  function OutcomeOf(winner: Winner): Fees.Outcome {
    match winner
    case Creator => Fees.CreatorWins
    case Challengers => Fees.ChallengersWin
    case Draw => Fees.Draw
    case _ => Fees.Unresolvable
  }

  /** What the contract owes and keeps of a payout is what the off-chain split says; a refund
      is owed whole. */
  lemma QuoteMirrorsSplit(principal: nat, gross: int, fees: FeeTerms, s: Fees.FeeSnapshot, outcome: Fees.Outcome)
    requires SameTerms(fees, s) && QuoteFees(principal, gross, fees).Ok?
    requires Fees.IsRefund(outcome) ==> gross == principal
    ensures var f := Fees.SplitFees(principal, gross, s, outcome);
      QuoteFees(principal, gross, fees).value == (f.payoutUnits, f.platformFeeUnits + f.agentOwnerFeeUnits)
  {
    var profit := Fees.Profit(principal, gross);
    MulNonNegative(profit, fees.platformBps);
    MulNonNegative(profit, fees.ownerBps);
  }

  /** In every run, each challenger is paid what the off-chain split says of the gross payout,
      under the terms the claim was created with. */
  lemma PaymentsMirrorSplits(m: Market, steps: seq<Step>, s: Fees.FeeSnapshot)
    requires IsNew(m) && SameTerms(m.claim.fees, s)
    ensures var after := Run(m, steps);
      forall i | 0 <= i < |after.payments| ::
        var p := after.payments[i];
        p.owed == Fees.SplitFees(p.stake, p.gross, s, OutcomeOf(after.claim.winner)).payoutUnits
  {
    var after := Run(m, steps);
    RunIsSound(m, steps);
    DealNeverChanges(m, steps);
    forall i | 0 <= i < |after.payments|
      ensures var p := after.payments[i];
        p.owed == Fees.SplitFees(p.stake, p.gross, s, OutcomeOf(after.claim.winner)).payoutUnits
    {
      PaymentMirrorsSplit(after.claim, i, after.payments[i], s);
    }
  }

  lemma PaymentMirrorsSplit(c: Claim, i: nat, p: Payment, s: Fees.FeeSnapshot)
    requires Staked(c) && !c.winner.Creator? && Pays(c, i, p) && SameTerms(c.fees, s)
    ensures p.owed == Fees.SplitFees(p.stake, p.gross, s, OutcomeOf(c.winner)).payoutUnits
  {
    SpareBounds(c);
    QuoteMirrorsSplit(p.stake, p.gross, c.fees, s, OutcomeOf(c.winner));
  }

  /** A settled market as the off-chain settlement sees it, the creator first. */
  function Everyone(c: Claim): seq<Fees.Participant> {
    [Fees.Participant(c.creator, c.creatorStake, Inflow(c) - Seed(c, c.winner))] + Participants(TermsOf(c), c.roster)
  }

  /** What the off-chain settlement calls dust is what the contract's last claimant takes. */
  lemma DustMirrorsSpare(c: Claim, s: Fees.FeeSnapshot)
    requires Staked(c) && c.roster != [] && !c.winner.Creator? && Fees.ValidSnapshot(s)
    ensures Fees.Settlement(Everyone(c), s, OutcomeOf(c.winner)).dustUnits == Spare(c)
  {
    var creator := Fees.Participant(c.creator, c.creatorStake, Inflow(c) - Seed(c, c.winner));
    var rest := Participants(TermsOf(c), c.roster);
    ParticipantSums(TermsOf(c), c.roster);
    SpareBounds(c);
    assert ([creator] + rest)[1..] == rest;
    assert Fees.NonNegative(Everyone(c));
    Fees.DustExact(Everyone(c), s, OutcomeOf(c.winner));
  }
}
