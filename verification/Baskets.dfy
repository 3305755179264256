/** Vault shares and the high-water-mark fee (lib/baskets.ts). */
module Baskets {
  import opened Arithmetic
  import opened JsNumbers
  import opened Wrappers

  datatype VaultError = ZeroDeposit | InsolventVault | InvalidRedemption | FeeCapExceeded

  function SharesForDeposit(assets: int, totalAssets: int, totalShares: int): Result<int, VaultError> {
    if assets <= 0 then Err(ZeroDeposit)
    else if totalShares == 0 then Ok(assets)
    else if totalAssets <= 0 then Err(InsolventVault)
    else Ok(TruncDiv(assets * totalShares, totalAssets))
  }

  function AssetsForRedemption(shares: int, totalAssets: int, totalShares: int): Result<int, VaultError> {
    if shares <= 0 || totalShares <= 0 then Err(InvalidRedemption)
    else Ok(TruncDiv(shares * totalAssets, totalShares))
  }

  // ----- A vault run by the two formulas -----

  /** Totals of a vault, and each holder's shares; `paidIn` and `paidOut` record the flows. */
  datatype Vault = Vault(assets: int, shares: int, held: seq<nat>, paidIn: int, paidOut: int)

  datatype Step = Deposit(holder: nat, assets: int) | Redeem(holder: nat, shares: int)

  /** A refused request leaves the vault as it was. */
  function Perform(v: Vault, step: Step): Vault {
    match step
    case Deposit(h, a) => (
      match SharesForDeposit(a, v.assets, v.shares)
      case Ok(minted) =>
        if h < |v.held| && minted >= 0 then
          Vault(v.assets + a, v.shares + minted, v.held[h := v.held[h] + minted], v.paidIn + a, v.paidOut)
        else v
      case Err(_) => v)
    case Redeem(h, s) => (
      match AssetsForRedemption(s, v.assets, v.shares)
      case Ok(out) =>
        if h < |v.held| && s <= v.held[h] then
          Vault(v.assets - out, v.shares - s, v.held[h := v.held[h] - s], v.paidIn, v.paidOut + out)
        else v
      case Err(_) => v)
  }

  function Run(v: Vault, steps: seq<Step>): Vault {
    if steps == [] then v else Perform(Run(v, steps[..|steps| - 1]), steps[|steps| - 1])
  }

  function EmptyVault(holders: nat): Vault { Vault(0, 0, seq(holders, i => 0), 0, 0) }

  function Total(held: seq<nat>): nat {
    if held == [] then 0 else held[0] + Total(held[1..])
  }

  /** What a holder would be paid for all their shares now. */
  function Redeemable(v: Vault, h: nat): int
    requires h < |v.held|
  {
    var out := AssetsForRedemption(v.held[h], v.assets, v.shares);
    if out.Ok? then out.value else 0
  }

  function RedeemableFrom(v: Vault, h: nat): int
    requires h <= |v.held|
    decreases |v.held| - h
  {
    if h == |v.held| then 0 else Redeemable(v, h) + RedeemableFrom(v, h + 1)
  }

  ghost predicate Sound(v: Vault) {
    && 0 <= v.shares <= v.assets && (v.shares == 0 ==> v.assets == 0)
    && Total(v.held) == v.shares && v.assets == v.paidIn - v.paidOut
  }

  lemma {:induction false} TotalUpdate(held: seq<nat>, h: nat, x: nat)
    requires h < |held|
    ensures Total(held[h := x]) == Total(held) - held[h] + x
    ensures held[h] <= Total(held)
  {
    if h > 0 {
      assert held[h := x][1..] == held[1..][h - 1 := x];
      TotalUpdate(held[1..], h - 1, x);
    }
  }

  lemma {:induction false} TotalOfNone(held: seq<nat>)
    requires forall i | 0 <= i < |held| :: held[i] == 0
    ensures Total(held) == 0
  {
    if held != [] { TotalOfNone(held[1..]); }
  }

  /** Which requests are refused, and with what. */
  lemma RefusedIff(n: int, assets: int, shares: int, error: VaultError)
    ensures SharesForDeposit(n, assets, shares) == Err(error)
       <==> if error == ZeroDeposit then n <= 0 else error == InsolventVault && n > 0 && shares != 0 && assets <= 0
    ensures AssetsForRedemption(n, assets, shares) == Err(error)
       <==> error == InvalidRedemption && (n <= 0 || shares <= 0)
  {
  }

  /** The first deposit mints exactly its amount, and redeemed whole it comes back whole. */
  lemma FirstDeposit(a: int, assets: int)
    requires a > 0
    ensures SharesForDeposit(a, assets, 0) == Ok(a) && AssetsForRedemption(a, a, a) == Ok(a)
  {
    PayBounds(a, a, a);
  }

  /** A deposit mints its part of the shares, short by less than one share. */
  lemma MintBounds(a: int, assets: int, shares: int)
    requires a > 0 && 0 < shares <= assets
    ensures var s := SharesForDeposit(a, assets, shares);
      s.Ok? && 0 <= s.value <= a && s.value * assets <= a * shares < s.value * assets + assets
  {
    MulNonNegative(a, shares);
    FloorBounds(a * shares, assets);
    FloorAtLeast(a * shares, assets, 0);
    MulMonotone(shares, assets, a);
    FloorAtMost(a * shares, assets, a);
  }

  /** A redemption pays its part of the assets, short by less than one unit; the last one
      takes them all. */
  lemma PayBounds(s: int, assets: int, shares: int)
    requires 0 < s <= shares <= assets
    ensures var out := AssetsForRedemption(s, assets, shares);
      && out.Ok? && s <= out.value <= assets && out.value * shares <= s * assets < out.value * shares + shares
      && (s == shares ==> out.value == assets)
  {
    MulNonNegative(s, assets);
    FloorBounds(s * assets, shares);
    MulMonotone(shares, assets, s);
    FloorAtLeast(s * assets, shares, s);
    MulMonotone(s, shares, assets);
    FloorAtMost(s * assets, shares, assets);
    if s == shares { FloorAtLeast(s * assets, shares, assets); }
  }

  /** The rate assets / shares does not fall from v to w. */
  predicate RateKept(v: Vault, w: Vault) { v.assets * w.shares <= w.assets * v.shares }

  lemma MintKeeps(assets: int, shares: int, a: int, minted: int)
    requires minted * assets <= a * shares
    ensures assets * (shares + minted) <= (assets + a) * shares
  {
    MulDistributes(shares, minted, assets);
    MulDistributes(assets, a, shares);
  }

  lemma DepositStep(v: Vault, h: nat, a: int)
    requires Sound(v)
    ensures Sound(Perform(v, Deposit(h, a))) && RateKept(v, Perform(v, Deposit(h, a)))
  {
    var w := Perform(v, Deposit(h, a));
    if w != v {
      if v.shares > 0 { MintBounds(a, v.assets, v.shares); }
      var minted := w.shares - v.shares;
      TotalUpdate(v.held, h, v.held[h] + minted);
      MintKeeps(v.assets, v.shares, a, minted);
    }
  }

  /** Paying a floored part lets neither the rate fall nor assets drop below shares. */
  lemma PayKeeps(assets: int, shares: int, out: int, s: int)
    requires 0 < s <= shares <= assets && out * shares <= s * assets
    ensures assets * (shares - s) <= (assets - out) * shares && shares - s <= assets - out
  {
    MulDistributes(shares, s, assets);
    MulDistributes(assets, out, shares);
    RemainderCovers(assets, shares, out, s);
  }

  lemma RedeemStep(v: Vault, h: nat, s: int)
    requires Sound(v)
    ensures Sound(Perform(v, Redeem(h, s))) && RateKept(v, Perform(v, Redeem(h, s)))
  {
    var w := Perform(v, Redeem(h, s));
    if w != v {
      TotalUpdate(v.held, h, v.held[h] - s);
      PayBounds(s, v.assets, v.shares);
      PayKeeps(v.assets, v.shares, AssetsForRedemption(s, v.assets, v.shares).value, s);
    }
  }

  /** If the rate does not fall and assets covered shares before, they cover them after. */
  lemma RemainderCovers(assets: int, shares: int, out: int, s: int)
    requires 0 < s <= shares <= assets && out * shares <= s * assets
    ensures shares - s <= assets - out
  {
    MulDistributes(assets, out, shares);
    MulDistributes(shares, s, assets);
    MulMonotone(shares, assets, shares - s);
    CancelFactor(shares - s, assets - out, shares);
  }

  lemma StepKeepsSound(v: Vault, step: Step)
    requires Sound(v)
    ensures Sound(Perform(v, step)) && RateKept(v, Perform(v, step))
  {
    match step
    case Deposit(h, a) => DepositStep(v, h, a);
    case Redeem(h, s) => RedeemStep(v, h, s);
  }

  /** Every run of deposits and redemptions from an empty vault keeps assets at or above
      shares, and assets equal to what came in less what was paid out. */
  lemma {:induction false} RunIsSound(holders: nat, steps: seq<Step>)
    ensures Sound(Run(EmptyVault(holders), steps))
  {
    if steps == [] {
      TotalOfNone(EmptyVault(holders).held);
    } else {
      RunIsSound(holders, steps[..|steps| - 1]);
      StepKeepsSound(Run(EmptyVault(holders), steps[..|steps| - 1]), steps[|steps| - 1]);
    }
  }

  lemma RateTransitive(u: Vault, v: Vault, w: Vault)
    requires RateKept(u, v) && RateKept(v, w) && u.shares > 0 && v.shares > 0 && w.shares >= 0
    ensures RateKept(u, w)
  {
    MulMonotone(u.assets * v.shares, v.assets * u.shares, w.shares);
    MulMonotone(v.assets * w.shares, w.assets * v.shares, u.shares);
    assert (u.assets * w.shares) * v.shares == (u.assets * v.shares) * w.shares;
    assert (v.assets * u.shares) * w.shares == (v.assets * w.shares) * u.shares;
    assert (w.assets * v.shares) * u.shares == (w.assets * u.shares) * v.shares;
    CancelFactor(u.assets * w.shares, w.assets * u.shares, v.shares);
  }

  /** While shares remain, assets per share never fall over any number of steps. */
  lemma {:induction false} RateNeverFalls(v: Vault, steps: seq<Step>)
    requires Sound(v)
    requires forall i | 0 <= i < |steps| :: Run(v, steps[..i]).shares > 0
    ensures Sound(Run(v, steps)) && RateKept(v, Run(v, steps))
  {
    if steps != [] {
      var n := |steps| - 1;
      var front := steps[..n];
      assert forall i | 0 <= i < n :: front[..i] == steps[..i];
      RateNeverFalls(v, front);
      StepKeepsSound(Run(v, front), steps[n]);
      assert steps[..0] == [];
      if n > 0 { assert Run(v, steps[..0]).shares > 0; RateTransitive(v, Run(v, front), Run(v, steps)); }
    }
  }

  lemma RedeemableBounds(v: Vault, h: nat)
    requires Sound(v) && h < |v.held|
    ensures Redeemable(v, h) >= 0 && Redeemable(v, h) * v.shares <= v.held[h] * v.assets
  {
    if v.held[h] > 0 && v.shares > 0 {
      TotalUpdate(v.held, h, 0);
      PayBounds(v.held[h], v.assets, v.shares);
    }
  }

  lemma {:induction false} RedeemableSum(v: Vault, h: nat)
    requires Sound(v) && h <= |v.held|
    ensures RedeemableFrom(v, h) * v.shares <= Total(v.held[h..]) * v.assets
    decreases |v.held| - h
  {
    if h < |v.held| {
      RedeemableSum(v, h + 1);
      RedeemableBounds(v, h);
      assert v.held[h..][1..] == v.held[h + 1..];
      MulDistributes(Redeemable(v, h), RedeemableFrom(v, h + 1), v.shares);
      MulDistributes(v.held[h], Total(v.held[h + 1..]), v.assets);
    }
  }

  /** All holders together can never be owed more than the vault holds. */
  lemma ClaimsNeverExceedAssets(holders: nat, steps: seq<Step>)
    ensures var v := Run(EmptyVault(holders), steps);
      RedeemableFrom(v, 0) <= v.assets && v.paidOut + RedeemableFrom(v, 0) <= v.paidIn
  {
    var v := Run(EmptyVault(holders), steps);
    RunIsSound(holders, steps);
    RedeemableSum(v, 0);
    assert v.held[0..] == v.held;
    if v.shares > 0 {
      assert Total(v.held) * v.assets == v.assets * v.shares;
      CancelFactor(RedeemableFrom(v, 0), v.assets, v.shares);
    } else {
      NothingRedeemable(v, 0);
    }
  }

  lemma {:induction false} NothingRedeemable(v: Vault, h: nat)
    requires v.shares == 0 && h <= |v.held|
    ensures RedeemableFrom(v, h) == 0
    decreases |v.held| - h
  {
    if h < |v.held| { NothingRedeemable(v, h + 1); }
  }

  lemma MintedWorth(minted: int, a: int, assets: int, shares: int)
    requires minted * assets <= a * shares < minted * assets + assets
    ensures minted * (assets + a) <= a * (shares + minted) < minted * (assets + a) + assets
  {
    MulDistributes(assets, a, minted);
    MulDistributes(shares, minted, a);
  }

  /** What comes back of a deposit, in terms of what was minted and floored twice. */
  lemma LossBound(a: int, out: int, worth: int, assets: int, shares: int)
    requires a * shares < worth + assets && worth < out * shares + shares
    ensures (a - out - 1) * shares < assets
  {
    MulDistributes(a, out + 1, shares);
    MulDistributes(out, 1, shares);
  }

  /** Redeeming what a deposit of `a` minted. */
  lemma RedeemMinted(s: int, a: int, assets: int, shares: int)
    requires 0 < shares <= assets && 0 < s <= a && s * assets <= a * shares < s * assets + assets
    ensures var out := AssetsForRedemption(s, assets + a, shares + s);
      out.Ok? && 0 < out.value <= a && (a - out.value - 1) * (shares + s) < assets
  {
    MintedWorth(s, a, assets, shares);
    PayBounds(s, assets + a, shares + s);
    FloorAtMost(s * (assets + a), shares + s, a);
    LossBound(a, AssetsForRedemption(s, assets + a, shares + s).value, s * (assets + a), assets, shares + s);
  }

  /** Minting and redeeming at once never returns more than was deposited, and loses at most
      one unit and less than the price of one share. */
  lemma MintThenRedeem(v: Vault, a: int)
    requires Sound(v) && a > 0
    ensures var minted := SharesForDeposit(a, v.assets, v.shares);
      && minted.Ok? && minted.value >= 0
      && (minted.value > 0 ==>
           var out := AssetsForRedemption(minted.value, v.assets + a, v.shares + minted.value);
           && out.Ok? && 0 < out.value <= a
           && (v.shares > 0 ==> (a - out.value - 1) * (v.shares + minted.value) < v.assets))
  {
    if v.shares > 0 {
      MintBounds(a, v.assets, v.shares);
      var s := SharesForDeposit(a, v.assets, v.shares).value;
      if s > 0 { RedeemMinted(s, a, v.assets, v.shares); }
    } else {
      PayBounds(a, a, a);
    }
  }

  /** A floored part does not shrink when the rate does not fall. */
  lemma FloorKept(part: nat, assets: nat, shares: int, assets': nat, shares': int)
    requires shares > 0 && shares' > 0 && assets * shares' <= assets' * shares
    ensures part * assets / shares <= part * assets' / shares'
  {
    var q := part * assets / shares;
    FloorBounds(part * assets, shares);
    MulMonotone(q * shares, part * assets, shares');
    MulMonotone(assets * shares', assets' * shares, part);
    Reorder(q, shares, shares');
    Reorder(part, assets, shares');
    Reorder(part, assets', shares);
    CancelFactor(q * shares', part * assets', shares);
    FloorAtLeast(part * assets', shares', q);
  }

  lemma Reorder(x: int, y: int, z: int)
    ensures (x * y) * z == (x * z) * y && (x * y) * z == (y * z) * x
  {
  }

  lemma RedeemableIsFloor(v: Vault, h: nat)
    requires Sound(v) && h < |v.held| && v.held[h] > 0
    ensures v.shares > 0 && Redeemable(v, h) == v.held[h] * v.assets / v.shares
  {
    TotalUpdate(v.held, h, 0);
    MulNonNegative(v.held[h], v.assets);
  }

  /** A holder who deposits and redeems what was minted has the same shares as before, and so has
      everybody else; the vault keeps what the two roundings cost, and it is never negative. */
  lemma RoundTripOfHolder(v: Vault, h: nat, a: int)
    requires Sound(v) && h < |v.held| && a > 0
    ensures var before := Perform(v, Deposit(h, a));
      h < |before.held| && var after := Perform(before, Redeem(h, before.held[h] - v.held[h]));
      && before.assets == v.assets + a && before.paidIn == v.paidIn + a && before.paidOut == v.paidOut
      && after.held == v.held && after.shares == v.shares && after.paidIn - v.paidIn == a
      && 0 <= after.paidOut - v.paidOut <= a && after.assets - v.assets == a - (after.paidOut - v.paidOut)
  {
    MintThenRedeem(v, a);
    if v.shares == 0 { FirstDeposit(a, v.assets); }
  }

  /** Nobody's claim is reduced by what another holder does. */
  lemma BystanderKeepsClaim(v: Vault, step: Step, h: nat)
    requires Sound(v) && h < |v.held| && h != step.holder
    ensures h < |Perform(v, step).held| && Redeemable(Perform(v, step), h) >= Redeemable(v, h)
  {
    var w := Perform(v, step);
    StepKeepsSound(v, step);
    assert h < |w.held| && w.held[h] == v.held[h];
    if v.held[h] > 0 {
      RedeemableIsFloor(v, h);
      RedeemableIsFloor(w, h);
      FloorKept(v.held[h], v.assets, v.shares, w.assets, w.shares);
    }
  }

  // ----- The high-water-mark fee -----

  const FEE_DIVISOR: int := 10_000
  const MAX_FEE_BPS: int := 1_000

  datatype Charge = Charge(fee: int, nextMark: int)

  function HighWaterMarkFee(nav: int, mark: int, bps: int): Result<Charge, VaultError> {
    if bps < 0 || bps > MAX_FEE_BPS then Err(FeeCapExceeded)
    else
      var gain := if nav > mark then nav - mark else 0;
      Ok(Charge(TruncDiv(gain * bps, FEE_DIVISOR), if nav > mark then nav else mark))
  }

  /** A rate out of bounds is refused. Otherwise the fee is the rate on what lies above the mark,
      rounded down, and the mark is raised to a higher value but never lowered. */
  lemma FeeOnGain(nav: int, mark: int, bps: int)
    ensures HighWaterMarkFee(nav, mark, bps) == Err(FeeCapExceeded) <==> !(0 <= bps <= 1_000)
    ensures 0 <= bps <= 1_000 ==>
      match HighWaterMarkFee(nav, mark, bps)
      case Err(_) => false
      case Ok(charge) =>
        && charge.nextMark == (if nav <= mark then mark else nav)
        && (nav <= mark ==> charge.fee == 0)
        && (nav > mark ==> charge.fee * 10_000 <= (nav - mark) * bps < charge.fee * 10_000 + 10_000)
  {
    if nav > mark && bps >= 0 {
      MulNonNegative(nav - mark, bps);
      FloorBounds((nav - mark) * bps, FEE_DIVISOR);
    }
  }

  datatype FeeRun = FeeRun(fees: int, mark: int, newHighs: nat)

  /** Charges a NAV series one snapshot after another, carrying the mark along. */
  function ChargeAll(navs: seq<int>, mark: int, bps: int): FeeRun
    requires 0 <= bps <= MAX_FEE_BPS
  {
    if navs == [] then FeeRun(0, mark, 0)
    else
      var n := |navs| - 1;
      var before := ChargeAll(navs[..n], mark, bps);
      var charge := HighWaterMarkFee(navs[n], before.mark, bps).value;
      FeeRun(before.fees + charge.fee, charge.nextMark, before.newHighs + if navs[n] > before.mark then 1 else 0)
  }

  /** The final mark is the highest value seen. */
  lemma {:induction false} MarkIsMaximum(navs: seq<int>, mark: int, bps: int)
    requires 0 <= bps <= MAX_FEE_BPS
    ensures var final := ChargeAll(navs, mark, bps).mark;
      && final >= mark && (forall i | 0 <= i < |navs| :: final >= navs[i])
      && (final == mark || final in navs)
  {
    if navs != [] {
      var n := |navs| - 1;
      MarkIsMaximum(navs[..n], mark, bps);
      assert navs == navs[..n] + [navs[n]];
    }
  }

  /** Each gain is charged once: the fees never pass the rate on the whole rise of the mark,
      and fall short of it by less than one unit per new high. */
  lemma {:induction false} GainsChargedOnce(navs: seq<int>, mark: int, bps: int)
    requires 0 <= bps <= MAX_FEE_BPS
    ensures var r := ChargeAll(navs, mark, bps);
      && r.fees * FEE_DIVISOR <= bps * (r.mark - mark)
      && bps * (r.mark - mark) <= r.fees * FEE_DIVISOR + r.newHighs * (FEE_DIVISOR - 1)
  {
    if navs != [] {
      var n := |navs| - 1;
      GainsChargedOnce(navs[..n], mark, bps);
      var before := ChargeAll(navs[..n], mark, bps);
      if navs[n] > before.mark {
        ChargeOnRise(before.fees, before.mark - mark, before.newHighs, navs[n] - before.mark, bps);
      }
    }
  }

  /** Charging one more gain keeps the bounds. */
  lemma ChargeOnRise(fees: int, rise: int, highs: nat, gain: nat, bps: nat)
    requires fees * FEE_DIVISOR <= bps * rise <= fees * FEE_DIVISOR + highs * (FEE_DIVISOR - 1)
    ensures var total := fees + TruncDiv(gain * bps, FEE_DIVISOR);
      total * FEE_DIVISOR <= bps * (rise + gain) <= total * FEE_DIVISOR + (highs + 1) * (FEE_DIVISOR - 1)
  {
    MulNonNegative(gain, bps);
    FloorBounds(gain * bps, FEE_DIVISOR);
    MulDistributes(rise, gain, bps);
  }
}
