/** The copy-trading gate, its usage ledger, and what a whole run of copies may spend
    (lib/copy-trading.ts). */
module CopyTrading {
  import opened Wrappers
  import opened JsNumbers
  import opened JsStrings

  const MS_PER_DAY: int := 86_400_000
  const SECONDS_BELOW: real := 100_000_000_000.0
  const EXECUTED := Ascii("executed")

  // ----- Amounts -----

  /** A display USDC number: an exact multiple of the seventh decimal, or anything else. */
  datatype Display = Malformed | Atomic(units: int)

  /** `parseUsdcAtomic` of a number, which goes through its decimal rendering: amounts below
      ten atomic units render with an exponent and are refused. */
  function ParseUsdc(d: Display): Option<nat> {
    if d.Malformed? || d.units < 0 || 0 < d.units < 10 then None else Some(d.units)
  }

  predicate IsSafeDisplay(d: Display) { d.Atomic? && -MAX_SAFE <= d.units <= MAX_SAFE }

  // ----- The gate -----

  datatype PermissionStatus = Active | Revoked | Paused

  datatype Permission = Permission(
    permissionId: JsString, ownerWallet: JsString, executionAgentId: JsString, signalAgentId: JsString,
    maxPerPosition: Display, dailyCap: Display,
    weeklyCap: Display, totalOpenExposure: Display, maxRealizedLossAtomic: JsString,
    allowedCategories: seq<JsString>, allowedModes: seq<JsString>, minConfidenceBps: real, minPayoutBps: real,
    expiresAt: real, depth: real, status: PermissionStatus, token: JsString, spender: JsString, allowanceAtomic: int,
    periodSeconds: real)

  datatype Usage = Usage(usedToday: Display, usedThisWeek: Display, openExposure: Display)

  datatype MarketState = Open | ActiveMarket | Resolved | Cancelled

  datatype Signal = Signal(
    sourcePositionId: JsString, signalAgentId: JsString, sourceDepth: Num, claimId: Num, category: JsString,
    mode: JsString, confidenceBps: Num, payoutBps: Num, stake: Display, deadline: Num, remainingSlots: Num,
    availableLiquidity: Display, requiredLiquidity: Display, sourceAttributionId: JsString,
    marketState: Option<MarketState>)

  datatype Context = Context(
    now: Num, globalPaused: bool, switchedOff: bool, usage: Usage, realizedLossAtomic: JsString,
    existingClaimIds: set<int>, ancestryAgentIds: seq<JsString>, configuredUsdc: JsString, configuredSpender: JsString,
    onchainAllowanceAtomic: int, simulationOk: bool, simulationBlock: int)

  datatype SkipReason = GlobalPaused | PermissionRevoked | PermissionPaused | MalformedContext | PermissionExpired
    | MalformedSignal | SelfCopy | SignalAgentMismatch | MarketCancelled | MarketClosed | CopyDepth | Cycle
    | DuplicatePosition | StaleSignal | MarketFull | LiquidityExhausted | CategoryBlocked | ModeBlocked
    | ConfidenceBelowFloor | PayoutBelowFloor | PositionCap | DailyCap | WeeklyCap | OpenExposureCap | LossLimit
    | SpendPermissionMismatch | SimulationFailed

  /** `Throws` is a malformed cap in the permission itself, which the gate does not catch. */
  datatype Decision = Allowed(stake: Display) | Denied(reason: SkipReason) | Throws

  predicate GoodContext(c: Context) {
    && IsSafeInteger(c.now)
    && IsSafeDisplay(c.usage.usedToday) && IsSafeDisplay(c.usage.usedThisWeek) && IsSafeDisplay(c.usage.openExposure)
    && ParseCanonicalDecimal(c.realizedLossAtomic).Some?
    && c.onchainAllowanceAtomic >= 0 && c.simulationBlock >= 0
    && ParseUsdc(c.usage.usedToday).Some? && ParseUsdc(c.usage.usedThisWeek).Some?
    && ParseUsdc(c.usage.openExposure).Some?
  }

  predicate IsId(s: JsString) { 0 < |s| <= 128 }

  predicate IsNonNegativeInteger(n: Num) { n.Finite? && IsInteger(n.value) && n.value >= 0.0 }

  predicate GoodSignal(s: Signal) {
    && IsId(s.sourcePositionId) && IsId(s.sourceAttributionId) && s.signalAgentId != []
    && IsSafeInteger(s.claimId) && s.claimId.value >= 0.0 && IsSafeInteger(s.sourceDepth) && s.sourceDepth.value >= 0.0
    && IsSafeInteger(s.deadline) && IsSafeInteger(s.remainingSlots)
    && IsNonNegativeInteger(s.confidenceBps) && s.confidenceBps.value <= 10_000.0 && IsNonNegativeInteger(s.payoutBps)
    && s.category != [] && s.mode != []
    && ParseUsdc(s.stake).Some? && ParseUsdc(s.availableLiquidity).Some? && ParseUsdc(s.requiredLiquidity).Some?
  }

  /** What the checks on the shape of signal and context leave to be relied on. */
  predicate Readable(s: Signal, c: Context) {
    && c.now.Finite? && s.sourceDepth.Finite? && s.claimId.Finite? && IsInteger(s.claimId.value)
    && s.deadline.Finite? && s.remainingSlots.Finite? && s.confidenceBps.Finite? && s.payoutBps.Finite?
    && ParseUsdc(s.stake).Some? && ParseUsdc(s.availableLiquidity).Some? && ParseUsdc(s.requiredLiquidity).Some?
    && ParseUsdc(c.usage.usedToday).Some? && ParseUsdc(c.usage.usedThisWeek).Some?
    && ParseUsdc(c.usage.openExposure).Some? && ParseCanonicalDecimal(c.realizedLossAtomic).Some?
  }

  predicate InAncestry(ids: seq<JsString>, agent: JsString) {
    exists i | 0 <= i < |ids| :: LowerAscii(ids[i]) == LowerAscii(agent)
  }

  /** `evaluateCopy`: its checks in their order, each of the functions below going on where the
      one before it ends. */
  function EvaluateCopy(p: Permission, s: Signal, c: Context): Decision {
    if c.globalPaused || c.switchedOff then Denied(GlobalPaused)
    else if p.status.Revoked? then Denied(PermissionRevoked)
    else if p.status.Paused? then Denied(PermissionPaused)
    else if !GoodContext(c) then Denied(MalformedContext)
    else if c.now.value >= p.expiresAt then Denied(PermissionExpired)
    else if !GoodSignal(s) then Denied(MalformedSignal)
    else EvaluateSignal(p, s, c)
  }

  function EvaluateSignal(p: Permission, s: Signal, c: Context): Decision
    requires Readable(s, c)
  {
    if s.signalAgentId == p.executionAgentId then Denied(SelfCopy)
    else if s.signalAgentId != p.signalAgentId then Denied(SignalAgentMismatch)
    else if s.marketState == Some(Cancelled) then Denied(MarketCancelled)
    else if s.marketState == Some(Resolved) then Denied(MarketClosed)
    else EvaluatePosition(p, s, c)
  }

  function EvaluatePosition(p: Permission, s: Signal, c: Context): Decision
    requires Readable(s, c)
  {
    if s.sourceDepth.value >= p.depth then Denied(CopyDepth)
    else if InAncestry(c.ancestryAgentIds, p.executionAgentId) then Denied(Cycle)
    else if s.claimId.value.Floor in c.existingClaimIds then Denied(DuplicatePosition)
    else if s.deadline.value <= c.now.value then Denied(StaleSignal)
    else if s.remainingSlots.value <= 0.0 then Denied(MarketFull)
    else EvaluateTerms(p, s, c)
  }

  function EvaluateTerms(p: Permission, s: Signal, c: Context): Decision
    requires Readable(s, c)
  {
    if ParseUsdc(s.requiredLiquidity).value > ParseUsdc(s.availableLiquidity).value then Denied(LiquidityExhausted)
    else if p.allowedCategories != [] && s.category !in p.allowedCategories then Denied(CategoryBlocked)
    else if p.allowedModes != [] && s.mode !in p.allowedModes then Denied(ModeBlocked)
    else if s.confidenceBps.value < p.minConfidenceBps then Denied(ConfidenceBelowFloor)
    else if s.payoutBps.value < p.minPayoutBps then Denied(PayoutBelowFloor)
    else EvaluateBudget(p, s, c)
  }

  function EvaluateBudget(p: Permission, s: Signal, c: Context): Decision
    requires Readable(s, c)
  {
    var stake := ParseUsdc(s.stake).value;
    var position, daily, weekly := ParseUsdc(p.maxPerPosition), ParseUsdc(p.dailyCap), ParseUsdc(p.weeklyCap);
    if stake == 0 then Denied(PositionCap)
    else if position.None? then Throws
    else if stake > position.value then Denied(PositionCap)
    else if daily.None? then Throws
    else if ParseUsdc(c.usage.usedToday).value + stake > daily.value then Denied(DailyCap)
    else if weekly.None? then Throws
    else if ParseUsdc(c.usage.usedThisWeek).value + stake > weekly.value then Denied(WeeklyCap)
    else EvaluateExposure(p, s, c)
  }

  function EvaluateExposure(p: Permission, s: Signal, c: Context): Decision
    requires Readable(s, c)
  {
    var stake := ParseUsdc(s.stake).value;
    var open, lossLimit := ParseUsdc(p.totalOpenExposure), ParseCanonicalDecimal(p.maxRealizedLossAtomic);
    if open.None? then Throws
    else if ParseUsdc(c.usage.openExposure).value + stake > open.value then Denied(OpenExposureCap)
    else if lossLimit.None? then Throws
    else if ParseCanonicalDecimal(c.realizedLossAtomic).value + stake > lossLimit.value then Denied(LossLimit)
    else EvaluateSpend(p, s, c)
  }

  function EvaluateSpend(p: Permission, s: Signal, c: Context): Decision
    requires Readable(s, c)
  {
    var stake := ParseUsdc(s.stake).value;
    if Trim(p.token) != Trim(c.configuredUsdc) || Trim(p.spender) != Trim(c.configuredSpender)
      || p.allowanceAtomic < stake || c.onchainAllowanceAtomic < stake then Denied(SpendPermissionMismatch)
    else if !c.simulationOk then Denied(SimulationFailed)
    else Allowed(s.stake)
  }

  /** A cap as the gate reads it; a malformed one lets nothing through. */
  function Cap(d: Display): nat {
    match ParseUsdc(d)
    case None => 0
    case Some(n) => n
  }

  function LossCap(p: Permission): nat {
    match ParseCanonicalDecimal(p.maxRealizedLossAtomic)
    case None => 0
    case Some(n) => n
  }

  /** The requirements that are not about amounts, in no particular order. */
  predicate Eligible(p: Permission, s: Signal, c: Context) {
    && GoodContext(c) && GoodSignal(s) && c.simulationOk
    && p.status.Active? && !c.globalPaused && !c.switchedOff
    && c.now.value < p.expiresAt && c.now.value < s.deadline.value
    && s.signalAgentId == p.signalAgentId != p.executionAgentId
    && s.sourceDepth.value < p.depth && !InAncestry(c.ancestryAgentIds, p.executionAgentId)
    && s.marketState !in {Some(Resolved), Some(Cancelled)} && s.remainingSlots.value > 0.0
    && s.claimId.value.Floor !in c.existingClaimIds
    && (p.allowedCategories == [] || s.category in p.allowedCategories)
    && (p.allowedModes == [] || s.mode in p.allowedModes)
    && p.minConfidenceBps <= s.confidenceBps.value && p.minPayoutBps <= s.payoutBps.value
    && Trim(p.token) == Trim(c.configuredUsdc) && Trim(p.spender) == Trim(c.configuredSpender)
  }

  /** A positive stake fits the market, every cap together with its usage, and both allowances. */
  predicate Affordable(p: Permission, s: Signal, c: Context)
    requires GoodContext(c)
  {
    var stake := Cap(s.stake);
    && 0 < stake <= Cap(p.maxPerPosition) && Cap(s.requiredLiquidity) <= Cap(s.availableLiquidity)
    && Cap(c.usage.usedToday) + stake <= Cap(p.dailyCap)
    && Cap(c.usage.usedThisWeek) + stake <= Cap(p.weeklyCap)
    && Cap(c.usage.openExposure) + stake <= Cap(p.totalOpenExposure)
    && ParseCanonicalDecimal(c.realizedLossAtomic).value + stake <= LossCap(p)
    && stake <= p.allowanceAtomic && stake <= c.onchainAllowanceAtomic
  }

  /** The ordered gate lets a copy through exactly when all requirements hold at once, and
      then at the stake the signal asked for. */
  lemma AllowedIff(p: Permission, s: Signal, c: Context)
    ensures EvaluateCopy(p, s, c).Allowed? <==> Eligible(p, s, c) && Affordable(p, s, c)
    ensures EvaluateCopy(p, s, c).Allowed?
      ==> EvaluateCopy(p, s, c) == Allowed(s.stake) && s.stake == Atomic(Cap(s.stake))
  {
    if GoodContext(c) && GoodSignal(s) { BudgetIff(p, s, c); }
  }

  /** What each refusal objects to. */
  predicate Fails(reason: SkipReason, p: Permission, s: Signal, c: Context) {
    if Turn(reason) < 6 then PermissionFails(reason, p, s, c)
    else if Turn(reason) < 10 then SignalFails(reason, p, s, c)
    else if Turn(reason) < 15 then PositionFails(reason, p, s, c)
    else if Turn(reason) < 20 then TermsFail(reason, p, s, c)
    else if Turn(reason) < 23 then BudgetFails(reason, p, s, c)
    else if Turn(reason) < 25 then ExposureFails(reason, p, s, c)
    else SpendFails(reason, p, s, c)
  }

  /** Something about the context that is not as it has to be. */
  predicate HasBadContext(c: Context) {
    || !IsSafeInteger(c.now) || c.onchainAllowanceAtomic < 0 || c.simulationBlock < 0
    || ParseCanonicalDecimal(c.realizedLossAtomic).None?
    || exists used | used in {c.usage.usedToday, c.usage.usedThisWeek, c.usage.openExposure} ::
         ParseUsdc(used).None? || !IsSafeDisplay(used)
  }

  /** Something about the signal that is not as it has to be. */
  predicate HasBadSignal(s: Signal) {
    || [] in {s.sourcePositionId, s.sourceAttributionId, s.signalAgentId, s.category, s.mode}
    || |s.sourcePositionId| > 128 || |s.sourceAttributionId| > 128
    || (exists n | n in {s.claimId, s.sourceDepth, s.deadline, s.remainingSlots} :: !IsSafeInteger(n))
    || (exists n | n in {s.confidenceBps, s.payoutBps} :: !n.Finite? || !IsInteger(n.value))
    || (exists n | n in {s.claimId, s.sourceDepth, s.confidenceBps, s.payoutBps} :: n.Finite? && n.value < 0.0)
    || Below(Finite(10_000.0), s.confidenceBps)
    || exists amount | amount in {s.stake, s.availableLiquidity, s.requiredLiquidity} :: ParseUsdc(amount).None?
  }

  lemma BadContextIff(c: Context)
    ensures HasBadContext(c) <==> !GoodContext(c)
  {
  }

  lemma BadSignalIff(s: Signal)
    ensures HasBadSignal(s) <==> !GoodSignal(s)
  {
    var rates, counts := {s.confidenceBps, s.payoutBps}, {s.claimId, s.sourceDepth, s.confidenceBps, s.payoutBps};
    assert s.confidenceBps in rates && s.payoutBps in rates;
    assert forall n | n in rates :: n in counts;
    assert s.claimId in counts && s.sourceDepth in counts;
    var amounts := {s.stake, s.availableLiquidity, s.requiredLiquidity};
    assert s.stake in amounts && s.availableLiquidity in amounts && s.requiredLiquidity in amounts;
    var whole := {s.claimId, s.sourceDepth, s.deadline, s.remainingSlots};
    assert s.claimId in whole && s.sourceDepth in whole && s.deadline in whole && s.remainingSlots in whole;
    var texts := {s.sourcePositionId, s.sourceAttributionId, s.signalAgentId, s.category, s.mode};
    assert [] in texts
      <==> s.sourcePositionId == [] || s.sourceAttributionId == [] || s.signalAgentId == [] || s.category == []
           || s.mode == [];
  }

  /** Pauses, the permission, and the shape of what comes with the signal. */
  predicate PermissionFails(reason: SkipReason, p: Permission, s: Signal, c: Context) {
    match reason
    case GlobalPaused => c.globalPaused || c.switchedOff
    case PermissionRevoked => p.status == Revoked
    case PermissionPaused => p.status == Paused
    case MalformedContext => HasBadContext(c)
    case PermissionExpired => !Below(c.now, Finite(p.expiresAt))
    case MalformedSignal => HasBadSignal(s)
    case _ => false
  }

  /** Whose signal it is, and the state of its market. */
  predicate SignalFails(reason: SkipReason, p: Permission, s: Signal, c: Context) {
    match reason
    case SelfCopy => p.executionAgentId == s.signalAgentId
    case SignalAgentMismatch => p.signalAgentId != s.signalAgentId
    case MarketCancelled => s.marketState == Some(Cancelled)
    case MarketClosed => s.marketState == Some(Resolved)
    case _ => false
  }

  /** Whether the position can be copied at all. */
  predicate PositionFails(reason: SkipReason, p: Permission, s: Signal, c: Context) {
    match reason
    case CopyDepth => !Below(s.sourceDepth, Finite(p.depth))
    case Cycle => exists id :: id in c.ancestryAgentIds && LowerAscii(id) == LowerAscii(p.executionAgentId)
    case DuplicatePosition => exists id :: id in c.existingClaimIds && s.claimId == Finite(id as real)
    case StaleSignal => !Below(c.now, s.deadline)
    case MarketFull => !Below(Finite(0.0), s.remainingSlots)
    case _ => false
  }

  /** Liquidity, lists and floors. */
  predicate TermsFail(reason: SkipReason, p: Permission, s: Signal, c: Context) {
    match reason
    case LiquidityExhausted => Cap(s.availableLiquidity) < Cap(s.requiredLiquidity)
    case CategoryBlocked => p.allowedCategories != [] && s.category !in p.allowedCategories
    case ModeBlocked => p.allowedModes != [] && s.mode !in p.allowedModes
    case ConfidenceBelowFloor => Below(s.confidenceBps, Finite(p.minConfidenceBps))
    case PayoutBelowFloor => Below(s.payoutBps, Finite(p.minPayoutBps))
    case _ => false
  }

  /** The caps on a position, a day and a week, each together with what has been used of it. */
  predicate BudgetFails(reason: SkipReason, p: Permission, s: Signal, c: Context) {
    match reason
    case PositionCap => !(0 < Cap(s.stake) <= Cap(p.maxPerPosition))
    case DailyCap => Cap(p.dailyCap) < Cap(c.usage.usedToday) + Cap(s.stake)
    case WeeklyCap => Cap(p.weeklyCap) < Cap(c.usage.usedThisWeek) + Cap(s.stake)
    case _ => false
  }

  /** The caps on what is open and on what is lost. */
  predicate ExposureFails(reason: SkipReason, p: Permission, s: Signal, c: Context) {
    match reason
    case OpenExposureCap => Cap(p.totalOpenExposure) < Cap(c.usage.openExposure) + Cap(s.stake)
    case LossLimit => LossCap(p) < RealizedLoss(c) + Cap(s.stake)
    case _ => false
  }

  /** The spend permission and the simulation. */
  predicate SpendFails(reason: SkipReason, p: Permission, s: Signal, c: Context) {
    match reason
    case SpendPermissionMismatch =>
      || Trim(p.token) != Trim(c.configuredUsdc) || Trim(p.spender) != Trim(c.configuredSpender)
      || p.allowanceAtomic < Cap(s.stake) || c.onchainAllowanceAtomic < Cap(s.stake)
    case SimulationFailed => !c.simulationOk
    case _ => false
  }

  predicate Below(a: Num, b: Num) { a.Finite? && b.Finite? && a.value < b.value }

  function RealizedLoss(c: Context): nat {
    match ParseCanonicalDecimal(c.realizedLossAtomic)
    case None => 0
    case Some(n) => n
  }

  /** The cap that a check reads is malformed. A stake of nothing is refused before any is read. */
  predicate Unreadable(reason: SkipReason, p: Permission, s: Signal) {
    match reason
    case PositionCap => Cap(s.stake) > 0 && ParseUsdc(p.maxPerPosition).None?
    case DailyCap => ParseUsdc(p.dailyCap).None?
    case WeeklyCap => ParseUsdc(p.weeklyCap).None?
    case OpenExposureCap => ParseUsdc(p.totalOpenExposure).None?
    case LossLimit => ParseCanonicalDecimal(p.maxRealizedLossAtomic).None?
    case _ => false
  }

  /** The order of the checks. */
  function Turn(reason: SkipReason): nat {
    match reason
    case GlobalPaused => 0
    case PermissionRevoked => 1
    case PermissionPaused => 2
    case MalformedContext => 3
    case PermissionExpired => 4
    case MalformedSignal => 5
    case SelfCopy => 6
    case SignalAgentMismatch => 7
    case MarketCancelled => 8
    case MarketClosed => 9
    case CopyDepth => 10
    case Cycle => 11
    case DuplicatePosition => 12
    case StaleSignal => 13
    case MarketFull => 14
    case LiquidityExhausted => 15
    case CategoryBlocked => 16
    case ModeBlocked => 17
    case ConfidenceBelowFloor => 18
    case PayoutBelowFloor => 19
    case PositionCap => 20
    case DailyCap => 21
    case WeeklyCap => 22
    case OpenExposureCap => 23
    case LossLimit => 24
    case SpendPermissionMismatch => 25
    case SimulationFailed => 26
  }

  /** No check before this turn fails. */
  ghost predicate Passes(turn: nat, p: Permission, s: Signal, c: Context) {
    forall reason | Turn(reason) < turn :: !Fails(reason, p, s, c)
  }

  /** The first requirement that fails. */
  ghost predicate IsFirst(reason: SkipReason, p: Permission, s: Signal, c: Context) {
    Fails(reason, p, s, c) && Passes(Turn(reason), p, s, c)
  }

  /** What the gate answers to the first requirement that fails. */
  function Answer(reason: SkipReason, p: Permission, s: Signal): Decision {
    if Unreadable(reason, p, s) then Throws else Denied(reason)
  }

  lemma GateDenies(p: Permission, s: Signal, c: Context, reason: SkipReason)
    requires 0 <= Turn(reason) < 6 && IsFirst(reason, p, s, c)
    ensures EvaluateCopy(p, s, c) == Answer(reason, p, s)
  {
    BadContextIff(c);
    BadSignalIff(s);
    match reason
    case GlobalPaused =>
    case PermissionRevoked =>
      assert !Fails(GlobalPaused, p, s, c);
    case PermissionPaused =>
      assert !Fails(GlobalPaused, p, s, c) && !Fails(PermissionRevoked, p, s, c);
    case MalformedContext =>
      assert !Fails(GlobalPaused, p, s, c) && !Fails(PermissionRevoked, p, s, c) && !Fails(PermissionPaused, p, s,
      c);
    case PermissionExpired =>
      assert !Fails(GlobalPaused, p, s, c) && !Fails(PermissionRevoked, p, s, c) && !Fails(PermissionPaused, p, s,
      c) && !Fails(MalformedContext, p, s, c);
    case MalformedSignal =>
      assert !Fails(GlobalPaused, p, s, c) && !Fails(PermissionRevoked, p, s, c) && !Fails(PermissionPaused, p, s,
      c) && !Fails(MalformedContext, p, s, c) && !Fails(PermissionExpired, p, s, c);
  }

  lemma GatePasses(p: Permission, s: Signal, c: Context)
    requires Passes(6, p, s, c)
    ensures Readable(s, c) && EvaluateCopy(p, s, c) == EvaluateSignal(p, s, c)
  {
    BadContextIff(c);
    BadSignalIff(s);
    assert !Fails(GlobalPaused, p, s, c) && !Fails(PermissionRevoked, p, s, c) && !Fails(PermissionPaused, p, s, c)
    && !Fails(MalformedContext, p, s, c) && !Fails(PermissionExpired, p, s, c) && !Fails(MalformedSignal, p, s, c);
  }

  lemma SignalDenies(p: Permission, s: Signal, c: Context, reason: SkipReason)
    requires Readable(s, c)
    requires 6 <= Turn(reason) < 10 && IsFirst(reason, p, s, c)
    ensures EvaluateSignal(p, s, c) == Answer(reason, p, s)
  {
    match reason
    case SelfCopy =>
    case SignalAgentMismatch =>
      assert !Fails(SelfCopy, p, s, c);
    case MarketCancelled =>
      assert !Fails(SelfCopy, p, s, c) && !Fails(SignalAgentMismatch, p, s, c);
    case MarketClosed =>
      assert !Fails(SelfCopy, p, s, c) && !Fails(SignalAgentMismatch, p, s, c) && !Fails(MarketCancelled, p, s, c);
  }

  lemma SignalPasses(p: Permission, s: Signal, c: Context)
    requires Readable(s, c)
    requires Passes(10, p, s, c)
    ensures EvaluateSignal(p, s, c) == EvaluatePosition(p, s, c)
  {
    assert !Fails(SelfCopy, p, s, c) && !Fails(SignalAgentMismatch, p, s, c) && !Fails(MarketCancelled, p, s, c) &&
    !Fails(MarketClosed, p, s, c);
  }

  lemma PositionDenies(p: Permission, s: Signal, c: Context, reason: SkipReason)
    requires Readable(s, c)
    requires 10 <= Turn(reason) < 15 && IsFirst(reason, p, s, c)
    ensures EvaluatePosition(p, s, c) == Answer(reason, p, s)
  {
    match reason
    case CopyDepth =>
    case Cycle =>
      assert !Fails(CopyDepth, p, s, c);
    case DuplicatePosition =>
      assert !Fails(CopyDepth, p, s, c) && !Fails(Cycle, p, s, c);
    case StaleSignal =>
      assert !Fails(CopyDepth, p, s, c) && !Fails(Cycle, p, s, c) && !Fails(DuplicatePosition, p, s, c);
    case MarketFull =>
      assert !Fails(CopyDepth, p, s, c) && !Fails(Cycle, p, s, c) && !Fails(DuplicatePosition, p, s, c) &&
      !Fails(StaleSignal, p, s, c);
  }

  lemma PositionPasses(p: Permission, s: Signal, c: Context)
    requires Readable(s, c)
    requires Passes(15, p, s, c)
    ensures EvaluatePosition(p, s, c) == EvaluateTerms(p, s, c)
  {
    assert !Fails(CopyDepth, p, s, c) && !Fails(Cycle, p, s, c) && !Fails(DuplicatePosition, p, s, c) &&
    !Fails(StaleSignal, p, s, c) && !Fails(MarketFull, p, s, c);
  }

  lemma TermsDenies(p: Permission, s: Signal, c: Context, reason: SkipReason)
    requires Readable(s, c)
    requires 15 <= Turn(reason) < 20 && IsFirst(reason, p, s, c)
    ensures EvaluateTerms(p, s, c) == Answer(reason, p, s)
  {
    match reason
    case LiquidityExhausted =>
    case CategoryBlocked =>
      assert !Fails(LiquidityExhausted, p, s, c);
    case ModeBlocked =>
      assert !Fails(LiquidityExhausted, p, s, c) && !Fails(CategoryBlocked, p, s, c);
    case ConfidenceBelowFloor =>
      assert !Fails(LiquidityExhausted, p, s, c) && !Fails(CategoryBlocked, p, s, c) && !Fails(ModeBlocked, p, s,
      c);
    case PayoutBelowFloor =>
      assert !Fails(LiquidityExhausted, p, s, c) && !Fails(CategoryBlocked, p, s, c) && !Fails(ModeBlocked, p, s, c)
      && !Fails(ConfidenceBelowFloor, p, s, c);
  }

  lemma TermsPasses(p: Permission, s: Signal, c: Context)
    requires Readable(s, c)
    requires Passes(20, p, s, c)
    ensures EvaluateTerms(p, s, c) == EvaluateBudget(p, s, c)
  {
    assert !Fails(LiquidityExhausted, p, s, c) && !Fails(CategoryBlocked, p, s, c) && !Fails(ModeBlocked, p, s, c)
    && !Fails(ConfidenceBelowFloor, p, s, c) && !Fails(PayoutBelowFloor, p, s, c);
  }

  lemma BudgetDenies(p: Permission, s: Signal, c: Context, reason: SkipReason)
    requires Readable(s, c)
    requires 20 <= Turn(reason) < 23 && IsFirst(reason, p, s, c)
    ensures EvaluateBudget(p, s, c) == Answer(reason, p, s)
  {
    match reason
    case PositionCap =>
    case DailyCap =>
      assert !Fails(PositionCap, p, s, c);
    case WeeklyCap =>
      assert !Fails(PositionCap, p, s, c) && !Fails(DailyCap, p, s, c);
  }

  lemma BudgetPasses(p: Permission, s: Signal, c: Context)
    requires Readable(s, c)
    requires Passes(23, p, s, c)
    ensures EvaluateBudget(p, s, c) == EvaluateExposure(p, s, c) && Cap(s.stake) > 0
  {
    assert !Fails(PositionCap, p, s, c) && !Fails(DailyCap, p, s, c) && !Fails(WeeklyCap, p, s, c);
  }

  lemma ExposureDenies(p: Permission, s: Signal, c: Context, reason: SkipReason)
    requires Readable(s, c) && Cap(s.stake) > 0
    requires 23 <= Turn(reason) < 25 && IsFirst(reason, p, s, c)
    ensures EvaluateExposure(p, s, c) == Answer(reason, p, s)
  {
    match reason
    case OpenExposureCap =>
    case LossLimit =>
      assert !Fails(OpenExposureCap, p, s, c);
  }

  lemma ExposurePasses(p: Permission, s: Signal, c: Context)
    requires Readable(s, c) && Cap(s.stake) > 0
    requires Passes(25, p, s, c)
    ensures EvaluateExposure(p, s, c) == EvaluateSpend(p, s, c)
  {
    assert !Fails(OpenExposureCap, p, s, c) && !Fails(LossLimit, p, s, c);
  }

  lemma SpendDenies(p: Permission, s: Signal, c: Context, reason: SkipReason)
    requires Readable(s, c)
    requires 25 <= Turn(reason) < 27 && IsFirst(reason, p, s, c)
    ensures EvaluateSpend(p, s, c) == Answer(reason, p, s)
  {
    match reason
    case SpendPermissionMismatch =>
    case SimulationFailed =>
      assert !Fails(SpendPermissionMismatch, p, s, c);
  }

  lemma SpendPasses(p: Permission, s: Signal, c: Context)
    requires Readable(s, c)
    requires Passes(27, p, s, c)
    ensures EvaluateSpend(p, s, c) == Allowed(s.stake)
  {
    assert !Fails(SpendPermissionMismatch, p, s, c) && !Fails(SimulationFailed, p, s, c);
  }

  lemma FirstAnswers(p: Permission, s: Signal, c: Context, reason: SkipReason)
    requires IsFirst(reason, p, s, c)
    ensures EvaluateCopy(p, s, c) == Answer(reason, p, s)
  {
    var turn := Turn(reason);
    if turn < 6 { GateDenies(p, s, c, reason); } else { GatePasses(p, s, c); }
    if 6 <= turn < 10 { SignalDenies(p, s, c, reason); } else if 10 <= turn { SignalPasses(p, s, c); }
    if 10 <= turn < 15 { PositionDenies(p, s, c, reason); } else if 15 <= turn { PositionPasses(p, s, c); }
    if 15 <= turn < 20 { TermsDenies(p, s, c, reason); } else if 20 <= turn { TermsPasses(p, s, c); }
    if 20 <= turn < 23 { BudgetDenies(p, s, c, reason); } else if 23 <= turn { BudgetPasses(p, s, c); }
    if 23 <= turn < 25 { ExposureDenies(p, s, c, reason); } else if 25 <= turn { ExposurePasses(p, s, c); }
    if 25 <= turn { SpendDenies(p, s, c, reason); }
  }

  lemma NothingFails(p: Permission, s: Signal, c: Context)
    requires Passes(27, p, s, c)
    ensures EvaluateCopy(p, s, c) == Allowed(s.stake)
  {
    GatePasses(p, s, c);
    SignalPasses(p, s, c);
    PositionPasses(p, s, c);
    TermsPasses(p, s, c);
    BudgetPasses(p, s, c);
    ExposurePasses(p, s, c);
    SpendPasses(p, s, c);
  }

  /** Among what fails something fails first. */
  lemma {:induction false} FirstBefore(fails: SkipReason -> bool, turn: nat) returns (first: Option<SkipReason>)
    ensures first.None? ==> forall reason | Turn(reason) < turn :: !fails(reason)
    ensures first.Some? ==> fails(first.value) && forall earlier | Turn(earlier) < Turn(first.value) :: !fails(earlier)
  {
    if turn == 0 { return None; }
    first := FirstBefore(fails, turn - 1);
    if first.None? {
      if reason :| Turn(reason) == turn - 1 && fails(reason) {
        first := Some(reason);
      }
    }
  }

  lemma Blocking(p: Permission, s: Signal, c: Context) returns (first: Option<SkipReason>)
    ensures match first
      case Some(reason) => IsFirst(reason, p, s, c) && EvaluateCopy(p, s, c) == Answer(reason, p, s)
      case None => Passes(27, p, s, c) && EvaluateCopy(p, s, c) == Allowed(s.stake)
  {
    first := FirstBefore(reason => Fails(reason, p, s, c), 27);
    if first.Some? { FirstAnswers(p, s, c, first.value); } else { NothingFails(p, s, c); }
  }

  lemma TurnsDiffer(a: SkipReason, b: SkipReason)
    requires Turn(a) == Turn(b)
    ensures a == b
  {
  }

  /** A copy is refused for the first requirement that fails, and with no other reason; the
      gate throws exactly when that one's cap is malformed, and allows what nothing objects to. */
  lemma DeniedIff(p: Permission, s: Signal, c: Context, reason: SkipReason)
    ensures EvaluateCopy(p, s, c) == Denied(reason) <==> IsFirst(reason, p, s, c) && !Unreadable(reason, p, s)
    ensures IsFirst(reason, p, s, c) && Unreadable(reason, p, s) ==> EvaluateCopy(p, s, c).Throws?
    ensures EvaluateCopy(p, s, c).Throws? ==> exists first :: IsFirst(first, p, s, c) && Unreadable(first, p, s)
    ensures EvaluateCopy(p, s, c).Allowed? <==> forall any :: !Fails(any, p, s, c)
  {
    var first := Blocking(p, s, c);
    if IsFirst(reason, p, s, c) && first.Some? {
      if Turn(reason) == Turn(first.value) { TurnsDiffer(reason, first.value); }
    }
    if first.None? { EveryTurn(); }
  }

  lemma EveryTurn()
    ensures forall reason :: Turn(reason) < 27
  {
  }

  lemma BudgetIff(p: Permission, s: Signal, c: Context)
    requires GoodContext(c) && GoodSignal(s)
    ensures EvaluateBudget(p, s, c).Allowed? && Cap(s.requiredLiquidity) <= Cap(s.availableLiquidity)
       <==> Affordable(p, s, c) && c.simulationOk
            && Trim(p.token) == Trim(c.configuredUsdc) && Trim(p.spender) == Trim(c.configuredSpender)
  {
  }

  // ----- Validating a permission -----

  datatype Invalid = InvalidPermissionId | InvalidAddress | InvalidAgentPair | InvalidBudget | InvalidSpendPermission
    | InvalidLifecycle | InvalidThreshold | InvalidAllowlist

  /** The caps parse and are nested. */
  predicate GoodBudget(p: Permission) {
    && ParseUsdc(p.maxPerPosition).Some? && ParseUsdc(p.dailyCap).Some? && ParseUsdc(p.weeklyCap).Some?
    && ParseUsdc(p.totalOpenExposure).Some? && ParseCanonicalDecimal(p.maxRealizedLossAtomic).Some?
    && 0 < Cap(p.maxPerPosition) <= Cap(p.dailyCap) <= Cap(p.weeklyCap)
    && Cap(p.maxPerPosition) <= Cap(p.totalOpenExposure) && LossCap(p) > 0
  }

  function ValidateCopyPermission(p: Permission, now: real, isAddress: JsString -> bool): Option<Invalid> {
    if Trim(p.permissionId) == [] || |p.permissionId| > 128 then Some(InvalidPermissionId)
    else if !isAddress(p.ownerWallet) || !isAddress(p.token) || !isAddress(p.spender) then Some(InvalidAddress)
    else if Trim(p.executionAgentId) == [] || Trim(p.signalAgentId) == [] || p.executionAgentId == p.signalAgentId then
      Some(InvalidAgentPair)
    else if !GoodBudget(p) then Some(InvalidBudget)
    else if p.allowanceAtomic <= 0 || !IsSafeInteger(Finite(p.periodSeconds)) || p.periodSeconds <= 0.0 then
      Some(InvalidSpendPermission)
    else if p.depth != 1.0 || !p.status.Active? || !IsSafeInteger(Finite(p.expiresAt)) || p.expiresAt <= now then
      Some(InvalidLifecycle)
    else if !IsInteger(p.minConfidenceBps) || !(0.0 <= p.minConfidenceBps <= 10_000.0)
      || !IsInteger(p.minPayoutBps) || p.minPayoutBps < 0.0 then Some(InvalidThreshold)
    else if |p.allowedCategories| > 100 || |p.allowedModes| > 10 then Some(InvalidAllowlist)
    else None
  }

  /** What each rejection objects to. */
  predicate Rejects(reason: Invalid, p: Permission, now: real, isAddress: JsString -> bool) {
    match reason
    case InvalidPermissionId => AllWhite(p.permissionId) || |p.permissionId| > 128
    case InvalidAddress => exists a | a in {p.ownerWallet, p.token, p.spender} :: !isAddress(a)
    case InvalidAgentPair =>
      || p.executionAgentId == p.signalAgentId
      || AllWhite(p.executionAgentId) || AllWhite(p.signalAgentId)
    case InvalidBudget =>
      || Cap(p.maxPerPosition) == 0 || LossCap(p) == 0
      || Cap(p.weeklyCap) < Cap(p.dailyCap) || Cap(p.dailyCap) < Cap(p.maxPerPosition)
      || Cap(p.totalOpenExposure) < Cap(p.maxPerPosition)
    case InvalidSpendPermission =>
      p.allowanceAtomic <= 0 || !IsInteger(p.periodSeconds) || !(1.0 <= p.periodSeconds <= MAX_SAFE as real)
    case InvalidLifecycle =>
      || p.depth != 1.0 || p.status in {Revoked, Paused}
      || p.expiresAt <= now || !IsSafeInteger(Finite(p.expiresAt))
    case InvalidThreshold =>
      || !(IsInteger(p.minConfidenceBps) && 0.0 <= p.minConfidenceBps <= 10_000.0)
      || !(IsInteger(p.minPayoutBps) && 0.0 <= p.minPayoutBps)
    case InvalidAllowlist => |p.allowedCategories| > 100 || |p.allowedModes| > 10
  }

  /** The order in which a permission is validated. */
  function Rank(reason: Invalid): nat {
    match reason
    case InvalidPermissionId => 0
    case InvalidAddress => 1
    case InvalidAgentPair => 2
    case InvalidBudget => 3
    case InvalidSpendPermission => 4
    case InvalidLifecycle => 5
    case InvalidThreshold => 6
    case InvalidAllowlist => 7
  }

  /** A permission is rejected for the first thing that is wrong with it, and passes when
      nothing is. */
  lemma RejectedIff(p: Permission, now: real, isAddress: JsString -> bool, reason: Invalid)
    ensures ValidateCopyPermission(p, now, isAddress) == Some(reason)
       <==> Rejects(reason, p, now, isAddress)
            && forall earlier | Rank(earlier) < Rank(reason) :: !Rejects(earlier, p, now, isAddress)
    ensures ValidateCopyPermission(p, now, isAddress).None? <==> forall any :: !Rejects(any, p, now, isAddress)
  {
    BlankIff(p.permissionId);
    BlankIff(p.executionAgentId);
    BlankIff(p.signalAgentId);
    var verdict := ValidateCopyPermission(p, now, isAddress);
    if verdict.Some? {
      assert Rejects(verdict.value, p, now, isAddress);
      assert forall earlier | Rank(earlier) < Rank(verdict.value) :: !Rejects(earlier, p, now, isAddress);
    }
  }

  /** Under a permission that passes validation the gate never throws, and copies only a
      signal that is not itself a copy. */
  lemma ValidPermissionGate(p: Permission, validatedAt: real, isAddress: JsString -> bool, s: Signal, c: Context)
    requires ValidateCopyPermission(p, validatedAt, isAddress).None?
    ensures !EvaluateCopy(p, s, c).Throws?
    ensures EvaluateCopy(p, s, c).Allowed? ==> s.sourceDepth == Finite(0.0)
  {
    var blocking := Blocking(p, s, c);
    if blocking.None? { CopiesAreOriginal(p, s, c); } else { NothingUnreadable(p, s, blocking.value); }
  }

  lemma NothingUnreadable(p: Permission, s: Signal, reason: SkipReason)
    requires GoodBudget(p)
    ensures !Unreadable(reason, p, s)
  {
  }

  lemma CopiesAreOriginal(p: Permission, s: Signal, c: Context)
    requires p.depth == 1.0 && EvaluateCopy(p, s, c).Allowed?
    ensures s.sourceDepth == Finite(0.0)
  {
    AllowedIff(p, s, c);
    assert 0.0 <= s.sourceDepth.value < 1.0 && s.sourceDepth.value == s.sourceDepth.value.Floor as real;
  }

  /** Its caps are nested, so before anything is spent no cap but the position cap refuses. */
  lemma FirstPositionFits(p: Permission, s: Signal, c: Context)
    requires GoodBudget(p)
    requires Cap(c.usage.usedToday) == Cap(c.usage.usedThisWeek) == Cap(c.usage.openExposure) == 0
    ensures EvaluateCopy(p, s, c) !in {Denied(DailyCap), Denied(WeeklyCap), Denied(OpenExposureCap), Throws}
    ensures EvaluateCopy(p, s, c) == Denied(PositionCap)
       <==> Passes(Turn(PositionCap), p, s, c) && !(0 < Cap(s.stake) <= Cap(p.maxPerPosition))
  {
    var first := Blocking(p, s, c);
    if first.Some? { DeniedIff(p, s, c, first.value); }
    DeniedIff(p, s, c, PositionCap);
  }

  // ----- The usage ledger -----

  /** A column as the driver delivers it. */
  datatype Raw = Missing | BigIntValue(n: int) | Text(s: JsString) | NumberValue(x: Num) | Other

  datatype Row = NullRow | Row(status: Raw, stake_atomic: Raw, stakeAtomic: Raw, created_at: Raw, createdAt: Raw)

  /** `a ?? b`. */
  function OrElse(a: Raw, b: Raw): Raw { if a.Missing? then b else a }

  function ToAtomic(v: Raw): Option<nat> {
    match v
    case BigIntValue(n) => if n >= 0 then Some(n) else None
    case Text(s) => ParseCanonicalDecimal(Trim(s))
    case _ => None
  }

  /** Milliseconds; a stamp too small for that is taken for seconds. */
  function ToCreatedMs(v: Raw): Option<real> {
    var n := match v
      case NumberValue(Finite(x)) => if x >= 0.0 then Some(x) else None
      case Text(s) => (
        match ParseDecimal(Trim(s))
        case None => None
        case Some(n) => Some(n as real))
      case _ => None;
    match n
    case None => None
    case Some(x) => if x < SECONDS_BELOW then Some(x * 1000.0) else Some(x)
  }

  datatype Counted = Counted(stake: nat, createdAt: real)

  function Count(row: Row): Option<Counted> {
    if row.NullRow? || row.status != Text(EXECUTED) then None
    else
      match (ToAtomic(OrElse(row.stake_atomic, row.stakeAtomic)), ToCreatedMs(OrElse(row.created_at, row.createdAt)))
      case (Some(stake), Some(at)) => Some(Counted(stake, at))
      case _ => None
  }

  function DayOf(now: nat): nat { now / MS_PER_DAY }
  function DayStart(now: nat): nat { DayOf(now) * MS_PER_DAY }
  function WeekStart(now: nat): int { DayStart(now) - ((DayOf(now) + 4) % 7 + 6) % 7 * MS_PER_DAY }

  function StakeFrom(row: Row, from: int): nat {
    match Count(row)
    case None => 0
    case Some(c) => if c.createdAt >= from as real then c.stake else 0
  }

  /** Executed stake stamped at or after an instant. */
  function UsedSince(rows: seq<Row>, from: int): nat {
    if rows == [] then 0
    else UsedSince(rows[..|rows| - 1], from) + StakeFrom(rows[|rows| - 1], from)
  }

  function StakeOf(row: Row): nat { if Count(row).None? then 0 else Count(row).value.stake }

  function UsedEver(rows: seq<Row>): nat {
    if rows == [] then 0 else UsedEver(rows[..|rows| - 1]) + StakeOf(rows[|rows| - 1])
  }

  function CountedRows(rows: seq<Row>): nat {
    if rows == [] then 0
    else CountedRows(rows[..|rows| - 1]) + if Count(rows[|rows| - 1]).Some? then 1 else 0
  }

  /** The usage the gate is given, unless a total no longer fits a display number. */
  function UsageOf(rows: seq<Row>, now: nat): Option<Usage> {
    var daily, weekly, open := UsedSince(rows, DayStart(now)), UsedSince(rows, WeekStart(now)), UsedEver(rows);
    if daily > MAX_SAFE || weekly > MAX_SAFE || open > MAX_SAFE then None
    else Some(Usage(Atomic(daily), Atomic(weekly), Atomic(open)))
  }

  method ComputeCopyUsageFromExecutions(executions: seq<Row>, now: nat)
    returns (usage: Option<Usage>, counted: nat, nextDailyReset: int, nextWeeklyReset: int)
    ensures usage == UsageOf(executions, now)
    ensures counted == CountedRows(executions)
    ensures DayStart(now) <= now < nextDailyReset == DayStart(now) + MS_PER_DAY
    ensures WeekStart(now) <= now < nextWeeklyReset == WeekStart(now) + 7 * MS_PER_DAY
  {
    var epochDay := now / MS_PER_DAY;
    var dayStart := epochDay * MS_PER_DAY;
    var weekStart := dayStart - ((epochDay + 4) % 7 + 6) % 7 * MS_PER_DAY;
    var daily, weekly, open := 0, 0, 0;
    counted := 0;
    for i := 0 to |executions|
      invariant daily == UsedSince(executions[..i], dayStart) && weekly == UsedSince(executions[..i], weekStart)
      invariant open == UsedEver(executions[..i]) && counted == CountedRows(executions[..i])
    {
      assert executions[..i + 1][..i] == executions[..i];
      var row := executions[i];
      if row.NullRow? || row.status != Text(EXECUTED) { continue; }
      var stake := ToAtomic(OrElse(row.stake_atomic, row.stakeAtomic));
      var createdAt := ToCreatedMs(OrElse(row.created_at, row.createdAt));
      if stake.None? || createdAt.None? { continue; }
      counted := counted + 1;
      open := open + stake.value;
      if createdAt.value >= dayStart as real { daily := daily + stake.value; }
      if createdAt.value >= weekStart as real { weekly := weekly + stake.value; }
    }
    assert executions[..|executions|] == executions;
    WeekStartIsMonday(now);
    if daily > MAX_SAFE || weekly > MAX_SAFE || open > MAX_SAFE {
      usage := None;
    } else {
      usage := Some(Usage(Atomic(daily), Atomic(weekly), Atomic(open)));
    }
    nextDailyReset, nextWeeklyReset := dayStart + MS_PER_DAY, weekStart + 7 * MS_PER_DAY;
  }

  // ----- Calendar windows -----

  /** The Monday-to-Monday week of an instant; week 1 began on Monday, 5 January 1970. */
  function WeekOf(now: nat): nat { (DayOf(now) + 3) / 7 }
  function WeekBegin(week: nat): int { (7 * week - 3) * MS_PER_DAY }

  lemma WeekStartIsMonday(now: nat)
    ensures WeekStart(now) == WeekBegin(WeekOf(now))
    ensures WeekBegin(WeekOf(now)) <= now < WeekBegin(WeekOf(now) + 1)
    ensures DayStart(now) <= now < DayStart(now) + MS_PER_DAY
  {
    var day: int := DayOf(now);
    assert ((day + 4) % 7 + 6) % 7 == (day + 3) % 7;
    assert day - (day + 3) % 7 == 7 * ((day + 3) / 7) - 3;
  }

  // ----- Runs -----

  datatype Copy = Copy(stake: nat, at: nat)

  /** The audit log, and the copies that were really made with the clock they were made at. */
  datatype Ledger = Ledger(log: seq<Row>, copies: seq<Copy>)

  /** The two shapes in which an executed row comes back. */
  datatype Shape = SnakeCaseText | CamelCaseNative

  function AuditRow(shape: Shape, stake: nat, now: nat): Row {
    match shape
    case SnakeCaseText => Row(Text(EXECUTED), Text(Decimal(stake)), Missing, Text(Decimal(now)), Missing)
    case CamelCaseNative => Row(Text(EXECUTED), Missing, BigIntValue(stake), Missing, NumberValue(Finite(now as real)))
  }

  datatype Step =
    | Attempt(now: nat, signal: Signal, context: Context, shape: Shape)
    | Audit(row: Row)

  /** One attempt to copy: usage is read off the log, and an allowed copy is appended to it.
      Rows that are not executed copies may be appended at any time. */
  function Perform(p: Permission, l: Ledger, step: Step): Ledger {
    match step
    case Audit(row) => if Count(row).None? then l.(log := l.log + [row]) else l
    case Attempt(now, signal, context, shape) =>
      var usage := UsageOf(l.log, now);
      if usage.None? then l
      else
        match EvaluateCopy(p, signal, context.(now := Finite(now as real), usage := usage.value))
        case Allowed(stake) =>
          if stake.Atomic? && stake.units >= 0 then
            Ledger(l.log + [AuditRow(shape, stake.units, now)], l.copies + [Copy(stake.units, now)])
          else l
        case _ => l
  }

  function Run(p: Permission, steps: seq<Step>): Ledger {
    if steps == [] then Ledger([], [])
    else Perform(p, Run(p, steps[..|steps| - 1]), steps[|steps| - 1])
  }

  /** Stake really copied within [from, to). */
  function Spent(copies: seq<Copy>, from: int, to: int): nat {
    if copies == [] then 0
    else
      var last := copies[|copies| - 1];
      Spent(copies[..|copies| - 1], from, to) + if from <= last.at < to then last.stake else 0
  }

  function SpentSince(copies: seq<Copy>, from: int): nat {
    if copies == [] then 0
    else
      var last := copies[|copies| - 1];
      SpentSince(copies[..|copies| - 1], from) + if from <= last.at then last.stake else 0
  }

  function SpentEver(copies: seq<Copy>): nat {
    if copies == [] then 0 else SpentEver(copies[..|copies| - 1]) + copies[|copies| - 1].stake
  }

  lemma {:induction false} TrimOfDigits(s: JsString)
    requires AllDigits(s) && s != []
    ensures Trim(s) == s
  {
    assert !IsWhite(s[0]) && !IsWhite(s[|s| - 1]);
  }

  lemma NumeralReadsBack(n: nat)
    ensures ToAtomic(Text(Decimal(n))) == Some(n)
    ensures ToCreatedMs(Text(Decimal(n))) == Some(if n as real < SECONDS_BELOW then n as real * 1000.0 else n as real)
  {
    DecimalRoundTrip(n);
    DecimalHasNoLeadingZero(n);
    TrimOfDigits(Decimal(n));
    assert ParseCanonicalDecimal(Decimal(n)) == Some(n) && ParseDecimal(Decimal(n)) == Some(n);
  }

  /** Either shape reads back as the stake, stamped no earlier than it was made. */
  lemma AuditRowCounts(shape: Shape, stake: nat, now: nat)
    ensures var c := Count(AuditRow(shape, stake, now));
      c.Some? && c.value.stake == stake && c.value.createdAt >= now as real
      && (now as real >= SECONDS_BELOW ==> c.value.createdAt == now as real)
  {
    NumeralReadsBack(stake);
    NumeralReadsBack(now);
  }

  /** The log never understates what was copied: not since any instant, and not in total. */
  ghost predicate Covers(l: Ledger) {
    && UsedEver(l.log) == SpentEver(l.copies)
    && forall from: int :: UsedSince(l.log, from) >= SpentSince(l.copies, from)
  }

  /** A step changes nothing, appends a row that counts for nothing, or appends a copy with
      its row. */
  lemma PerformCases(p: Permission, l: Ledger, step: Step) returns (row: Row, copies: seq<Copy>)
    ensures Perform(p, l, step) == l || Perform(p, l, step) == Ledger(l.log + [row], l.copies + copies)
    ensures copies == [] ==> Count(row).None?
    ensures copies != [] ==>
      step.Attempt? && copies == [Copy(copies[0].stake, step.now)]
        && row == AuditRow(step.shape, copies[0].stake, step.now)
  {
    var m := Perform(p, l, step);
    row, copies := NullRow, [];
    if m != l {
      row := m.log[|l.log|];
      copies := m.copies[|l.copies|..];
    }
  }

  lemma PerformKeepsCover(p: Permission, l: Ledger, step: Step)
    requires Covers(l)
    ensures Covers(Perform(p, l, step))
  {
    var row, copies := PerformCases(p, l, step);
    var m := Perform(p, l, step);
    if m != l {
      if copies != [] { AuditRowCounts(step.shape, copies[0].stake, step.now); }
      AppendedTotals(l, row, copies);
      forall from: int ensures UsedSince(m.log, from) >= SpentSince(m.copies, from) {
        assert UsedSince(l.log, from) >= SpentSince(l.copies, from);
        AppendedSince(l, row, copies, from);
      }
    }
  }

  lemma AppendedTotals(l: Ledger, row: Row, copies: seq<Copy>)
    requires |copies| <= 1
    ensures UsedEver(l.log + [row]) == UsedEver(l.log) + StakeOf(row)
    ensures SpentEver(l.copies + copies) == SpentEver(l.copies) + if copies == [] then 0 else copies[0].stake
  {
    assert (l.log + [row])[..|l.log|] == l.log && (l.copies + copies)[..|l.copies|] == l.copies;
    assert copies == [] ==> l.copies + copies == l.copies;
  }

  lemma AppendedSince(l: Ledger, row: Row, copies: seq<Copy>, from: int)
    requires |copies| <= 1
    ensures UsedSince(l.log + [row], from) == UsedSince(l.log, from) + StakeFrom(row, from)
    ensures SpentSince(l.copies + copies, from)
      == SpentSince(l.copies, from) + if copies != [] && from <= copies[0].at then copies[0].stake else 0
  {
    assert (l.log + [row])[..|l.log|] == l.log && (l.copies + copies)[..|l.copies|] == l.copies;
    assert copies == [] ==> l.copies + copies == l.copies;
  }

  lemma {:induction false} SpentWithin(copies: seq<Copy>, from: int, to: int)
    ensures Spent(copies, from, to) <= SpentSince(copies, from)
  {
    if copies != [] { SpentWithin(copies[..|copies| - 1], from, to); }
  }

  /** What one attempt adds, if anything, fits every cap together with what was spent before. */
  lemma AttemptFitsCaps(p: Permission, l: Ledger, step: Step)
    requires Covers(l) && step.Attempt? && Perform(p, l, step) != l
    ensures var m := Perform(p, l, step);
      && |m.copies| == |l.copies| + 1 && m.copies[..|l.copies|] == l.copies
      && var copy := m.copies[|l.copies|];
      && copy.at == step.now && copy.stake <= Cap(p.maxPerPosition)
      && SpentSince(l.copies, DayStart(step.now)) + copy.stake <= Cap(p.dailyCap)
      && SpentSince(l.copies, WeekStart(step.now)) + copy.stake <= Cap(p.weeklyCap)
      && SpentEver(l.copies) + copy.stake <= Cap(p.totalOpenExposure)
  {
    var usage := UsageOf(l.log, step.now).value;
    var c := step.context.(now := Finite(step.now as real), usage := usage);
    AllowedIff(p, step.signal, c);
    UsageReadsBack(p, step.signal, c);
    assert UsedSince(l.log, DayStart(step.now)) >= SpentSince(l.copies, DayStart(step.now));
    assert UsedSince(l.log, WeekStart(step.now)) >= SpentSince(l.copies, WeekStart(step.now));
  }

  /** Usage the gate let through was read at its face value. */
  lemma UsageReadsBack(p: Permission, s: Signal, c: Context)
    requires EvaluateCopy(p, s, c).Allowed?
    ensures c.usage.usedToday == Atomic(Cap(c.usage.usedToday))
    ensures c.usage.usedThisWeek == Atomic(Cap(c.usage.usedThisWeek))
    ensures c.usage.openExposure == Atomic(Cap(c.usage.openExposure))
  {
  }

  ghost predicate WithinCaps(p: Permission, copies: seq<Copy>) {
    && (forall day: nat :: Spent(copies, day * MS_PER_DAY, (day + 1) * MS_PER_DAY) <= Cap(p.dailyCap))
    && (forall week: nat :: Spent(copies, WeekBegin(week), WeekBegin(week + 1)) <= Cap(p.weeklyCap))
    && SpentEver(copies) <= Cap(p.totalOpenExposure)
    && forall i | 0 <= i < |copies| :: copies[i].stake <= Cap(p.maxPerPosition)
  }

  lemma PerformKeepsCaps(p: Permission, l: Ledger, step: Step)
    requires Covers(l) && WithinCaps(p, l.copies)
    ensures WithinCaps(p, Perform(p, l, step).copies)
  {
    var m := Perform(p, l, step);
    if step.Attempt? && m != l {
      AttemptFitsCaps(p, l, step);
      var now := step.now;
      WeekStartIsMonday(now);
      forall day: nat ensures Spent(m.copies, day * MS_PER_DAY, (day + 1) * MS_PER_DAY) <= Cap(p.dailyCap) {
        SpentWithin(l.copies, day * MS_PER_DAY, (day + 1) * MS_PER_DAY);
        assert Spent(l.copies, day * MS_PER_DAY, (day + 1) * MS_PER_DAY) <= Cap(p.dailyCap);
        if day * MS_PER_DAY <= now < (day + 1) * MS_PER_DAY { assert day == DayOf(now); }
      }
      forall week: nat ensures Spent(m.copies, WeekBegin(week), WeekBegin(week + 1)) <= Cap(p.weeklyCap) {
        SpentWithin(l.copies, WeekBegin(week), WeekBegin(week + 1));
        assert Spent(l.copies, WeekBegin(week), WeekBegin(week + 1)) <= Cap(p.weeklyCap);
        if WeekBegin(week) <= now < WeekBegin(week + 1) { assert week == WeekOf(now); }
      }
    }
  }

  /** Over every run, whatever the signals, contexts and clock readings: executed stake stays
      within the daily cap in each UTC day, the weekly cap in each Monday-to-Monday UTC week,
      the open-exposure cap in total, and the position cap per copy. */
  lemma {:induction false} RunStaysWithinCaps(p: Permission, steps: seq<Step>)
    ensures Covers(Run(p, steps)) && WithinCaps(p, Run(p, steps).copies)
  {
    if steps != [] {
      var before := Run(p, steps[..|steps| - 1]);
      RunStaysWithinCaps(p, steps[..|steps| - 1]);
      PerformKeepsCover(p, before, steps[|steps| - 1]);
      PerformKeepsCaps(p, before, steps[|steps| - 1]);
    }
  }

  lemma StaysExact(l: Ledger, next: Ledger, row: Row, copies: seq<Copy>, shape: Shape, now: nat, from: int)
    requires now as real >= SECONDS_BELOW && UsedSince(l.log, from) == SpentSince(l.copies, from)
    requires next == Ledger(l.log + [row], l.copies + copies) && (copies == [] ==> Count(row).None?)
    requires copies != [] ==> copies == [Copy(copies[0].stake, now)] && row == AuditRow(shape, copies[0].stake, now)
    ensures UsedSince(next.log, from) == SpentSince(next.copies, from)
  {
    AppendedSince(l, row, copies, from);
    if copies != [] { AuditRowCounts(shape, copies[0].stake, now); }
  }

  lemma PerformKeepsExact(p: Permission, l: Ledger, step: Step, from: int)
    requires step.Attempt? ==> step.now as real >= SECONDS_BELOW
    requires UsedSince(l.log, from) == SpentSince(l.copies, from)
    ensures UsedSince(Perform(p, l, step).log, from) == SpentSince(Perform(p, l, step).copies, from)
  {
    var row, copies := PerformCases(p, l, step);
    var next := Perform(p, l, step);
    if next != l {
      if copies != [] {
        StaysExact(l, next, row, copies, step.shape, step.now, from);
      } else {
        AppendedSince(l, row, copies, from);
      }
    }
  }

  /** For copies stamped in milliseconds the log does not overstate either. */
  lemma {:induction false} UsageIsExact(p: Permission, steps: seq<Step>, from: int)
    requires forall step | step in steps && step.Attempt? :: step.now as real >= SECONDS_BELOW
    ensures UsedSince(Run(p, steps).log, from) == SpentSince(Run(p, steps).copies, from)
  {
    if steps != [] {
      var n := |steps| - 1;
      UsageIsExact(p, steps[..n], from);
      PerformKeepsExact(p, Run(p, steps[..n]), steps[n], from);
    }
  }
}
