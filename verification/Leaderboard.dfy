/** Per-actor records folded from projected claims, and the leaderboards ranked from them
    (lib/leaderboard.ts). */
module Leaderboard {
  import opened Arithmetic
  import opened Wrappers
  import opened JsNumbers
  import opened JsStrings
  import opened Sequences
  import opened Sorting

  // ----- Claims and positions -----

  datatype ActorType = Human | Agent
  datatype Outcome = Win | Loss | Refund | Pending
  datatype ClaimState = Open | Active | Resolved | Cancelled
  datatype Side = CreatorSide | ChallengersSide

  datatype Challenger = Challenger(address: JsString, stakeUnits: int)

  datatype Claim = Claim(
    claimId: int, creator: JsString, category: JsString, state: ClaimState, winnerSide: int,
    challengers: seq<Challenger>, totalChallengerStakeUnits: int)

  datatype Times = Times(openedAt: int, deadlineAt: int, resolvedAt: Option<int>)

  datatype Position = Position(
    claimId: int, category: JsString, times: Times, outcome: Outcome, stakeUsdc: real, sideShareBps: int,
    enteredAt: int)

  datatype Input = Input(address: JsString, actorType: ActorType, positions: seq<Position>, selfDealtClaims: nat)

  /** What the caller injects. */
  datatype Env = Env(creatorStakeFor: int -> int, toUsdc: int -> real, timestamps: map<int, Times>,
    isAgent: JsString -> bool)

  function OutcomeFor(state: ClaimState, winnerSide: int, side: Side): Outcome {
    if state.Cancelled? then Refund
    else if !state.Resolved? then Pending
    else if winnerSide == 3 || winnerSide == 4 then Refund
    else if winnerSide == 1 then (if side.CreatorSide? then Win else Loss)
    else if winnerSide == 2 then (if side.ChallengersSide? then Win else Loss)
    else Refund
  }

  /** The creator wins exactly a resolved claim with winner side 1, the challengers one with
      winner side 2; then the other side loses. A refund or an open claim is so for both. */
  lemma SidesAreOpposed(state: ClaimState, winnerSide: int)
    ensures var a, b := OutcomeFor(state, winnerSide, CreatorSide), OutcomeFor(state, winnerSide, ChallengersSide);
      && (a == Win <==> b == Loss) && (a == Win <==> state == Resolved && winnerSide == 1)
      && (b == Win <==> a == Loss) && (b == Win <==> state == Resolved && winnerSide == 2)
      && (a == Pending <==> b == Pending) && (a == Pending <==> state in {Open, Active})
  {
  }

  function TimesOf(env: Env, claimId: int): Times {
    if claimId in env.timestamps then env.timestamps[claimId] else Times(0, 0, None)
  }

  function CreatorPosition(env: Env, c: Claim): Position {
    Position(c.claimId, c.category, TimesOf(env, c.claimId), OutcomeFor(c.state, c.winnerSide, CreatorSide),
             env.toUsdc(env.creatorStakeFor(c.claimId)), 10_000, TimesOf(env, c.claimId).openedAt)
  }

  function ChallengerPosition(env: Env, c: Claim, challenger: Challenger): Position {
    Position(c.claimId, c.category, TimesOf(env, c.claimId), OutcomeFor(c.state, c.winnerSide, ChallengersSide),
             env.toUsdc(challenger.stakeUnits),
             if c.totalChallengerStakeUnits > 0
             then TruncDiv(challenger.stakeUnits * 10_000, c.totalChallengerStakeUnits)
             else 10_000,
             TimesOf(env, c.claimId).openedAt)
  }

  predicate SelfDealt(c: Claim) { exists i | 0 <= i < |c.challengers| :: c.challengers[i].address == c.creator }

  predicate Won(c: Claim, byCreator: bool) { c.state == Resolved && c.winnerSide == if byCreator then 1 else 2 }

  /** The position `p` says how one side of a claim fared, and when. */
  predicate IsOnSide(env: Env, c: Claim, byCreator: bool, p: Position) {
    && p.claimId == c.claimId && p.category == c.category
    && p.times == (if c.claimId in env.timestamps then env.timestamps[c.claimId] else Times(0, 0, None))
    && p.enteredAt == p.times.openedAt
    && (p.outcome == Win <==> Won(c, byCreator)) && (p.outcome == Loss <==> Won(c, !byCreator))
    && (p.outcome == Pending <==> c.state in {Open, Active})
  }

  /** The position `p` is for the stake `x`, with its share of the challengers' side in basis points. */
  predicate IsStake(env: Env, c: Claim, x: Challenger, p: Position) {
    var pool := c.totalChallengerStakeUnits;
    && IsOnSide(env, c, false, p) && p.stakeUsdc == env.toUsdc(x.stakeUnits)
    && (pool <= 0 ==> p.sideShareBps == 10_000)
    && (pool > 0 && x.stakeUnits >= 0 ==>
          p.sideShareBps * pool <= x.stakeUnits * 10_000 < p.sideShareBps * pool + pool)
  }

  /** The position `p` is one that a claim gives an address. */
  predicate IsPosition(env: Env, c: Claim, address: JsString, p: Position) {
    if address == c.creator then
      && IsOnSide(env, c, true, p)
      && p.stakeUsdc == env.toUsdc(env.creatorStakeFor(c.claimId)) && p.sideShareBps == 10_000
    else exists x | x in c.challengers :: x.address == address && IsStake(env, c, x, p)
  }

  // ----- What one claim records for one address -----

  /** The creator's own stake against itself is dropped. */
  function RecordOne(env: Env, c: Claim, challenger: Challenger, address: JsString): seq<Position> {
    if challenger.address == address && address != c.creator then [ChallengerPosition(env, c, challenger)] else []
  }

  function ChallengerRecords(env: Env, c: Claim, challengers: seq<Challenger>, address: JsString): seq<Position> {
    if challengers == [] then []
    else
      var n := |challengers| - 1;
      ChallengerRecords(env, c, challengers[..n], address) + RecordOne(env, c, challengers[n], address)
  }

  function Records(env: Env, c: Claim, address: JsString): seq<Position> {
    (if address == c.creator && !SelfDealt(c) then [CreatorPosition(env, c)] else [])
    + ChallengerRecords(env, c, c.challengers, address)
  }

  function SelfDealtBy(c: Claim, address: JsString): nat { if SelfDealt(c) && c.creator == address then 1 else 0 }

  function Addresses(c: Claim): set<JsString> { {c.creator} + set x | x in c.challengers :: x.address }

  function Stakes(challengers: seq<Challenger>, address: JsString): nat {
    if challengers == [] then 0
    else
      var n := |challengers| - 1;
      Stakes(challengers[..n], address) + if challengers[n].address == address then 1 else 0
  }

  lemma {:induction false} OneRecordPerStake(env: Env, c: Claim, challengers: seq<Challenger>, address: JsString)
    ensures |ChallengerRecords(env, c, challengers, address)|
      == if address == c.creator then 0 else Stakes(challengers, address)
    ensures forall p | p in ChallengerRecords(env, c, challengers, address) ::
      p.claimId == c.claimId && exists x | x in challengers :: x.address == address && IsStake(env, c, x, p)
  {
    if challengers != [] {
      var n := |challengers| - 1;
      OneRecordPerStake(env, c, challengers[..n], address);
      StakeOfChallenger(env, c, challengers[n]);
      assert forall x | x in challengers[..n] :: x in challengers;
    }
  }

  lemma StakeOfChallenger(env: Env, c: Claim, x: Challenger)
    ensures IsStake(env, c, x, ChallengerPosition(env, c, x))
  {
    if c.totalChallengerStakeUnits > 0 && x.stakeUnits >= 0 {
      FloorBounds(x.stakeUnits * 10_000, c.totalChallengerStakeUnits);
    }
  }

  lemma {:induction false} StakesOfCreator(c: Claim, challengers: seq<Challenger>)
    ensures Stakes(challengers, c.creator) > 0 <==> exists x | x in challengers :: x.address == c.creator
  {
    if challengers != [] {
      var n := |challengers| - 1;
      StakesOfCreator(c, challengers[..n]);
      assert challengers == challengers[..n] + [challengers[n]];
    }
  }

  /** A claim gives its creator one position on the creator's side, or none and a mark when
      the creator also stands on the other side; everybody else gets one position on the
      challengers' side for each stake. */
  lemma RecordsPerAddress(env: Env, c: Claim, address: JsString)
    ensures address != c.creator ==> |Records(env, c, address)| == Stakes(c.challengers, address)
    ensures address == c.creator ==>
      |Records(env, c, address)| == 1 - SelfDealtBy(c, address)
      && (SelfDealtBy(c, address) == 1 <==> Stakes(c.challengers, address) > 0)
    ensures forall p | p in Records(env, c, address) :: p.claimId == c.claimId && IsPosition(env, c, address, p)
  {
    OneRecordPerStake(env, c, c.challengers, address);
    StakesOfCreator(c, c.challengers);
  }

  function StakeUnits(x: Challenger): int { x.stakeUnits }

  function SideShare(env: Env, c: Claim): Challenger -> int {
    (x: Challenger) => ChallengerPosition(env, c, x).sideShareBps
  }

  lemma {:induction false} SharesTimesPool(env: Env, c: Claim, challengers: seq<Challenger>)
    requires c.totalChallengerStakeUnits > 0 && forall x | x in challengers :: x.stakeUnits >= 0
    ensures SumBy(SideShare(env, c), challengers) * c.totalChallengerStakeUnits
      <= 10_000 * SumBy(StakeUnits, challengers)
  {
    if challengers != [] {
      SharesTimesPool(env, c, challengers[1..]);
      FloorBounds(challengers[0].stakeUnits * 10_000, c.totalChallengerStakeUnits);
      MulDistributes(SideShare(env, c)(challengers[0]), SumBy(SideShare(env, c), challengers[1..]),
        c.totalChallengerStakeUnits);
    }
  }

  /** The recorded shares of the challengers' side never exceed the whole side. */
  lemma SideSharesWithinWhole(env: Env, c: Claim)
    requires forall x | x in c.challengers :: x.stakeUnits >= 0
    requires c.totalChallengerStakeUnits == SumBy(StakeUnits, c.challengers) > 0
    ensures SumBy(SideShare(env, c), c.challengers) <= 10_000
  {
    SharesTimesPool(env, c, c.challengers);
    CancelFactor(SumBy(SideShare(env, c), c.challengers), 10_000, c.totalChallengerStakeUnits);
  }

  // ----- What all claims record for one address -----

  function AllRecords(env: Env, claims: seq<Claim>, address: JsString): seq<Position> {
    if claims == [] then []
    else AllRecords(env, claims[..|claims| - 1], address) + Records(env, claims[|claims| - 1], address)
  }

  function SelfDealtCount(claims: seq<Claim>, address: JsString): nat {
    if claims == [] then 0
    else SelfDealtCount(claims[..|claims| - 1], address) + SelfDealtBy(claims[|claims| - 1], address)
  }

  function AllAddresses(claims: seq<Claim>): set<JsString> { set c, a | c in claims && a in Addresses(c) :: a }

  function ActorOf(env: Env, address: JsString): ActorType { if env.isAgent(address) then Agent else Human }

  function RawEntry(env: Env, claims: seq<Claim>, address: JsString): Input {
    Input(address, ActorOf(env, address), AllRecords(env, claims, address), SelfDealtCount(claims, address))
  }

  predicate EarlierClaim(a: Position, b: Position) { a.claimId < b.claimId }

  function SortPositions(ps: seq<Position>): seq<Position> { Sort(EarlierClaim, ps) }

  function EntryOf(env: Env, claims: seq<Claim>, address: JsString): Input {
    var raw := RawEntry(env, claims, address);
    raw.(positions := SortPositions(raw.positions))
  }

  /** One entry per address that appears, each with all its positions by claim, in the order
      of addresses. */
  ghost predicate IsProjection(env: Env, claims: seq<Claim>, less: (JsString, JsString) -> bool, inputs: seq<Input>) {
    && (forall i | 0 <= i < |inputs| :: inputs[i] == EntryOf(env, claims, inputs[i].address))
    && (forall a :: a in AllAddresses(claims) <==> exists i | 0 <= i < |inputs| :: inputs[i].address == a)
    && (forall i, j | 0 <= i < j < |inputs| :: less(inputs[i].address, inputs[j].address))
  }

  // ----- The fold -----

  function Get(env: Env, m: map<JsString, Input>, address: JsString): Input {
    if address in m then m[address] else Input(address, ActorOf(env, address), [], 0)
  }

  function With(e: Input, ps: seq<Position>, selfDealt: nat): Input {
    e.(positions := e.positions + ps, selfDealtClaims := e.selfDealtClaims + selfDealt)
  }

  /** `r` is `m` after recording some challengers of a claim. */
  ghost predicate Recorded(
    env: Env, c: Claim, m: map<JsString, Input>, challengers: seq<Challenger>, r: map<JsString, Input>)
  {
    && r.Keys == m.Keys + (set x | x in challengers :: x.address)
    && forall a :: Get(env, r, a) == With(Get(env, m, a), ChallengerRecords(env, c, challengers, a), 0)
  }

  /** Records the challengers of a claim, skipping its creator. */
  method RecordChallengers(env: Env, c: Claim, m: map<JsString, Input>) returns (r: map<JsString, Input>)
    requires c.creator in m
    ensures Recorded(env, c, m, c.challengers, r)
  {
    r := m;
    for j := 0 to |c.challengers|
      invariant Recorded(env, c, m, c.challengers[..j], r)
    {
      var x := c.challengers[j];
      assert c.challengers[..j + 1] == c.challengers[..j] + [x];
      ghost var before := r;
      if x.address != c.creator {
        var e := Get(env, r, x.address);
        r := r[x.address := e.(positions := e.positions + [ChallengerPosition(env, c, x)])];
      }
      RecordedNext(env, c, m, c.challengers[..j], before, x, r);
    }
    assert c.challengers[..|c.challengers|] == c.challengers;
  }

  lemma RecordedNext(
    env: Env, c: Claim, m: map<JsString, Input>, challengers: seq<Challenger>, r: map<JsString, Input>, x: Challenger,
    r': map<JsString, Input>)
    requires c.creator in m && Recorded(env, c, m, challengers, r)
    requires var e := Get(env, r, x.address);
      r' == if x.address == c.creator then r
            else r[x.address := e.(positions := e.positions + [ChallengerPosition(env, c, x)])]
    ensures Recorded(env, c, m, challengers + [x], r')
  {
    assert (challengers + [x])[..|challengers|] == challengers;
    forall a ensures Get(env, r', a) == With(Get(env, m, a), ChallengerRecords(env, c, challengers + [x], a), 0) {
      assert Get(env, r, a) == With(Get(env, m, a), ChallengerRecords(env, c, challengers, a), 0);
      assert Get(env, r', a) == With(Get(env, r, a), RecordOne(env, c, x, a), 0);
      WithTwice(Get(env, m, a), ChallengerRecords(env, c, challengers, a), 0, RecordOne(env, c, x, a), 0);
    }
    assert forall y :: y in challengers + [x] <==> y in challengers || y == x;
  }

  lemma WithTwice(e: Input, ps: seq<Position>, m: nat, qs: seq<Position>, n: nat)
    ensures With(With(e, ps, m), qs, n) == With(e, ps + qs, m + n)
  {
    assert (e.positions + ps) + qs == e.positions + (ps + qs);
  }

  method RecordClaim(env: Env, c: Claim, m: map<JsString, Input>) returns (r: map<JsString, Input>)
    ensures r.Keys == m.Keys + Addresses(c)
    ensures forall a :: Get(env, r, a) == With(Get(env, m, a), Records(env, c, a), SelfDealtBy(c, a))
  {
    var e := Get(env, m, c.creator);
    var started;
    if exists i | 0 <= i < |c.challengers| :: c.challengers[i].address == c.creator {
      started := m[c.creator := e.(selfDealtClaims := e.selfDealtClaims + 1)];
    } else {
      started := m[c.creator := e.(positions := e.positions + [CreatorPosition(env, c)])];
    }
    r := RecordChallengers(env, c, started);
    forall a ensures Get(env, r, a) == With(Get(env, m, a), Records(env, c, a), SelfDealtBy(c, a)) {
      var first := if a == c.creator && !SelfDealt(c) then [CreatorPosition(env, c)] else [];
      assert Get(env, started, a) == With(Get(env, m, a), first, SelfDealtBy(c, a));
      WithTwice(Get(env, m, a), first, SelfDealtBy(c, a), ChallengerRecords(env, c, c.challengers, a), 0);
    }
  }

  method Fold(env: Env, claims: seq<Claim>) returns (byAddress: map<JsString, Input>)
    ensures byAddress.Keys == AllAddresses(claims)
    ensures forall a | a in byAddress :: byAddress[a] == RawEntry(env, claims, a)
  {
    byAddress := map[];
    for i := 0 to |claims|
      invariant byAddress.Keys == AllAddresses(claims[..i])
      invariant forall a :: Get(env, byAddress, a) == RawEntry(env, claims[..i], a)
    {
      assert claims[..i + 1] == claims[..i] + [claims[i]];
      AddressesSnoc(claims[..i], claims[i]);
      ghost var before := byAddress;
      byAddress := RecordClaim(env, claims[i], byAddress);
      forall a ensures Get(env, byAddress, a) == RawEntry(env, claims[..i + 1], a) {
        assert Get(env, before, a) == RawEntry(env, claims[..i], a);
        assert claims[..i + 1][..i] == claims[..i];
      }
    }
    assert claims[..|claims|] == claims;
    assert forall a | a in byAddress :: byAddress[a] == Get(env, byAddress, a);
  }

  lemma AddressesSnoc(claims: seq<Claim>, c: Claim)
    ensures AllAddresses(claims + [c]) == AllAddresses(claims) + Addresses(c)
  {
    assert forall x :: x in claims + [c] <==> x in claims || x == c;
  }

  predicate ByAddress(less: (JsString, JsString) -> bool, a: Input, b: Input) { less(a.address, b.address) }

  function AddressOf(e: Input): JsString { e.address }

  /** The entries of the map with their positions sorted, in no particular order. */
  method SortedEntries(env: Env, claims: seq<Claim>, byAddress: map<JsString, Input>) returns (entries: seq<Input>)
    requires forall a | a in byAddress :: byAddress[a] == RawEntry(env, claims, a)
    ensures forall e :: e in entries <==> e.address in byAddress && e == EntryOf(env, claims, e.address)
    ensures DistinctKeys(AddressOf, entries)
  {
    entries := [];
    var left := byAddress.Keys;
    while left != {}
      invariant left <= byAddress.Keys
      invariant forall e :: e in entries <==> e.address in byAddress.Keys - left && e == EntryOf(env, claims, e.address)
      invariant DistinctKeys(AddressOf, entries)
    {
      var a :| a in left;
      assert forall e | e in entries :: e.address != a;
      entries := entries + [byAddress[a].(positions := SortPositions(byAddress[a].positions))];
      left := left - {a};
    }
  }

  /** `positionsFromProjection`. `less` stands for `localeCompare`, a strict total order. */
  method PositionsFromProjection(env: Env, claims: seq<Claim>, less: (JsString, JsString) -> bool)
    returns (inputs: seq<Input>)
    requires StrictTotalOrder(less)
    ensures IsProjection(env, claims, less, inputs)
    ensures forall e, p | e in inputs && p in e.positions ::
      exists c :: c in claims && IsPosition(env, c, e.address, p)
  {
    var byAddress := Fold(env, claims);
    var entries := SortedEntries(env, claims, byAddress);
    inputs := Sort((a, b) => ByAddress(less, a, b), entries);
    SortedByAddress(less, entries, inputs);
    assert forall i | 0 <= i < |inputs| :: inputs[i] in entries;
    forall a | a in AllAddresses(claims) ensures exists i | 0 <= i < |inputs| :: inputs[i].address == a {
      assert EntryOf(env, claims, a) in inputs;
    }
    forall e | e in inputs
      ensures forall p | p in e.positions :: exists c :: c in claims && IsPosition(env, c, e.address, p)
    {
      PositionsOfEntry(env, claims, e.address);
    }
  }

  lemma {:induction false} PositionsAreRecorded(env: Env, claims: seq<Claim>, address: JsString)
    ensures forall p | p in AllRecords(env, claims, address) ::
      exists c :: c in claims && IsPosition(env, c, address, p)
  {
    if claims != [] {
      var n := |claims| - 1;
      PositionsAreRecorded(env, claims[..n], address);
      RecordsPerAddress(env, claims[n], address);
      assert claims[n] in claims && forall c | c in claims[..n] :: c in claims;
    }
  }

  lemma PositionsOfEntry(env: Env, claims: seq<Claim>, address: JsString)
    ensures forall p | p in EntryOf(env, claims, address).positions ::
      exists c :: c in claims && IsPosition(env, c, address, p)
  {
    var ps := AllRecords(env, claims, address);
    PositionsAreRecorded(env, claims, address);
    SortPermutes(EarlierClaim, ps);
    PermutationMembers(SortPositions(ps), ps);
  }

  lemma SortedByAddress(less: (JsString, JsString) -> bool, entries: seq<Input>, inputs: seq<Input>)
    requires StrictTotalOrder(less) && DistinctKeys(AddressOf, entries)
    requires inputs == Sort((a, b) => ByAddress(less, a, b), entries)
    ensures forall e :: e in inputs <==> e in entries
    ensures forall i, j | 0 <= i < j < |inputs| :: less(inputs[i].address, inputs[j].address)
  {
    var order := (a, b) => ByAddress(less, a, b);
    forall x, y | x in entries && y in entries && x != y ensures order(x, y) || order(y, x) {
      var i, j :| 0 <= i < |entries| && 0 <= j < |entries| && entries[i] == x && entries[j] == y;
      assert AddressOf(entries[i]) != AddressOf(entries[j]);
    }
    SortStrictly(order, entries);
  }

  // ----- The stable sort of positions -----

  function OfClaim(ps: seq<Position>, id: int): seq<Position> { Filter((p: Position) => p.claimId == id, ps) }

  predicate Ascending(ps: seq<Position>) { forall i, j | 0 <= i < j < |ps| :: ps[i].claimId <= ps[j].claimId }

  lemma {:induction false} InsertStable(p: Position, ps: seq<Position>, id: int)
    ensures OfClaim(Insert(EarlierClaim, p, ps), id) == (if p.claimId == id then [p] else []) + OfClaim(ps, id)
  {
    if ps != [] && EarlierClaim(ps[0], p) {
      InsertStable(p, ps[1..], id);
    } else {
      assert ([p] + ps)[1..] == ps;
    }
  }

  /** Sorting keeps the order of positions within a claim. */
  lemma {:induction false} SortStable(ps: seq<Position>, id: int)
    ensures OfClaim(SortPositions(ps), id) == OfClaim(ps, id)
  {
    if ps != [] {
      SortStable(ps[1..], id);
      InsertStable(ps[0], SortPositions(ps[1..]), id);
    }
  }

  lemma {:induction false} InsertAscending(p: Position, ps: seq<Position>)
    requires Ascending(ps)
    ensures Ascending(Insert(EarlierClaim, p, ps))
  {
    if ps != [] && EarlierClaim(ps[0], p) {
      var t := Insert(EarlierClaim, p, ps[1..]);
      InsertAscending(p, ps[1..]);
      InsertPermutes(EarlierClaim, p, ps[1..]);
      forall q | q in t ensures ps[0].claimId <= q.claimId {
        assert q in multiset(t);
        assert q == p || q in ps[1..];
      }
      ConsAscending(ps[0], t);
    }
  }

  lemma ConsAscending(p: Position, ps: seq<Position>)
    requires Ascending(ps) && forall q | q in ps :: p.claimId <= q.claimId
    ensures Ascending([p] + ps)
  {
  }

  lemma {:induction false} SortAscending(ps: seq<Position>)
    ensures Ascending(SortPositions(ps))
  {
    if ps != [] {
      SortAscending(ps[1..]);
      InsertAscending(ps[0], SortPositions(ps[1..]));
    }
  }

  lemma FirstOfClaim(ps: seq<Position>, id: int)
    requires ps != [] && ps[0].claimId == id
    ensures OfClaim(ps, id) == [ps[0]] + OfClaim(ps[1..], id)
  {
  }

  lemma OthersOfClaim(ps: seq<Position>, id: int)
    requires ps != [] && ps[0].claimId != id
    ensures OfClaim(ps, id) == OfClaim(ps[1..], id)
  {
  }

  lemma NoneMissing(ps: seq<Position>, qs: seq<Position>)
    requires forall id :: OfClaim(ps, id) == OfClaim(qs, id)
    ensures ps != [] ==> qs != []
  {
    if ps != [] {
      assert OfClaim(ps, ps[0].claimId) == OfClaim(qs, ps[0].claimId);
      FirstOfClaim(ps, ps[0].claimId);
    }
  }

  /** In ascending order, what each claim holds determines the whole sequence. */
  lemma {:induction false} AscendingIsDetermined(ps: seq<Position>, qs: seq<Position>)
    requires Ascending(ps) && Ascending(qs) && forall id :: OfClaim(ps, id) == OfClaim(qs, id)
    ensures ps == qs
  {
    NoneMissing(ps, qs);
    NoneMissing(qs, ps);
    if ps != [] {
      SmallestFirst(ps, qs);
      SmallestFirst(qs, ps);
      var m := ps[0].claimId;
      FirstOfClaim(ps, m);
      FirstOfClaim(qs, m);
      assert ps[0] == OfClaim(ps, m)[0] == OfClaim(qs, m)[0] == qs[0];
      forall id ensures OfClaim(ps[1..], id) == OfClaim(qs[1..], id) {
        assert OfClaim(ps, id) == OfClaim(qs, id);
        if id == m {
          assert OfClaim(ps[1..], m) == OfClaim(ps, m)[1..];
          assert OfClaim(qs[1..], m) == OfClaim(qs, m)[1..];
        } else {
          OthersOfClaim(ps, id);
          OthersOfClaim(qs, id);
        }
      }
      AscendingIsDetermined(ps[1..], qs[1..]);
    }
  }

  lemma SmallestFirst(ps: seq<Position>, qs: seq<Position>)
    requires ps != [] && qs != [] && Ascending(qs) && OfClaim(ps, ps[0].claimId) == OfClaim(qs, ps[0].claimId)
    ensures qs[0].claimId <= ps[0].claimId
  {
    var id := ps[0].claimId;
    FirstOfClaim(ps, id);
    var x := OfClaim(qs, id)[0];
    FilterMembers((p: Position) => p.claimId == id, qs);
    assert x in OfClaim(qs, id);
    var i :| 0 <= i < |qs| && qs[i] == x;
  }

  // ----- Rebuilding from permuted claims -----

  function ClaimIdOf(c: Claim): int { c.claimId }

  lemma {:induction false} OfOneClaim(ps: seq<Position>, claimId: int, id: int)
    requires forall p | p in ps :: p.claimId == claimId
    ensures OfClaim(ps, id) == if id == claimId then ps else []
  {
    if ps != [] {
      assert ps[0].claimId == claimId;
      OfOneClaim(ps[1..], claimId, id);
    }
  }

  lemma RecordsOfClaim(env: Env, c: Claim, address: JsString, id: int)
    ensures OfClaim(Records(env, c, address), id) == if id == c.claimId then Records(env, c, address) else []
  {
    OneRecordPerStake(env, c, c.challengers, address);
    OfOneClaim(Records(env, c, address), c.claimId, id);
  }

  lemma AllRecordsOf(env: Env, claims: seq<Claim>, address: JsString, id: int)
    requires claims != []
    ensures var n := |claims| - 1;
      OfClaim(AllRecords(env, claims, address), id)
      == OfClaim(AllRecords(env, claims[..n], address), id)
         + if claims[n].claimId == id then Records(env, claims[n], address) else []
  {
    var n := |claims| - 1;
    RecordsOfClaim(env, claims[n], address, id);
    var ofClaim := (p: Position) => p.claimId == id;
    FilterConcat(ofClaim, AllRecords(env, claims[..n], address), Records(env, claims[n], address));
  }

  lemma {:induction false} NoRecordsOf(env: Env, claims: seq<Claim>, address: JsString, id: int)
    requires forall c | c in claims :: c.claimId != id
    ensures OfClaim(AllRecords(env, claims, address), id) == []
  {
    if claims != [] {
      NoRecordsOf(env, claims[..|claims| - 1], address, id);
      AllRecordsOf(env, claims, address, id);
    }
  }

  /** With distinct ids, the positions of one claim are what that claim recorded. */
  lemma {:induction false} RecordsComeFromTheirClaim(env: Env, claims: seq<Claim>, address: JsString, c: Claim)
    requires DistinctKeys(ClaimIdOf, claims) && c in claims
    ensures OfClaim(AllRecords(env, claims, address), c.claimId) == Records(env, c, address)
  {
    var n, id := |claims| - 1, c.claimId;
    AllRecordsOf(env, claims, address, id);
    OthersDiffer(claims);
    if c == claims[n] {
      NoRecordsOf(env, claims[..n], address, id);
    } else {
      var i :| 0 <= i < n && claims[i] == c;
      assert c in claims[..n];
      RecordsComeFromTheirClaim(env, claims[..n], address, c);
    }
  }

  /** In a projection of claims with distinct ids, the entry of an address holds for each claim
      what happened to it there: the creator wins with winner side 1 and loses with 2, each
      challenger's stake the other way round, and anything else is a refund or still open. */
  lemma WinnersWin(
    env: Env, claims: seq<Claim>, less: (JsString, JsString) -> bool, inputs: seq<Input>, i: nat, c: Claim)
    requires DistinctKeys(ClaimIdOf, claims) && IsProjection(env, claims, less, inputs)
    requires i < |inputs| && c in claims
    ensures var e := inputs[i];
      var ps := OfClaim(e.positions, c.claimId);
      && |ps| == (if e.address != c.creator then Stakes(c.challengers, e.address)
                  else if Stakes(c.challengers, e.address) == 0 then 1 else 0)
      && forall p | p in ps ::
           match c.state
           case Open => p.outcome == Pending
           case Active => p.outcome == Pending
           case Cancelled => p.outcome == Refund
           case Resolved =>
             if c.winnerSide == 1 then p.outcome == if e.address == c.creator then Win else Loss
             else if c.winnerSide == 2 then p.outcome == if e.address == c.creator then Loss else Win
             else p.outcome == Refund
  {
    var address := inputs[i].address;
    assert inputs[i] == EntryOf(env, claims, address);
    SortStable(AllRecords(env, claims, address), c.claimId);
    RecordsComeFromTheirClaim(env, claims, address, c);
    RecordsPerAddress(env, c, address);
  }

  lemma OthersDiffer(claims: seq<Claim>)
    requires DistinctKeys(ClaimIdOf, claims) && claims != []
    ensures DistinctKeys(ClaimIdOf, claims[..|claims| - 1])
    ensures forall d | d in claims[..|claims| - 1] :: d.claimId != claims[|claims| - 1].claimId
  {
    var n := |claims| - 1;
    forall d | d in claims[..n] ensures d.claimId != claims[n].claimId {
      var i :| 0 <= i < n && claims[i] == d;
      assert ClaimIdOf(claims[i]) != ClaimIdOf(claims[n]);
    }
  }

  lemma {:induction false} SelfDealtAsSum(claims: seq<Claim>, address: JsString)
    ensures SelfDealtCount(claims, address) == SumBy((c: Claim) => SelfDealtBy(c, address), claims)
  {
    if claims != [] {
      var n := |claims| - 1;
      SelfDealtAsSum(claims[..n], address);
      SumBySnoc((c: Claim) => SelfDealtBy(c, address), claims[..n], claims[n]);
      assert claims == claims[..n] + [claims[n]];
    }
  }

  lemma EntryIgnoresOrder(env: Env, claims: seq<Claim>, claims': seq<Claim>, address: JsString)
    requires DistinctKeys(ClaimIdOf, claims) && Permutation(claims, claims')
    ensures EntryOf(env, claims, address) == EntryOf(env, claims', address)
  {
    var ps, qs := AllRecords(env, claims, address), AllRecords(env, claims', address);
    DistinctKeysPermute(ClaimIdOf, claims, claims');
    PermutationMembers(claims, claims');
    forall id ensures OfClaim(SortPositions(ps), id) == OfClaim(SortPositions(qs), id) {
      SortStable(ps, id);
      SortStable(qs, id);
      if c :| c in claims && c.claimId == id {
        RecordsComeFromTheirClaim(env, claims, address, c);
        RecordsComeFromTheirClaim(env, claims', address, c);
      } else {
        NoRecordsOf(env, claims, address, id);
        NoRecordsOf(env, claims', address, id);
      }
    }
    SortAscending(ps);
    SortAscending(qs);
    AscendingIsDetermined(SortPositions(ps), SortPositions(qs));
    var dealt := (c: Claim) => SelfDealtBy(c, address);
    SelfDealtAsSum(claims, address);
    SelfDealtAsSum(claims', address);
    SumByPermutation(dealt, claims, claims');
  }

  /** Rebuilding from the same claims in any order gives the identical list. */
  lemma RebuildIsIdentical(
    env: Env, less: (JsString, JsString) -> bool, claims: seq<Claim>, claims': seq<Claim>,
    inputs: seq<Input>, inputs': seq<Input>)
    requires StrictTotalOrder(less) && DistinctKeys(ClaimIdOf, claims) && Permutation(claims, claims')
    requires IsProjection(env, claims, less, inputs) && IsProjection(env, claims', less, inputs')
    ensures inputs == inputs'
  {
    PermutationMembers(claims, claims');
    assert AllAddresses(claims) == AllAddresses(claims');
    var a, b := Map(AddressOf, inputs), Map(AddressOf, inputs');
    MapAt(AddressOf, inputs);
    MapAt(AddressOf, inputs');
    forall x ensures x in a <==> x in b {
      MappedAddresses(env, claims, less, inputs, x);
      MappedAddresses(env, claims', less, inputs', x);
    }
    StrictlySortedIsUnique(less, a, b);
    forall i | 0 <= i < |inputs| ensures inputs[i] == inputs'[i] {
      assert a[i] == b[i];
      EntryIgnoresOrder(env, claims, claims', a[i]);
    }
  }

  lemma MappedAddresses(env: Env, claims: seq<Claim>, less: (JsString, JsString) -> bool, inputs: seq<Input>,
    x: JsString)
    requires IsProjection(env, claims, less, inputs)
    ensures x in Map(AddressOf, inputs) <==> x in AllAddresses(claims)
  {
    MapAt(AddressOf, inputs);
    if x in AllAddresses(claims) {
      var i :| 0 <= i < |inputs| && inputs[i].address == x;
      assert Map(AddressOf, inputs)[i] == x;
    }
  }

  // ----- Ranking -----

  datatype SortKey = ByConviction | ByWinRate | ByStreak | ByVolume

  datatype Streak = Streak(current: int, best: int, resolved: nat, wins: nat, losses: nat, refunds: nat,
    winRateBps: Option<int>)
  datatype Conviction = Conviction(score: real, scored: nat, realizedPnl: real, earlyUnderdogs: nat)

  /** `computeStreak` and `computeConviction`, functions of the position sequence. */
  datatype Scoring = Scoring(streak: seq<Position> -> Streak, conviction: seq<Position> -> Conviction)

  datatype Entry = Entry(
    address: JsString, actorType: ActorType, streak: Streak, conviction: Conviction, convictionPerPosition: real,
    categories: set<JsString>, selfDealtClaims: nat)

  function StatsFor(scoring: Scoring, category: Option<JsString>, input: Input): Entry {
    var positions :=
      if category.Some? && category.value != [] then
        Filter((p: Position) => LowerAscii(p.category) == LowerAscii(category.value), input.positions)
      else input.positions;
    var c := scoring.conviction(positions);
    Entry(input.address, input.actorType, scoring.streak(positions), c,
          if c.scored > 0 then c.score / c.scored as real else 0.0,
          set p | p in positions && Trim(p.category) != [] :: Trim(p.category), input.selfDealtClaims)
  }

  /** An entry scores the positions of one category, in their order, or all of them when none is
      asked for, and belongs to the same actor. */
  lemma EntryScores(scoring: Scoring, category: Option<JsString>, input: Input) returns (ps: seq<Position>)
    ensures category in {None, Some([])} ==> ps == input.positions
    ensures category !in {None, Some([])} ==>
      ps == Filter((p: Position) => LowerAscii(p.category) == LowerAscii(category.value), input.positions)
    ensures var e := StatsFor(scoring, category, input);
      && e.address == input.address && e.actorType == input.actorType && e.selfDealtClaims == input.selfDealtClaims
      && e.streak == scoring.streak(ps) && e.conviction == scoring.conviction(ps)
      && (e.conviction.scored == 0 ==> e.convictionPerPosition == 0.0)
      && (e.conviction.scored > 0 ==>
            e.convictionPerPosition * e.conviction.scored as real == e.conviction.score)
      && forall name :: name in e.categories <==> name != [] && exists p | p in ps :: Trim(p.category) == name
  {
    ps := input.positions;
    if category.Some? && category.value != [] {
      ps := Filter((p: Position) => LowerAscii(p.category) == LowerAscii(category.value), ps);
    }
  }

  function WinRate(e: Entry): int { if e.streak.winRateBps.None? then -1 else e.streak.winRateBps.value }

  function Primary(key: SortKey, a: Entry, b: Entry): real {
    match key
    case ByWinRate => (WinRate(b) - WinRate(a)) as real
    case ByStreak => (b.streak.current - a.streak.current) as real
    case ByVolume => (b.streak.resolved - a.streak.resolved) as real
    case ByConviction => b.convictionPerPosition - a.convictionPerPosition
  }

  /** `comparator(sortBy)`: negative when `a` comes first. */
  function Compare(key: SortKey, less: (JsString, JsString) -> bool, a: Entry, b: Entry): real {
    if Primary(key, a, b) != 0.0 then Primary(key, a, b)
    else if b.convictionPerPosition != a.convictionPerPosition then b.convictionPerPosition - a.convictionPerPosition
    else if b.streak.resolved != a.streak.resolved then (b.streak.resolved - a.streak.resolved) as real
    else if less(a.address, b.address) then -1.0
    else if a.address == b.address then 0.0
    else 1.0
  }

  predicate Ahead(key: SortKey, less: (JsString, JsString) -> bool, a: Entry, b: Entry) {
    Compare(key, less, a, b) < 0.0
  }

  datatype Board = Board(ranked: seq<Entry>, unranked: seq<Entry>, minResolved: int)

  const DEFAULT_MIN_RESOLVED: int := 3

  function BuildLeaderboard(
    scoring: Scoring, less: (JsString, JsString) -> bool, category: Option<JsString>, minResolved: Option<int>,
    key: SortKey,
    inputs: seq<Input>): Board
  {
    var least := if minResolved.None? then DEFAULT_MIN_RESOLVED else minResolved.value;
    var entries := Map(input => StatsFor(scoring, category, input), inputs);
    Board(
      Sort((a, b) => Ahead(key, less, a, b), Filter((e: Entry) => e.streak.resolved >= least, entries)),
      Sort((a, b) => Ahead(key, less, a, b), Filter((e: Entry) => e.streak.resolved < least, entries)),
      least)
  }

  /** Whatever the metric, the tiebreaks make the comparator a strict order, total on entries
      with different addresses. */
  lemma ComparatorIsStrict(key: SortKey, less: (JsString, JsString) -> bool)
    requires StrictTotalOrder(less)
    ensures StrictOrder((a, b) => Ahead(key, less, a, b))
    ensures forall a: Entry, b: Entry | a.address != b.address :: Ahead(key, less, a, b) || Ahead(key, less, b, a)
  {
    var ahead := (a, b) => Ahead(key, less, a, b);
    forall a, b, c | ahead(a, b) && ahead(b, c) ensures ahead(a, c) {
      AheadTransitive(key, less, a, b, c);
    }
  }

  lemma AheadTransitive(key: SortKey, less: (JsString, JsString) -> bool, a: Entry, b: Entry, c: Entry)
    requires StrictTotalOrder(less) && Ahead(key, less, a, b) && Ahead(key, less, b, c)
    ensures Ahead(key, less, a, c)
  {
    match key
    case ByWinRate =>
    case ByStreak =>
    case ByVolume =>
    case ByConviction =>
  }

  /** What a board is sorted by; whoever has no win rate comes last. */
  function Metric(key: SortKey, e: Entry): real {
    match key
    case ByConviction => e.convictionPerPosition
    case ByWinRate => (match e.streak.winRateBps case None => -1.0 case Some(bps) => bps as real)
    case ByStreak => e.streak.current as real
    case ByVolume => e.streak.resolved as real
  }

  /** The larger metric first; then the larger conviction, the more results, the smaller address. */
  predicate IsBetter(key: SortKey, less: (JsString, JsString) -> bool, a: Entry, b: Entry) {
    || Metric(key, a) > Metric(key, b)
    || (Metric(key, a) == Metric(key, b) && (
        || a.convictionPerPosition > b.convictionPerPosition
        || (a.convictionPerPosition == b.convictionPerPosition && (
            || a.streak.resolved > b.streak.resolved
            || (a.streak.resolved == b.streak.resolved && less(a.address, b.address))))))
  }

  lemma AheadIffBetter(key: SortKey, less: (JsString, JsString) -> bool, a: Entry, b: Entry)
    ensures Ahead(key, less, a, b) <==> IsBetter(key, less, a, b)
  {
    match key
    case ByWinRate =>
    case ByStreak =>
    case ByVolume =>
    case ByConviction =>
  }

  lemma SortBoardIgnoresOrder(key: SortKey, less: (JsString, JsString) -> bool, es: seq<Entry>, es': seq<Entry>)
    requires StrictTotalOrder(less) && Permutation(es, es')
    requires forall x, y | x in es && y in es && x != y :: x.address != y.address
    ensures Sort((a, b) => Ahead(key, less, a, b), es) == Sort((a, b) => Ahead(key, less, a, b), es')
  {
    ComparatorIsStrict(key, less);
    SortIgnoresOrder((a, b) => Ahead(key, less, a, b), es, es');
  }

  /** The same actors in any order, with distinct addresses, rank identically. */
  lemma BoardIgnoresOrder(
    scoring: Scoring, less: (JsString, JsString) -> bool, category: Option<JsString>, minResolved: Option<int>,
    key: SortKey,
    inputs: seq<Input>, inputs': seq<Input>)
    requires StrictTotalOrder(less) && DistinctKeys(AddressOf, inputs) && Permutation(inputs, inputs')
    ensures BuildLeaderboard(scoring, less, category, minResolved, key, inputs)
         == BuildLeaderboard(scoring, less, category, minResolved, key, inputs')
  {
    var least := if minResolved.None? then DEFAULT_MIN_RESOLVED else minResolved.value;
    var stats := (input: Input) => StatsFor(scoring, category, input);
    var es, es' := Map(stats, inputs), Map(stats, inputs');
    var many, few := (e: Entry) => e.streak.resolved >= least, (e: Entry) => e.streak.resolved < least;
    MapPermutation(stats, inputs, inputs');
    FilterPermutation(many, es, es');
    FilterPermutation(few, es, es');
    FilterMembers(many, es);
    FilterMembers(few, es);
    DistinctStats(scoring, category, inputs);
    SortBoardIgnoresOrder(key, less, Filter(many, es), Filter(many, es'));
    SortBoardIgnoresOrder(key, less, Filter(few, es), Filter(few, es'));
  }

  lemma DistinctStats(scoring: Scoring, category: Option<JsString>, inputs: seq<Input>)
    requires DistinctKeys(AddressOf, inputs)
    ensures var es := Map((input: Input) => StatsFor(scoring, category, input), inputs);
      Distinct(es) && forall x, y | x in es && y in es && x != y :: x.address != y.address
  {
    var stats := (input: Input) => StatsFor(scoring, category, input);
    var es := Map(stats, inputs);
    MapAt(stats, inputs);
    forall i, j | 0 <= i < j < |es| ensures es[i] != es[j] {
      assert AddressOf(inputs[i]) != AddressOf(inputs[j]);
      assert es[i].address == inputs[i].address && es[j].address == inputs[j].address;
    }
    forall x, y | x in es && y in es && x != y ensures x.address != y.address {
      var i, j :| 0 <= i < |es| && 0 <= j < |es| && es[i] == x && es[j] == y;
      assert AddressOf(inputs[i]) != AddressOf(inputs[j]);
      assert es[i].address == inputs[i].address && es[j].address == inputs[j].address;
    }
  }

  ghost predicate Ranks(key: SortKey, less: (JsString, JsString) -> bool, entries: seq<Entry>) {
    forall i, j | 0 <= i < j < |entries| :: IsBetter(key, less, entries[i], entries[j])
  }

  lemma {:induction false} SplitInTwo<T>(p: T -> bool, q: T -> bool, xs: seq<T>)
    requires forall x | x in xs :: p(x) != q(x)
    ensures multiset(Filter(p, xs)) + multiset(Filter(q, xs)) == multiset(xs)
  {
    if xs != [] {
      SplitInTwo(p, q, xs[1..]);
      assert xs == [xs[0]] + xs[1..];
      assert p(xs[0]) != q(xs[0]);
    }
  }

  /** Everybody is listed exactly once, ranked with enough decisive results and unranked
      without, the better ones first. */
  lemma BoardListsEveryone(
    scoring: Scoring, less: (JsString, JsString) -> bool, category: Option<JsString>, minResolved: Option<int>,
    key: SortKey,
    inputs: seq<Input>)
    requires StrictTotalOrder(less) && DistinctKeys(AddressOf, inputs)
    ensures var board := BuildLeaderboard(scoring, less, category, minResolved, key, inputs);
      && Permutation(board.ranked + board.unranked, Map((input: Input) => StatsFor(scoring, category, input), inputs))
      && (forall e | e in board.ranked :: e.streak.resolved >= board.minResolved) && Ranks(key, less, board.ranked)
      && (forall e | e in board.unranked :: e.streak.resolved < board.minResolved) && Ranks(key, less, board.unranked)
  {
    var least := if minResolved.None? then DEFAULT_MIN_RESOLVED else minResolved.value;
    var es := Map((input: Input) => StatsFor(scoring, category, input), inputs);
    var many, few := (e: Entry) => e.streak.resolved >= least, (e: Entry) => e.streak.resolved < least;
    DistinctStats(scoring, category, inputs);
    BoardPart(key, less, many, es);
    BoardPart(key, less, few, es);
    SplitInTwo(many, few, es);
  }

  lemma BoardPart(key: SortKey, less: (JsString, JsString) -> bool, keep: Entry -> bool, es: seq<Entry>)
    requires StrictTotalOrder(less) && Distinct(es)
    requires forall x, y | x in es && y in es && x != y :: x.address != y.address
    ensures var part := Sort((a, b) => Ahead(key, less, a, b), Filter(keep, es));
      Ranks(key, less, part) && Permutation(part, Filter(keep, es)) && forall e | e in part :: keep(e)
  {
    var kept := Filter(keep, es);
    FilterMembers(keep, es);
    FilterDistinct(keep, es);
    ComparatorIsStrict(key, less);
    SortStrictly((a, b) => Ahead(key, less, a, b), kept);
    SortPermutes((a, b) => Ahead(key, less, a, b), kept);
    var part := Sort((a, b) => Ahead(key, less, a, b), kept);
    forall i, j | 0 <= i < j < |part| ensures IsBetter(key, less, part[i], part[j]) {
      AheadIffBetter(key, less, part[i], part[j]);
    }
  }

  /** Distinct entries of a projection give the same leaderboard from any order of claims. */
  lemma RebuiltBoardIsIdentical(
    env: Env, scoring: Scoring, less: (JsString, JsString) -> bool, category: Option<JsString>,
    minResolved: Option<int>,
    key: SortKey,
    claims: seq<Claim>, claims': seq<Claim>, inputs: seq<Input>, inputs': seq<Input>, shuffled: seq<Input>)
    requires StrictTotalOrder(less) && DistinctKeys(ClaimIdOf, claims) && Permutation(claims, claims')
    requires IsProjection(env, claims, less, inputs) && IsProjection(env, claims', less, inputs')
    requires Permutation(inputs', shuffled)
    ensures BuildLeaderboard(scoring, less, category, minResolved, key, inputs)
         == BuildLeaderboard(scoring, less, category, minResolved, key, shuffled)
  {
    RebuildIsIdentical(env, less, claims, claims', inputs, inputs');
    assert DistinctKeys(AddressOf, inputs) by {
      forall i, j | 0 <= i < j < |inputs| ensures AddressOf(inputs[i]) != AddressOf(inputs[j]) {
        assert less(inputs[i].address, inputs[j].address);
      }
    }
    BoardIgnoresOrder(scoring, less, category, minResolved, key, inputs, shuffled);
  }
}
