/** x/auction: surplus, debt and two-phase collateral auctions. Data model, the coin movements each handler plans,
    and the handlers as functions on the module's state. The keeper in AuctionKeeper.dfy carries them out step by
    step. */
module AuctionSpec {
  import opened Prelude
  import opened Banking
  import opened Split
  import opened Decimal

  const AUCTION: Account := Module("auction")
  /** 9000-01-01T00:00:00Z in nanoseconds: the end time of an auction nobody has bid on. */
  const DISTANT_FUTURE: int := 221_845_392_000 * 1_000_000_000

  datatype Params = Params(
    maxAuctionDuration: int, forwardBidDuration: int, reverseBidDuration: int,
    incrementSurplus: int, incrementDebt: int, incrementCollateral: int)
  {
    /** x/auction/types/params.go Validate. Increments may exceed one. */
    predicate Valid() {
      && 0 <= forwardBidDuration <= maxAuctionDuration && 0 <= reverseBidDuration <= maxAuctionDuration
      && 0 <= incrementSurplus && 0 <= incrementDebt && 0 <= incrementCollateral
    }
  }

  datatype Config = Config(params: Params, blocked: set<string>, minters: set<string>, burners: set<string>)

  datatype Base = Base(
    id: nat, initiator: string, lot: Coin, bidder: Account, bid: Coin,
    hasReceivedBids: bool, endTime: int, maxEndTime: int)

  datatype WeightedAddresses = WeightedAddresses(addresses: seq<Account>, weights: seq<int>)

  datatype Auction =
    | Surplus(base: Base)
    | Debt(base: Base, debt: Coin)
    | Collateral(base: Base, debt: Coin, maxBid: Coin, lotReturns: WeightedAddresses)
  {
    predicate IsReversePhase() {
      Collateral? && base.bid == maxBid
    }

    function Initiator(): Account {
      Module(base.initiator)
    }
  }

  /** An entry of the by-time index. */
  datatype Entry = Entry(time: int, id: nat)

  datatype State = State(auctions: map<nat, Auction>, byTime: set<Entry>, nextID: Option<nat>, bank: Balances)

  /** What a handler intends: the auction afterwards and the coins to move, in order. */
  datatype Plan = Plan(auction: Auction, ops: seq<Op>)

  // ---------------------------------------------------------------- module account coins

  function In(c: Coin, denom: string): nat {
    if c.denom == denom then c.amount else 0
  }

  /** GetModuleAccountCoins: what the module account holds for an auction. */
  function Held(a: Auction, denom: string): nat {
    match a
    case Surplus(b) => In(b.lot, denom)
    case Debt(_, debt) => In(debt, denom)
    case Collateral(b, debt, _, _) => In(b.lot, denom) + In(debt, denom)
  }

  // ---------------------------------------------------------------- bids

  /** The least new bid: a share of the old one more, and at least one more. */
  function MinRaise(amount: nat, increment: int): int {
    amount + Max(1, RoundHalfEven(amount * increment, ONE))
  }

  /** The greatest new lot: a share of the old one less, and at least one less. */
  function MaxLower(amount: nat, increment: int): int {
    amount - Max(1, RoundHalfEven(amount * increment, ONE))
  }

  /** Bidder and end times after an accepted bid; the maximum end time is fixed at the first bid. */
  function Touch(b: Base, bidder: Account, time: int, p: Params, duration: int): Base {
    var maxEnd := if b.hasReceivedBids then b.maxEndTime else time + p.maxAuctionDuration;
    b.(bidder := bidder, hasReceivedBids := true, maxEndTime := maxEnd, endTime := Min(time + duration, maxEnd))
  }

  /** The new bidder pays back the old one through the module account. */
  function Repay(b: Base, bidder: Account): seq<Op> {
    [Move(bidder, AUCTION, b.bid, BidMoney), Pay(AUCTION, b.bidder, b.bid, BidMoney)]
  }

  function PlanBidSurplus(cfg: Config, a: Auction, bidder: Account, denom: string, amount: int, time: int): Result<Plan>
    requires a.Surplus?
  {
    var b := a.base;
    if denom != b.bid.denom then Err(InvalidBidDenom)
    else if amount < MinRaise(b.bid.amount, cfg.params.incrementSurplus) then Err(BidTooSmall)
    else
      var more := Coin(denom, amount - b.bid.amount);
      var b' := Touch(b, bidder, time, cfg.params, cfg.params.forwardBidDuration).(bid := Coin(denom, amount));
      Ok(Plan(Surplus(b'),
              (if bidder != b.bidder && b.bid.amount != 0 then Repay(b, bidder) else [])
              + [Move(bidder, a.Initiator(), more, BidMoney), Burn(a.Initiator(), more, BidMoney)]))
  }

  function PlanForwardBidCollateral(
    cfg: Config, a: Auction, bidder: Account, denom: string, amount: int, time: int): Result<Plan>
    requires a.Collateral?
  {
    var b := a.base;
    if denom != b.bid.denom then Err(InvalidBidDenom)
    else if a.IsReversePhase() then Err(WrongPhase)
    else if amount < Min(MinRaise(b.bid.amount, cfg.params.incrementCollateral), a.maxBid.amount) then Err(BidTooSmall)
    else if a.maxBid.denom != denom then Err(InvalidBidDenom)
    else if a.maxBid.amount < amount then Err(BidTooLarge)
    else if amount < b.bid.amount then Err(NegativeCoin)
    else
      var more := Coin(denom, amount - b.bid.amount);
      var back := Coin(a.debt.denom, Min(more.amount, a.debt.amount));
      var bid := Coin(denom, amount);
      var duration := if bid == a.maxBid then cfg.params.reverseBidDuration else cfg.params.forwardBidDuration;
      var b' := Touch(b, bidder, time, cfg.params, duration).(bid := bid);
      Ok(Plan(Collateral(b', Coin(a.debt.denom, a.debt.amount - back.amount), a.maxBid, a.lotReturns),
              (if bidder != b.bidder && b.bid.amount != 0 then Repay(b, bidder) else [])
              + [Move(bidder, a.Initiator(), more, BidMoney)]
              + (if a.debt.amount > 0 then [Move(AUCTION, a.Initiator(), back, DebtMoney)] else [])))
  }

  /** The decrease of the lot goes to the lot returns; zero payouts are not sent. */
  function LotReturnOps(addresses: seq<Account>, denom: string, payouts: seq<int>): seq<Op>
    decreases |payouts|
  {
    if payouts == [] then []
    else
      var n := |payouts| - 1;
      LotReturnOps(addresses, denom, payouts[..n])
      + (if payouts[n] > 0 && n < |addresses| then [Pay(AUCTION, addresses[n], Coin(denom, payouts[n]), LotMoney)]
         else [])
  }

  /** A payout is left without an address, which panics once those before it are sent. */
  predicate Short(addresses: seq<Account>, payouts: seq<int>) {
    exists i :: |addresses| <= i < |payouts| && payouts[i] > 0
  }

  /** payouts is the outcome of the split (its ties may fall either way); nothing else is an outcome. */
  ghost function PlanReverseBidCollateral(
    cfg: Config, a: Auction, bidder: Account, denom: string, amount: int, time: int, payouts: seq<int>): Result<Plan>
    requires a.Collateral?
  {
    var b := a.base;
    if denom != b.lot.denom then Err(InvalidLotDenom)
    else if !a.IsReversePhase() then Err(WrongPhase)
    else if amount > MaxLower(b.lot.amount, cfg.params.incrementCollateral) then Err(LotTooLarge)
    else if amount < 0 then Err(LotTooSmall)
    else if !IsSplit(b.lot.amount - amount, a.lotReturns.weights, payouts) then Err(InvalidLotReturns)
    else if Short(a.lotReturns.addresses, payouts) then Err(InvalidLotReturns)
    else
      var b' := Touch(b, bidder, time, cfg.params, cfg.params.reverseBidDuration).(lot := Coin(denom, amount));
      Ok(Plan(Collateral(b', a.debt, a.maxBid, a.lotReturns),
              (if bidder != b.bidder then Repay(b, bidder) else [])
              + LotReturnOps(a.lotReturns.addresses, denom, payouts)))
  }

  /** The first bid is paid to the initiator and returns debt; later ones pay back the old bidder. */
  function PlanBidDebt(cfg: Config, a: Auction, bidder: Account, denom: string, amount: int, time: int): Result<Plan>
    requires a.Debt?
  {
    var b := a.base;
    if denom != b.lot.denom then Err(InvalidLotDenom)
    else if amount > MaxLower(b.lot.amount, cfg.params.incrementDebt) then Err(LotTooLarge)
    else if amount < 0 then Err(LotTooSmall)
    else
      var first := b.bidder == a.Initiator();
      var back := Coin(a.debt.denom, if first then Min(b.bid.amount, a.debt.amount) else 0);
      var b' := Touch(b, bidder, time, cfg.params, cfg.params.forwardBidDuration).(lot := Coin(denom, amount));
      Ok(Plan(Debt(b', Coin(a.debt.denom, a.debt.amount - back.amount)),
              (if bidder == b.bidder then []
               else if first then [Move(bidder, AUCTION, b.bid, BidMoney),
                                   Move(AUCTION, a.Initiator(), b.bid, BidMoney)]
               else Repay(b, bidder))
              + (if first then [Move(AUCTION, a.Initiator(), back, DebtMoney)] else [])))
  }

  ghost function PlanBid(
    cfg: Config, a: Auction, bidder: Account, denom: string, amount: int, time: int, payouts: seq<int>): Result<Plan>
  {
    match a
    case Surplus(_) => PlanBidSurplus(cfg, a, bidder, denom, amount, time)
    case Debt(_, _) => PlanBidDebt(cfg, a, bidder, denom, amount, time)
    case Collateral(_, _, _, _) =>
      if !a.IsReversePhase() then PlanForwardBidCollateral(cfg, a, bidder, denom, amount, time)
      else PlanReverseBidCollateral(cfg, a, bidder, denom, amount, time, payouts)
  }

  /** The operations already made when a bid fails with this error of its plan. Most errors come first; a negative
      coin or unusable lot returns, which no start and no bid leaves behind, show up later. */
  ghost function MadeBefore(
    a: Auction, bidder: Account, denom: string, amount: int, payouts: seq<int>, e: Error): seq<Op>
  {
    if !a.Collateral? then []
    else if !a.IsReversePhase() then
      if e == NegativeCoin && bidder != a.base.bidder && a.base.bid.amount != 0 then Repay(a.base, bidder) else []
    else if e != InvalidLotReturns then []
    else
      (if bidder != a.base.bidder then Repay(a.base, bidder) else [])
      + (if 0 <= amount <= a.base.lot.amount && IsSplit(a.base.lot.amount - amount, a.lotReturns.weights, payouts)
         then LotReturnOps(a.lotReturns.addresses, denom, payouts) else [])
  }

  /** The error of a bid: that of the first coin that does not move before it, else its own. */
  function LateError(blocked: set<string>, bank: Balances, before: seq<Op>, e: Error): Error {
    var r := ApplyAll(blocked, bank, before);
    if r.Err? then r.error else e
  }

  /** What a bid on surplus raises is burned from the initiator, which needs the permission to do so. The payments
      before it come first: burning what was just received cannot fail otherwise. */
  predicate MayBurn(cfg: Config, a: Auction) {
    !a.Surplus? || a.base.initiator in cfg.burners
  }

  /** The checks of a reverse bid have passed, so the decrease of the lot was split, and this is the split. */
  ghost predicate SplitMade(cfg: Config, a: Auction, denom: string, amount: int, payouts: seq<int>) {
    a.Collateral? && a.IsReversePhase() && denom == a.base.lot.denom
    && 0 <= amount <= MaxLower(a.base.lot.amount, cfg.params.incrementCollateral)
    && ValidWeights(a.lotReturns.weights) ==>
      IsSplit(a.base.lot.amount - amount, a.lotReturns.weights, payouts)
  }

  // ---------------------------------------------------------------- store

  /** SetAuction: store the auction and move its index entry. */
  function SetAuction(s: State, a: Auction, bank: Balances): State {
    var id := a.base.id;
    var cleaned := if id in s.auctions then s.byTime - {Entry(s.auctions[id].base.endTime, id)} else s.byTime;
    State(s.auctions[id := a], cleaned + {Entry(a.base.endTime, id)}, s.nextID, bank)
  }

  /** DeleteAuction: nothing happens if there is no such auction. */
  function DeleteAuction(s: State, id: nat, bank: Balances): State {
    var cleaned := if id in s.auctions then s.byTime - {Entry(s.auctions[id].base.endTime, id)} else s.byTime;
    State(s.auctions - {id}, cleaned, s.nextID, bank)
  }

  ghost function PlaceBid(
    cfg: Config, s: State, time: int, id: nat, bidder: Account, denom: string, amount: int,
    payouts: seq<int>): Result<State>
  {
    if id !in s.auctions then Err(AuctionNotFound)
    else if time > s.auctions[id].base.endTime then Err(AuctionHasExpired)
    else
      var a := s.auctions[id];
      var plan := PlanBid(cfg, a, bidder, denom, amount, time, payouts);
      if plan.Err? then
        Err(LateError(cfg.blocked, s.bank, MadeBefore(a, bidder, denom, amount, payouts, plan.error), plan.error))
      else
        var bank :- ApplyAll(cfg.blocked, s.bank, plan.value.ops);
        if !MayBurn(cfg, a) then Err(NoPermission) else Ok(SetAuction(s, plan.value.auction, bank))
  }

  // ---------------------------------------------------------------- start

  function StoreNew(cfg: Config, s: State, a: Auction, ops: seq<Op>): Result<State> {
    var bank :- ApplyAll(cfg.blocked, s.bank, ops);
    match s.nextID
    case None => Err(InvalidInitialAuctionID)
    case Some(id) => Ok(SetAuction(s, a.(base := a.base.(id := id)), bank).(nextID := Some(id + 1)))
  }

  function NewSurplus(seller: string, lot: Coin, bidDenom: string): Auction {
    Surplus(Base(0, seller, lot, Nobody, Coin(bidDenom, 0), false, DISTANT_FUTURE, DISTANT_FUTURE))
  }

  function NewDebt(buyer: string, bid: Coin, initialLot: Coin, debt: Coin): Auction {
    Debt(Base(0, buyer, initialLot, Module(buyer), bid, false, DISTANT_FUTURE, DISTANT_FUTURE), debt)
  }

  function NewCollateral(seller: string, lot: Coin, maxBid: Coin, lotReturns: WeightedAddresses, debt: Coin): Auction {
    Collateral(Base(0, seller, lot, Nobody, Coin(maxBid.denom, 0), false, DISTANT_FUTURE, DISTANT_FUTURE),
               debt, maxBid, lotReturns)
  }

  /** The lot, and the debt if any, go to the module account for the duration of the auction. */
  function DepositOps(a: Auction): seq<Op> {
    match a
    case Surplus(b) => [Move(a.Initiator(), AUCTION, b.lot, LotMoney)]
    case Debt(_, debt) => [Move(a.Initiator(), AUCTION, debt, DebtMoney)]
    case Collateral(b, debt, _, _) =>
      [Move(a.Initiator(), AUCTION, b.lot, LotMoney), Move(a.Initiator(), AUCTION, debt, DebtMoney)]
  }

  /** WeightedAddresses.Validate. */
  predicate ValidLotReturns(w: WeightedAddresses) {
    ValidWeights(w.weights) && |w.addresses| == |w.weights| && Nobody !in w.addresses
  }

  datatype StartMsg =
    | StartSurplus(seller: string, lot: Coin, bidDenom: string)
    | StartDebt(buyer: string, bid: Coin, lot: Coin, debt: Coin)
    | StartCollateral(seller: string, lot: Coin, maxBid: Coin, lotReturns: WeightedAddresses, debt: Coin)

  function NewAuction(m: StartMsg): Auction {
    match m
    case StartSurplus(seller, lot, bidDenom) => NewSurplus(seller, lot, bidDenom)
    case StartDebt(buyer, bid, lot, debt) => NewDebt(buyer, bid, lot, debt)
    case StartCollateral(seller, lot, maxBid, lotReturns, debt) => NewCollateral(seller, lot, maxBid, lotReturns, debt)
  }

  function Start(cfg: Config, s: State, m: StartMsg): Result<State> {
    if m.StartDebt? && m.buyer !in cfg.minters then Err(NoPermission)
    else if m.StartCollateral? && !ValidLotReturns(m.lotReturns) then Err(InvalidLotReturns)
    else StoreNew(cfg, s, NewAuction(m), DepositOps(NewAuction(m)))
  }

  // ---------------------------------------------------------------- close

  function DebtBackOps(a: Auction): seq<Op>
    requires !a.Surplus?
  {
    if a.debt.amount > 0 then [Move(AUCTION, a.Initiator(), a.debt, DebtMoney)] else []
  }

  function PayoutOps(a: Auction): seq<Op> {
    var b := a.base;
    match a
    case Surplus(_) => [Pay(AUCTION, b.bidder, b.lot, LotMoney)]
    case Debt(_, _) => [Mint(a.Initiator(), b.lot, LotMoney), Pay(a.Initiator(), b.bidder, b.lot, LotMoney)] +
                       DebtBackOps(a)
    case Collateral(_, _, _, _) => [Pay(AUCTION, b.bidder, b.lot, LotMoney)] + DebtBackOps(a)
  }

  function CloseAuction(cfg: Config, s: State, time: int, id: nat): Result<State> {
    if id !in s.auctions then Err(AuctionNotFound)
    else
      var a := s.auctions[id];
      if time < a.base.endTime then Err(AuctionHasNotExpired)
      else if a.Debt? && a.base.initiator !in cfg.minters then Err(NoPermission)
      else
        var bank :- ApplyAll(cfg.blocked, s.bank, PayoutOps(a));
        Ok(DeleteAuction(s, id, bank))
  }

  /** CloseExpiredAuctions over a snapshot of the index range, in the order given; an auction that is not found is
      skipped. */
  function CloseEach(cfg: Config, s: State, time: int, ids: seq<nat>): Result<State>
    decreases |ids|
  {
    if ids == [] then Ok(s)
    else
      var r := CloseAuction(cfg, s, time, ids[0]);
      if r.Err? && r.error != AuctionNotFound then r
      else CloseEach(cfg, if r.Ok? then r.value else s, time, ids[1..])
  }
}
