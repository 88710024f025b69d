/** The keeper of x/auction: the store, the by-time index and the handlers, step by step as the module carries them out.
    Every method is proved against the corresponding function of AuctionSpec. */
module AuctionKeeper {
  import opened Prelude
  import opened Banking
  import opened Split
  import opened SplitMethod
  import opened AuctionSpec
  import opened AuctionInvariant
  import Checks = AuctionChecks

  // ---------------------------------------------------------------- reasoning about batches of operations

  /** The balances after the operations done so far. */
  ghost predicate Did(blocked: set<string>, bank0: Balances, done: seq<Op>, bank: Balances) {
    ApplyAll(blocked, bank0, done) == Ok(bank)
  }

  lemma OneMore(blocked: set<string>, bank0: Balances, done: seq<Op>, bank: Balances, op: Op)
    requires Did(blocked, bank0, done, bank)
    ensures ApplyAll(blocked, bank0, done + [op]) == Apply(blocked, bank, op)
  {
    ApplyAllConcat(blocked, bank0, done, [op]);
    ApplyOneOp(blocked, bank, op);
  }

  lemma FailsForGood(blocked: set<string>, bank0: Balances, done: seq<Op>, rest: seq<Op>, ops: seq<Op>)
    requires ApplyAll(blocked, bank0, done).Err? && ops == done + rest
    ensures ApplyAll(blocked, bank0, ops) == ApplyAll(blocked, bank0, done)
  {
    ApplyAllConcat(blocked, bank0, done, rest);
  }

  /** What an account has just received can be burned. */
  lemma BurnAfterPay(blocked: set<string>, bank0: Balances, done: seq<Op>, bank: Balances, pay: Op, burn: Op)
    requires Did(blocked, bank0, done + [pay], bank) && ApplyAll(blocked, bank0, done).Ok?
    requires pay.Move? && burn.Burn? && burn.from == pay.to && burn.coin == pay.coin
    ensures ApplyAll(blocked, bank0, done + [pay, burn]).Ok?
  {
    var before := ApplyAll(blocked, bank0, done).value;
    OneMore(blocked, bank0, done, before, pay);
    assert done + [pay, burn] == done + [pay] + [burn];
    OneMore(blocked, bank0, done + [pay], bank, burn);
  }

  /** A plan and what became of it: the error of the plan (or of a coin before it), else the error of the first coin
      that does not move, else the updated auction with all coins moved. */
  ghost predicate Follows(
    blocked: set<string>, plan: Result<Plan>, before: seq<Op>, bank0: Balances, bank: Balances, r: Result<Auction>)
  {
    match plan
    case Err(e) => r == Err(LateError(blocked, bank0, before, e))
    case Ok(p) =>
      match ApplyAll(blocked, bank0, p.ops)
      case Err(e) => r == Err(e)
      case Ok(b) => r == Ok(p.auction) && bank == b
  }

  lemma {:induction false} CloseEachSnoc(cfg: Config, s: State, time: int, ids: seq<nat>, id: nat)
    requires CloseEach(cfg, s, time, ids).Ok?
    ensures CloseEach(cfg, s, time, ids + [id]) == CloseEach(cfg, CloseEach(cfg, s, time, ids).value, time, [id])
    decreases |ids|
  {
    if ids == [] {
      assert ids + [id] == [id];
    } else {
      assert (ids + [id])[1..] == ids[1..] + [id];
      var r := CloseAuction(cfg, s, time, ids[0]);
      CloseEachSnoc(cfg, if r.Ok? then r.value else s, time, ids[1..], id);
    }
  }

  class Keeper {
    const cfg: Config
    var auctions: map<nat, Auction>
    var byTime: set<Entry>
    var nextID: Option<nat>
    var bank: Balances

    ghost function Abs(): State
      reads this
    {
      State(auctions, byTime, nextID, bank)
    }

    constructor (cfg: Config, firstID: nat, bank: Balances)
      ensures this.cfg == cfg && Abs() == State(map[], {}, Some(firstID), bank)
    {
      this.cfg := cfg;
      auctions, byTime, nextID, this.bank := map[], {}, Some(firstID), bank;
    }

    // -------------------------------------------------------------- store

    method SetAuction(a: Auction)
      modifies this`auctions, this`byTime
      ensures Abs() == AuctionSpec.SetAuction(old(Abs()), a, old(bank))
    {
      if a.base.id in auctions {
        byTime := byTime - {Entry(auctions[a.base.id].base.endTime, a.base.id)};
      }
      auctions := auctions[a.base.id := a];
      byTime := byTime + {Entry(a.base.endTime, a.base.id)};
    }

    method DeleteAuction(id: nat)
      modifies this`auctions, this`byTime
      ensures Abs() == AuctionSpec.DeleteAuction(old(Abs()), id, old(bank))
    {
      if id in auctions {
        byTime := byTime - {Entry(auctions[id].base.endTime, id)};
      }
      auctions := auctions - {id};
    }

    method StoreNewAuction(a: Auction) returns (r: Result<nat>)
      modifies this`auctions, this`byTime, this`nextID
      ensures match old(nextID)
              case None => r == Err(InvalidInitialAuctionID) && Abs() == old(Abs())
              case Some(id) => (
                && r == Ok(id)
                && Abs() == AuctionSpec.SetAuction(old(Abs()), a.(base := a.base.(id := id)), old(bank))
                            .(nextID := Some(id + 1)))
    {
      if nextID.None? { return Err(InvalidInitialAuctionID); }
      var newID := nextID.value;
      SetAuction(a.(base := a.base.(id := newID)));
      nextID := Some(newID + 1);
      r := Ok(newID);
    }

    /** One bank operation, as the next of a batch. */
    method Do(op: Op, ghost bank0: Balances, ghost done: seq<Op>) returns (err: Option<Error>)
      requires Did(cfg.blocked, bank0, done, bank)
      modifies this`bank
      ensures err.None? ==> Did(cfg.blocked, bank0, done + [op], bank)
      ensures err.Some? ==> ApplyAll(cfg.blocked, bank0, done + [op]) == Err(err.value)
    {
      OneMore(cfg.blocked, bank0, done, bank, op);
      match Apply(cfg.blocked, bank, op)
      case Ok(b) => bank := b; err := None;
      case Err(e) => err := Some(e);
    }

    /** Two bank operations in a row. */
    method DoTwo(op1: Op, op2: Op, ghost bank0: Balances, ghost done: seq<Op>) returns (err: Option<Error>)
      requires Did(cfg.blocked, bank0, done, bank)
      modifies this`bank
      ensures err.None? ==> Did(cfg.blocked, bank0, done + [op1, op2], bank)
      ensures err.Some? ==> ApplyAll(cfg.blocked, bank0, done + [op1, op2]) == Err(err.value)
    {
      assert done + [op1, op2] == done + [op1] + [op2];
      ApplyAllConcat(cfg.blocked, bank0, done + [op1], [op2]);
      err := Do(op1, bank0, done);
      if err.Some? { return; }
      err := Do(op2, bank0, done + [op1]);
    }

    // -------------------------------------------------------------- start

    method StartSurplusAuction(seller: string, lot: Coin, bidDenom: string) returns (r: Result<nat>)
      modifies this
      ensures var m := StartSurplus(seller, lot, bidDenom);
              match Start(cfg, old(Abs()), m)
              case Ok(s) => r == Ok(old(nextID).value) && Abs() == s
              case Err(e) => r == Err(e)
    {
      var auction := NewSurplus(seller, lot, bidDenom);
      ApplyOneOp(cfg.blocked, bank, Move(Module(seller), AUCTION, lot, LotMoney));
      var err := Do(Move(Module(seller), AUCTION, lot, LotMoney), bank, []);
      assert [] + [Move(Module(seller), AUCTION, lot, LotMoney)] == DepositOps(auction);
      if err.Some? { return Err(err.value); }
      r := StoreNewAuction(auction);
    }

    method StartDebtAuction(buyer: string, bid: Coin, initialLot: Coin, debt: Coin) returns (r: Result<nat>)
      modifies this
      ensures var m := StartDebt(buyer, bid, initialLot, debt);
              match Start(cfg, old(Abs()), m)
              case Ok(s) => r == Ok(old(nextID).value) && Abs() == s
              case Err(e) => r == Err(e)
    {
      var auction := NewDebt(buyer, bid, initialLot, debt);
      if buyer !in cfg.minters { return Err(NoPermission); }
      var err := Do(Move(Module(buyer), AUCTION, debt, DebtMoney), bank, []);
      assert [] + [Move(Module(buyer), AUCTION, debt, DebtMoney)] == DepositOps(auction);
      if err.Some? { return Err(err.value); }
      r := StoreNewAuction(auction);
    }

    method StartCollateralAuction(seller: string, lot: Coin, maxBid: Coin, lotReturns: WeightedAddresses, debt: Coin)
      returns (r: Result<nat>)
      modifies this
      ensures var m := StartCollateral(seller, lot, maxBid, lotReturns, debt);
              match Start(cfg, old(Abs()), m)
              case Ok(s) => r == Ok(old(nextID).value) && Abs() == s
              case Err(e) => r == Err(e)
    {
      var valid := Checks.ValidateWeightedAddresses(lotReturns);
      if !valid { return Err(InvalidLotReturns); }
      var auction := NewCollateral(seller, lot, maxBid, lotReturns, debt);
      var first, second := Move(Module(seller), AUCTION, lot, LotMoney), Move(Module(seller), AUCTION, debt, DebtMoney);
      var err := DoTwo(first, second, bank, []);
      assert [] + [first, second] == DepositOps(auction);
      if err.Some? { return Err(err.value); }
      r := StoreNewAuction(auction);
    }

    // -------------------------------------------------------------- bids

    method PlaceBidSurplus(
      a: Auction, bidder: Account, denom: string, amount: int, time: int) returns (r: Result<Auction>)
      requires a.Surplus?
      modifies this`bank
      ensures var plan := PlanBidSurplus(cfg, a, bidder, denom, amount, time);
              if plan.Ok? && ApplyAll(cfg.blocked, old(bank), plan.value.ops).Ok? && !MayBurn(cfg, a)
              then r == Err(NoPermission)
              else Follows(cfg.blocked, plan, [], old(bank), bank, r)
    {
      var b := a.base;
      if denom != b.bid.denom { return Err(InvalidBidDenom); }
      var minNewBid := MinRaise(b.bid.amount, cfg.params.incrementSurplus);
      if amount < minNewBid { return Err(BidTooSmall); }
      ghost var head := if bidder != b.bidder && b.bid.amount != 0 then Repay(b, bidder) else [];
      var more := Coin(denom, amount - b.bid.amount);
      var pay, burn := Move(bidder, Module(b.initiator), more, BidMoney), Burn(Module(b.initiator), more, BidMoney);
      ghost var ops := head + [pay, burn];
      ghost var plan := PlanBidSurplus(cfg, a, bidder, denom, amount, time);
      assert plan.Ok? && plan.value.ops == ops && ops == head + [pay] + [burn];
      if bidder != b.bidder && b.bid.amount != 0 {
        var into, out := Move(bidder, AUCTION, b.bid, BidMoney), Pay(AUCTION, b.bidder, b.bid, BidMoney);
        var err := DoTwo(into, out, old(bank), []);
        assert [] + head == head;
        if err.Some? {
          FailsForGood(cfg.blocked, old(bank), head, [pay, burn], ops);
          return Err(err.value);
        }
      }
      var err := Do(pay, old(bank), head);
      if err.Some? {
        FailsForGood(cfg.blocked, old(bank), head + [pay], [burn], ops);
        return Err(err.value);
      }
      BurnAfterPay(cfg.blocked, old(bank), head, bank, pay, burn);
      if b.initiator !in cfg.burners { return Err(NoPermission); }
      err := Do(burn, old(bank), head + [pay]);
      assert err.None?;
      r := Ok(Surplus(Touch(b, bidder, time, cfg.params, cfg.params.forwardBidDuration).(bid := Coin(denom, amount))));
    }

    /** The new bidder pays, then debt goes back to the initiator as long as there is any. */
    method PayAndReturnDebt(
      pay: Op, giveBack: Op, owing: bool, ghost bank0: Balances, ghost head: seq<Op>) returns (err: Option<Error>)
      requires Did(cfg.blocked, bank0, head, bank)
      modifies this`bank
      ensures var ops := head + [pay] + (if owing then [giveBack] else []);
              if err.None? then Did(cfg.blocked, bank0, ops, bank)
              else ApplyAll(cfg.blocked, bank0, ops) == Err(err.value)
    {
      ghost var tail := if owing then [giveBack] else [];
      ApplyAllConcat(cfg.blocked, bank0, head + [pay], tail);
      err := Do(pay, bank0, head);
      if err.Some? { return; }
      if owing {
        err := Do(giveBack, bank0, head + [pay]);
      } else {
        assert head + [pay] + tail == head + [pay];
      }
    }

    method PlaceForwardBidCollateral(
      a: Auction, bidder: Account, denom: string, amount: int, time: int) returns (r: Result<Auction>)
      requires a.Collateral?
      modifies this`bank
      ensures var plan := PlanForwardBidCollateral(cfg, a, bidder, denom, amount, time);
              Follows(cfg.blocked, plan, Before(a, plan, bidder, denom, amount, []), old(bank), bank, r)
    {
      var b := a.base;
      if denom != b.bid.denom { return Err(InvalidBidDenom); }
      if a.IsReversePhase() { return Err(WrongPhase); }
      var minNewBid := Min(MinRaise(b.bid.amount, cfg.params.incrementCollateral), a.maxBid.amount);
      if amount < minNewBid { return Err(BidTooSmall); }
      if a.maxBid.denom != denom { return Err(InvalidBidDenom); }
      if a.maxBid.amount < amount { return Err(BidTooLarge); }
      ghost var head := if bidder != b.bidder && b.bid.amount != 0 then Repay(b, bidder) else [];
      var err: Option<Error> := None;
      if bidder != b.bidder && b.bid.amount != 0 {
        var into, out := Move(bidder, AUCTION, b.bid, BidMoney), Pay(AUCTION, b.bidder, b.bid, BidMoney);
        err := DoTwo(into, out, old(bank), []);
      }
      assert [] + head == head;
      if err.Some? {
        ForwardFails(cfg, a, bidder, denom, amount, time, old(bank), err.value);
        return Err(err.value);
      }
      if amount < b.bid.amount { return Err(NegativeCoin); }
      var more := Coin(denom, amount - b.bid.amount);
      var back := Coin(a.debt.denom, Min(more.amount, a.debt.amount));
      var pay := Move(bidder, Module(b.initiator), more, BidMoney);
      var giveBack := Move(AUCTION, Module(b.initiator), back, DebtMoney);
      ghost var plan := PlanForwardBidCollateral(cfg, a, bidder, denom, amount, time);
      assert plan.Ok? && plan.value.ops == head + [pay] + if a.debt.amount > 0 then [giveBack] else [];
      err := PayAndReturnDebt(pay, giveBack, a.debt.amount > 0, old(bank), head);
      if err.Some? { return Err(err.value); }
      var debt := Coin(a.debt.denom, a.debt.amount - back.amount);
      var bid := Coin(denom, amount);
      var duration := if bid == a.maxBid then cfg.params.reverseBidDuration else cfg.params.forwardBidDuration;
      r := Ok(Collateral(Touch(b, bidder, time, cfg.params, duration).(bid := bid), debt, a.maxBid, a.lotReturns));
    }

    /** The loop over the lot returns, after the operations in head. */
    method PayLotReturns(
      addresses: seq<Account>, denom: string, payouts: seq<int>, ghost bank0: Balances, ghost head: seq<Op>)
      returns (err: Option<Error>)
      requires Did(cfg.blocked, bank0, head, bank)
      modifies this`bank
      ensures match ApplyAll(cfg.blocked, bank0, head + LotReturnOps(addresses, denom, payouts))
              case Err(e) => err == Some(e)
              case Ok(b) => (
                if Short(addresses, payouts) then err == Some(InvalidLotReturns) else err == None && bank == b)
    {
      assert head + [] == head;
      for i := 0 to |payouts|
        invariant Did(cfg.blocked, bank0, head + LotReturnOps(addresses, denom, payouts[..i]), bank)
        invariant forall k :: 0 <= k < i && payouts[k] > 0 ==> k < |addresses|
      {
        ghost var front := LotReturnOps(addresses, denom, payouts[..i]);
        LotReturnStep(addresses, denom, payouts, i, head);
        if payouts[i] > 0 {
          if i >= |addresses| {
            NoMoreLotReturns(addresses, denom, payouts, i);
            return Some(InvalidLotReturns);
          }
          err := Do(Pay(AUCTION, addresses[i], Coin(denom, payouts[i]), LotMoney), bank0, head + front);
          if err.Some? {
            LotReturnFails(cfg.blocked, bank0, head, addresses, denom, payouts, i);
            return;
          }
        }
      }
      assert payouts[..|payouts|] == payouts;
      err := None;
    }

    method PlaceReverseBidCollateral(a: Auction, bidder: Account, denom: string, amount: int, time: int)
      returns (r: Result<Auction>, ghost payouts: seq<int>)
      requires a.Collateral?
      modifies this`bank
      ensures var plan := PlanReverseBidCollateral(cfg, a, bidder, denom, amount, time, payouts);
              Follows(cfg.blocked, plan, Before(a, plan, bidder, denom, amount, payouts), old(bank), bank, r)
      ensures SplitMade(cfg, a, denom, amount, payouts)
    {
      var b := a.base;
      payouts := [];
      if denom != b.lot.denom { return Err(InvalidLotDenom), payouts; }
      if !a.IsReversePhase() { return Err(WrongPhase), payouts; }
      var maxNewLot := MaxLower(b.lot.amount, cfg.params.incrementCollateral);
      if amount > maxNewLot { return Err(LotTooLarge), payouts; }
      if amount < 0 { return Err(LotTooSmall), payouts; }
      var parts := SplitIntIntoWeightedBuckets(b.lot.amount - amount, a.lotReturns.weights);
      if parts.Ok? { payouts := parts.value; }
      ghost var plan := PlanReverseBidCollateral(cfg, a, bidder, denom, amount, time, payouts);
      ghost var head := if bidder != b.bidder then Repay(b, bidder) else [];
      ghost var tail := if parts.Ok? then LotReturnOps(a.lotReturns.addresses, denom, payouts) else [];
      ReverseOps(cfg, a, bidder, denom, amount, time, payouts, head, tail, parts.Ok?);
      if bidder != b.bidder {
        var into, out := Move(bidder, AUCTION, b.bid, BidMoney), Pay(AUCTION, b.bidder, b.bid, BidMoney);
        var err := DoTwo(into, out, old(bank), []);
        assert [] + head == head;
        if err.Some? {
          FailsForGood(cfg.blocked, old(bank), head, tail, head + tail);
          return Err(err.value), payouts;
        }
      }
      if parts.Err? {
        assert head + tail == head;
        return Err(InvalidLotReturns), payouts;
      }
      var err := PayLotReturns(a.lotReturns.addresses, denom, parts.value, old(bank), head);
      if err.Some? { return Err(err.value), payouts; }
      var b' := Touch(b, bidder, time, cfg.params, cfg.params.reverseBidDuration).(lot := Coin(denom, amount));
      r := Ok(Collateral(b', a.debt, a.maxBid, a.lotReturns));
    }

    method PlaceBidDebt(a: Auction, bidder: Account, denom: string, amount: int, time: int) returns (r: Result<Auction>)
      requires a.Debt?
      modifies this`bank
      ensures Follows(cfg.blocked, PlanBidDebt(cfg, a, bidder, denom, amount, time), [], old(bank), bank, r)
    {
      var b := a.base;
      if denom != b.lot.denom { return Err(InvalidLotDenom); }
      var maxNewLot := MaxLower(b.lot.amount, cfg.params.incrementDebt);
      if amount > maxNewLot { return Err(LotTooLarge); }
      if amount < 0 { return Err(LotTooSmall); }
      ghost var ops := PlanBidDebt(cfg, a, bidder, denom, amount, time).value.ops;
      ghost var head: seq<Op> := [];
      var first := b.bidder == Module(b.initiator);
      var back := Coin(a.debt.denom, if first then Min(b.bid.amount, a.debt.amount) else 0);
      ghost var tail := if first then [Move(AUCTION, Module(b.initiator), back, DebtMoney)] else [];
      if bidder != b.bidder {
        var into := Move(bidder, AUCTION, b.bid, BidMoney);
        var on := if first then Move(AUCTION, Module(b.initiator), b.bid, BidMoney)
                  else Pay(AUCTION, b.bidder, b.bid, BidMoney);
        var err := DoTwo(into, on, old(bank), []);
        head := [into, on];
        assert [] + head == head && ops == head + tail;
        if err.Some? {
          FailsForGood(cfg.blocked, old(bank), head, tail, ops);
          return Err(err.value);
        }
      }
      assert ops == head + tail;
      var debt := a.debt;
      if first {
        var err := Do(Move(AUCTION, Module(b.initiator), back, DebtMoney), old(bank), head);
        if err.Some? { return Err(err.value); }
        debt := Coin(debt.denom, debt.amount - back.amount);
      } else {
        assert head + tail == head;
      }
      r := Ok(Debt(Touch(b, bidder, time, cfg.params, cfg.params.forwardBidDuration).(lot := Coin(denom, amount)),
                   debt));
    }

    /** The bid as its auction's kind and phase have it. */
    method Dispatch(a: Auction, bidder: Account, denom: string, amount: int, time: int)
      returns (r: Result<Auction>, ghost payouts: seq<int>)
      modifies this`bank
      ensures var plan := PlanBid(cfg, a, bidder, denom, amount, time, payouts);
              if plan.Ok? && ApplyAll(cfg.blocked, old(bank), plan.value.ops).Ok? && !MayBurn(cfg, a)
              then r == Err(NoPermission)
              else Follows(cfg.blocked, plan, Before(a, plan, bidder, denom, amount, payouts), old(bank), bank, r)
      ensures SplitMade(cfg, a, denom, amount, payouts)
    {
      payouts := [];
      match a {
        case Surplus(_) => r := PlaceBidSurplus(a, bidder, denom, amount, time);
        case Debt(_, _) => r := PlaceBidDebt(a, bidder, denom, amount, time);
        case Collateral(_, _, _, _) =>
          if !a.IsReversePhase() {
            r := PlaceForwardBidCollateral(a, bidder, denom, amount, time);
          } else {
            r, payouts := PlaceReverseBidCollateral(a, bidder, denom, amount, time);
          }
      }
    }

    /** On success the state is that of PlaceBid for the split that was made, and on error PlaceBid fails with it
        for that split; what was written before an error is rolled back by DeliverBid. */
    method PlaceBid(time: int, id: nat, bidder: Account, denom: string, amount: int)
      returns (err: Option<Error>, ghost payouts: seq<int>)
      modifies this
      ensures match AuctionSpec.PlaceBid(cfg, old(Abs()), time, id, bidder, denom, amount, payouts)
              case Ok(s) => err == None && Abs() == s
              case Err(e) => err == Some(e)
      ensures id in old(auctions) && time <= old(auctions)[id].base.endTime ==>
                SplitMade(cfg, old(auctions)[id], denom, amount, payouts)
    {
      payouts := [];
      if id !in auctions { return Some(AuctionNotFound), payouts; }
      var a := auctions[id];
      if time > a.base.endTime { return Some(AuctionHasExpired), payouts; }
      var r;
      r, payouts := Dispatch(a, bidder, denom, amount, time);
      if r.Err? { return Some(r.error), payouts; }
      SetAuction(r.value);
      err := None;
    }

    /** A bid as a transaction: what a failing bid wrote is thrown away. */
    method DeliverBid(time: int, id: nat, bidder: Account, denom: string, amount: int)
      returns (err: Option<Error>, ghost payouts: seq<int>)
      modifies this
      ensures match AuctionSpec.PlaceBid(cfg, old(Abs()), time, id, bidder, denom, amount, payouts)
              case Ok(s) => err == None && Abs() == s
              case Err(e) => err == Some(e) && Abs() == old(Abs())
      ensures id in old(auctions) && time <= old(auctions)[id].base.endTime ==>
                SplitMade(cfg, old(auctions)[id], denom, amount, payouts)
    {
      var oldAuctions, oldByTime, oldNextID, oldBank := auctions, byTime, nextID, bank;
      err, payouts := PlaceBid(time, id, bidder, denom, amount);
      if err.Some? {
        auctions, byTime, nextID, bank := oldAuctions, oldByTime, oldNextID, oldBank;
      }
    }

    // -------------------------------------------------------------- close

    /** The payout of one auction: PayoutSurplusAuction, PayoutDebtAuction and PayoutCollateralAuction. */
    method Payout(a: Auction) returns (err: Option<Error>)
      modifies this`bank
      ensures var r := ApplyAll(cfg.blocked, old(bank), PayoutOps(a));
              if a.Debt? && a.base.initiator !in cfg.minters then err == Some(NoPermission)
              else if r.Ok? then err == None && bank == r.value
              else err == Some(r.error)
    {
      var b := a.base;
      ghost var head: seq<Op>;
      match a {
        case Surplus(_) =>
          err := Do(Pay(AUCTION, b.bidder, b.lot, LotMoney), bank, []);
          assert [] + PayoutOps(a) == PayoutOps(a);
          return;
        case Debt(_, _) =>
          if b.initiator !in cfg.minters { return Some(NoPermission); }
          var mint, pay := Mint(Module(b.initiator), b.lot, LotMoney),
                           Pay(Module(b.initiator), b.bidder, b.lot, LotMoney);
          err := DoTwo(mint, pay, bank, []);
          head := [mint, pay];
        case Collateral(_, _, _, _) =>
          var pay := Pay(AUCTION, b.bidder, b.lot, LotMoney);
          err := Do(pay, bank, []);
          head := [pay];
      }
      assert [] + head == head && PayoutOps(a) == head + DebtBackOps(a);
      ApplyAllConcat(cfg.blocked, old(bank), head, DebtBackOps(a));
      if err.Some? { return; }
      if a.debt.amount <= 0 {
        assert head + [] == head;
        return;
      }
      err := Do(Move(AUCTION, Module(b.initiator), a.debt, DebtMoney), old(bank), head);
    }

    method CloseAuction(time: int, id: nat) returns (err: Option<Error>)
      modifies this
      ensures match AuctionSpec.CloseAuction(cfg, old(Abs()), time, id)
              case Ok(s) => err == None && Abs() == s
              case Err(e) => err == Some(e) && (e == AuctionNotFound ==> Abs() == old(Abs()))
    {
      if id !in auctions { return Some(AuctionNotFound); }
      var a := auctions[id];
      if time < a.base.endTime { return Some(AuctionHasNotExpired); }
      err := Payout(a);
      if err.Some? {
        BankErrors(cfg.blocked, old(bank), PayoutOps(a));
        return;
      }
      DeleteAuction(id);
    }

    /** Closes the auctions of the index range in some order, skipping any that are gone, until one fails.
        ids is the order of the visits. */
    method CloseExpiredAuctions(time: int) returns (err: Option<Error>, ghost ids: seq<nat>)
      modifies this
      ensures match CloseEach(cfg, old(Abs()), time, ids)
              case Ok(s) => err == None && Abs() == s
              case Err(e) => err == Some(e)
      ensures err == None ==> SetOf(ids) == set e | e in old(byTime) && e.time <= time :: e.id
      ensures IndexExact(old(auctions), old(byTime)) ==> AllDue(old(auctions), time, ids)
    {
      var todo := set e | e in byTime && e.time <= time;
      ghost var range := todo;
      ghost var done: seq<Entry> := [];
      ids := [];
      while todo != {}
        invariant CloseEach(cfg, old(Abs()), time, ids) == Ok(Abs())
        invariant todo <= range && (forall e <- done :: e in range && e !in todo)
        invariant forall e <- range :: e in todo || e in done
        invariant |ids| == |done| && forall i :: 0 <= i < |ids| ==> ids[i] == done[i].id
        invariant forall i, j :: 0 <= i < j < |done| ==> done[i] != done[j]
        decreases todo
      {
        var e :| e in todo;
        todo := todo - {e};
        CloseEachSnoc(cfg, old(Abs()), time, ids, e.id);
        CloseEachOne(cfg, Abs(), time, e.id);
        done := done + [e];
        ids := ids + [e.id];
        err := CloseAuction(time, e.id);
        if err.Some? && err.value != AuctionNotFound {
          VisitsAreDue(old(auctions), old(byTime), time, done, ids);
          return;
        }
      }
      VisitsAreDue(old(auctions), old(byTime), time, done, ids);
      VisitedIds(range, done, ids);
      err := None;
    }

    /** The begin blocker, on a state the module can be in: it does not panic and leaves exactly what is not due. */
    method BeginBlocker(time: int) returns (ghost ids: seq<nat>)
      requires Inv(cfg, Abs()) && time < DISTANT_FUTURE
      modifies this
      ensures Inv(cfg, Abs())
      ensures ListsDue(old(auctions), time, ids) && CloseEach(cfg, old(Abs()), time, ids) == Ok(Abs())
      ensures auctions == map id | id in old(auctions) && old(auctions)[id].base.endTime > time :: old(auctions)[id]
    {
      var err;
      err, ids := CloseExpiredAuctions(time);
      CloseEachSucceeds(cfg, old(Abs()), time, ids);
      assert err == None;
      forall id ensures id in ids <==> id in old(auctions) && old(auctions)[id].base.endTime <= time {
        assert id in ids <==> id in SetOf(ids);
        if id in old(auctions) { assert EndsAt(old(auctions), Entry(old(auctions)[id].base.endTime, id)); }
      }
      ClosingExpiredIsExact(cfg, old(Abs()), time, ids);
    }
  }

  // ---------------------------------------------------------------- lemmas for the loops

  lemma {:induction false} LotReturnPrefix(addresses: seq<Account>, denom: string, payouts: seq<int>, n: nat)
    returns (rest: seq<Op>)
    requires n <= |payouts|
    ensures LotReturnOps(addresses, denom, payouts) == LotReturnOps(addresses, denom, payouts[..n]) + rest
    decreases |payouts|
  {
    var front := LotReturnOps(addresses, denom, payouts[..n]);
    if n == |payouts| {
      assert payouts[..n] == payouts;
      rest := [];
      assert front + rest == front;
    } else {
      var m := |payouts| - 1;
      rest := LotReturnPrefix(addresses, denom, payouts[..m], n);
      assert payouts[..m][..n] == payouts[..n];
      if payouts[m] > 0 && m < |addresses| {
        var op := Pay(AUCTION, addresses[m], Coin(denom, payouts[m]), LotMoney);
        assert front + rest + [op] == front + (rest + [op]);
        rest := rest + [op];
      } else {
        assert front + rest + [] == front + rest;
      }
    }
  }

  /** One more payout. */
  lemma LotReturnStep(addresses: seq<Account>, denom: string, payouts: seq<int>, i: nat, head: seq<Op>)
    requires i < |payouts|
    ensures var front := LotReturnOps(addresses, denom, payouts[..i]);
            head + LotReturnOps(addresses, denom, payouts[..i + 1]) ==
            if payouts[i] > 0 && i < |addresses|
            then head + front + [Pay(AUCTION, addresses[i], Coin(denom, payouts[i]), LotMoney)]
            else head + front
  {
    assert payouts[..i + 1][..i] == payouts[..i];
  }

  /** Payouts without an address send nothing. */
  lemma {:induction false} NoMoreLotReturns(addresses: seq<Account>, denom: string, payouts: seq<int>, i: nat)
    requires |addresses| <= i <= |payouts|
    ensures LotReturnOps(addresses, denom, payouts) == LotReturnOps(addresses, denom, payouts[..i])
    decreases |payouts|
  {
    if i < |payouts| {
      var m := |payouts| - 1;
      NoMoreLotReturns(addresses, denom, payouts[..m], i);
      assert payouts[..m][..i] == payouts[..i];
    } else {
      assert payouts[..i] == payouts;
    }
  }

  /** If a payout fails, so does the whole batch. */
  lemma LotReturnFails(
    blocked: set<string>, bank0: Balances, head: seq<Op>, addresses: seq<Account>, denom: string, payouts: seq<int>,
    i: nat)
    requires i < |payouts|
    requires ApplyAll(blocked, bank0, head + LotReturnOps(addresses, denom, payouts[..i + 1])).Err?
    ensures ApplyAll(blocked, bank0, head + LotReturnOps(addresses, denom, payouts)) ==
            ApplyAll(blocked, bank0, head + LotReturnOps(addresses, denom, payouts[..i + 1]))
  {
    var rest := LotReturnPrefix(addresses, denom, payouts, i + 1);
    FailsInside(blocked, bank0, head, LotReturnOps(addresses, denom, payouts[..i + 1]), rest,
                LotReturnOps(addresses, denom, payouts));
  }

  lemma FailsInside(blocked: set<string>, bank0: Balances, head: seq<Op>, front: seq<Op>, rest: seq<Op>, all: seq<Op>)
    requires all == front + rest && ApplyAll(blocked, bank0, head + front).Err?
    ensures ApplyAll(blocked, bank0, head + all) == ApplyAll(blocked, bank0, head + front)
  {
    assert head + all == head + front + rest;
    FailsForGood(blocked, bank0, head + front, rest, head + all);
  }

  /** The operations made before the error of a plan; none if it has no error. */
  ghost function Before(
    a: Auction, plan: Result<Plan>, bidder: Account, denom: string, amount: int, payouts: seq<int>): seq<Op>
  {
    if plan.Ok? then [] else MadeBefore(a, bidder, denom, amount, payouts, plan.error)
  }

  /** A forward bid whose pay-back fails, fails with that error, whatever would have come later. */
  lemma ForwardFails(
    cfg: Config, a: Auction, bidder: Account, denom: string, amount: int, time: int, bank0: Balances, e: Error)
    requires a.Collateral? && !a.IsReversePhase() && bidder != a.base.bidder && a.base.bid.amount != 0
    requires ApplyAll(cfg.blocked, bank0, Repay(a.base, bidder)) == Err(e)
    requires var plan := PlanForwardBidCollateral(cfg, a, bidder, denom, amount, time);
             plan.Ok? || plan.error == NegativeCoin
    ensures var plan := PlanForwardBidCollateral(cfg, a, bidder, denom, amount, time);
            if plan.Ok? then ApplyAll(cfg.blocked, bank0, plan.value.ops) == Err(e)
            else LateError(cfg.blocked, bank0, Before(a, plan, bidder, denom, amount, []), plan.error) == e
  {
    var plan := PlanForwardBidCollateral(cfg, a, bidder, denom, amount, time);
    if plan.Ok? {
      var head, ops := Repay(a.base, bidder), plan.value.ops;
      assert ops == head + ops[|head|..];
      FailsForGood(cfg.blocked, bank0, head, ops[|head|..], ops);
    }
  }

  /** What a reverse bid that has passed its checks moves, whether or not its lot returns can be used. */
  lemma ReverseOps(
    cfg: Config, a: Auction, bidder: Account, denom: string, amount: int, time: int, payouts: seq<int>, head: seq<Op>,
    tail: seq<Op>, split: bool)
    requires a.Collateral? && a.IsReversePhase() && denom == a.base.lot.denom
    requires 0 <= amount <= MaxLower(a.base.lot.amount, cfg.params.incrementCollateral)
    requires split == IsSplit(a.base.lot.amount - amount, a.lotReturns.weights, payouts)
    requires head == (if bidder != a.base.bidder then Repay(a.base, bidder) else [])
    requires tail == (if split then LotReturnOps(a.lotReturns.addresses, denom, payouts) else [])
    ensures var plan := PlanReverseBidCollateral(cfg, a, bidder, denom, amount, time, payouts);
            if split && !Short(a.lotReturns.addresses, payouts) then plan.Ok? && plan.value.ops == head + tail
            else plan == Err(InvalidLotReturns) && Before(a, plan, bidder, denom, amount, payouts) == head + tail
  {
  }

  lemma CloseEachOne(cfg: Config, s: State, time: int, id: nat)
    ensures CloseEach(cfg, s, time, [id]) ==
            var r := AuctionSpec.CloseAuction(cfg, s, time, id);
            if r.Err? && r.error == AuctionNotFound then Ok(s) else r
  {
    assert [id][1..] == [];
  }

  /** The bank never reports a missing auction. */
  lemma {:induction false} BankErrors(blocked: set<string>, b: Balances, ops: seq<Op>)
    ensures ApplyAll(blocked, b, ops) != Err(AuctionNotFound)
    decreases |ops|
  {
    if ops != [] && Apply(blocked, b, ops[0]).Ok? {
      BankErrors(blocked, Apply(blocked, b, ops[0]).value, ops[1..]);
    }
  }

  lemma VisitsAreDue(auctions: map<nat, Auction>, byTime: set<Entry>, time: int, done: seq<Entry>, ids: seq<nat>)
    requires forall e <- done :: e in byTime && e.time <= time
    requires |ids| == |done| && forall i :: 0 <= i < |ids| ==> ids[i] == done[i].id
    requires forall i, j :: 0 <= i < j < |done| ==> done[i] != done[j]
    ensures IndexExact(auctions, byTime) ==> AllDue(auctions, time, ids)
  {
    if IndexExact(auctions, byTime) {
      forall id <- ids ensures id in auctions && auctions[id].base.endTime <= time {
        var i :| 0 <= i < |ids| && ids[i] == id;
        assert EndsAt(auctions, done[i]);
      }
      forall i, j | 0 <= i < j < |ids| ensures ids[i] != ids[j] {
        assert EndsAt(auctions, done[i]) && EndsAt(auctions, done[j]);
      }
    }
  }

  lemma VisitedIds(range: set<Entry>, done: seq<Entry>, ids: seq<nat>)
    requires (forall e <- done :: e in range) && (forall e <- range :: e in done)
    requires |ids| == |done| && forall i :: 0 <= i < |ids| ==> ids[i] == done[i].id
    ensures SetOf(ids) == set e | e in range :: e.id
  {
    forall e <- range ensures e.id in ids {
      var i :| 0 <= i < |done| && done[i] == e;
      assert ids[i] == e.id;
    }
    forall id <- ids ensures exists e :: e in range && e.id == id {
      var i :| 0 <= i < |ids| && ids[i] == id;
      assert done[i] in range && done[i].id == id;
    }
  }
}
