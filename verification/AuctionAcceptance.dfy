/** Which bids are accepted, said in terms of amounts, balances and the parameters: the raise or the decrease must
    be at least one, and at least the share of the old amount that the increment asks for, to the nearest integer
    with ties to even; the bidder must have what is due; and nothing else stands in the way. */
module AuctionAcceptance {
  import opened Prelude
  import opened Banking
  import opened Split
  import opened Decimal
  import opened AuctionSpec
  import opened AuctionFlows
  import opened AuctionInvariant

  // ---------------------------------------------------------------- increments

  /** n is what the increment asks for: the integer nearest to its share of the old amount, the even one of two. */
  predicate Asked(was: nat, increment: int, n: int) {
    Nearest(was * increment, ONE, n)
  }

  lemma AskedIsRounded(amount: nat, increment: int, n: int)
    requires Asked(amount, increment, n)
    ensures RoundHalfEven(amount * increment, ONE) == n
  {
    RoundHalfEvenIsNearest(amount * increment, ONE);
    NearestIsUnique(amount * increment, ONE, n, RoundHalfEven(amount * increment, ONE));
  }

  lemma RaiseIsEnough(was: nat, increment: int, n: int, amount: int)
    requires Asked(was, increment, n)
    ensures amount >= MinRaise(was, increment) <==> amount >= was + 1 && amount - was >= n
  {
    AskedIsRounded(was, increment, n);
  }

  lemma DecreaseIsEnough(was: nat, increment: int, n: int, amount: int)
    requires Asked(was, increment, n)
    ensures amount <= MaxLower(was, increment) <==> amount <= was - 1 && was - amount >= n
  {
    AskedIsRounded(was, increment, n);
  }

  // ---------------------------------------------------------------- batches that go through

  /** The pay-back goes through if the new bidder has the old bid, and passes it on. */
  lemma RepayGoesThrough(blocked: set<string>, bank: Balances, b: Base, bidder: Account)
    requires bidder.User? && !Blocked(blocked, b.bidder)
    ensures var r := ApplyAll(blocked, bank, Repay(b, bidder));
            && (r.Ok? <==> b.bid.amount <= BalanceOf(bank, bidder, b.bid.denom))
            && (r.Ok? ==> forall x, d :: BalanceOf(r.value, x, d) == BalanceOf(bank, x, d) +
                            (if x == b.bidder then In(b.bid, d) else 0) - (if x == bidder then In(b.bid, d) else 0))
  {
    ApplyTwo(blocked, bank, Repay(b, bidder)[0], Repay(b, bidder)[1]);
    if ApplyAll(blocked, bank, Repay(b, bidder)).Ok? {
      forall x, d ensures BalanceOf(ApplyAll(blocked, bank, Repay(b, bidder)).value, x, d) == BalanceOf(bank, x, d) +
                            (if x == b.bidder then In(b.bid, d) else 0) - (if x == bidder then In(b.bid, d) else 0)
      {
        ApplyAllNet(blocked, bank, Repay(b, bidder), x, d);
      }
    }
  }

  /** The pay-back of a surplus or forward bid, if there is one to make. */
  function Head(b: Base, bidder: Account): seq<Op> {
    if bidder != b.bidder && b.bid.amount != 0 then Repay(b, bidder) else []
  }

  lemma HeadGoesThrough(blocked: set<string>, bank: Balances, b: Base, bidder: Account)
    requires bidder.User? && !Blocked(blocked, b.bidder)
    ensures var r := ApplyAll(blocked, bank, Head(b, bidder));
            && (r.Ok? <==> bidder == b.bidder || b.bid.amount <= BalanceOf(bank, bidder, b.bid.denom))
            && (r.Ok? ==>
                  && BalanceOf(r.value, bidder, b.bid.denom) ==
                     BalanceOf(bank, bidder, b.bid.denom) - (if bidder == b.bidder then 0 else b.bid.amount)
                  && forall d :: b.bidder != AUCTION ==> BalanceOf(r.value, AUCTION, d) == BalanceOf(bank, AUCTION, d))
  {
    RepayGoesThrough(blocked, bank, b, bidder);
  }

  /** One more payment by a user. */
  lemma PaymentGoesThrough(blocked: set<string>, bank: Balances, from: Account, to: Account, coin: Coin)
    requires from.User? && to.Module?
    ensures var r := Apply(blocked, bank, Move(from, to, coin, BidMoney));
            && (r.Ok? <==> coin.amount <= BalanceOf(bank, from, coin.denom))
            && (r.Ok? ==> forall d :: BalanceOf(r.value, to, d) == BalanceOf(bank, to, d) + In(coin, d))
            && (r.Ok? ==> forall x, d :: x != from && x != to ==> BalanceOf(r.value, x, d) == BalanceOf(bank, x, d))
  {
  }

  /** What a user has to have for a new bid: the whole of it, or what it exceeds the user's own old bid by. */
  function Due(b: Base, bidder: Account, amount: int): int {
    if bidder == b.bidder then amount - b.bid.amount else amount
  }

  // ---------------------------------------------------------------- surplus

  lemma SurplusOpsGoThrough(blocked: set<string>, bank: Balances, a: Auction, bidder: Account, amount: nat)
    requires a.Surplus? && bidder.User? && !Blocked(blocked, a.base.bidder) && a.base.bid.amount <= amount
    ensures var more := Coin(a.base.bid.denom, amount - a.base.bid.amount);
            var ops := Head(a.base, bidder) +
                       [Move(bidder, a.Initiator(), more, BidMoney), Burn(a.Initiator(), more, BidMoney)];
            ApplyAll(blocked, bank, ops).Ok? <==>
            Due(a.base, bidder, amount) <= BalanceOf(bank, bidder, a.base.bid.denom)
  {
    var b := a.base;
    var more := Coin(b.bid.denom, amount - b.bid.amount);
    var pay, burn := Move(bidder, a.Initiator(), more, BidMoney), Burn(a.Initiator(), more, BidMoney);
    HeadGoesThrough(blocked, bank, b, bidder);
    ApplyAllConcat(blocked, bank, Head(b, bidder), [pay, burn]);
    var r := ApplyAll(blocked, bank, Head(b, bidder));
    if r.Ok? {
      ApplyTwo(blocked, r.value, pay, burn);
      PaymentGoesThrough(blocked, r.value, bidder, a.Initiator(), more);
    }
  }

  /** Exactly these bids on a surplus auction are accepted, and this is what they make of it. */
  lemma SurplusBidAcceptedExactly(
    cfg: Config, s: State, time: int, id: nat, bidder: Account, denom: string, amount: int, payouts: seq<int>, n: int)
    requires Inv(cfg, s) && bidder.User? && id in s.auctions && s.auctions[id].Surplus?
    requires Asked(s.auctions[id].base.bid.amount, cfg.params.incrementSurplus, n)
    ensures var b, r := s.auctions[id].base, PlaceBid(cfg, s, time, id, bidder, denom, amount, payouts);
            && (r.Ok? <==>
                && time <= b.endTime && denom == b.bid.denom
                && amount - b.bid.amount >= 1 && amount - b.bid.amount >= n
                && Due(b, bidder, amount) <= BalanceOf(s.bank, bidder, denom) && b.initiator in cfg.burners)
            && (r.Ok? ==>
                  && id in r.value.auctions
                  && var b' := r.value.auctions[id].base;
                     b'.bidder == bidder && b'.bid == Coin(denom, amount) && b'.lot == b.lot)
  {
    var a := s.auctions[id];
    assert WellFormed(cfg, a);
    RaiseIsEnough(a.base.bid.amount, cfg.params.incrementSurplus, n, amount);
    var plan := PlanBidSurplus(cfg, a, bidder, denom, amount, time);
    PlaceBidByPlan(cfg, s, time, id, bidder, denom, amount, payouts, plan);
    if plan.Ok? {
      SurplusOpsGoThrough(cfg.blocked, s.bank, a, bidder, amount);
      assert plan.value.ops == Head(a.base, bidder)
        + [Move(bidder, a.Initiator(), Coin(denom, amount - a.base.bid.amount), BidMoney),
           Burn(a.Initiator(), Coin(denom, amount - a.base.bid.amount), BidMoney)];
    }
  }

  // ---------------------------------------------------------------- forward bids on collateral

  lemma ForwardOpsGoThrough(blocked: set<string>, bank: Balances, a: Auction, bidder: Account, amount: nat, back: Coin)
    requires a.Collateral? && bidder.User? && !Blocked(blocked, a.base.bidder) && a.base.bidder != AUCTION
    requires a.base.bid.amount <= amount && a.base.initiator != "auction"
    requires back.amount <= BalanceOf(bank, AUCTION, back.denom)
    ensures var more := Coin(a.base.bid.denom, amount - a.base.bid.amount);
            var ops := Head(a.base, bidder) + [Move(bidder, a.Initiator(), more, BidMoney)]
                       + (if a.debt.amount > 0 then [Move(AUCTION, a.Initiator(), back, DebtMoney)] else []);
            ApplyAll(blocked, bank, ops).Ok? <==>
            Due(a.base, bidder, amount) <= BalanceOf(bank, bidder, a.base.bid.denom)
  {
    var b := a.base;
    var more := Coin(b.bid.denom, amount - b.bid.amount);
    var pay, giveBack := Move(bidder, a.Initiator(), more, BidMoney), Move(AUCTION, a.Initiator(), back, DebtMoney);
    var tail := if a.debt.amount > 0 then [giveBack] else [];
    HeadGoesThrough(blocked, bank, b, bidder);
    ApplyAllConcat(blocked, bank, Head(b, bidder), [pay]);
    ApplyAllConcat(blocked, bank, Head(b, bidder) + [pay], tail);
    var r := ApplyAll(blocked, bank, Head(b, bidder));
    if r.Ok? {
      assert BalanceOf(r.value, AUCTION, back.denom) == BalanceOf(bank, AUCTION, back.denom);
      PaymentAndDebtGoThrough(blocked, r.value, pay, giveBack);
    }
  }

  /** A payment to the initiator, and debt coins back to it if they are there. */
  lemma PaymentAndDebtGoThrough(blocked: set<string>, bank: Balances, pay: Op, giveBack: Op)
    requires pay.Move? && pay.from.User? && pay.to.Module? && pay.to != AUCTION && pay.why == BidMoney
    requires giveBack.Move? && giveBack.from == AUCTION && giveBack.to == pay.to
    requires giveBack.coin.amount <= BalanceOf(bank, AUCTION, giveBack.coin.denom)
    ensures var r := ApplyAll(blocked, bank, [pay]);
            && (r.Ok? <==> pay.coin.amount <= BalanceOf(bank, pay.from, pay.coin.denom))
            && (r.Ok? ==> ApplyAll(blocked, r.value, [giveBack]).Ok?)
  {
    ApplyOneOp(blocked, bank, pay);
    PaymentGoesThrough(blocked, bank, pay.from, pay.to, pay.coin);
    var r := Apply(blocked, bank, pay);
    if r.Ok? { ApplyOneOp(blocked, r.value, giveBack); }
  }

  /** Whether a forward bid has a plan, and which. */
  lemma ForwardPlan(cfg: Config, a: Auction, bidder: Account, denom: string, amount: int, time: int, n: int)
    requires a.Collateral? && !a.IsReversePhase() && WellFormed(cfg, a)
    requires Asked(a.base.bid.amount, cfg.params.incrementCollateral, n)
    ensures var b, plan := a.base, PlanForwardBidCollateral(cfg, a, bidder, denom, amount, time);
            && (plan.Ok? <==>
                && denom == b.bid.denom
                && (amount == a.maxBid.amount ||
                    (amount - b.bid.amount >= 1 && amount - b.bid.amount >= n && amount < a.maxBid.amount)))
            && (plan.Ok? ==>
                  var more := Coin(b.bid.denom, amount - b.bid.amount);
                  var back := Coin(a.debt.denom, Min(more.amount, a.debt.amount));
                  && plan.value.ops == Head(b, bidder) + [Move(bidder, a.Initiator(), more, BidMoney)]
                                       + (if a.debt.amount > 0 then [Move(AUCTION, a.Initiator(), back, DebtMoney)]
                                          else [])
                  && var b' := plan.value.auction.base;
                     b'.id == b.id && b'.bidder == bidder && b'.bid == Coin(denom, amount) && b'.lot == b.lot)
  {
    RaiseIsEnough(a.base.bid.amount, cfg.params.incrementCollateral, n, amount);
  }

  /** Exactly these forward bids are accepted: a large enough raise, or the maximum bid, and not more than that. */
  lemma ForwardBidAcceptedExactly(
    cfg: Config, s: State, time: int, id: nat, bidder: Account, denom: string, amount: int, payouts: seq<int>, n: int)
    requires Inv(cfg, s) && bidder.User? && id in s.auctions && s.auctions[id].Collateral?
    requires s.auctions[id].base.bid != s.auctions[id].maxBid
    requires Asked(s.auctions[id].base.bid.amount, cfg.params.incrementCollateral, n)
    ensures var a, r := s.auctions[id], PlaceBid(cfg, s, time, id, bidder, denom, amount, payouts);
            var b := a.base;
            && (r.Ok? <==>
                && time <= b.endTime && denom == b.bid.denom
                && (amount == a.maxBid.amount ||
                    (amount - b.bid.amount >= 1 && amount - b.bid.amount >= n && amount < a.maxBid.amount))
                && Due(b, bidder, amount) <= BalanceOf(s.bank, bidder, denom))
            && (r.Ok? ==>
                  && id in r.value.auctions
                  && var b' := r.value.auctions[id].base;
                     b'.bidder == bidder && b'.bid == Coin(denom, amount) && b'.lot == b.lot)
  {
    var a := s.auctions[id];
    assert WellFormed(cfg, a);
    ForwardPlan(cfg, a, bidder, denom, amount, time, n);
    var plan := PlanForwardBidCollateral(cfg, a, bidder, denom, amount, time);
    PlaceBidByPlan(cfg, s, time, id, bidder, denom, amount, payouts, plan);
    if plan.Ok? {
      HeldIsThere(s.auctions, s.bank, id, a.debt.denom);
      ForwardOpsGoThrough(cfg.blocked, s.bank, a, bidder, amount,
                          Coin(a.debt.denom, Min(amount - a.base.bid.amount, a.debt.amount)));
    }
  }

  /** A bid succeeds exactly in time, with a plan, with all its coins moved, and with the permission to burn. */
  lemma PlaceBidByPlan(
    cfg: Config, s: State, time: int, id: nat, bidder: Account, denom: string, amount: int, payouts: seq<int>,
    plan: Result<Plan>)
    requires id in s.auctions && plan == PlanBid(cfg, s.auctions[id], bidder, denom, amount, time, payouts)
    ensures var r := PlaceBid(cfg, s, time, id, bidder, denom, amount, payouts);
            && (r.Ok? <==>
                && time <= s.auctions[id].base.endTime && plan.Ok? && ApplyAll(cfg.blocked, s.bank, plan.value.ops).Ok?
                && MayBurn(cfg, s.auctions[id]))
            && (r.Ok? ==> r.value.auctions == s.auctions[plan.value.auction.base.id := plan.value.auction])
  {
  }

  // ---------------------------------------------------------------- debt

  lemma DebtOpsGoThrough(blocked: set<string>, bank: Balances, a: Auction, bidder: Account, back: Coin, ops: seq<Op>)
    requires a.Debt? && bidder.User? && a.base.initiator != "auction" &&
             back.amount <= BalanceOf(bank, AUCTION, back.denom)
    requires a.base.bidder == a.Initiator() || a.base.bidder.User?
    requires var b := a.base;
             ops == if b.bidder != a.Initiator() then (if bidder == b.bidder then [] else Repay(b, bidder))
                    else [Move(bidder, AUCTION, b.bid, BidMoney), Move(AUCTION, a.Initiator(), b.bid, BidMoney)]
                         + [Move(AUCTION, a.Initiator(), back, DebtMoney)]
    ensures ApplyAll(blocked, bank, ops).Ok? <==>
            bidder == a.base.bidder || a.base.bid.amount <= BalanceOf(bank, bidder, a.base.bid.denom)
  {
    var b := a.base;
    if b.bidder != a.Initiator() {
      if bidder != b.bidder { RepayGoesThrough(blocked, bank, b, bidder); }
    } else {
      var into, on := Move(bidder, AUCTION, b.bid, BidMoney), Move(AUCTION, a.Initiator(), b.bid, BidMoney);
      var give := Move(AUCTION, a.Initiator(), back, DebtMoney);
      ApplyAllConcat(blocked, bank, [into, on], [give]);
      ApplyTwo(blocked, bank, into, on);
      var r := ApplyAll(blocked, bank, [into, on]);
      if r.Ok? { ApplyOneOp(blocked, r.value, give); }
    }
  }

  /** Exactly these bids on a debt auction are accepted: a lot that is small enough, from somebody who has the bid. */
  lemma DebtBidAcceptedExactly(
    cfg: Config, s: State, time: int, id: nat, bidder: Account, denom: string, amount: int, payouts: seq<int>, n: int)
    requires Inv(cfg, s) && bidder.User? && id in s.auctions && s.auctions[id].Debt?
    requires Asked(s.auctions[id].base.lot.amount, cfg.params.incrementDebt, n)
    ensures var b, r := s.auctions[id].base, PlaceBid(cfg, s, time, id, bidder, denom, amount, payouts);
            && (r.Ok? <==>
                && time <= b.endTime && denom == b.lot.denom
                && 0 <= amount && b.lot.amount - amount >= 1 && b.lot.amount - amount >= n
                && (bidder == b.bidder || b.bid.amount <= BalanceOf(s.bank, bidder, b.bid.denom)))
            && (r.Ok? ==>
                  && id in r.value.auctions
                  && var b' := r.value.auctions[id].base;
                     b'.bidder == bidder && b'.bid == b.bid && b'.lot == Coin(denom, amount))
  {
    var a := s.auctions[id];
    assert WellFormed(cfg, a);
    DecreaseIsEnough(a.base.lot.amount, cfg.params.incrementDebt, n, amount);
    var plan := PlanBidDebt(cfg, a, bidder, denom, amount, time);
    PlaceBidByPlan(cfg, s, time, id, bidder, denom, amount, payouts, plan);
    if plan.Ok? {
      var back := Coin(a.debt.denom, if a.base.bidder == a.Initiator() then Min(a.base.bid.amount, a.debt.amount)
                       else 0);
      HeldIsThere(s.auctions, s.bank, id, a.debt.denom);
      DebtPlanOps(cfg, a, bidder, denom, amount, time, back);
      DebtOpsGoThrough(cfg.blocked, s.bank, a, bidder, back, plan.value.ops);
    }
  }

  lemma DebtPlanOps(cfg: Config, a: Auction, bidder: Account, denom: string, amount: int, time: int, back: Coin)
    requires a.Debt? && bidder.User? && PlanBidDebt(cfg, a, bidder, denom, amount, time).Ok?
    requires back == Coin(a.debt.denom, if a.base.bidder == a.Initiator() then Min(a.base.bid.amount, a.debt.amount)
                          else 0)
    ensures var b := a.base;
            PlanBidDebt(cfg, a, bidder, denom, amount, time).value.ops ==
            if b.bidder != a.Initiator() then (if bidder == b.bidder then [] else Repay(b, bidder))
            else [Move(bidder, AUCTION, b.bid, BidMoney), Move(AUCTION, a.Initiator(), b.bid, BidMoney)]
                 + [Move(AUCTION, a.Initiator(), back, DebtMoney)]
  {
    var ops := PlanBidDebt(cfg, a, bidder, denom, amount, time).value.ops;
    if a.base.bidder != a.Initiator() {
      assert ops == (if bidder == a.base.bidder then [] else Repay(a.base, bidder)) + [];
    }
  }

  // ---------------------------------------------------------------- reverse bids on collateral

  /** No positive payout goes to a blocked account. */
  predicate Payable(blocked: set<string>, addresses: seq<Account>, payouts: seq<int>)
    requires |payouts| <= |addresses|
  {
    forall i :: 0 <= i < |payouts| && payouts[i] > 0 ==> !Blocked(blocked, addresses[i])
  }

  /** One payout goes through unless its address is blocked. */
  lemma PayoutGoesThrough(blocked: set<string>, bank: Balances, op: Op)
    requires op.Pay? && op.from == AUCTION && "auction" in blocked
    requires op.coin.amount <= BalanceOf(bank, AUCTION, op.coin.denom)
    ensures var r := ApplyAll(blocked, bank, [op]);
            && (r.Ok? <==> !Blocked(blocked, op.to))
            && (r.Ok? ==> BalanceOf(r.value, AUCTION, op.coin.denom) ==
                          BalanceOf(bank, AUCTION, op.coin.denom) - op.coin.amount)
  {
    ApplyOneOp(blocked, bank, op);
  }

  lemma {:induction false} LotReturnsGoThrough(
    blocked: set<string>, bank: Balances, addresses: seq<Account>, denom: string, payouts: seq<int>)
    requires |payouts| <= |addresses| && (forall i :: 0 <= i < |payouts| ==> payouts[i] >= 0) && "auction" in blocked
    requires Sum(payouts) <= BalanceOf(bank, AUCTION, denom)
    ensures var r := ApplyAll(blocked, bank, LotReturnOps(addresses, denom, payouts));
            && (r.Ok? <==> Payable(blocked, addresses, payouts))
            && (r.Ok? ==> BalanceOf(r.value, AUCTION, denom) == BalanceOf(bank, AUCTION, denom) - Sum(payouts))
    decreases |payouts|
  {
    if payouts != [] {
      var n := |payouts| - 1;
      var front := LotReturnOps(addresses, denom, payouts[..n]);
      LotReturnsGoThrough(blocked, bank, addresses, denom, payouts[..n]);
      assert Payable(blocked, addresses, payouts) <==>
             Payable(blocked, addresses, payouts[..n]) && (payouts[n] > 0 ==> !Blocked(blocked, addresses[n]));
      if payouts[n] > 0 {
        var op := Pay(AUCTION, addresses[n], Coin(denom, payouts[n]), LotMoney);
        ApplyAllConcat(blocked, bank, front, [op]);
        var r := ApplyAll(blocked, bank, front);
        if r.Ok? { PayoutGoesThrough(blocked, r.value, op); }
      } else {
        assert LotReturnOps(addresses, denom, payouts) == front;
      }
    }
  }

  /** Exactly these reverse bids are accepted: a lot that is small enough, from somebody who has the bid, with lot
      returns that can be paid their shares of the decrease. */
  lemma ReverseBidAcceptedExactly(
    cfg: Config, s: State, time: int, id: nat, bidder: Account, denom: string, amount: int, payouts: seq<int>, n: int)
    requires Inv(cfg, s) && bidder.User? && id in s.auctions && s.auctions[id].Collateral?
    requires s.auctions[id].base.bid == s.auctions[id].maxBid
    requires Asked(s.auctions[id].base.lot.amount, cfg.params.incrementCollateral, n)
    requires var a := s.auctions[id];
             0 <= amount <= a.base.lot.amount ==> IsSplit(a.base.lot.amount - amount, a.lotReturns.weights, payouts)
    ensures var a, r := s.auctions[id], PlaceBid(cfg, s, time, id, bidder, denom, amount, payouts);
            var b := a.base;
            && (r.Ok? <==>
                && time <= b.endTime && denom == b.lot.denom
                && 0 <= amount && b.lot.amount - amount >= 1 && b.lot.amount - amount >= n
                && (bidder == b.bidder || b.bid.amount <= BalanceOf(s.bank, bidder, b.bid.denom))
                && |payouts| <= |a.lotReturns.addresses| && Payable(cfg.blocked, a.lotReturns.addresses, payouts))
            && (r.Ok? ==>
                  && id in r.value.auctions
                  && var b' := r.value.auctions[id].base;
                     b'.bidder == bidder && b'.bid == b.bid && b'.lot == Coin(denom, amount))
  {
    var a := s.auctions[id];
    assert WellFormed(cfg, a);
    DecreaseIsEnough(a.base.lot.amount, cfg.params.incrementCollateral, n, amount);
    var plan := PlanReverseBidCollateral(cfg, a, bidder, denom, amount, time, payouts);
    PlaceBidByPlan(cfg, s, time, id, bidder, denom, amount, payouts, plan);
    if 0 <= amount <= a.base.lot.amount { SplitIsExact(a.base.lot.amount - amount, a.lotReturns.weights, payouts); }
    if plan.Ok? {
      HeldIsThere(s.auctions, s.bank, id, denom);
      ReverseOpsGoThrough(cfg.blocked, s.bank, a, bidder, amount, payouts);
    }
  }

  lemma ReverseOpsGoThrough(
    blocked: set<string>, bank: Balances, a: Auction, bidder: Account, amount: nat, payouts: seq<int>)
    requires a.Collateral? && ValidLotReturns(a.lotReturns) && bidder.User? && "auction" in blocked
    requires !Blocked(blocked, a.base.bidder) && a.base.bidder != AUCTION
    requires amount <= a.base.lot.amount <= BalanceOf(bank, AUCTION, a.base.lot.denom)
    requires IsSplit(a.base.lot.amount - amount, a.lotReturns.weights, payouts)
    ensures |payouts| <= |a.lotReturns.addresses|
    ensures var ops := (if bidder != a.base.bidder then Repay(a.base, bidder) else [])
                       + LotReturnOps(a.lotReturns.addresses, a.base.lot.denom, payouts);
            ApplyAll(blocked, bank, ops).Ok? <==>
            && (bidder == a.base.bidder || a.base.bid.amount <= BalanceOf(bank, bidder, a.base.bid.denom))
            && Payable(blocked, a.lotReturns.addresses, payouts)
  {
    var head := if bidder != a.base.bidder then Repay(a.base, bidder) else [];
    var tail := LotReturnOps(a.lotReturns.addresses, a.base.lot.denom, payouts);
    SplitIsExact(a.base.lot.amount - amount, a.lotReturns.weights, payouts);
    forall i | 0 <= i < |payouts| ensures payouts[i] >= 0 {
      assert PartOk(a.base.lot.amount - amount, a.lotReturns.weights[i], Sum(a.lotReturns.weights), payouts[i]);
    }
    RepayGoesThrough(blocked, bank, a.base, bidder);
    ApplyAllConcat(blocked, bank, head, tail);
    var r := ApplyAll(blocked, bank, head);
    if r.Ok? { LotReturnsGoThrough(blocked, r.value, a.lotReturns.addresses, a.base.lot.denom, payouts); }
  }

  // ---------------------------------------------------------------- starts

  /** Lot returns that can be split over: as many addresses as weights, none empty, no weight negative, one positive. */
  predicate Splittable(w: WeightedAddresses) {
    && |w.addresses| == |w.weights| && (forall i :: 0 <= i < |w.addresses| ==> w.addresses[i] != Nobody)
    && (forall i :: 0 <= i < |w.weights| ==> w.weights[i] >= 0) && exists i :: 0 <= i < |w.weights| && w.weights[i] > 0
  }

  lemma {:induction false} SumIsPositive(xs: seq<int>)
    requires forall i :: 0 <= i < |xs| ==> xs[i] >= 0
    ensures Sum(xs) >= 0 && (Sum(xs) > 0 <==> exists i :: 0 <= i < |xs| && xs[i] > 0)
    decreases |xs|
  {
    if xs != [] {
      var init, n := xs[..|xs| - 1], |xs| - 1;
      SumIsPositive(init);
      if i :| 0 <= i < |xs| && xs[i] > 0 && i < n { assert init[i] > 0; }
      if i :| 0 <= i < |init| && init[i] > 0 { assert xs[i] > 0; }
    }
  }

  lemma SplittableIsValid(w: WeightedAddresses)
    ensures Splittable(w) <==> ValidLotReturns(w)
  {
    if forall i :: 0 <= i < |w.weights| ==> w.weights[i] >= 0 {
      SumIsPositive(w.weights);
    } else {
      var i :| 0 <= i < |w.weights| && w.weights[i] < 0;
      assert w.weights[i] in w.weights;
    }
    if Nobody in w.addresses {
      var i :| 0 <= i < |w.addresses| && w.addresses[i] == Nobody;
    }
  }

  /** The initiator has what it gives: of one denom both coins together. */
  predicate HasBoth(bank: Balances, who: Account, x: Coin, y: Coin) {
    && x.amount <= BalanceOf(bank, who, x.denom)
    && y.amount + In(x, y.denom) <= BalanceOf(bank, who, y.denom)
  }

  /** Exactly these starts succeed, as long as there is a next ID. */
  lemma StartSucceedsExactly(cfg: Config, s: State, m: StartMsg)
    requires NewAuction(m).base.initiator != "auction"
    ensures Start(cfg, s, m).Ok? <==>
            && s.nextID.Some?
            && match m
               case StartSurplus(seller, lot, _) => lot.amount <= BalanceOf(s.bank, Module(seller), lot.denom)
               case StartDebt(buyer, _, _, debt) => (
                 buyer in cfg.minters && debt.amount <= BalanceOf(s.bank, Module(buyer), debt.denom))
               case StartCollateral(seller, lot, _, lotReturns, debt) => (
                 Splittable(lotReturns) && HasBoth(s.bank, Module(seller), lot, debt))
  {
    var ops := DepositOps(NewAuction(m));
    match m
    case StartSurplus(seller, lot, _) => ApplyOneOp(cfg.blocked, s.bank, ops[0]);
    case StartDebt(buyer, _, _, debt) => ApplyOneOp(cfg.blocked, s.bank, ops[0]);
    case StartCollateral(seller, lot, _, lotReturns, debt) =>
      SplittableIsValid(lotReturns);
      ApplyTwo(cfg.blocked, s.bank, ops[0], ops[1]);
  }
}
