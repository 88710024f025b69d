/** Where the coins of an auction go: what each planned bid and each payout brings to the module account, to the bidders
    and to the initiator. */
module AuctionFlows {
  import opened Prelude
  import opened Banking
  import opened Split
  import opened AuctionSpec

  /** What is always true of a stored auction. */
  predicate WellFormed(cfg: Config, a: Auction) {
    var b := a.base;
    && b.initiator != "auction"
    && (if b.hasReceivedBids then b.bidder.User? && b.endTime <= b.maxEndTime
        else b.endTime == DISTANT_FUTURE == b.maxEndTime
             && b.bidder == (if a.Debt? then a.Initiator() else Nobody)
             && (!a.Debt? ==> b.bid.amount == 0))
    && (a.Debt? ==> b.initiator in cfg.minters)
    && (a.Collateral? ==>
          b.bid.denom == a.maxBid.denom && b.bid.amount <= a.maxBid.amount && ValidLotReturns(a.lotReturns))
  }

  // ---------------------------------------------------------------- pieces of a plan

  lemma RepayFlow(b: Base, bidder: Account, x: Account, d: string, why: Purpose)
    ensures Flow(Repay(b, bidder), x, d, why) ==
            if why != BidMoney then 0
            else (if x == b.bidder then In(b.bid, d) else 0) - (if x == bidder then In(b.bid, d) else 0)
  {
    FlowOfTwo(Repay(b, bidder)[0], Repay(b, bidder)[1], x, d, why);
  }

  /** No payment in the batch goes to this account. */
  predicate NeverPays(ops: seq<Op>, x: Account) {
    forall i :: 0 <= i < |ops| && ops[i].Pay? ==> ops[i].to != x
  }

  lemma NeverPaysPart(ops: seq<Op>, head: seq<Op>, tail: seq<Op>, x: Account)
    requires NeverPays(ops, x) && ops == head + tail
    ensures NeverPays(head, x) && NeverPays(tail, x)
  {
    forall i | 0 <= i < |head| && head[i].Pay? ensures head[i].to != x {
      assert ops[i] == head[i];
    }
    forall i | 0 <= i < |tail| && tail[i].Pay? ensures tail[i].to != x {
      assert ops[|head| + i] == tail[i];
    }
  }

  /** The lot returns get what the split gives them, and all of it comes from the module account. */
  lemma {:induction false} LotReturnFlow(
    addresses: seq<Account>, denom: string, payouts: seq<int>, d: string, why: Purpose)
    requires |payouts| <= |addresses|
    requires forall i :: 0 <= i < |payouts| ==> payouts[i] >= 0
    requires NeverPays(LotReturnOps(addresses, denom, payouts), AUCTION)
    ensures Flow(LotReturnOps(addresses, denom, payouts), AUCTION, d, why) ==
            if why == LotMoney && d == denom then 0 - Sum(payouts) else 0
    decreases |payouts|
  {
    if payouts != [] {
      var n := |payouts| - 1;
      var front := LotReturnOps(addresses, denom, payouts[..n]);
      var ops := LotReturnOps(addresses, denom, payouts);
      NeverPaysPart(ops, front, ops[|front|..], AUCTION);
      LotReturnFlow(addresses, denom, payouts[..n], d, why);
      if payouts[n] > 0 {
        var op := Pay(AUCTION, addresses[n], Coin(denom, payouts[n]), LotMoney);
        assert ops == front + [op] && ops[|front|..] == [op] && [op][0] == op;
        FlowConcat(front, [op], AUCTION, d, why);
        FlowOfOne(op, AUCTION, d, why);
      } else {
        assert ops == front;
      }
    }
  }

  lemma {:induction false} LotReturnOnlyLot(
    addresses: seq<Account>, denom: string, payouts: seq<int>, x: Account, d: string, why: Purpose)
    requires why != LotMoney
    ensures Flow(LotReturnOps(addresses, denom, payouts), x, d, why) == 0
    decreases |payouts|
  {
    if payouts != [] {
      var n := |payouts| - 1;
      var front := LotReturnOps(addresses, denom, payouts[..n]);
      LotReturnOnlyLot(addresses, denom, payouts[..n], x, d, why);
      if payouts[n] > 0 && n < |addresses| {
        var op := Pay(AUCTION, addresses[n], Coin(denom, payouts[n]), LotMoney);
        FlowConcat(front, [op], x, d, why);
        FlowOfOne(op, x, d, why);
      } else {
        assert front + [] == front;
      }
    }
  }

  // ---------------------------------------------------------------- payments

  /** What a batch pays out in a denom under one purpose, to whomever. */
  function Paid(ops: seq<Op>, d: string, why: Purpose): nat {
    if ops == [] then 0
    else Paid(ops[..|ops| - 1], d, why) +
         (if ops[|ops| - 1].Pay? && ops[|ops| - 1].why == why then In(ops[|ops| - 1].coin, d) else 0)
  }

  /** Nobody but these, and possibly one more account, is paid lot money. */
  predicate PaysOnly(ops: seq<Op>, to: seq<Account>, also: Option<Account>) {
    forall i :: 0 <= i < |ops| && ops[i].Pay? && ops[i].why == LotMoney ==> ops[i].to in to || Some(ops[i].to) == also
  }

  lemma {:induction false} PaidConcat(xs: seq<Op>, ys: seq<Op>, d: string, why: Purpose)
    ensures Paid(xs + ys, d, why) == Paid(xs, d, why) + Paid(ys, d, why)
    decreases |ys|
  {
    if ys == [] {
      assert xs + ys == xs;
    } else {
      assert (xs + ys)[..|xs + ys| - 1] == xs + ys[..|ys| - 1];
      PaidConcat(xs, ys[..|ys| - 1], d, why);
    }
  }

  /** A batch that has no lot payments. */
  predicate NoLot(ops: seq<Op>) {
    forall i :: 0 <= i < |ops| ==> !(ops[i].Pay? && ops[i].why == LotMoney)
  }

  /** A batch without lot payments. */
  lemma {:induction false} NoLotPaid(ops: seq<Op>, d: string)
    requires NoLot(ops)
    ensures Paid(ops, d, LotMoney) == 0
    decreases |ops|
  {
    if ops != [] { NoLotPaid(ops[..|ops| - 1], d); }
  }

  lemma PaidOneMore(ops: seq<Op>, op: Op, d: string, why: Purpose)
    ensures Paid(ops + [op], d, why) == Paid(ops, d, why) + (if op.Pay? && op.why == why then In(op.coin, d) else 0)
  {
    assert (ops + [op])[..|ops + [op]| - 1] == ops;
  }

  /** The lot returns are paid what the split gives them. */
  lemma {:induction false} LotReturnPaid(addresses: seq<Account>, denom: string, payouts: seq<int>, d: string)
    requires |payouts| <= |addresses| && forall i :: 0 <= i < |payouts| ==> payouts[i] >= 0
    ensures Paid(LotReturnOps(addresses, denom, payouts), d, LotMoney) == (if d == denom then Sum(payouts) else 0)
    decreases |payouts|
  {
    if payouts != [] {
      var n := |payouts| - 1;
      var front := LotReturnOps(addresses, denom, payouts[..n]);
      LotReturnPaid(addresses, denom, payouts[..n], d);
      if payouts[n] > 0 {
        PaidOneMore(front, Pay(AUCTION, addresses[n], Coin(denom, payouts[n]), LotMoney), d, LotMoney);
      } else {
        assert front + [] == front;
      }
    }
  }

  /** Nobody else is paid. */
  lemma {:induction false} LotReturnTo(addresses: seq<Account>, denom: string, payouts: seq<int>)
    ensures PaysOnly(LotReturnOps(addresses, denom, payouts), addresses, None)
    decreases |payouts|
  {
    if payouts != [] { LotReturnTo(addresses, denom, payouts[..|payouts| - 1]); }
  }

  /** What an account is due from a split: the payouts at its places among the addresses. */
  function Share(addresses: seq<Account>, payouts: seq<int>, x: Account): int {
    if payouts == [] then 0
    else
      var n := |payouts| - 1;
      Share(addresses, payouts[..n], x) + (if n < |addresses| && addresses[n] == x then payouts[n] else 0)
  }

  /** Every account receives exactly its share. */
  lemma {:induction false} LotReturnGives(
    addresses: seq<Account>, denom: string, payouts: seq<int>, x: Account, d: string)
    requires x != AUCTION && forall i :: 0 <= i < |payouts| ==> payouts[i] >= 0
    ensures Flow(LotReturnOps(addresses, denom, payouts), x, d, LotMoney) ==
            if d == denom then Share(addresses, payouts, x) else 0
    decreases |payouts|
  {
    if payouts != [] {
      var n := |payouts| - 1;
      var front := LotReturnOps(addresses, denom, payouts[..n]);
      LotReturnGives(addresses, denom, payouts[..n], x, d);
      if payouts[n] > 0 && n < |addresses| {
        var op := Pay(AUCTION, addresses[n], Coin(denom, payouts[n]), LotMoney);
        FlowConcat(front, [op], x, d, LotMoney);
        FlowOfOne(op, x, d, LotMoney);
      } else {
        assert front + [] == front;
      }
    }
  }

  // ---------------------------------------------------------------- plans of bids

  /** The debt held for an auction. */
  function Owed(a: Auction, d: string): nat {
    if a.Surplus? then 0 else In(a.debt, d)
  }

  /** What a bid brings the initiator: the increase of the bid on collateral, the whole bid at the first bid on
      debt, and nothing on surplus (it is burned). */
  function InitiatorGets(a: Auction, a': Auction, d: string): int {
    match a
    case Surplus(_) => 0
    case Debt(b, _) => if b.hasReceivedBids then 0 else In(b.bid, d)
    case Collateral(b, _, _, _) => In(a'.base.bid, d) - In(b.bid, d)
  }

  /** What a bid moves, in terms of the auction before and after: the old bidder is paid back in full, the new one
      pays the whole new bid, debt goes back to the initiator, and a smaller lot leaves the module account. */
  ghost predicate BidFlows(a: Auction, a': Auction, bidder: Account, ops: seq<Op>, x: Account, d: string) {
    var b, b' := a.base, a'.base;
    && Flow(ops, x, d, SwapMoney) == 0
    && Flow(ops, x, d, BidMoney) ==
         (if x == b.bidder && b.hasReceivedBids then In(b.bid, d) else 0)
         - (if x == bidder then In(b'.bid, d) else 0)
         + (if x == a.Initiator() then InitiatorGets(a, a', d) else 0)
    && Flow(ops, x, d, DebtMoney) ==
         (if x == a.Initiator() then Owed(a, d) - Owed(a', d) else if x == AUCTION then Owed(a', d) - Owed(a, d) else 0)
    && (x == AUCTION ==> Flow(ops, x, d, LotMoney) == if a.Collateral? then In(b'.lot, d) - In(b.lot, d) else 0)
  }

  /** Flows of a plan that is one batch after another. */
  lemma FlowParts(ops: seq<Op>, head: seq<Op>, tail: seq<Op>, x: Account, d: string)
    requires ops == head + tail
    ensures forall why :: Flow(ops, x, d, why) == Flow(head, x, d, why) + Flow(tail, x, d, why)
  {
    forall why ensures Flow(ops, x, d, why) == Flow(head, x, d, why) + Flow(tail, x, d, why) {
      FlowConcat(head, tail, x, d, why);
    }
  }

  /** The pay-back at the head of a plan, when it happens. */
  lemma HeadFlow(b: Base, bidder: Account, head: seq<Op>, x: Account, d: string)
    requires head == (if bidder != b.bidder && b.bid.amount != 0 then Repay(b, bidder) else [])
             || head == (if bidder != b.bidder then Repay(b, bidder) else [])
    ensures forall why :: Flow(head, x, d, why) ==
              if why != BidMoney then 0
              else (if x == b.bidder then In(b.bid, d) else 0) - (if x == bidder then In(b.bid, d) else 0)
  {
    forall why ensures Flow(head, x, d, why) ==
        if why != BidMoney then 0
        else (if x == b.bidder then In(b.bid, d) else 0) - (if x == bidder then In(b.bid, d) else 0)
    {
      RepayFlow(b, bidder, x, d, why);
    }
  }

  lemma OneOpFlow(op: Op, x: Account, d: string)
    ensures forall why :: Flow([op], x, d, why) == FlowOne(op, x, d, why)
  {
    forall why ensures Flow([op], x, d, why) == FlowOne(op, x, d, why) {
      FlowOfOne(op, x, d, why);
    }
  }

  lemma TwoOpsFlow(op1: Op, op2: Op, x: Account, d: string)
    ensures forall why :: Flow([op1, op2], x, d, why) == FlowOne(op1, x, d, why) + FlowOne(op2, x, d, why)
  {
    forall why ensures Flow([op1, op2], x, d, why) == FlowOne(op1, x, d, why) + FlowOne(op2, x, d, why) {
      FlowOfTwo(op1, op2, x, d, why);
    }
  }

  /** The flows of a bid on surplus, from what changes in the auction. */
  lemma SurplusFlows(a: Auction, a': Auction, bidder: Account, ops: seq<Op>, x: Account, d: string)
    requires a.Surplus? && a'.Surplus? && bidder.User? && a'.base.bid.denom == a.base.bid.denom
    requires a.base.bid.amount <= a'.base.bid.amount && (a.base.hasReceivedBids || a.base.bid.amount == 0)
    requires var more := Coin(a.base.bid.denom, a'.base.bid.amount - a.base.bid.amount);
             ops == (if bidder != a.base.bidder && a.base.bid.amount != 0 then Repay(a.base, bidder) else [])
                    + [Move(bidder, a.Initiator(), more, BidMoney), Burn(a.Initiator(), more, BidMoney)]
    ensures BidFlows(a, a', bidder, ops, x, d)
  {
    var b := a.base;
    var head := if bidder != b.bidder && b.bid.amount != 0 then Repay(b, bidder) else [];
    var more := Coin(b.bid.denom, a'.base.bid.amount - b.bid.amount);
    var pay, burn := Move(bidder, a.Initiator(), more, BidMoney), Burn(a.Initiator(), more, BidMoney);
    FlowParts(ops, head, [pay, burn], x, d);
    TwoOpsFlow(pay, burn, x, d);
    HeadFlow(b, bidder, head, x, d);
  }

  lemma SurplusBidFlows(
    cfg: Config, a: Auction, bidder: Account, denom: string, amount: int, time: int, x: Account, d: string)
    requires a.Surplus? && WellFormed(cfg, a) && bidder.User?
    requires PlanBidSurplus(cfg, a, bidder, denom, amount, time).Ok?
    ensures var p := PlanBidSurplus(cfg, a, bidder, denom, amount, time).value;
            BidFlows(a, p.auction, bidder, p.ops, x, d)
  {
    var p := PlanBidSurplus(cfg, a, bidder, denom, amount, time).value;
    SurplusFlows(a, p.auction, bidder, p.ops, x, d);
  }

  lemma ForwardOpsFlow(ops: seq<Op>, head: seq<Op>, pay: Op, giveBack: Op, owing: bool, x: Account, d: string)
    requires ops == head + [pay] + (if owing then [giveBack] else [])
    ensures forall why :: Flow(ops, x, d, why) ==
              Flow(head, x, d, why) + FlowOne(pay, x, d, why) + (if owing then FlowOne(giveBack, x, d, why) else 0)
  {
    FlowParts(ops, head + [pay], if owing then [giveBack] else [], x, d);
    FlowParts(head + [pay], head, [pay], x, d);
    OneOpFlow(pay, x, d);
    OneOpFlow(giveBack, x, d);
  }

  /** The flows of a forward bid on collateral, from what changes in the auction. */
  lemma ForwardFlows(a: Auction, a': Auction, bidder: Account, ops: seq<Op>, x: Account, d: string)
    requires a.Collateral? && a'.Collateral? && bidder.User? && a.base.initiator != "auction"
    requires a'.base.bid.denom == a.base.bid.denom && a'.base.lot == a.base.lot && a'.debt.denom == a.debt.denom
    requires a.base.bid.amount <= a'.base.bid.amount && (a.base.hasReceivedBids || a.base.bid.amount == 0)
    requires a'.debt.amount <= a.debt.amount
    requires var more := Coin(a.base.bid.denom, a'.base.bid.amount - a.base.bid.amount);
             var back := Coin(a.debt.denom, a.debt.amount - a'.debt.amount);
             ops == (if bidder != a.base.bidder && a.base.bid.amount != 0 then Repay(a.base, bidder) else [])
                    + [Move(bidder, a.Initiator(), more, BidMoney)]
                    + (if a.debt.amount > 0 then [Move(AUCTION, a.Initiator(), back, DebtMoney)] else [])
    ensures BidFlows(a, a', bidder, ops, x, d)
  {
    var b := a.base;
    var head := if bidder != b.bidder && b.bid.amount != 0 then Repay(b, bidder) else [];
    var more := Coin(b.bid.denom, a'.base.bid.amount - b.bid.amount);
    var back := Coin(a.debt.denom, a.debt.amount - a'.debt.amount);
    var pay, giveBack := Move(bidder, a.Initiator(), more, BidMoney), Move(AUCTION, a.Initiator(), back, DebtMoney);
    ForwardOpsFlow(ops, head, pay, giveBack, a.debt.amount > 0, x, d);
    HeadFlow(b, bidder, head, x, d);
  }

  lemma ForwardBidFlows(
    cfg: Config, a: Auction, bidder: Account, denom: string, amount: int, time: int, x: Account, d: string)
    requires a.Collateral? && WellFormed(cfg, a) && bidder.User?
    requires PlanForwardBidCollateral(cfg, a, bidder, denom, amount, time).Ok?
    ensures var p := PlanForwardBidCollateral(cfg, a, bidder, denom, amount, time).value;
            BidFlows(a, p.auction, bidder, p.ops, x, d)
  {
    var p := PlanForwardBidCollateral(cfg, a, bidder, denom, amount, time).value;
    ForwardFlows(a, p.auction, bidder, p.ops, x, d);
  }

  lemma ReverseBidFlows(
    cfg: Config, a: Auction, bidder: Account, denom: string, amount: int, time: int, payouts: seq<int>, x: Account,
    d: string)
    requires a.Collateral? && WellFormed(cfg, a) && bidder.User? && a.IsReversePhase()
    requires PlanReverseBidCollateral(cfg, a, bidder, denom, amount, time, payouts).Ok?
    requires NeverPays(PlanReverseBidCollateral(cfg, a, bidder, denom, amount, time, payouts).value.ops, AUCTION)
    ensures var p := PlanReverseBidCollateral(cfg, a, bidder, denom, amount, time, payouts).value;
            BidFlows(a, p.auction, bidder, p.ops, x, d)
  {
    var p := PlanReverseBidCollateral(cfg, a, bidder, denom, amount, time, payouts).value;
    var b := a.base;
    var head := if bidder != b.bidder then Repay(b, bidder) else [];
    SplitIsExact(b.lot.amount - amount, a.lotReturns.weights, payouts);
    var tail := LotReturnOps(a.lotReturns.addresses, denom, payouts);
    assert p.ops == head + tail;
    NeverPaysPart(p.ops, head, tail, AUCTION);
    forall i | 0 <= i < |payouts| ensures payouts[i] >= 0 {
      assert PartOk(b.lot.amount - amount, a.lotReturns.weights[i], Sum(a.lotReturns.weights), payouts[i]);
    }
    FlowParts(p.ops, head, tail, x, d);
    HeadFlow(b, bidder, head, x, d);
    LotReturnFlow(a.lotReturns.addresses, denom, payouts, d, LotMoney);
    LotReturnOnlyLot(a.lotReturns.addresses, denom, payouts, x, d, BidMoney);
    LotReturnOnlyLot(a.lotReturns.addresses, denom, payouts, x, d, DebtMoney);
    LotReturnOnlyLot(a.lotReturns.addresses, denom, payouts, x, d, SwapMoney);
  }

  /** The flows of a bid on debt, from what changes in the auction. */
  lemma DebtFlows(a: Auction, a': Auction, bidder: Account, ops: seq<Op>, x: Account, d: string)
    requires a.Debt? && a'.Debt? && bidder.User? && a.base.initiator != "auction" && a'.base.bid == a.base.bid
    requires a'.debt.denom == a.debt.denom && a'.debt.amount <= a.debt.amount
    requires if a.base.hasReceivedBids then a.base.bidder.User? && a'.debt == a.debt else a.base.bidder == a.Initiator()
    requires var back := Coin(a.debt.denom, a.debt.amount - a'.debt.amount);
             ops == if a.base.hasReceivedBids then (if bidder != a.base.bidder then Repay(a.base, bidder) else [])
                    else [Move(bidder, AUCTION, a.base.bid, BidMoney),
                          Move(AUCTION, a.Initiator(), a.base.bid, BidMoney)]
                         + [Move(AUCTION, a.Initiator(), back, DebtMoney)]
    ensures BidFlows(a, a', bidder, ops, x, d)
  {
    var b := a.base;
    if b.hasReceivedBids {
      HeadFlow(b, bidder, ops, x, d);
    } else {
      var into, on := Move(bidder, AUCTION, b.bid, BidMoney), Move(AUCTION, a.Initiator(), b.bid, BidMoney);
      var back := Move(AUCTION, a.Initiator(), Coin(a.debt.denom, a.debt.amount - a'.debt.amount), DebtMoney);
      FlowParts(ops, [into, on], [back], x, d);
      TwoOpsFlow(into, on, x, d);
      OneOpFlow(back, x, d);
    }
  }

  lemma DebtBidFlows(
    cfg: Config, a: Auction, bidder: Account, denom: string, amount: int, time: int, x: Account, d: string)
    requires a.Debt? && WellFormed(cfg, a) && bidder.User?
    requires PlanBidDebt(cfg, a, bidder, denom, amount, time).Ok?
    ensures var p := PlanBidDebt(cfg, a, bidder, denom, amount, time).value;
            BidFlows(a, p.auction, bidder, p.ops, x, d)
  {
    var p := PlanBidDebt(cfg, a, bidder, denom, amount, time).value;
    DebtFlows(a, p.auction, bidder, p.ops, x, d);
  }

  /** Every accepted bid moves exactly these coins. */
  lemma PlanBidFlows(
    cfg: Config, a: Auction, bidder: Account, denom: string, amount: int, time: int, payouts: seq<int>, x: Account,
    d: string)
    requires WellFormed(cfg, a) && bidder.User?
    requires PlanBid(cfg, a, bidder, denom, amount, time, payouts).Ok?
    requires NeverPays(PlanBid(cfg, a, bidder, denom, amount, time, payouts).value.ops, AUCTION)
    ensures var p := PlanBid(cfg, a, bidder, denom, amount, time, payouts).value;
            BidFlows(a, p.auction, bidder, p.ops, x, d)
  {
    match a
    case Surplus(_) => SurplusBidFlows(cfg, a, bidder, denom, amount, time, x, d);
    case Debt(_, _) => DebtBidFlows(cfg, a, bidder, denom, amount, time, x, d);
    case Collateral(_, _, _, _) =>
      if a.IsReversePhase() {
        ReverseBidFlows(cfg, a, bidder, denom, amount, time, payouts, x, d);
      } else {
        ForwardBidFlows(cfg, a, bidder, denom, amount, time, x, d);
      }
  }

  // ---------------------------------------------------------------- lot payments of a bid

  lemma SurplusHasNoLot(cfg: Config, a: Auction, bidder: Account, denom: string, amount: int, time: int)
    requires a.Surplus? && PlanBidSurplus(cfg, a, bidder, denom, amount, time).Ok?
    ensures NoLot(PlanBidSurplus(cfg, a, bidder, denom, amount, time).value.ops)
  {
  }

  lemma DebtHasNoLot(cfg: Config, a: Auction, bidder: Account, denom: string, amount: int, time: int)
    requires a.Debt? && PlanBidDebt(cfg, a, bidder, denom, amount, time).Ok?
    ensures NoLot(PlanBidDebt(cfg, a, bidder, denom, amount, time).value.ops)
  {
  }

  lemma ForwardHasNoLot(cfg: Config, a: Auction, bidder: Account, denom: string, amount: int, time: int)
    requires a.Collateral? && PlanForwardBidCollateral(cfg, a, bidder, denom, amount, time).Ok?
    ensures var p := PlanForwardBidCollateral(cfg, a, bidder, denom, amount, time).value;
            NoLot(p.ops) && p.auction.base.lot == a.base.lot
  {
  }

  /** The lot payments of a reverse bid. */
  lemma ReverseLotPaid(a: Auction, bidder: Account, amount: nat, payouts: seq<int>, ops: seq<Op>, d: string)
    requires a.Collateral? && amount <= a.base.lot.amount && ValidLotReturns(a.lotReturns)
    requires IsSplit(a.base.lot.amount - amount, a.lotReturns.weights, payouts)
    requires ops == (if bidder != a.base.bidder then Repay(a.base, bidder) else [])
                    + LotReturnOps(a.lotReturns.addresses, a.base.lot.denom, payouts)
    ensures Paid(ops, d, LotMoney) == (if d == a.base.lot.denom then a.base.lot.amount - amount else 0)
    ensures PaysOnly(ops, a.lotReturns.addresses, None)
  {
    var head := if bidder != a.base.bidder then Repay(a.base, bidder) else [];
    SplitIsExact(a.base.lot.amount - amount, a.lotReturns.weights, payouts);
    forall i | 0 <= i < |payouts| ensures payouts[i] >= 0 {
      assert PartOk(a.base.lot.amount - amount, a.lotReturns.weights[i], Sum(a.lotReturns.weights), payouts[i]);
    }
    PaidConcat(head, LotReturnOps(a.lotReturns.addresses, a.base.lot.denom, payouts), d, LotMoney);
    NoLotPaid(head, d);
    LotReturnPaid(a.lotReturns.addresses, a.base.lot.denom, payouts, d);
    LotReturnTo(a.lotReturns.addresses, a.base.lot.denom, payouts);
  }

  /** A bid pays out lot money only on the way down from a collateral lot, all of it to the lot returns. */
  lemma BidLotPaid(
    cfg: Config, a: Auction, bidder: Account, denom: string, amount: int, time: int, payouts: seq<int>, d: string)
    requires WellFormed(cfg, a) && PlanBid(cfg, a, bidder, denom, amount, time, payouts).Ok?
    ensures var p := PlanBid(cfg, a, bidder, denom, amount, time, payouts).value;
            && Paid(p.ops, d, LotMoney) == (if a.Collateral? then In(a.base.lot, d) - In(p.auction.base.lot, d) else 0)
            && PaysOnly(p.ops, if a.Collateral? then a.lotReturns.addresses else [], None)
  {
    var p := PlanBid(cfg, a, bidder, denom, amount, time, payouts).value;
    match a
    case Surplus(_) =>
      SurplusHasNoLot(cfg, a, bidder, denom, amount, time);
      NoLotPaid(p.ops, d);
    case Debt(_, _) =>
      DebtHasNoLot(cfg, a, bidder, denom, amount, time);
      NoLotPaid(p.ops, d);
    case Collateral(_, _, _, _) =>
      if a.IsReversePhase() {
        ReverseLotPaid(a, bidder, amount, payouts, p.ops, d);
      } else {
        ForwardHasNoLot(cfg, a, bidder, denom, amount, time);
        NoLotPaid(p.ops, d);
      }
  }

  /** In a reverse bid, every account but the module's receives as lot money exactly its share of the decrease. */
  lemma ReverseBidGives(
    cfg: Config, a: Auction, bidder: Account, denom: string, amount: int, time: int, payouts: seq<int>, x: Account)
    requires WellFormed(cfg, a) && a.IsReversePhase() && PlanBid(cfg, a, bidder, denom, amount, time, payouts).Ok?
    requires x != AUCTION
    ensures var p := PlanBid(cfg, a, bidder, denom, amount, time, payouts).value;
            && Flow(p.ops, x, a.base.lot.denom, LotMoney) == Share(a.lotReturns.addresses, payouts, x)
            && IsSplit(a.base.lot.amount - p.auction.base.lot.amount, a.lotReturns.weights, payouts)
  {
    var p := PlanBid(cfg, a, bidder, denom, amount, time, payouts).value;
    var head := if bidder != a.base.bidder then Repay(a.base, bidder) else [];
    var tail := LotReturnOps(a.lotReturns.addresses, denom, payouts);
    assert p.ops == head + tail;
    SplitIsExact(a.base.lot.amount - amount, a.lotReturns.weights, payouts);
    forall i | 0 <= i < |payouts| ensures payouts[i] >= 0 {
      assert PartOk(a.base.lot.amount - amount, a.lotReturns.weights[i], Sum(a.lotReturns.weights), payouts[i]);
    }
    FlowParts(p.ops, head, tail, x, denom);
    HeadFlow(a.base, bidder, head, x, denom);
    LotReturnGives(a.lotReturns.addresses, denom, payouts, x, denom);
  }

  // ---------------------------------------------------------------- payouts

  /** Closing an auction with a bidder: the lot goes to the bidder, what debt is left goes to the initiator. */
  ghost predicate PayoutFlows(a: Auction, ops: seq<Op>, x: Account, d: string) {
    var b := a.base;
    && Flow(ops, x, d, SwapMoney) == 0 == Flow(ops, x, d, BidMoney)
    && Flow(ops, x, d, DebtMoney) ==
         (if x == a.Initiator() then Owed(a, d) else if x == AUCTION then 0 - Owed(a, d) else 0)
    && Flow(ops, x, d, LotMoney) ==
         (if x == b.bidder then In(b.lot, d) else 0) - (if x == AUCTION && !a.Debt? then In(b.lot, d) else 0)
  }

  lemma ClosingFlows(cfg: Config, a: Auction, x: Account, d: string)
    requires WellFormed(cfg, a) && a.base.hasReceivedBids
    ensures PayoutFlows(a, PayoutOps(a), x, d)
  {
    var b := a.base;
    match a
    case Surplus(_) => OneOpFlow(Pay(AUCTION, b.bidder, b.lot, LotMoney), x, d);
    case Debt(_, debt) =>
      var mint, pay := Mint(a.Initiator(), b.lot, LotMoney), Pay(a.Initiator(), b.bidder, b.lot, LotMoney);
      FlowParts(PayoutOps(a), [mint, pay], DebtBackOps(a), x, d);
      TwoOpsFlow(mint, pay, x, d);
      OneOpFlow(Move(AUCTION, a.Initiator(), debt, DebtMoney), x, d);
    case Collateral(_, debt, _, _) =>
      FlowParts(PayoutOps(a), [Pay(AUCTION, b.bidder, b.lot, LotMoney)], DebtBackOps(a), x, d);
      OneOpFlow(Pay(AUCTION, b.bidder, b.lot, LotMoney), x, d);
      OneOpFlow(Move(AUCTION, a.Initiator(), debt, DebtMoney), x, d);
  }

  /** Closing pays out the lot, to the bidder. */
  lemma ClosingPays(a: Auction, d: string)
    ensures Paid(PayoutOps(a), d, LotMoney) == In(a.base.lot, d) && PaysOnly(PayoutOps(a), [], Some(a.base.bidder))
  {
    var ops := PayoutOps(a);
    var n := if a.Debt? then 2 else 1;
    assert ops == ops[..n] + ops[n..];
    PaidConcat(ops[..n], ops[n..], d, LotMoney);
    NoLotPaid(ops[n..], d);
    assert ops[..n][..n - 1] == ops[..n - 1];
    NoLotPaid(ops[..n - 1], d);
  }

  /** Starting an auction brings the module account exactly what it will hold for it. */
  lemma DepositFlows(a: Auction, d: string)
    requires a.base.initiator != "auction"
    ensures Net(DepositOps(a), AUCTION, d) == Held(a, d)
  {
    NetIsAllFlows(DepositOps(a), AUCTION, d);
    match a
    case Surplus(b) => OneOpFlow(DepositOps(a)[0], AUCTION, d);
    case Debt(_, debt) => OneOpFlow(DepositOps(a)[0], AUCTION, d);
    case Collateral(b, debt, _, _) => TwoOpsFlow(DepositOps(a)[0], DepositOps(a)[1], AUCTION, d);
  }
}
