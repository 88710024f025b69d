/** What starting an auction commits everybody to, said in terms of the start message: who gives what, what a winner
    pays and receives at most, and when the auction closes. */
module AuctionTerms {
  import opened Prelude
  import opened Banking
  import opened AuctionSpec
  import opened AuctionFlows
  import opened AuctionInvariant
  import opened AuctionRuns

  ghost predicate Started(cfg: Config, w: World, m: StartMsg) {
    Inv(cfg, w.s) && RecordsOk(cfg, w.s, w.records) && Admissible(w, Begin(m)) && Start(cfg, w.s, m).Ok?
  }

  /** The records after a start and any run. */
  ghost function RecordsAfter(cfg: Config, w: World, m: StartMsg, steps: seq<Step>): map<nat, Record> {
    Run(cfg, Exec(cfg, w, Begin(m)), steps).records
  }

  // ---------------------------------------------------------------- the record of a start

  lemma StepKeepsFirst(cfg: Config, w: World, step: Step, id: nat)
    requires RecordsOk(cfg, w.s, w.records) && id in w.records
    ensures id in Exec(cfg, w, step).records && Exec(cfg, w, step).records[id].first == w.records[id].first
  {
  }

  lemma {:induction false} RunKeepsFirst(cfg: Config, w: World, steps: seq<Step>, id: nat)
    requires Inv(cfg, w.s) && RecordsOk(cfg, w.s, w.records) && id in w.records
    ensures id in Run(cfg, w, steps).records && Run(cfg, w, steps).records[id].first == w.records[id].first
    decreases |steps|
  {
    if steps != [] {
      var before := steps[..|steps| - 1];
      RunKeepsFirst(cfg, w, before, id);
      EveryRunKeepsRecords(cfg, w, before);
      StepKeepsFirst(cfg, Run(cfg, w, before), steps[|steps| - 1], id);
    }
  }

  /** The auction under the next ID is the one the message asked for, and its record stays in order. */
  lemma StartedRecord(cfg: Config, w: World, m: StartMsg, steps: seq<Step>)
    requires Started(cfg, w, m)
    ensures w.s.nextID.Some? && w.s.nextID.value in RecordsAfter(cfg, w, m, steps)
    ensures var id := w.s.nextID.value;
            var r := RecordsAfter(cfg, w, m, steps)[id];
            RecordOk(cfg, r) && r.first == NewAuction(m).(base := NewAuction(m).base.(id := id))
  {
    var w1, id := Exec(cfg, w, Begin(m)), w.s.nextID.value;
    StartStores(cfg, w.s, m);
    StartKeepsInv(cfg, w.s, m);
    StepKeepsRecords(cfg, w, Begin(m));
    assert w1.s == Start(cfg, w.s, m).value && w1.records[id].first == w1.s.auctions[id];
    RunKeepsFirst(cfg, w1, steps, id);
    EveryRunKeepsRecords(cfg, w1, steps);
  }

  // ---------------------------------------------------------------- what is given at the start

  /** What the initiator puts in: the lot for a surplus auction, the debt for a debt auction, both for collateral. */
  function Given(m: StartMsg, d: string): nat {
    match m
    case StartSurplus(_, lot, _) => In(lot, d)
    case StartDebt(_, _, _, debt) => In(debt, d)
    case StartCollateral(_, lot, _, _, debt) => In(lot, d) + In(debt, d)
  }

  function InitiatorOf(m: StartMsg): Account {
    match m
    case StartSurplus(seller, _, _) => Module(seller)
    case StartDebt(buyer, _, _, _) => Module(buyer)
    case StartCollateral(seller, _, _, _, _) => Module(seller)
  }

  lemma DepositNet(m: StartMsg, x: Account, d: string)
    requires InitiatorOf(m) != AUCTION
    ensures Net(DepositOps(NewAuction(m)), x, d) ==
            if x == AUCTION then Given(m, d) else if x == InitiatorOf(m) then 0 - Given(m, d) else 0
  {
    var ops := DepositOps(NewAuction(m));
    match m
    case StartSurplus(_, _, _) => ApplyOneOp({}, map[], ops[0]);
    case StartDebt(_, _, _, _) => ApplyOneOp({}, map[], ops[0]);
    case StartCollateral(_, _, _, _, _) => ApplyTwo({}, map[], ops[0], ops[1]);
  }

  lemma BankAfterStart(cfg: Config, w: World, m: StartMsg)
    requires Admissible(w, Begin(m)) && Start(cfg, w.s, m).Ok?
    ensures InitiatorOf(m) != AUCTION
    ensures ApplyAll(cfg.blocked, w.s.bank, DepositOps(NewAuction(m))) == Ok(Exec(cfg, w, Begin(m)).s.bank)
  {
  }

  /** A start moves exactly that from the initiator to the module account, and nothing else. */
  lemma StartGives(cfg: Config, w: World, m: StartMsg, x: Account, d: string)
    requires Started(cfg, w, m)
    ensures BalanceOf(Exec(cfg, w, Begin(m)).s.bank, x, d) == BalanceOf(w.s.bank, x, d) +
            (if x == AUCTION then Given(m, d) else if x == InitiatorOf(m) then 0 - Given(m, d) else 0)
  {
    BankAfterStart(cfg, w, m);
    ApplyAllNet(cfg.blocked, w.s.bank, DepositOps(NewAuction(m)), x, d);
    DepositNet(m, x, d);
  }

  // ---------------------------------------------------------------- what follows from it

  /** Of every user, only the present or winning bidder is out of pocket, by this amount of this denom. */
  ghost predicate OnlyBidderPays(r: Record, denom: string, amount: nat) {
    forall x: Account, d :: x.User? ==>
      Flow(r.ops, x, d, BidMoney) ==
      if r.last.base.hasReceivedBids && x == r.last.base.bidder && d == denom then 0 - amount else 0
  }

  lemma BidderPays(cfg: Config, r: Record)
    requires RecordOk(cfg, r)
    ensures OnlyBidderPays(r, r.last.base.bid.denom, r.last.base.bid.amount)
  {
    forall x: Account, d | x.User? ensures
        Flow(r.ops, x, d, BidMoney) ==
        if r.last.base.hasReceivedBids && x == r.last.base.bidder && d == r.last.base.bid.denom
        then 0 - r.last.base.bid.amount
        else 0
    {
      assert Ledger(r, x, d);
    }
  }

  /** From a start of a debt auction on, through any run: a bidder pays exactly the bid of the message and nobody
      else anything; the buyer receives exactly that; of the lot of the message at most its amount is paid, only at
      the close and only to the winner; and at the close the buyer has all its debt coins back. */
  lemma DebtTerms(cfg: Config, w: World, buyer: string, bid: Coin, lot: Coin, debt: Coin, steps: seq<Step>)
    requires Started(cfg, w, StartDebt(buyer, bid, lot, debt))
    ensures w.s.nextID.Some? && w.s.nextID.value in RecordsAfter(cfg, w, StartDebt(buyer, bid, lot, debt), steps)
    ensures var r := RecordsAfter(cfg, w, StartDebt(buyer, bid, lot, debt), steps)[w.s.nextID.value];
            var bidOn := r.last.base.hasReceivedBids;
            && r.last.Debt? && OnlyBidderPays(r, bid.denom, bid.amount)
            && Flow(r.ops, Module(buyer), bid.denom, BidMoney) == (if bidOn then bid.amount else 0)
            && Paid(r.ops, lot.denom, LotMoney) <= (if r.closed then lot.amount else 0)
            && PaysOnly(r.ops, [], if r.closed then Some(r.last.base.bidder) else None)
            && Flow(r.ops, Module(buyer), debt.denom, DebtMoney) ==
               (if r.closed then 0 else if bidOn then 0 - Max(0, debt.amount - bid.amount) else 0 - debt.amount)
  {
    var m := StartDebt(buyer, bid, lot, debt);
    StartedRecord(cfg, w, m, steps);
    var r := RecordsAfter(cfg, w, m, steps)[w.s.nextID.value];
    BidderPays(cfg, r);
    assert Ledger(r, Module(buyer), bid.denom) && Ledger(r, Module(buyer), debt.denom);
  }

  /** From a start of a collateral auction on, through any run: a bidder pays what is bid and at most the maximum
      bid, and nobody else anything; the seller receives exactly what the bidder pays; lot money goes to the lot
      returns and the winner only, and at the close adds up to exactly the lot; and at the close the seller has all
      its debt coins back. */
  lemma CollateralTerms(
    cfg: Config, w: World, seller: string, lot: Coin, maxBid: Coin, lotReturns: WeightedAddresses, debt: Coin,
    steps: seq<Step>)
    requires Started(cfg, w, StartCollateral(seller, lot, maxBid, lotReturns, debt))
    ensures var m := StartCollateral(seller, lot, maxBid, lotReturns, debt);
            w.s.nextID.Some? && w.s.nextID.value in RecordsAfter(cfg, w, m, steps)
    ensures var m := StartCollateral(seller, lot, maxBid, lotReturns, debt);
            var r := RecordsAfter(cfg, w, m, steps)[w.s.nextID.value];
            var bid := r.last.base.bid;
            && r.last.Collateral? && bid.amount <= maxBid.amount && OnlyBidderPays(r, maxBid.denom, bid.amount)
            && Flow(r.ops, Module(seller), maxBid.denom, BidMoney) == bid.amount
            && Paid(r.ops, lot.denom, LotMoney) <= lot.amount
            && (r.closed ==> Paid(r.ops, lot.denom, LotMoney) == lot.amount)
            && PaysOnly(r.ops, lotReturns.addresses, if r.closed then Some(r.last.base.bidder) else None)
            && Flow(r.ops, Module(seller), debt.denom, DebtMoney) ==
               (if r.closed then 0 else 0 - Max(0, debt.amount - bid.amount))
  {
    var m := StartCollateral(seller, lot, maxBid, lotReturns, debt);
    StartedRecord(cfg, w, m, steps);
    var r := RecordsAfter(cfg, w, m, steps)[w.s.nextID.value];
    BidderPays(cfg, r);
    assert Ledger(r, Module(seller), maxBid.denom) && Ledger(r, Module(seller), debt.denom);
  }

  /** From a start of a surplus auction on, through any run: a bidder pays what is bid, in the denom of the message,
      and nobody else anything; the seller keeps none of it (it is burned); and exactly the lot of the message is
      paid, at the close, to the winner only. */
  lemma SurplusTerms(cfg: Config, w: World, seller: string, lot: Coin, bidDenom: string, steps: seq<Step>)
    requires Started(cfg, w, StartSurplus(seller, lot, bidDenom))
    ensures w.s.nextID.Some? && w.s.nextID.value in RecordsAfter(cfg, w, StartSurplus(seller, lot, bidDenom), steps)
    ensures var r := RecordsAfter(cfg, w, StartSurplus(seller, lot, bidDenom), steps)[w.s.nextID.value];
            && r.last.Surplus? && OnlyBidderPays(r, bidDenom, r.last.base.bid.amount)
            && Flow(r.ops, Module(seller), bidDenom, BidMoney) == 0
            && Paid(r.ops, lot.denom, LotMoney) == (if r.closed then lot.amount else 0)
            && PaysOnly(r.ops, [], if r.closed then Some(r.last.base.bidder) else None)
  {
    var m := StartSurplus(seller, lot, bidDenom);
    StartedRecord(cfg, w, m, steps);
    var r := RecordsAfter(cfg, w, m, steps)[w.s.nextID.value];
    BidderPays(cfg, r);
    assert Ledger(r, Module(seller), bidDenom);
  }

  // ---------------------------------------------------------------- when an auction closes

  /** After any run, an open auction with bids is closed by a block exactly if the block comes as long after the
      last bid as its phase waits (the reverse duration once the maximum bid is reached, the forward duration
      otherwise), or as long after the first bid as an auction may last. One without bids is not closed. */
  lemma ClosesExactlyWhen(cfg: Config, w: World, steps: seq<Step>, time: int, ids: seq<nat>, id: nat)
    requires Inv(cfg, w.s) && RecordsOk(cfg, w.s, w.records)
    requires id in Run(cfg, w, steps).records && !Run(cfg, w, steps).records[id].closed
    requires Admissible(Run(cfg, w, steps), NewBlock(time, ids))
    ensures var r, w' := Run(cfg, w, steps).records[id], Run(cfg, w, steps + [NewBlock(time, ids)]);
            var wait := if r.last.Collateral? && r.last.base.bid == r.last.maxBid then cfg.params.reverseBidDuration
                        else cfg.params.forwardBidDuration;
            && (r.firstBid.Some? <==> r.lastBid.Some?) && id in w'.records
            && (w'.records[id].closed <==>
                && r.lastBid.Some?
                && (time >= r.lastBid.value + wait || time >= r.firstBid.value + cfg.params.maxAuctionDuration))
  {
    var w1 := Run(cfg, w, steps);
    EveryRunKeepsRecords(cfg, w, steps);
    EveryRunIsSolvent(cfg, w, steps);
    RunSnoc(cfg, w, steps, NewBlock(time, ids));
    StepKeepsInv(cfg, w1, NewBlock(time, ids));
    assert RecordOk(cfg, w1.records[id]);
  }
}
