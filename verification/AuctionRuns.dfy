/** Whole runs of the auction module: starts, bids (accepted or not), blocks that close what is due, and coin
    movements of other modules; with, for every auction, the record of every coin moved on its behalf. */
module AuctionRuns {
  import opened Prelude
  import opened Banking
  import opened AuctionSpec
  import opened AuctionFlows
  import opened AuctionInvariant

  /** An auction as it started and as it is or last was, the operations made for it, the number of accepted bids,
      and the times of the first and of the last. */
  datatype Record = Record(
    first: Auction, last: Auction, ops: seq<Op>, bids: nat, closed: bool, firstBid: Option<int>, lastBid: Option<int>)

  function NewRecord(a: Auction): Record {
    Record(a, a, DepositOps(a), 0, false, None, None)
  }

  datatype World = World(s: State, time: int, records: map<nat, Record>)

  datatype Step =
    | NewBlock(time: int, ids: seq<nat>)
    | Bid(id: nat, bidder: Account, denom: string, amount: int, payouts: seq<int>)
    | Begin(msg: StartMsg)
    | OtherModules(bank: Balances)

  /** Block times do not fall and stay before the distant future; the iterator lists what is due, in some order;
      bidders are users; no module starts an auction for the auction module itself or touches its account. */
  ghost predicate Admissible(w: World, step: Step) {
    match step
    case NewBlock(time, ids) => w.time <= time < DISTANT_FUTURE && ListsDue(w.s.auctions, time, ids)
    case Bid(_, bidder, _, _, _) => bidder.User?
    case Begin(m) => NewAuction(m).base.initiator != "auction"
    case OtherModules(bank) => forall d :: BalanceOf(bank, AUCTION, d) == BalanceOf(w.s.bank, AUCTION, d)
  }

  function CloseRecord(r: Record): Record {
    r.(ops := r.ops + PayoutOps(r.last), closed := true)
  }

  ghost function Exec(cfg: Config, w: World, step: Step): World {
    if !Admissible(w, step) then w
    else match step
      case NewBlock(time, ids) => (
        match CloseEach(cfg, w.s, time, ids)
        case Err(_) => w
        case Ok(s') => World(s', time, CloseRecords(w.records, ids)))
      case Bid(id, bidder, denom, amount, payouts) => (
        match PlaceBid(cfg, w.s, w.time, id, bidder, denom, amount, payouts)
        case Err(_) => w
        case Ok(s') =>
          var p := PlanBid(cfg, w.s.auctions[id], bidder, denom, amount, w.time, payouts).value;
          var records := if id in w.records then w.records[id := AddBid(w.records[id], p, w.time)] else w.records;
          w.(s := s', records := records))
      case Begin(m) => (
        match Start(cfg, w.s, m)
        case Err(_) => w
        case Ok(s') =>
          var a := s'.auctions[w.s.nextID.value];
          w.(s := s', records := w.records[w.s.nextID.value := NewRecord(a)]))
      case OtherModules(bank) => w.(s := w.s.(bank := bank))
  }

  function AddBid(r: Record, p: Plan, time: int): Record {
    r.(last := p.auction, ops := r.ops + p.ops, bids := r.bids + 1,
       firstBid := if r.firstBid.Some? then r.firstBid else Some(time), lastBid := Some(time))
  }

  ghost function Run(cfg: Config, w: World, steps: seq<Step>): World
    decreases |steps|
  {
    if steps == [] then w else Exec(cfg, Run(cfg, w, steps[..|steps| - 1]), steps[|steps| - 1])
  }

  lemma RunSnoc(cfg: Config, w: World, steps: seq<Step>, step: Step)
    ensures Run(cfg, w, steps + [step]) == Exec(cfg, Run(cfg, w, steps), step)
  {
    var longer := steps + [step];
    assert longer[..|longer| - 1] == steps;
  }

  // ---------------------------------------------------------------- solvency over every run

  lemma StepKeepsInv(cfg: Config, w: World, step: Step)
    requires Inv(cfg, w.s)
    ensures Inv(cfg, Exec(cfg, w, step).s)
    ensures step.NewBlock? && Admissible(w, step) ==> CloseEach(cfg, w.s, step.time, step.ids).Ok?
  {
    if Admissible(w, step) {
      match step
      case NewBlock(time, ids) => ClosingExpiredIsExact(cfg, w.s, time, ids);
      case Bid(id, bidder, denom, amount, payouts) =>
        if PlaceBid(cfg, w.s, w.time, id, bidder, denom, amount, payouts).Ok? {
          BidKeepsInv(cfg, w.s, w.time, id, bidder, denom, amount, payouts);
        }
      case Begin(m) =>
        if Start(cfg, w.s, m).Ok? { StartKeepsInv(cfg, w.s, m); }
      case OtherModules(bank) =>
    }
  }

  /** After any run the module account holds, in every denom, the sum of what the stored auctions claim. */
  lemma {:induction false} EveryRunIsSolvent(cfg: Config, w: World, steps: seq<Step>)
    requires Inv(cfg, w.s)
    ensures Inv(cfg, Run(cfg, w, steps).s)
    decreases |steps|
  {
    if steps != [] {
      var before := steps[..|steps| - 1];
      EveryRunIsSolvent(cfg, w, before);
      StepKeepsInv(cfg, Run(cfg, w, before), steps[|steps| - 1]);
    }
  }

  /** The begin blocker never panics, in whatever state a run has reached. */
  lemma BeginBlockerNeverFails(cfg: Config, w: World, steps: seq<Step>, time: int, ids: seq<nat>)
    requires Inv(cfg, w.s) && time < DISTANT_FUTURE && ListsDue(Run(cfg, w, steps).s.auctions, time, ids)
    ensures var s := Run(cfg, w, steps).s;
            var r := CloseEach(cfg, s, time, ids);
            r.Ok? && forall id <- r.value.auctions :: r.value.auctions[id].base.endTime > time
  {
    EveryRunIsSolvent(cfg, w, steps);
    ClosingExpiredIsExact(cfg, Run(cfg, w, steps).s, time, ids);
  }

  // ---------------------------------------------------------------- what a bid does to the auction

  /** What is left to bid: room under the maximum bid and the lot on collateral, the lot on debt. */
  function Room(a: Auction): int {
    match a
    case Surplus(_) => 0
    case Debt(b, _) => b.lot.amount
    case Collateral(b, _, maxBid, _) => maxBid.amount - b.bid.amount + b.lot.amount
  }

  /** Every accepted bid uses up room, and the reverse phase is never left. */
  lemma BidsMakeProgress(
    cfg: Config, a: Auction, bidder: Account, denom: string, amount: int, time: int, payouts: seq<int>)
    requires WellFormed(cfg, a) && PlanBid(cfg, a, bidder, denom, amount, time, payouts).Ok?
    ensures var a' := PlanBid(cfg, a, bidder, denom, amount, time, payouts).value.auction;
            && (a.Surplus? ==> a'.Surplus? && a'.base.bid.amount > a.base.bid.amount)
            && (!a.Surplus? ==> 0 <= Room(a') < Room(a))
            && (a.IsReversePhase() ==> a'.IsReversePhase())
            && (a.Collateral? ==> a'.base.bid.amount >= a.base.bid.amount)
  {
  }

  /** The debt still held, in closed form: it depends on the starting debt and the present bid only. */
  ghost predicate DebtForm(first: Auction, a: Auction) {
    match a
    case Surplus(_) => true
    case Debt(b, debt) => (
      && first.Debt?
      && debt.amount == if b.hasReceivedBids then Max(0, first.debt.amount - b.bid.amount) else first.debt.amount)
    case Collateral(b, debt, _, _) => first.Collateral? && debt.amount == Max(0, first.debt.amount - b.bid.amount)
  }

  lemma BidKeepsDebtForm(
    cfg: Config, first: Auction, a: Auction, bidder: Account, denom: string, amount: int, time: int, payouts: seq<int>)
    requires WellFormed(cfg, a) && DebtForm(first, a) && PlanBid(cfg, a, bidder, denom, amount, time, payouts).Ok?
    ensures DebtForm(first, PlanBid(cfg, a, bidder, denom, amount, time, payouts).value.auction)
  {
  }

  // ---------------------------------------------------------------- ledgers

  /** What the initiator has received of the present bid: all of it on collateral and on a debt auction with bids. */
  function Received(a: Auction, d: string): nat {
    match a
    case Surplus(_) => 0
    case Debt(b, _) => if b.hasReceivedBids then In(b.bid, d) else 0
    case Collateral(b, _, _, _) => In(b.bid, d)
  }

  /** One account's side of an auction's record. */
  ghost predicate Ledger(r: Record, x: Account, d: string) {
    var a := r.last;
    && (x.User? ==>
          Flow(r.ops, x, d, BidMoney) ==
          if a.base.hasReceivedBids && x == a.base.bidder then 0 - In(a.base.bid, d) else 0)
    && (x == a.Initiator() ==>
          && Flow(r.ops, x, d, BidMoney) == Received(a, d)
          && Flow(r.ops, x, d, DebtMoney) == if r.closed then 0 else 0 - Owed(a, d))
    && (x == AUCTION ==> Net(r.ops, x, d) == if r.closed then 0 else Held(a, d))
  }

  /** How long an auction waits for the next bid: by the phase of a collateral auction, and as long as a forward
      phase for the others. */
  function Patience(p: Params, a: Auction): int {
    if a.IsReversePhase() then p.reverseBidDuration else p.forwardBidDuration
  }

  /** The times of a record: the first bid fixes the latest end, the last bid the end. */
  ghost predicate TimesOk(cfg: Config, r: Record) {
    && (r.last.base.hasReceivedBids <==> r.firstBid.Some?) && (r.firstBid.Some? <==> r.lastBid.Some?)
    && (r.firstBid.Some? ==>
          && r.last.base.maxEndTime == r.firstBid.value + cfg.params.maxAuctionDuration
          && r.last.base.endTime == Min(r.lastBid.value + Patience(cfg.params, r.last), r.last.base.maxEndTime))
  }

  /** The side of an auction that bids leave alone, and the lot that only gets smaller. */
  predicate TermsKept(first: Auction, last: Auction) {
    && (last.Surplus? ==> last.base.lot == first.base.lot)
    && (last.Debt? ==> last.base.bid == first.base.bid)
    && last.base.lot.amount <= first.base.lot.amount
  }

  /** The lot money paid out: the decrease of a collateral lot, and the rest when the auction is closed. */
  function LotPaid(r: Record, d: string): int {
    (if r.last.Collateral? then In(r.first.base.lot, d) - In(r.last.base.lot, d) else 0)
    + (if r.closed then In(r.last.base.lot, d) else 0)
  }

  /** Lot money went to the lot returns and to the winner, and to nobody else. */
  ghost predicate LotOk(r: Record) {
    && (forall d :: Paid(r.ops, d, LotMoney) == LotPaid(r, d))
    && PaysOnly(r.ops, if r.last.Collateral? then r.last.lotReturns.addresses else [],
                if r.closed then Some(r.last.base.bidder) else None)
    && (r.closed ==> r.last.base.hasReceivedBids)
  }

  ghost predicate RecordOk(cfg: Config, r: Record) {
    && WellFormed(cfg, r.last)
    && SameAuction(r.first, r.last)
    && DebtForm(r.first, r.last)
    && TimesOk(cfg, r) && TermsKept(r.first, r.last) && LotOk(r)
    && (!r.last.Surplus? ==> r.bids + Room(r.last) <= Room(r.first))
    && forall x, d :: Ledger(r, x, d)
  }

  /** The open records are those of the stored auctions, and every record is in order. */
  ghost predicate RecordsOk(cfg: Config, s: State, records: map<nat, Record>) {
    && (forall id <- s.auctions :: id in records && !records[id].closed && records[id].last == s.auctions[id])
    && (forall id <- records :: !records[id].closed ==> id in s.auctions)
    && (forall id <- records :: s.nextID.Some? && id < s.nextID.value)
    && (forall id <- records :: RecordOk(cfg, records[id]))
  }

  /** The empty module has its records in order. */
  lemma RecordsOkInitially(cfg: Config, bank: Balances, firstID: nat)
    ensures RecordsOk(cfg, State(map[], {}, Some(firstID), bank), map[])
  {
  }

  lemma BidKeepsLedger(
    cfg: Config, r: Record, a': Auction, bidder: Account, ops: seq<Op>, time: int, x: Account, d: string)
    requires WellFormed(cfg, r.last) && !r.closed && bidder.User?
    requires Ledger(r, x, d) && BidFlows(r.last, a', bidder, ops, x, d)
    requires SameAuction(r.last, a') && a'.base.bidder == bidder && a'.base.hasReceivedBids
    requires (r.last.Surplus? ==> a'.base.lot == r.last.base.lot) && (r.last.Debt? ==> a'.base.bid == r.last.base.bid)
    ensures Ledger(AddBid(r, Plan(a', ops), time), x, d)
  {
    FlowConcat(r.ops, ops, x, d, BidMoney);
    FlowConcat(r.ops, ops, x, d, DebtMoney);
    if x == AUCTION {
      NetConcat(r.ops, ops, x, d);
      NetIsAllFlows(ops, x, d);
      BidFlowsAtModule(cfg, r.last, a', bidder, ops, d);
    }
  }

  lemma BidKeepsRecord(
    cfg: Config, r: Record, bank: Balances, bidder: Account, denom: string, amount: int, time: int, payouts: seq<int>)
    requires ConfigOk(cfg) && RecordOk(cfg, r) && !r.closed && bidder.User? && time <= r.last.base.endTime
    requires PlanBid(cfg, r.last, bidder, denom, amount, time, payouts).Ok?
    requires ApplyAll(cfg.blocked, bank, PlanBid(cfg, r.last, bidder, denom, amount, time, payouts).value.ops).Ok?
    ensures RecordOk(cfg, AddBid(r, PlanBid(cfg, r.last, bidder, denom, amount, time, payouts).value, time))
  {
    var p := PlanBid(cfg, r.last, bidder, denom, amount, time, payouts).value;
    BidKeepsWellFormed(cfg, r.last, bidder, denom, amount, time, payouts);
    BidKeepsDebtForm(cfg, r.first, r.last, bidder, denom, amount, time, payouts);
    BidsMakeProgress(cfg, r.last, bidder, denom, amount, time, payouts);
    ModuleIsNotPaid(cfg, bank, p.ops);
    UntouchedByBid(cfg, r.last, bidder, denom, amount, time, payouts);
    BidSetsEnd(cfg, r.last, bidder, denom, amount, time, payouts);
    BidKeepsLot(cfg, r, bidder, denom, amount, time, payouts);
    forall x, d ensures Ledger(AddBid(r, p, time), x, d) {
      assert Ledger(r, x, d);
      PlanBidFlows(cfg, r.last, bidder, denom, amount, time, payouts, x, d);
      BidKeepsLedger(cfg, r, p.auction, bidder, p.ops, time, x, d);
    }
  }

  lemma UntouchedByBid(
    cfg: Config, a: Auction, bidder: Account, denom: string, amount: int, time: int, payouts: seq<int>)
    requires PlanBid(cfg, a, bidder, denom, amount, time, payouts).Ok?
    ensures var a' := PlanBid(cfg, a, bidder, denom, amount, time, payouts).value.auction;
            && (a.Surplus? ==> a'.base.lot == a.base.lot) && (a.Debt? ==> a'.base.bid == a.base.bid)
            && a'.base.lot.amount <= a.base.lot.amount
  {
  }

  /** The end of an auction after a bid, by the phase it is then in. */
  lemma BidSetsEnd(
    cfg: Config, a: Auction, bidder: Account, denom: string, amount: int, time: int, payouts: seq<int>)
    requires WellFormed(cfg, a) && PlanBid(cfg, a, bidder, denom, amount, time, payouts).Ok?
    ensures var a' := PlanBid(cfg, a, bidder, denom, amount, time, payouts).value.auction;
            a'.base.endTime == Min(time + Patience(cfg.params, a'), a'.base.maxEndTime)
  {
  }

  lemma BidKeepsLot(
    cfg: Config, r: Record, bidder: Account, denom: string, amount: int, time: int, payouts: seq<int>)
    requires WellFormed(cfg, r.last) && SameAuction(r.first, r.last) && LotOk(r) && !r.closed
    requires cfg.params.Valid() && bidder.User? && time <= r.last.base.endTime
    requires PlanBid(cfg, r.last, bidder, denom, amount, time, payouts).Ok?
    ensures LotOk(AddBid(r, PlanBid(cfg, r.last, bidder, denom, amount, time, payouts).value, time))
  {
    var p := PlanBid(cfg, r.last, bidder, denom, amount, time, payouts).value;
    BidKeepsWellFormed(cfg, r.last, bidder, denom, amount, time, payouts);
    forall d ensures Paid(r.ops + p.ops, d, LotMoney) == LotPaid(AddBid(r, p, time), d) {
      PaidConcat(r.ops, p.ops, d, LotMoney);
      BidLotPaid(cfg, r.last, bidder, denom, amount, time, payouts, d);
    }
    BidLotPaid(cfg, r.last, bidder, denom, amount, time, payouts, denom);
    PaysOnlyMore(r.ops, p.ops, if r.last.Collateral? then r.last.lotReturns.addresses else [], None);
  }

  lemma PaysOnlyMore(xs: seq<Op>, ys: seq<Op>, to: seq<Account>, also: Option<Account>)
    requires PaysOnly(xs, to, also) && PaysOnly(ys, to, also)
    ensures PaysOnly(xs + ys, to, also)
  {
  }

  lemma CloseKeepsLot(r: Record)
    requires LotOk(r) && !r.closed && r.last.base.hasReceivedBids
    ensures LotOk(CloseRecord(r))
  {
    var ops := PayoutOps(r.last);
    forall d ensures Paid(r.ops + ops, d, LotMoney) == LotPaid(CloseRecord(r), d) {
      PaidConcat(r.ops, ops, d, LotMoney);
      ClosingPays(r.last, d);
    }
    ClosingPays(r.last, "");
    PaysOnlyMore(r.ops, ops, if r.last.Collateral? then r.last.lotReturns.addresses else [], Some(r.last.base.bidder));
  }

  lemma CloseKeepsRecord(cfg: Config, r: Record)
    requires RecordOk(cfg, r) && !r.closed && r.last.base.hasReceivedBids
    ensures RecordOk(cfg, CloseRecord(r))
  {
    var ops := PayoutOps(r.last);
    CloseKeepsLot(r);
    forall x, d ensures Ledger(CloseRecord(r), x, d) {
      assert Ledger(r, x, d);
      ClosingFlows(cfg, r.last, x, d);
      FlowConcat(r.ops, ops, x, d, BidMoney);
      FlowConcat(r.ops, ops, x, d, DebtMoney);
      if x == AUCTION {
        NetConcat(r.ops, ops, x, d);
        PayoutLeavesModule(cfg, r.last, d);
      }
    }
  }

  lemma NewRecordOk(cfg: Config, a: Auction)
    requires WellFormed(cfg, a) && !a.base.hasReceivedBids
    ensures RecordOk(cfg, NewRecord(a))
  {
    var r := NewRecord(a);
    forall d ensures Paid(r.ops, d, LotMoney) == 0 {
      NoLotPaid(r.ops, d);
    }
    forall x, d ensures Ledger(r, x, d) {
      if x == AUCTION { DepositFlows(a, d); }
      match a
      case Surplus(b) => OneOpFlow(DepositOps(a)[0], x, d);
      case Debt(_, debt) => OneOpFlow(DepositOps(a)[0], x, d);
      case Collateral(b, debt, _, _) => TwoOpsFlow(DepositOps(a)[0], DepositOps(a)[1], x, d);
    }
  }

  // ---------------------------------------------------------------- steps keep the records

  /** Storing an auction together with its record. */
  lemma StoringKeepsRecords(cfg: Config, s: State, s': State, records: map<nat, Record>, id: nat, r: Record)
    requires RecordsOk(cfg, s, records) && RecordOk(cfg, r) && !r.closed
    requires s'.auctions == s.auctions[id := r.last] && s.nextID.Some? && s'.nextID.Some?
    requires id < s'.nextID.value && s.nextID.value <= s'.nextID.value
    ensures RecordsOk(cfg, s', records[id := r])
  {
  }

  lemma BidKeepsRecords(cfg: Config, w: World, id: nat, bidder: Account, denom: string, amount: int, payouts: seq<int>)
    requires Inv(cfg, w.s) && RecordsOk(cfg, w.s, w.records) && bidder.User?
    requires PlaceBid(cfg, w.s, w.time, id, bidder, denom, amount, payouts).Ok?
    ensures var p := PlanBid(cfg, w.s.auctions[id], bidder, denom, amount, w.time, payouts).value;
            RecordsOk(cfg, PlaceBid(cfg, w.s, w.time, id, bidder, denom, amount, payouts).value,
                      w.records[id := AddBid(w.records[id], p, w.time)])
  {
    var a := w.s.auctions[id];
    assert w.records[id].last == a;
    var p := PlanBid(cfg, a, bidder, denom, amount, w.time, payouts).value;
    BidKeepsRecord(cfg, w.records[id], w.s.bank, bidder, denom, amount, w.time, payouts);
    BidKeepsWellFormed(cfg, a, bidder, denom, amount, w.time, payouts);
    var s' := PlaceBid(cfg, w.s, w.time, id, bidder, denom, amount, payouts).value;
    StoringKeepsRecords(cfg, w.s, s', w.records, id, AddBid(w.records[id], p, w.time));
  }

  /** A start stores the new auction under the next ID. */
  lemma StartStores(cfg: Config, s: State, m: StartMsg)
    requires NewAuction(m).base.initiator != "auction" && Start(cfg, s, m).Ok?
    ensures s.nextID.Some?
    ensures var s', id, a := Start(cfg, s, m).value, s.nextID.value, NewAuction(m);
            && s'.nextID == Some(id + 1) && s'.auctions == s.auctions[id := a.(base := a.base.(id := id))]
            && WellFormed(cfg, s'.auctions[id]) && !s'.auctions[id].base.hasReceivedBids
  {
  }

  lemma StartKeepsRecords(cfg: Config, w: World, m: StartMsg)
    requires Inv(cfg, w.s) && RecordsOk(cfg, w.s, w.records) && NewAuction(m).base.initiator != "auction"
    requires Start(cfg, w.s, m).Ok?
    ensures var s', id := Start(cfg, w.s, m).value, w.s.nextID.value;
            && id in s'.auctions
            && RecordsOk(cfg, s', w.records[id := NewRecord(s'.auctions[id])])
  {
    StartStores(cfg, w.s, m);
    var s', id := Start(cfg, w.s, m).value, w.s.nextID.value;
    var a := s'.auctions[id];
    NewRecordOk(cfg, a);
    StoringKeepsRecords(cfg, w.s, s', w.records, id, NewRecord(a));
  }

  function CloseRecords(records: map<nat, Record>, ids: seq<nat>): map<nat, Record> {
    map id | id in records :: if id in ids then CloseRecord(records[id]) else records[id]
  }

  /** Removing auctions from the store and closing their records. */
  lemma ClosingKeepsRecords(cfg: Config, s: State, s': State, records: map<nat, Record>, ids: seq<nat>)
    requires RecordsOk(cfg, s, records) && s'.nextID == s.nextID
    requires forall id :: id in s'.auctions <==> id in s.auctions && id !in ids
    requires forall id <- s'.auctions :: s'.auctions[id] == s.auctions[id]
    requires forall id <- ids :: id in records ==> RecordOk(cfg, CloseRecord(records[id]))
    ensures RecordsOk(cfg, s', CloseRecords(records, ids))
  {
  }

  lemma BlockKeepsRecords(cfg: Config, w: World, time: int, ids: seq<nat>)
    requires Inv(cfg, w.s) && RecordsOk(cfg, w.s, w.records) && Admissible(w, NewBlock(time, ids))
    ensures CloseEach(cfg, w.s, time, ids).Ok?
    ensures RecordsOk(cfg, CloseEach(cfg, w.s, time, ids).value, CloseRecords(w.records, ids))
  {
    CloseEachSucceeds(cfg, w.s, time, ids);
    forall id <- ids ensures id in w.records ==> RecordOk(cfg, CloseRecord(w.records[id])) {
      CloseSucceeds(cfg, w.s, time, id);
      if id in w.records { CloseKeepsRecord(cfg, w.records[id]); }
    }
    ClosingKeepsRecords(cfg, w.s, CloseEach(cfg, w.s, time, ids).value, w.records, ids);
  }

  lemma StepKeepsRecords(cfg: Config, w: World, step: Step)
    requires Inv(cfg, w.s) && RecordsOk(cfg, w.s, w.records)
    ensures var w' := Exec(cfg, w, step); RecordsOk(cfg, w'.s, w'.records)
  {
    if Admissible(w, step) {
      match step
      case NewBlock(time, ids) => BlockKeepsRecords(cfg, w, time, ids);
      case Bid(id, bidder, denom, amount, payouts) =>
        if PlaceBid(cfg, w.s, w.time, id, bidder, denom, amount, payouts).Ok? {
          BidKeepsRecords(cfg, w, id, bidder, denom, amount, payouts);
        }
      case Begin(m) =>
        if Start(cfg, w.s, m).Ok? { StartKeepsRecords(cfg, w, m); }
      case OtherModules(bank) =>
    }
  }

  lemma {:induction false} EveryRunKeepsRecords(cfg: Config, w: World, steps: seq<Step>)
    requires Inv(cfg, w.s) && RecordsOk(cfg, w.s, w.records)
    ensures var w' := Run(cfg, w, steps); RecordsOk(cfg, w'.s, w'.records)
    decreases |steps|
  {
    if steps != [] {
      var before := steps[..|steps| - 1];
      EveryRunKeepsRecords(cfg, w, before);
      EveryRunIsSolvent(cfg, w, before);
      StepKeepsRecords(cfg, Run(cfg, w, before), steps[|steps| - 1]);
    }
  }

  // ---------------------------------------------------------------- what that means

  /** After any run, of every auction: the present (or winning) bidder is out of pocket by exactly the bid, and
      every other user who ever bid by exactly nothing. */
  lemma OutbidBiddersAreMadeWhole(cfg: Config, w: World, steps: seq<Step>, id: nat, user: Account)
    requires Inv(cfg, w.s) && RecordsOk(cfg, w.s, w.records) && user.User?
    requires id in Run(cfg, w, steps).records
    ensures var r := Run(cfg, w, steps).records[id]; var b := r.last.base;
            Flow(r.ops, user, b.bid.denom, BidMoney) ==
            if b.hasReceivedBids && user == b.bidder then 0 - b.bid.amount else 0
  {
    EveryRunKeepsRecords(cfg, w, steps);
    var r := Run(cfg, w, steps).records[id];
    assert Ledger(r, user, r.last.base.bid.denom);
  }

  /** Once an auction is closed, its initiator has all its debt coins back, has received exactly the final bid
      (burned on surplus), and the module account keeps nothing of it. */
  lemma ClosedAuctionsAreSettled(cfg: Config, w: World, steps: seq<Step>, id: nat, d: string)
    requires Inv(cfg, w.s) && RecordsOk(cfg, w.s, w.records)
    requires id in Run(cfg, w, steps).records && Run(cfg, w, steps).records[id].closed
    ensures var r := Run(cfg, w, steps).records[id]; var a := r.last;
            && Flow(r.ops, a.Initiator(), d, DebtMoney) == 0
            && Flow(r.ops, a.Initiator(), d, BidMoney) == Received(a, d)
            && Net(r.ops, AUCTION, d) == 0
  {
    EveryRunKeepsRecords(cfg, w, steps);
    var r := Run(cfg, w, steps).records[id];
    assert Ledger(r, r.last.Initiator(), d) && Ledger(r, AUCTION, d);
  }

  /** After any run, the debt held for an auction is the starting debt less the present bid, however that bid was
      reached; and the number of accepted bids on a debt or collateral auction is bounded by what there was to bid
      at the start. */
  lemma DebtAndBidsOverRuns(cfg: Config, w: World, steps: seq<Step>, id: nat)
    requires Inv(cfg, w.s) && RecordsOk(cfg, w.s, w.records)
    requires id in Run(cfg, w, steps).records
    ensures var r := Run(cfg, w, steps).records[id];
            DebtForm(r.first, r.last) && (!r.last.Surplus? ==> r.bids + Room(r.last) <= Room(r.first))
  {
    EveryRunKeepsRecords(cfg, w, steps);
  }

  // ---------------------------------------------------------------- bid-on auctions close in time

  /** No stored auction should have been closed before now. */
  predicate NoneOverdue(w: World) {
    w.time <= DISTANT_FUTURE && forall id <- w.s.auctions :: w.time <= w.s.auctions[id].base.endTime
  }

  lemma StepLeavesNoneOverdue(cfg: Config, w: World, step: Step)
    requires Inv(cfg, w.s) && NoneOverdue(w)
    ensures NoneOverdue(Exec(cfg, w, step))
  {
    if Admissible(w, step) {
      match step
      case NewBlock(time, ids) => ClosingExpiredIsExact(cfg, w.s, time, ids);
      case Bid(id, bidder, denom, amount, payouts) =>
        if PlaceBid(cfg, w.s, w.time, id, bidder, denom, amount, payouts).Ok? {
          BidKeepsWellFormed(cfg, w.s.auctions[id], bidder, denom, amount, w.time, payouts);
        }
      case Begin(m) =>
        if Start(cfg, w.s, m).Ok? { StartStores(cfg, w.s, m); }
      case OtherModules(bank) =>
    }
  }

  lemma {:induction false} RunLeavesNoneOverdue(cfg: Config, w: World, steps: seq<Step>)
    requires Inv(cfg, w.s) && NoneOverdue(w)
    ensures NoneOverdue(Run(cfg, w, steps))
    decreases |steps|
  {
    if steps != [] {
      var before := steps[..|steps| - 1];
      RunLeavesNoneOverdue(cfg, w, before);
      EveryRunIsSolvent(cfg, w, before);
      StepLeavesNoneOverdue(cfg, Run(cfg, w, before), steps[|steps| - 1]);
    }
  }

  /** After any run, an auction that is still open has its first bid at most the maximum duration ago, however often
      it was bid on since. */
  lemma OpenAuctionsAreYoung(cfg: Config, w: World, steps: seq<Step>, id: nat)
    requires Inv(cfg, w.s) && RecordsOk(cfg, w.s, w.records) && NoneOverdue(w)
    requires id in Run(cfg, w, steps).records && Run(cfg, w, steps).records[id].firstBid.Some?
    ensures var w' := Run(cfg, w, steps);
            !w'.records[id].closed ==> w'.time <= w'.records[id].firstBid.value + cfg.params.maxAuctionDuration
  {
    EveryRunKeepsRecords(cfg, w, steps);
    RunLeavesNoneOverdue(cfg, w, steps);
    assert RecordOk(cfg, Run(cfg, w, steps).records[id]);
  }

  /** The first block from the first bid's time plus the maximum duration on closes the auction, if it is not closed
      yet. */
  lemma ClosedByDeadline(cfg: Config, w: World, steps: seq<Step>, time: int, ids: seq<nat>, id: nat)
    requires Inv(cfg, w.s) && RecordsOk(cfg, w.s, w.records)
    requires id in Run(cfg, w, steps).records && Run(cfg, w, steps).records[id].firstBid.Some?
    requires Admissible(Run(cfg, w, steps), NewBlock(time, ids))
    requires time >= Run(cfg, w, steps).records[id].firstBid.value + cfg.params.maxAuctionDuration
    ensures var w' := Run(cfg, w, steps + [NewBlock(time, ids)]); id in w'.records && w'.records[id].closed
  {
    var w1 := Run(cfg, w, steps);
    EveryRunKeepsRecords(cfg, w, steps);
    EveryRunIsSolvent(cfg, w, steps);
    RunSnoc(cfg, w, steps, NewBlock(time, ids));
    StepKeepsInv(cfg, w1, NewBlock(time, ids));
    assert RecordOk(cfg, w1.records[id]);
  }
}
