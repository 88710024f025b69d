/** The invariant of the auction module: the module account holds exactly the coins of the stored auctions, the by-time
    index lists exactly the stored auctions, and auctions nobody bid on end in the distant future. */
module AuctionInvariant {
  import opened Prelude
  import opened Banking
  import opened MapSums
  import opened AuctionSpec
  import opened AuctionFlows

  function Holds(d: string): Auction -> int {
    (a: Auction) => Held(a, d)
  }

  /** The sum of GetModuleAccountCoins over the store, in one denom. */
  ghost function HeldByAll(auctions: map<nat, Auction>, d: string): int {
    Total(auctions, Holds(d))
  }

  ghost predicate Solvent(auctions: map<nat, Auction>, bank: Balances) {
    forall d :: BalanceOf(bank, AUCTION, d) == HeldByAll(auctions, d)
  }

  predicate EndsAt(auctions: map<nat, Auction>, e: Entry) {
    e.id in auctions && auctions[e.id].base.endTime == e.time
  }

  ghost predicate IndexExact(auctions: map<nat, Auction>, byTime: set<Entry>) {
    forall e :: e in byTime <==> EndsAt(auctions, e)
  }

  predicate StoreOk(cfg: Config, auctions: map<nat, Auction>, nextID: Option<nat>) {
    && nextID.Some?
    && forall id <- auctions :: auctions[id].base.id == id && id < nextID.value && WellFormed(cfg, auctions[id])
  }

  predicate ConfigOk(cfg: Config) {
    "auction" in cfg.blocked && cfg.params.Valid()
  }

  ghost predicate Inv(cfg: Config, s: State) {
    && ConfigOk(cfg)
    && StoreOk(cfg, s.auctions, s.nextID)
    && IndexExact(s.auctions, s.byTime)
    && Solvent(s.auctions, s.bank)
  }

  lemma InvInitially(cfg: Config, bank: Balances, firstID: nat)
    requires ConfigOk(cfg) && forall d :: BalanceOf(bank, AUCTION, d) == 0
    ensures Inv(cfg, State(map[], {}, Some(firstID), bank))
  {
  }

  // ---------------------------------------------------------------- set and delete

  lemma SetKeepsIndex(s: State, a: Auction, bank: Balances)
    requires IndexExact(s.auctions, s.byTime)
    ensures var s' := SetAuction(s, a, bank); IndexExact(s'.auctions, s'.byTime)
  {
    var s' := SetAuction(s, a, bank);
    forall e ensures e in s'.byTime <==> EndsAt(s'.auctions, e) {
      assert e in s.byTime <==> EndsAt(s.auctions, e);
    }
  }

  lemma DeleteKeepsIndex(s: State, id: nat, bank: Balances)
    requires IndexExact(s.auctions, s.byTime) && id in s.auctions
    ensures var s' := DeleteAuction(s, id, bank); IndexExact(s'.auctions, s'.byTime)
  {
    var s' := DeleteAuction(s, id, bank);
    forall e ensures e in s'.byTime <==> EndsAt(s'.auctions, e) {
      assert e in s.byTime <==> EndsAt(s.auctions, e);
    }
  }

  lemma SetKeepsSolvent(auctions: map<nat, Auction>, bank: Balances, id: nat, a: Auction, bank': Balances)
    requires Solvent(auctions, bank)
    requires forall d :: BalanceOf(bank', AUCTION, d) ==
               BalanceOf(bank, AUCTION, d) + Held(a, d) - (if id in auctions then Held(auctions[id], d) else 0)
    ensures Solvent(auctions[id := a], bank')
  {
    forall d ensures BalanceOf(bank', AUCTION, d) == HeldByAll(auctions[id := a], d) {
      TotalUpdate(auctions, Holds(d), id, a);
    }
  }

  lemma DeleteKeepsSolvent(auctions: map<nat, Auction>, bank: Balances, id: nat, bank': Balances)
    requires Solvent(auctions, bank) && id in auctions
    requires forall d :: BalanceOf(bank', AUCTION, d) == BalanceOf(bank, AUCTION, d) - Held(auctions[id], d)
    ensures Solvent(auctions - {id}, bank')
  {
    forall d ensures BalanceOf(bank', AUCTION, d) == HeldByAll(auctions - {id}, d) {
      TotalRemove(auctions, Holds(d), id);
    }
  }

  lemma HeldIsThere(auctions: map<nat, Auction>, bank: Balances, id: nat, d: string)
    requires Solvent(auctions, bank) && id in auctions
    ensures BalanceOf(bank, AUCTION, d) >= Held(auctions[id], d)
  {
    TotalBound(auctions, Holds(d), id);
  }

  // ---------------------------------------------------------------- bids

  lemma TouchKeepsTimes(b: Base, bidder: Account, time: int, p: Params, duration: int)
    requires p.Valid() && 0 <= duration <= p.maxAuctionDuration && time <= b.endTime <= b.maxEndTime
    ensures var b' := Touch(b, bidder, time, p, duration);
            && b'.bidder == bidder && b'.hasReceivedBids && time <= b'.endTime <= b'.maxEndTime
            && (b.hasReceivedBids ==> b'.maxEndTime == b.maxEndTime)
            && (!b.hasReceivedBids ==> b'.maxEndTime == time + p.maxAuctionDuration)
  {
  }

  /** What never changes about an auction, and what a bid does to its times. */
  ghost predicate SameAuction(a: Auction, a': Auction) {
    && a.base.id == a'.base.id && a.base.initiator == a'.base.initiator
    && a.base.lot.denom == a'.base.lot.denom && a.base.bid.denom == a'.base.bid.denom
    && (a.Surplus? <==> a'.Surplus?) && (a.Debt? <==> a'.Debt?)
    && (!a.Surplus? ==> a.debt.denom == a'.debt.denom)
    && (a.Collateral? ==> a'.Collateral? && a.maxBid == a'.maxBid && a.lotReturns == a'.lotReturns)
  }

  lemma BidKeepsWellFormed(
    cfg: Config, a: Auction, bidder: Account, denom: string, amount: int, time: int, payouts: seq<int>)
    requires cfg.params.Valid() && WellFormed(cfg, a) && bidder.User? && time <= a.base.endTime
    requires PlanBid(cfg, a, bidder, denom, amount, time, payouts).Ok?
    ensures var a' := PlanBid(cfg, a, bidder, denom, amount, time, payouts).value.auction;
            && WellFormed(cfg, a') && SameAuction(a, a')
            && a'.base.bidder == bidder && a'.base.hasReceivedBids && time <= a'.base.endTime <= a'.base.maxEndTime
            && (a.base.hasReceivedBids ==> a'.base.maxEndTime == a.base.maxEndTime)
            && (!a.base.hasReceivedBids ==> a'.base.maxEndTime == time + cfg.params.maxAuctionDuration)
  {
    TouchKeepsTimes(a.base, bidder, time, cfg.params, cfg.params.forwardBidDuration);
    TouchKeepsTimes(a.base, bidder, time, cfg.params, cfg.params.reverseBidDuration);
  }

  /** In a batch that went through, the blocked module account is not among the recipients of payments. */
  lemma ModuleIsNotPaid(cfg: Config, bank: Balances, ops: seq<Op>)
    requires ConfigOk(cfg) && ApplyAll(cfg.blocked, bank, ops).Ok?
    ensures NeverPays(ops, AUCTION)
  {
    NoBlockedRecipient(cfg.blocked, bank, ops);
  }

  lemma BidChangesHeld(
    cfg: Config, a: Auction, bidder: Account, denom: string, amount: int, time: int, payouts: seq<int>, d: string)
    requires WellFormed(cfg, a) && bidder.User?
    requires PlanBid(cfg, a, bidder, denom, amount, time, payouts).Ok?
    requires NeverPays(PlanBid(cfg, a, bidder, denom, amount, time, payouts).value.ops, AUCTION)
    ensures var p := PlanBid(cfg, a, bidder, denom, amount, time, payouts).value;
            Net(p.ops, AUCTION, d) == Held(p.auction, d) - Held(a, d)
  {
    var p := PlanBid(cfg, a, bidder, denom, amount, time, payouts).value;
    PlanBidFlows(cfg, a, bidder, denom, amount, time, payouts, AUCTION, d);
    NetIsAllFlows(p.ops, AUCTION, d);
    BidFlowsAtModule(cfg, a, p.auction, bidder, p.ops, d);
  }

  lemma BidFlowsAtModule(cfg: Config, a: Auction, a': Auction, bidder: Account, ops: seq<Op>, d: string)
    requires WellFormed(cfg, a) && bidder.User? && BidFlows(a, a', bidder, ops, AUCTION, d)
    requires (a.Surplus? <==> a'.Surplus?) && (a.Debt? <==> a'.Debt?)
    requires a.Surplus? ==> a'.base.lot == a.base.lot
    ensures Flow(ops, AUCTION, d, BidMoney) + Flow(ops, AUCTION, d, DebtMoney) + Flow(ops, AUCTION, d, LotMoney)
            + Flow(ops, AUCTION, d, SwapMoney) == Held(a', d) - Held(a, d)
  {
  }

  lemma BidKeepsInv(
    cfg: Config, s: State, time: int, id: nat, bidder: Account, denom: string, amount: int, payouts: seq<int>)
    requires Inv(cfg, s) && bidder.User?
    requires PlaceBid(cfg, s, time, id, bidder, denom, amount, payouts).Ok?
    ensures Inv(cfg, PlaceBid(cfg, s, time, id, bidder, denom, amount, payouts).value)
  {
    var a := s.auctions[id];
    var p := PlanBid(cfg, a, bidder, denom, amount, time, payouts).value;
    var bank' := ApplyAll(cfg.blocked, s.bank, p.ops).value;
    BidKeepsWellFormed(cfg, a, bidder, denom, amount, time, payouts);
    ModuleIsNotPaid(cfg, s.bank, p.ops);
    forall d ensures BalanceOf(bank', AUCTION, d) == BalanceOf(s.bank, AUCTION, d) + Held(p.auction, d) - Held(a, d) {
      BidChangesHeld(cfg, a, bidder, denom, amount, time, payouts, d);
      ApplyAllNet(cfg.blocked, s.bank, p.ops, AUCTION, d);
    }
    SettingKeepsInv(cfg, s, p.auction, bank');
  }

  lemma SettingKeepsInv(cfg: Config, s: State, a: Auction, bank': Balances)
    requires Inv(cfg, s) && WellFormed(cfg, a) && a.base.id < s.nextID.value
    requires forall d :: BalanceOf(bank', AUCTION, d) == BalanceOf(s.bank, AUCTION, d) + Held(a, d)
                         - (if a.base.id in s.auctions then Held(s.auctions[a.base.id], d) else 0)
    ensures Inv(cfg, SetAuction(s, a, bank'))
  {
    SetKeepsIndex(s, a, bank');
    SetKeepsSolvent(s.auctions, s.bank, a.base.id, a, bank');
  }

  // ---------------------------------------------------------------- starts

  lemma StartKeepsInv(cfg: Config, s: State, m: StartMsg)
    requires Inv(cfg, s) && NewAuction(m).base.initiator != "auction"
    requires Start(cfg, s, m).Ok?
    ensures Inv(cfg, Start(cfg, s, m).value)
  {
    var id := s.nextID.value;
    var a := NewAuction(m);
    var a' := a.(base := a.base.(id := id));
    var bank' := ApplyAll(cfg.blocked, s.bank, DepositOps(a)).value;
    assert WellFormed(cfg, a');
    forall d ensures BalanceOf(bank', AUCTION, d) == BalanceOf(s.bank, AUCTION, d) + Held(a', d) {
      DepositFlows(a, d);
      ApplyAllNet(cfg.blocked, s.bank, DepositOps(a), AUCTION, d);
    }
    SettingKeepsInv(cfg, s.(nextID := Some(id + 1)), a', bank');
  }

  // ---------------------------------------------------------------- closing

  /** A batch of two or three operations that all have their coins goes through. */
  lemma PayoutGoesThrough(cfg: Config, bank: Balances, a: Auction)
    requires WellFormed(cfg, a) && a.base.hasReceivedBids
    requires forall d :: BalanceOf(bank, AUCTION, d) >= Held(a, d)
    ensures ApplyAll(cfg.blocked, bank, PayoutOps(a)).Ok?
  {
    var b := a.base;
    match a
    case Surplus(_) => ApplyOneOp(cfg.blocked, bank, PayoutOps(a)[0]);
    case Debt(_, debt) => DebtPayoutGoesThrough(cfg, bank, a);
    case Collateral(_, debt, _, _) => CollateralPayoutGoesThrough(cfg, bank, a);
  }

  lemma DebtPayoutGoesThrough(cfg: Config, bank: Balances, a: Auction)
    requires a.Debt? && WellFormed(cfg, a) && a.base.hasReceivedBids
    requires BalanceOf(bank, AUCTION, a.debt.denom) >= a.debt.amount
    ensures ApplyAll(cfg.blocked, bank, PayoutOps(a)).Ok?
  {
    var mint, pay := Mint(a.Initiator(), a.base.lot, LotMoney), Pay(a.Initiator(), a.base.bidder, a.base.lot, LotMoney);
    ApplyTwo(cfg.blocked, bank, mint, pay);
    var bank1 := Apply(cfg.blocked, bank, mint).value;
    var bank2 := Apply(cfg.blocked, bank1, pay).value;
    ApplyAllConcat(cfg.blocked, bank, [mint, pay], DebtBackOps(a));
    if a.debt.amount > 0 { ApplyOneOp(cfg.blocked, bank2, DebtBackOps(a)[0]); }
  }

  lemma CollateralPayoutGoesThrough(cfg: Config, bank: Balances, a: Auction)
    requires a.Collateral? && WellFormed(cfg, a) && a.base.hasReceivedBids
    requires forall d :: BalanceOf(bank, AUCTION, d) >= Held(a, d)
    ensures ApplyAll(cfg.blocked, bank, PayoutOps(a)).Ok?
  {
    var pay := Pay(AUCTION, a.base.bidder, a.base.lot, LotMoney);
    assert BalanceOf(bank, AUCTION, a.base.lot.denom) >= Held(a, a.base.lot.denom);
    assert BalanceOf(bank, AUCTION, a.debt.denom) >= Held(a, a.debt.denom);
    ApplyOneOp(cfg.blocked, bank, pay);
    ApplyAllConcat(cfg.blocked, bank, [pay], DebtBackOps(a));
    if a.debt.amount > 0 { ApplyOneOp(cfg.blocked, Apply(cfg.blocked, bank, pay).value, DebtBackOps(a)[0]); }
  }

  lemma PayoutLeavesModule(cfg: Config, a: Auction, d: string)
    requires WellFormed(cfg, a) && a.base.hasReceivedBids
    ensures Net(PayoutOps(a), AUCTION, d) == 0 - Held(a, d)
  {
    NetIsAllFlows(PayoutOps(a), AUCTION, d);
    ClosingFlows(cfg, a, AUCTION, d);
  }

  /** An auction whose end has come, before the distant future, has a bidder and can be closed. */
  lemma CloseSucceeds(cfg: Config, s: State, time: int, id: nat)
    requires Inv(cfg, s) && id in s.auctions && s.auctions[id].base.endTime <= time < DISTANT_FUTURE
    ensures s.auctions[id].base.hasReceivedBids && s.auctions[id].base.bidder.User?
    ensures CloseAuction(cfg, s, time, id).Ok?
    ensures var s' := CloseAuction(cfg, s, time, id).value;
            && s'.auctions == s.auctions - {id} && s'.nextID == s.nextID && Inv(cfg, s')
            && forall x, d :: BalanceOf(s'.bank, x, d) == BalanceOf(s.bank, x, d) + Net(PayoutOps(s.auctions[id]), x, d)
  {
    var a := s.auctions[id];
    forall d ensures BalanceOf(s.bank, AUCTION, d) >= Held(a, d) {
      HeldIsThere(s.auctions, s.bank, id, d);
    }
    PayoutGoesThrough(cfg, s.bank, a);
    var bank' := ApplyAll(cfg.blocked, s.bank, PayoutOps(a)).value;
    forall x, d ensures BalanceOf(bank', x, d) == BalanceOf(s.bank, x, d) + Net(PayoutOps(a), x, d) {
      ApplyAllNet(cfg.blocked, s.bank, PayoutOps(a), x, d);
    }
    DeletingKeepsInv(cfg, s, id, bank');
  }

  lemma DeletingKeepsInv(cfg: Config, s: State, id: nat, bank': Balances)
    requires Inv(cfg, s) && id in s.auctions && s.auctions[id].base.hasReceivedBids
    requires forall d :: BalanceOf(bank', AUCTION, d) ==
               BalanceOf(s.bank, AUCTION, d) + Net(PayoutOps(s.auctions[id]), AUCTION, d)
    ensures Inv(cfg, DeleteAuction(s, id, bank'))
  {
    forall d ensures BalanceOf(bank', AUCTION, d) == BalanceOf(s.bank, AUCTION, d) - Held(s.auctions[id], d) {
      PayoutLeavesModule(cfg, s.auctions[id], d);
    }
    DeleteKeepsIndex(s, id, bank');
    DeleteKeepsSolvent(s.auctions, s.bank, id, bank');
  }

  // ---------------------------------------------------------------- closing all expired auctions

  /** What the payouts of these auctions bring an account. */
  ghost function PaidOut(auctions: map<nat, Auction>, ids: seq<nat>, x: Account, d: string): int
    requires forall id <- ids :: id in auctions
  {
    if ids == [] then 0 else Net(PayoutOps(auctions[ids[0]]), x, d) + PaidOut(auctions, ids[1..], x, d)
  }

  /** ids lists the auctions due at this time, each once, in some order. */
  ghost predicate ListsDue(auctions: map<nat, Auction>, time: int, ids: seq<nat>) {
    && (forall i, j :: 0 <= i < j < |ids| ==> ids[i] != ids[j])
    && forall id :: id in ids <==> id in auctions && auctions[id].base.endTime <= time
  }

  lemma {:induction false} PaidOutAgrees(
    m: map<nat, Auction>, n: map<nat, Auction>, ids: seq<nat>, x: Account, d: string)
    requires forall id <- ids :: id in m && id in n && m[id] == n[id]
    ensures PaidOut(m, ids, x, d) == PaidOut(n, ids, x, d)
    decreases |ids|
  {
    if ids != [] { PaidOutAgrees(m, n, ids[1..], x, d); }
  }

  /** The auctions of ids are stored, due at this time and all different. */
  ghost predicate AllDue(auctions: map<nat, Auction>, time: int, ids: seq<nat>) {
    && (forall i, j :: 0 <= i < j < |ids| ==> ids[i] != ids[j])
    && forall id <- ids :: id in auctions && auctions[id].base.endTime <= time
  }

  ghost function SetOf(ids: seq<nat>): set<nat> {
    set id | id in ids
  }

  lemma RestStaysDue(auctions: map<nat, Auction>, time: int, ids: seq<nat>)
    requires AllDue(auctions, time, ids) && ids != []
    ensures AllDue(auctions - {ids[0]}, time, ids[1..])
    ensures SetOf(ids) == {ids[0]} + SetOf(ids[1..])
  {
    var rest := ids[1..];
    assert ids == [ids[0]] + rest;
    forall id <- rest ensures id != ids[0] {
      var i :| 0 <= i < |rest| && rest[i] == id;
      assert ids[0] != ids[i + 1];
    }
  }

  lemma {:induction false} CloseEachSucceeds(cfg: Config, s: State, time: int, ids: seq<nat>)
    requires Inv(cfg, s) && time < DISTANT_FUTURE && AllDue(s.auctions, time, ids)
    ensures CloseEach(cfg, s, time, ids).Ok?
    ensures var s' := CloseEach(cfg, s, time, ids).value;
            && Inv(cfg, s') && s'.nextID == s.nextID
            && s'.auctions == s.auctions - SetOf(ids)
            && forall x, d :: BalanceOf(s'.bank, x, d) == BalanceOf(s.bank, x, d) + PaidOut(s.auctions, ids, x, d)
    decreases |ids|
  {
    if ids != [] {
      var rest := ids[1..];
      CloseSucceeds(cfg, s, time, ids[0]);
      RestStaysDue(s.auctions, time, ids);
      var s1 := CloseAuction(cfg, s, time, ids[0]).value;
      CloseEachSucceeds(cfg, s1, time, rest);
      var s' := CloseEach(cfg, s1, time, rest).value;
      assert CloseEach(cfg, s, time, ids) == Ok(s');
      forall x, d ensures BalanceOf(s'.bank, x, d) == BalanceOf(s.bank, x, d) + PaidOut(s.auctions, ids, x, d) {
        PaidOutAgrees(s.auctions, s1.auctions, rest, x, d);
      }
    }
  }

  /** CloseExpiredAuctions before the distant future never fails; it closes exactly the auctions whose end time has
      come, each once, to a real bidder, whatever the order, and pays out exactly what they promise. */
  lemma ClosingExpiredIsExact(cfg: Config, s: State, time: int, ids: seq<nat>)
    requires Inv(cfg, s) && time < DISTANT_FUTURE && ListsDue(s.auctions, time, ids)
    ensures CloseEach(cfg, s, time, ids).Ok?
    ensures var s' := CloseEach(cfg, s, time, ids).value;
            && Inv(cfg, s')
            && s'.auctions == (map id | id in s.auctions && s.auctions[id].base.endTime > time :: s.auctions[id])
            && (forall id <- ids :: s.auctions[id].base.bidder.User?)
            && forall x, d :: BalanceOf(s'.bank, x, d) == BalanceOf(s.bank, x, d) + PaidOut(s.auctions, ids, x, d)
  {
    CloseEachSucceeds(cfg, s, time, ids);
    forall id <- ids ensures s.auctions[id].base.bidder.User? {
      CloseSucceeds(cfg, s, time, id);
    }
  }
}
