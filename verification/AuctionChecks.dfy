/** x/auction: validation of stored auctions and the three registered invariants of x/auction/keeper/invariants.go. */
module AuctionChecks {
  import opened Prelude
  import opened Banking
  import opened CoinSets
  import opened MapSums
  import opened Split
  import opened AuctionSpec
  import opened AuctionInvariant

  const SECOND: int := 1_000_000_000

  // ---------------------------------------------------------------- one auction

  /** ValidateAuction and the Validate methods of the three kinds; a coin is valid by its type here. */
  predicate ValidAuction(a: Auction) {
    var b := a.base;
    && !Blank(b.initiator)
    && b.endTime / SECOND > 0 && b.maxEndTime / SECOND > 0 && b.endTime <= b.maxEndTime
    && (a.Collateral? ==> ValidLotReturns(a.lotReturns))
  }

  /** WeightedAddresses.Validate. */
  method ValidateWeightedAddresses(w: WeightedAddresses) returns (ok: bool)
    ensures ok == ValidLotReturns(w)
  {
    if |w.weights| < 1 || |w.addresses| != |w.weights| { return false; }
    var total := 0;
    for i := 0 to |w.addresses|
      invariant total == Sum(w.weights[..i])
      invariant Nobody !in w.addresses[..i] && forall k :: 0 <= k < i ==> w.weights[k] >= 0
    {
      if w.addresses[i] == Nobody { return false; }
      if w.weights[i] < 0 { assert w.weights[i] in w.weights; return false; }
      assert w.weights[..i + 1][..i] == w.weights[..i];
      total := total + w.weights[i];
    }
    assert w.weights[..|w.weights|] == w.weights && w.addresses[..|w.addresses|] == w.addresses;
    ok := total > 0;
  }

  method ValidateAuction(a: Auction) returns (ok: bool)
    ensures ok == ValidAuction(a)
  {
    if Blank(a.base.initiator) { return false; }
    if a.base.endTime / SECOND <= 0 || a.base.maxEndTime / SECOND <= 0 { return false; }
    if a.base.endTime > a.base.maxEndTime { return false; }
    if !a.Collateral? { return true; }
    ok := ValidateWeightedAddresses(a.lotReturns);
  }

  // ---------------------------------------------------------------- coins

  /** Coins.Add of GetModuleAccountCoins. */
  function AddHeld(cs: Coins, a: Auction): (r: Coins)
    ensures forall d :: AmountOf(r, d) == AmountOf(cs, d) + Held(a, d)
  {
    match a
    case Surplus(b) => PlusCoin(cs, b.lot.denom, b.lot.amount)
    case Debt(_, debt) => PlusCoin(cs, debt.denom, debt.amount)
    case Collateral(b, debt, _, _) => PlusCoin(PlusCoin(cs, b.lot.denom, b.lot.amount), debt.denom, debt.amount)
  }

  /** GetAllBalances. */
  function AllBalances(bank: Balances, x: Account): (r: Coins)
    ensures forall d :: AmountOf(r, d) == BalanceOf(bank, x, d)
  {
    var denoms := set k | k in bank && k.0 == x && bank[k] > 0 :: k.1;
    map d | d in denoms :: bank[(x, d)]
  }

  /** Comparing coins is comparing amounts. */
  lemma CoinsAgree(xs: Coins, ys: Coins)
    ensures xs == ys <==> forall d :: AmountOf(xs, d) == AmountOf(ys, d)
  {
    if forall d :: AmountOf(xs, d) == AmountOf(ys, d) { SameCoins(xs, ys); }
  }

  // ---------------------------------------------------------------- the registered invariants

  /** ModuleAccountInvariants finds exactly the insolvent states. */
  method ModuleAccountInvariant(auctions: map<nat, Auction>, bank: Balances) returns (broken: bool)
    ensures broken <==> !Solvent(auctions, bank)
  {
    var total: Coins := map[];
    var seen: map<nat, Auction> := map[];
    var rest := auctions.Keys;
    while rest != {}
      invariant rest <= auctions.Keys && seen == map id | id in auctions && id !in rest :: auctions[id]
      invariant forall d :: AmountOf(total, d) == HeldByAll(seen, d)
      decreases |rest|
    {
      var id :| id in rest;
      forall d ensures HeldByAll(seen[id := auctions[id]], d) == HeldByAll(seen, d) + Held(auctions[id], d) {
        TotalUpdate(seen, Holds(d), id, auctions[id]);
      }
      total, seen, rest := AddHeld(total, auctions[id]), seen[id := auctions[id]], rest - {id};
    }
    assert seen == auctions;
    var balances := AllBalances(bank, AUCTION);
    CoinsAgree(balances, total);
    broken := balances != total;
  }

  /** ValidAuctionInvariant finds exactly the stores with an invalid auction. */
  method ValidAuctionInvariant(auctions: map<nat, Auction>) returns (broken: bool)
    ensures broken <==> exists id <- auctions :: !ValidAuction(auctions[id])
  {
    var rest := auctions.Keys;
    while rest != {}
      invariant rest <= auctions.Keys && forall id <- auctions :: id !in rest ==> ValidAuction(auctions[id])
      decreases |rest|
    {
      var id :| id in rest;
      var ok := ValidateAuction(auctions[id]);
      if !ok { return true; }
      rest := rest - {id};
    }
    broken := false;
  }

  /** What ValidIndexInvariant compares: every indexed ID is stored, and store and index have the same size. */
  predicate IndexPasses(auctions: map<nat, Auction>, byTime: set<Entry>) {
    (forall e <- byTime :: e.id in auctions) && |byTime| == |auctions|
  }

  method ValidIndexInvariant(auctions: map<nat, Auction>, byTime: set<Entry>) returns (broken: bool)
    ensures broken <==> !IndexPasses(auctions, byTime)
  {
    var indexLength := 0;
    var rest := byTime;
    while rest != {}
      invariant rest <= byTime && indexLength + |rest| == |byTime|
      invariant forall e <- byTime :: e !in rest ==> e.id in auctions
      decreases |rest|
    {
      var e :| e in rest;
      indexLength, rest := indexLength + 1, rest - {e};
      if e.id !in auctions { return true; }
    }
    var storeLength := 0;
    var keys := auctions.Keys;
    while keys != {}
      invariant storeLength + |keys| == |auctions|
      decreases |keys|
    {
      var id :| id in keys;
      storeLength, keys := storeLength + 1, keys - {id};
    }
    broken := storeLength != indexLength;
  }

  // ---------------------------------------------------------------- the index check against the exact index

  ghost function IDs(es: set<Entry>): set<nat> {
    set e | e in es :: e.id
  }

  /** Entries that all stand at their auction's end time have different IDs. */
  lemma {:induction false} DistinctIDs(auctions: map<nat, Auction>, es: set<Entry>)
    requires forall e <- es :: EndsAt(auctions, e)
    ensures |IDs(es)| == |es|
    decreases |es|
  {
    if es == {} {
      assert IDs(es) == {};
    } else {
      var e :| e in es;
      DistinctIDs(auctions, es - {e});
      assert e.id !in IDs(es - {e}) by {
        forall f <- es - {e} ensures f.id != e.id {
          assert EndsAt(auctions, e) && EndsAt(auctions, f);
        }
      }
      assert IDs(es) == IDs(es - {e}) + {e.id};
    }
  }

  lemma SubsetOfSameSize(xs: set<nat>, ys: set<nat>)
    requires xs <= ys && |xs| == |ys|
    ensures xs == ys
  {
    assert ys == xs + (ys - xs);
    assert |ys - xs| == 0;
  }

  /** The exact index passes the check; and an index that passes is exact as soon as every entry stands at the end
      time of the auction it names, which the check does not look at. */
  lemma IndexExactWhen(auctions: map<nat, Auction>, byTime: set<Entry>)
    ensures IndexExact(auctions, byTime) <==>
            IndexPasses(auctions, byTime) && forall e <- byTime :: EndsAt(auctions, e)
  {
    if forall e <- byTime :: EndsAt(auctions, e) {
      DistinctIDs(auctions, byTime);
      assert IDs(byTime) <= auctions.Keys;
      if IndexPasses(auctions, byTime) {
        SubsetOfSameSize(IDs(byTime), auctions.Keys);
        forall e | EndsAt(auctions, e) ensures e in byTime {
          assert e.id in IDs(byTime);
        }
      }
      if IndexExact(auctions, byTime) {
        forall id <- auctions ensures id in IDs(byTime) {
          assert EndsAt(auctions, Entry(auctions[id].base.endTime, id));
        }
        assert IDs(byTime) == auctions.Keys;
      }
    }
  }

  /** The check alone is not enough: one ID at two times makes up for an auction that is not indexed at all. */
  lemma IndexCheckIsNotEnough(a: Auction, b: Auction)
    ensures var auctions, byTime := map[0 := a, 1 := b], {Entry(a.base.endTime, 0), Entry(a.base.endTime + 1, 0)};
            IndexPasses(auctions, byTime) && !IndexExact(auctions, byTime)
  {
    var auctions, byTime := map[0 := a, 1 := b], {Entry(a.base.endTime, 0), Entry(a.base.endTime + 1, 0)};
    assert auctions.Keys == {0, 1};
    assert |auctions.Keys| == 2;
    assert EndsAt(auctions, Entry(b.base.endTime, 1)) && Entry(b.base.endTime, 1) !in byTime;
  }
}
