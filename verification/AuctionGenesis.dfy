/** x/auction/genesis.go and x/auction/types/genesis.go: a state exported and imported again. */
module AuctionGenesis {
  import opened Prelude
  import opened Banking
  import opened CoinSets
  import opened MapSums
  import opened AuctionSpec
  import opened AuctionFlows
  import opened AuctionInvariant
  import opened AuctionChecks
  import Keepers = AuctionKeeper
  import Runs = AuctionRuns

  /** The parameters of a genesis are those of the configuration. */
  datatype Genesis = Genesis(nextID: nat, auctions: seq<Auction>)

  predicate UniqueIDs(xs: seq<Auction>) {
    forall i, j :: 0 <= i < j < |xs| ==> xs[i].base.id != xs[j].base.id
  }

  /** GenesisState.Validate. */
  predicate ValidGenesis(cfg: Config, gs: Genesis) {
    && cfg.params.Valid() && UniqueIDs(gs.auctions)
    && forall a <- gs.auctions :: ValidAuction(a) && a.base.id < gs.nextID
  }

  function SumHeld(xs: seq<Auction>, d: string): nat {
    if xs == [] then 0 else SumHeld(xs[..|xs| - 1], d) + Held(xs[|xs| - 1], d)
  }

  /** The module account holds what the auctions of the genesis say. */
  ghost predicate Funded(xs: seq<Auction>, bank: Balances) {
    forall d :: BalanceOf(bank, AUCTION, d) == SumHeld(xs, d)
  }

  ghost predicate Passes(cfg: Config, gs: Genesis, bank: Balances) {
    ValidGenesis(cfg, gs) && Funded(gs.auctions, bank)
  }

  /** The store after the loop of InitGenesis. */
  function Filled(s: State, xs: seq<Auction>): State {
    if xs == [] then s else SetAuction(Filled(s, xs[..|xs| - 1]), xs[|xs| - 1], s.bank)
  }

  function Loaded(gs: Genesis, bank: Balances): State {
    Filled(State(map[], {}, Some(gs.nextID), bank), gs.auctions)
  }

  // ---------------------------------------------------------------- import

  method Validate(cfg: Config, gs: Genesis) returns (ok: bool)
    ensures ok == ValidGenesis(cfg, gs)
  {
    if !cfg.params.Valid() { return false; }
    var ids: set<nat> := {};
    for i := 0 to |gs.auctions|
      invariant forall id :: id in ids <==> exists k :: 0 <= k < i && gs.auctions[k].base.id == id
      invariant UniqueIDs(gs.auctions[..i])
      invariant forall k :: 0 <= k < i ==> ValidAuction(gs.auctions[k]) && gs.auctions[k].base.id < gs.nextID
    {
      var a := gs.auctions[i];
      assert a in gs.auctions;
      var valid := ValidateAuction(a);
      if !valid || a.base.id in ids || a.base.id >= gs.nextID { return false; }
      ids := ids + {a.base.id};
    }
    assert gs.auctions[..|gs.auctions|] == gs.auctions;
    ok := true;
  }

  /** The loop of InitGenesis: every auction is stored, and its coins are added up. */
  method SetAuctions(k: Keepers.Keeper, xs: seq<Auction>) returns (total: Coins)
    modifies k
    ensures k.Abs() == Filled(old(k.Abs()), xs)
    ensures k.bank == old(k.bank) && forall d :: AmountOf(total, d) == SumHeld(xs, d)
  {
    total := map[];
    for i := 0 to |xs|
      invariant k.bank == old(k.bank) && k.Abs() == Filled(old(k.Abs()), xs[..i])
      invariant forall d :: AmountOf(total, d) == SumHeld(xs[..i], d)
    {
      assert xs[..i + 1][..i] == xs[..i];
      k.SetAuction(xs[i]);
      total := AddHeld(total, xs[i]);
    }
    assert xs[..|xs|] == xs;
  }

  /** InitGenesis into the empty store of a new chain: it succeeds exactly on a valid genesis with a matching module
      account, and leaves the auctions stored and indexed. */
  method InitGenesis(k: Keepers.Keeper, gs: Genesis) returns (ok: bool)
    requires k.auctions == map[] && k.byTime == {}
    modifies k
    ensures ok <==> Passes(k.cfg, gs, old(k.bank))
    ensures ok ==> k.Abs() == Loaded(gs, old(k.bank))
  {
    ok := Validate(k.cfg, gs);
    if !ok { return; }
    k.nextID := Some(gs.nextID);
    var total := SetAuctions(k, gs.auctions);
    var balances := AllBalances(k.bank, AUCTION);
    CoinsAgree(balances, total);
    ok := balances == total;
  }

  // ---------------------------------------------------------------- what is loaded

  /** m holds exactly these auctions, each under its ID. */
  predicate KeyedBy(m: map<nat, Auction>, xs: seq<Auction>) {
    && (forall id <- m :: m[id].base.id == id && m[id] in xs)
    && (forall i :: 0 <= i < |xs| ==> xs[i].base.id in m && m[xs[i].base.id] == xs[i])
  }

  /** The last auction of a list without duplicates is new to the store. */
  lemma LastIsNew(m: map<nat, Auction>, xs: seq<Auction>)
    requires UniqueIDs(xs) && xs != [] && KeyedBy(m, xs[..|xs| - 1])
    ensures xs[|xs| - 1].base.id !in m
  {
    forall id <- m ensures id != xs[|xs| - 1].base.id {
      var i :| 0 <= i < |xs| - 1 && xs[..|xs| - 1][i] == m[id];
      assert xs[i].base.id != xs[|xs| - 1].base.id;
    }
  }

  lemma {:induction false} FilledIsKeyed(s: State, xs: seq<Auction>)
    requires UniqueIDs(xs) && s.auctions == map[]
    ensures KeyedBy(Filled(s, xs).auctions, xs) && Filled(s, xs).nextID == s.nextID && Filled(s, xs).bank == s.bank
    decreases |xs|
  {
    if xs != [] {
      var init, a := xs[..|xs| - 1], xs[|xs| - 1];
      FilledIsKeyed(s, init);
      LastIsNew(Filled(s, init).auctions, xs);
      var m := Filled(s, xs).auctions;
      forall id <- m ensures m[id].base.id == id && m[id] in xs {
        if id != a.base.id { assert m[id] in init; }
      }
      forall i | 0 <= i < |xs| ensures xs[i].base.id in m && m[xs[i].base.id] == xs[i] {
        if i < |xs| - 1 { assert init[i] == xs[i]; }
      }
    }
  }

  lemma {:induction false} FilledIsExact(s: State, xs: seq<Auction>)
    requires s.auctions == map[] && s.byTime == {}
    ensures IndexExact(Filled(s, xs).auctions, Filled(s, xs).byTime)
    decreases |xs|
  {
    if xs != [] {
      FilledIsExact(s, xs[..|xs| - 1]);
      SetKeepsIndex(Filled(s, xs[..|xs| - 1]), xs[|xs| - 1], s.bank);
    }
  }

  lemma {:induction false} FilledHolds(s: State, xs: seq<Auction>, d: string)
    requires UniqueIDs(xs) && s.auctions == map[]
    ensures HeldByAll(Filled(s, xs).auctions, d) == SumHeld(xs, d)
    decreases |xs|
  {
    if xs != [] {
      var init, a := xs[..|xs| - 1], xs[|xs| - 1];
      FilledHolds(s, init, d);
      FilledIsKeyed(s, init);
      LastIsNew(Filled(s, init).auctions, xs);
      TotalUpdate(Filled(s, init).auctions, Holds(d), a.base.id, a);
    }
  }

  lemma LoadedIsExact(gs: Genesis, bank: Balances)
    requires UniqueIDs(gs.auctions)
    ensures var s := Loaded(gs, bank);
            && KeyedBy(s.auctions, gs.auctions)
            && IndexExact(s.auctions, s.byTime) && s.nextID == Some(gs.nextID) && s.bank == bank
            && forall d :: HeldByAll(s.auctions, d) == SumHeld(gs.auctions, d)
  {
    var empty := State(map[], {}, Some(gs.nextID), bank);
    FilledIsKeyed(empty, gs.auctions);
    FilledIsExact(empty, gs.auctions);
    forall d ensures HeldByAll(Filled(empty, gs.auctions).auctions, d) == SumHeld(gs.auctions, d) {
      FilledHolds(empty, gs.auctions, d);
    }
  }

  /** A genesis that passes gives a solvent store with an exact index; the invariant holds exactly when moreover
      each auction is well formed (a bid within the maximum bid, an unbid auction that ends in the distant future, a
      bidder that is a user), which is not checked on import. */
  lemma PassingGenesisEstablishesInv(cfg: Config, gs: Genesis, bank: Balances)
    requires Passes(cfg, gs, bank) && "auction" in cfg.blocked
    ensures var s := Loaded(gs, bank);
            && IndexExact(s.auctions, s.byTime) && Solvent(s.auctions, s.bank)
            && (Inv(cfg, s) <==> forall a <- gs.auctions :: WellFormed(cfg, a))
  {
    LoadedIsExact(gs, bank);
    var s := Loaded(gs, bank);
    if Inv(cfg, s) {
      forall a <- gs.auctions ensures WellFormed(cfg, a) {
        assert s.auctions[a.base.id] == a;
      }
    }
  }

  // ---------------------------------------------------------------- export and round trip

  /** gs is an export of s: every stored auction once, in some order. */
  ghost predicate Exports(s: State, gs: Genesis) {
    && UniqueIDs(gs.auctions) && s.nextID == Some(gs.nextID)
    && forall a :: a in gs.auctions <==> a.base.id in s.auctions && s.auctions[a.base.id] == a
  }

  method ExportGenesis(s: State) returns (r: Result<Genesis>)
    requires forall id <- s.auctions :: s.auctions[id].base.id == id
    ensures r.Ok? <==> s.nextID.Some?
    ensures r.Ok? ==> Exports(s, r.value)
  {
    if s.nextID.None? { return Err(InvalidInitialAuctionID); }
    var xs: seq<Auction> := [];
    var rest := s.auctions.Keys;
    while rest != {}
      invariant rest <= s.auctions.Keys && UniqueIDs(xs)
      invariant forall a :: a in xs <==> a.base.id in s.auctions && a.base.id !in rest && s.auctions[a.base.id] == a
      decreases |rest|
    {
      var id :| id in rest;
      forall a ensures a in xs + [s.auctions[id]] <==> a in xs || a == s.auctions[id] {}
      xs, rest := xs + [s.auctions[id]], rest - {id};
    }
    r := Ok(Genesis(s.nextID.value, xs));
  }

  /** Round trip: the import of an export is accepted exactly when every stored auction passes Validate, and it is
      the same state: store, index, next ID. */
  lemma GenesisRoundTrip(cfg: Config, s: State, gs: Genesis)
    requires Inv(cfg, s) && Exports(s, gs)
    ensures Loaded(gs, s.bank) == s
    ensures Passes(cfg, gs, s.bank) <==> forall id <- s.auctions :: ValidAuction(s.auctions[id])
  {
    var s' := Loaded(gs, s.bank);
    LoadedIsExact(gs, s.bank);
    assert s'.auctions.Keys == s.auctions.Keys by {
      forall id <- s.auctions ensures id in s'.auctions {
        assert s.auctions[id] in gs.auctions;
      }
    }
    assert s'.auctions == s.auctions;
    forall e ensures e in s'.byTime <==> e in s.byTime {
      assert e in s'.byTime <==> EndsAt(s'.auctions, e);
    }
    assert Funded(gs.auctions, s.bank);
    forall id <- s.auctions ensures s.auctions[id] in gs.auctions {}
  }

  // ---------------------------------------------------------------- every run

  /** From a block time after the first second on, auctions of named initiators pass Validate. */
  predicate Sound(w: Runs.World) {
    w.time >= SECOND && forall id <- w.s.auctions :: ValidAuction(w.s.auctions[id])
  }

  predicate Named(steps: seq<Runs.Step>) {
    forall step <- steps :: step.Begin? ==> !Blank(NewAuction(step.msg).base.initiator)
  }

  lemma BidKeepsValid(
    cfg: Config, a: Auction, bidder: Account, denom: string, amount: int, time: int, payouts: seq<int>)
    requires cfg.params.Valid() && WellFormed(cfg, a) && ValidAuction(a) && bidder.User? &&
             SECOND <= time <= a.base.endTime
    requires PlanBid(cfg, a, bidder, denom, amount, time, payouts).Ok?
    ensures ValidAuction(PlanBid(cfg, a, bidder, denom, amount, time, payouts).value.auction)
  {
    BidKeepsWellFormed(cfg, a, bidder, denom, amount, time, payouts);
  }

  lemma StepKeepsSound(cfg: Config, w: Runs.World, step: Runs.Step)
    requires Inv(cfg, w.s) && Sound(w) && Named([step])
    ensures Sound(Runs.Exec(cfg, w, step))
  {
    if Runs.Admissible(w, step) {
      match step
      case NewBlock(time, ids) => ClosingExpiredIsExact(cfg, w.s, time, ids);
      case Bid(id, bidder, denom, amount, payouts) =>
        if PlaceBid(cfg, w.s, w.time, id, bidder, denom, amount, payouts).Ok? {
          BidKeepsWellFormed(cfg, w.s.auctions[id], bidder, denom, amount, w.time, payouts);
          BidKeepsValid(cfg, w.s.auctions[id], bidder, denom, amount, w.time, payouts);
        }
      case Begin(m) =>
        assert step in [step];
        if Start(cfg, w.s, m).Ok? { Runs.StartStores(cfg, w.s, m); }
      case OtherModules(bank) =>
    }
  }

  lemma {:induction false} RunKeepsSound(cfg: Config, w: Runs.World, steps: seq<Runs.Step>)
    requires Inv(cfg, w.s) && Sound(w) && Named(steps)
    ensures Sound(Runs.Run(cfg, w, steps))
    decreases |steps|
  {
    if steps != [] {
      var before := steps[..|steps| - 1];
      RunKeepsSound(cfg, w, before);
      Runs.EveryRunIsSolvent(cfg, w, before);
      StepKeepsSound(cfg, Runs.Run(cfg, w, before), steps[|steps| - 1]);
    }
  }

  /** Whatever run the module has been through, its export is accepted and gives back the same state. */
  lemma ExportOfEveryRunIsImported(cfg: Config, w: Runs.World, steps: seq<Runs.Step>, gs: Genesis)
    requires Inv(cfg, w.s) && Sound(w) && Named(steps) && Exports(Runs.Run(cfg, w, steps).s, gs)
    ensures var s := Runs.Run(cfg, w, steps).s; Passes(cfg, gs, s.bank) && Loaded(gs, s.bank) == s
  {
    RunKeepsSound(cfg, w, steps);
    Runs.EveryRunIsSolvent(cfg, w, steps);
    GenesisRoundTrip(cfg, Runs.Run(cfg, w, steps).s, gs);
  }

  /** Nor does any of the three registered invariants ever report a run as broken. */
  lemma RegisteredInvariantsHoldOnEveryRun(cfg: Config, w: Runs.World, steps: seq<Runs.Step>)
    requires Inv(cfg, w.s) && Sound(w) && Named(steps)
    ensures var s := Runs.Run(cfg, w, steps).s;
            && Solvent(s.auctions, s.bank)
            && (forall id <- s.auctions :: ValidAuction(s.auctions[id]))
            && IndexPasses(s.auctions, s.byTime)
  {
    RunKeepsSound(cfg, w, steps);
    Runs.EveryRunIsSolvent(cfg, w, steps);
    IndexExactWhen(Runs.Run(cfg, w, steps).s.auctions, Runs.Run(cfg, w, steps).s.byTime);
  }
}
