/** x/bep3/genesis.go: a state exported and imported again. */
module Bep3Genesis {
  import opened Prelude
  import opened Banking
  import opened Keys
  import opened Bep3Spec
  import opened Bep3Invariant
  import Runs = Bep3Runs

  datatype SupplyOf = SupplyOf(denom: string, supply: Supply)

  datatype Genesis = Genesis(swaps: seq<Swap>, supplies: seq<SupplyOf>, previousBlockTime: int)

  // ---------------------------------------------------------------- validation

  /** DefaultPreviousBlockTime, in nanoseconds. */
  const DEFAULT_PREVIOUS_TIME: int := NANOS

  /** AtomicSwap.Validate. */
  predicate ValidSwap(sw: Swap) {
    && ValidDenom(sw.coin.denom) && sw.coin.amount > 0
    && |sw.randomNumberHash| == 32
    && sw.expireHeight != 0 && sw.timestamp != 0
    && !sw.sender.Nobody? && !sw.recipient.Nobody?
    && !Blank(sw.senderOtherChain) && !Blank(sw.recipientOtherChain)
    && (sw.status == Completed ==> sw.closedBlock != 0)
  }

  /** ValidateLiveAsset. */
  predicate LiveAsset(assets: seq<Asset>, denom: string) {
    var a := GetAsset(assets, denom); a.Some? && a.value.active
  }

  predicate UniqueSwaps(cfg: Config, swaps: seq<Swap>) {
    forall i, j :: 0 <= i < j < |swaps| ==> SwapID(cfg, swaps[i]) != SwapID(cfg, swaps[j])
  }

  predicate UniqueDenoms(supplies: seq<SupplyOf>) {
    forall i, j :: 0 <= i < j < |supplies| ==> supplies[i].denom != supplies[j].denom
  }

  /** AssetSupply.Validate of each; that its four coins have one denom is a property of the type here. */
  predicate ValidSupplies(supplies: seq<SupplyOf>) {
    forall x <- supplies :: ValidDenom(x.denom)
  }

  /** Every check on the swaps: GenesisState.Validate and the start of the loop in InitGenesis. */
  predicate SwapsPass(cfg: Config, swaps: seq<Swap>) {
    UniqueSwaps(cfg, swaps) && forall sw <- swaps :: ValidSwap(sw) && LiveAsset(cfg.assets, sw.coin.denom)
  }

  // ---------------------------------------------------------------- what is stored

  function Stored(cfg: Config, swaps: seq<Swap>): map<Bytes, Swap> {
    if swaps == [] then map[]
    else var sw := swaps[|swaps| - 1]; Stored(cfg, swaps[..|swaps| - 1])[SwapID(cfg, sw) := sw]
  }

  function OpenEntries(cfg: Config, swaps: seq<Swap>): set<Entry> {
    if swaps == [] then {}
    else
      var sw := swaps[|swaps| - 1];
      OpenEntries(cfg, swaps[..|swaps| - 1]) +
      (if sw.status == Open then {Entry(sw.expireHeight, SwapID(cfg, sw))} else {})
  }

  function ClosedEntries(cfg: Config, swaps: seq<Swap>): set<Entry> {
    if swaps == [] then {}
    else
      var sw := swaps[|swaps| - 1];
      ClosedEntries(cfg, swaps[..|swaps| - 1]) + (if sw.status == Completed then {DeletionEntry(cfg, sw)} else {})
  }

  function StoredSupplies(supplies: seq<SupplyOf>): Supplies {
    if supplies == [] then map[]
    else var x := supplies[|supplies| - 1]; StoredSupplies(supplies[..|supplies| - 1])[x.denom := x.supply]
  }

  /** incomingSupplies and outgoingSupplies, per denom. */
  function Summed(swaps: seq<Swap>, denom: string, dir: Direction): nat {
    if swaps == [] then 0 else Summed(swaps[..|swaps| - 1], denom, dir) + Amount(swaps[|swaps| - 1], denom, dir)
  }

  function Loaded(cfg: Config, gs: Genesis, bank: Balances): State {
    State(Stored(cfg, gs.swaps), OpenEntries(cfg, gs.swaps), ClosedEntries(cfg, gs.swaps), StoredSupplies(gs.supplies),
          Some(gs.previousBlockTime), bank)
  }

  /** The checks of one supply against the swaps and the limit. */
  predicate SupplyPasses(cfg: Config, swaps: seq<Swap>, x: SupplyOf) {
    var a := GetAsset(cfg.assets, x.denom);
    && x.supply.incoming == Summed(swaps, x.denom, Incoming)
    && x.supply.outgoing == Summed(swaps, x.denom, Outgoing)
    && a.Some?
    && x.supply.current <= a.value.supplyLimit.limit
    && x.supply.incoming <= a.value.supplyLimit.limit
    && x.supply.incoming + x.supply.current <= a.value.supplyLimit.limit
    && x.supply.outgoing <= a.value.supplyLimit.limit
  }

  predicate Passes(cfg: Config, gs: Genesis) {
    && ValidAssets(cfg.assets) && SwapsPass(cfg, gs.swaps) && UniqueDenoms(gs.supplies) && ValidSupplies(gs.supplies)
    && forall x <- gs.supplies :: SupplyPasses(cfg, gs.swaps, x)
  }

  /** The module account, if it is set, with its permissions. */
  type ModuleAccount = Option<seq<string>>

  predicate MayMintAndBurn(acc: ModuleAccount) {
    acc.Some? && "minter" in acc.value && "burner" in acc.value
  }

  method CheckPermissions(acc: ModuleAccount) returns (ok: bool)
    ensures ok == MayMintAndBurn(acc)
  {
    if acc.None? { return false; }
    var hasBurnPermissions, hasMintPermissions := false, false;
    for i := 0 to |acc.value|
      invariant hasBurnPermissions == ("burner" in acc.value[..i]) && hasMintPermissions == ("minter" in acc.value[..i])
    {
      if acc.value[i] == "burner" { hasBurnPermissions := true; }
      if acc.value[i] == "minter" { hasMintPermissions := true; }
    }
    assert acc.value[..|acc.value|] == acc.value;
    ok := hasBurnPermissions && hasMintPermissions;
  }

  /** InitGenesis: check the module account, store everything, rebuild both indexes, add up the live swaps, check the
      supplies. */
  method InitGenesis(cfg: Config, gs: Genesis, acc: ModuleAccount, bank: Balances) returns (r: Result<State>)
    ensures r == if MayMintAndBurn(acc) && Passes(cfg, gs) then Ok(Loaded(cfg, gs, bank)) else Err(InvalidGenesis)
  {
    var ok := CheckPermissions(acc);
    if !ok { return Err(InvalidGenesis); }
    ok := Validate(cfg, gs);
    if !ok { return Err(InvalidGenesis); }
    var supplies := LoadSupplies(gs.supplies);
    var swaps, byBlock, longterm;
    ok, swaps, byBlock, longterm := LoadSwaps(cfg, gs.swaps);
    if !ok { return Err(InvalidGenesis); }
    ok := CheckSupplies(cfg, gs.swaps, gs.supplies);
    if !ok { return Err(InvalidGenesis); }
    r := Ok(State(swaps, byBlock, longterm, supplies, Some(gs.previousBlockTime), bank));
  }

  /** GenesisState.Validate: the parameters, each swap, no swap twice, no supply twice. */
  method Validate(cfg: Config, gs: Genesis) returns (ok: bool)
    ensures ok == (&& ValidAssets(cfg.assets) && UniqueSwaps(cfg, gs.swaps)
                   && UniqueDenoms(gs.supplies) && ValidSupplies(gs.supplies)
                   && forall sw <- gs.swaps :: ValidSwap(sw))
  {
    if !ValidAssets(cfg.assets) { return false; }
    var ids: set<Bytes> := {};
    for i := 0 to |gs.swaps|
      invariant forall id :: id in ids <==> exists k :: 0 <= k < i && SwapID(cfg, gs.swaps[k]) == id
      invariant UniqueSwaps(cfg, gs.swaps[..i])
      invariant forall k :: 0 <= k < i ==> ValidSwap(gs.swaps[k])
    {
      var sw := gs.swaps[i];
      if SwapID(cfg, sw) in ids || !ValidSwap(sw) { assert sw in gs.swaps; return false; }
      ids := ids + {SwapID(cfg, sw)};
    }
    assert gs.swaps[..|gs.swaps|] == gs.swaps;
    var denoms: set<string> := {};
    for i := 0 to |gs.supplies|
      invariant forall d :: d in denoms <==> exists k :: 0 <= k < i && gs.supplies[k].denom == d
      invariant UniqueDenoms(gs.supplies[..i]) && ValidSupplies(gs.supplies[..i])
    {
      if !ValidDenom(gs.supplies[i].denom) {
        assert gs.supplies[i] in gs.supplies;
        return false;
      }
      if gs.supplies[i].denom in denoms { return false; }
      denoms := denoms + {gs.supplies[i].denom};
    }
    assert gs.supplies[..|gs.supplies|] == gs.supplies;
    ok := true;
  }

  method LoadSupplies(xs: seq<SupplyOf>) returns (supplies: Supplies)
    ensures supplies == StoredSupplies(xs)
  {
    supplies := map[];
    for i := 0 to |xs|
      invariant supplies == StoredSupplies(xs[..i])
    {
      assert xs[..i + 1][..i] == xs[..i];
      supplies := supplies[xs[i].denom := xs[i].supply];
    }
    assert xs[..|xs|] == xs;
  }

  /** The loop over the swaps: each is checked, stored, and entered into the index its status asks for. */
  method LoadSwaps(
    cfg: Config, xs: seq<Swap>)
    returns (ok: bool, swaps: map<Bytes, Swap>, byBlock: set<Entry>, longterm: set<Entry>)
    ensures ok == forall sw <- xs :: ValidSwap(sw) && LiveAsset(cfg.assets, sw.coin.denom)
    ensures ok ==> swaps == Stored(cfg, xs) && byBlock == OpenEntries(cfg, xs) && longterm == ClosedEntries(cfg, xs)
  {
    ok, swaps, byBlock, longterm := true, map[], {}, {};
    for i := 0 to |xs|
      invariant swaps == Stored(cfg, xs[..i]) && byBlock == OpenEntries(cfg, xs[..i]) &&
                longterm == ClosedEntries(cfg, xs[..i])
      invariant ok && forall k :: 0 <= k < i ==> ValidSwap(xs[k]) && LiveAsset(cfg.assets, xs[k].coin.denom)
    {
      var sw := xs[i];
      if !ValidSwap(sw) || !LiveAsset(cfg.assets, sw.coin.denom) {
        assert sw in xs;
        return false, swaps, byBlock, longterm;
      }
      assert xs[..i + 1][..i] == xs[..i];
      swaps := swaps[SwapID(cfg, sw) := sw];
      match sw.status {
        case Open => byBlock := byBlock + {Entry(sw.expireHeight, SwapID(cfg, sw))};
        case Expired =>
        case Completed => longterm := longterm + {Entry(sw.closedBlock + LONGTERM_BLOCKS, SwapID(cfg, sw))};
      }
    }
    assert xs[..|xs|] == xs;
  }

  method CheckSupplies(cfg: Config, swaps: seq<Swap>, xs: seq<SupplyOf>) returns (ok: bool)
    ensures ok == forall x <- xs :: SupplyPasses(cfg, swaps, x)
  {
    for i := 0 to |xs|
      invariant forall k :: 0 <= k < i ==> SupplyPasses(cfg, swaps, xs[k])
    {
      var good := CheckSupply(cfg, swaps, xs[i]);
      if !good {
        assert xs[i] in xs;
        return false;
      }
    }
    ok := true;
  }

  /** The totals of the live swaps in one denom, compared with the supply record and the limit. */
  method CheckSupply(cfg: Config, swaps: seq<Swap>, x: SupplyOf) returns (ok: bool)
    ensures ok == SupplyPasses(cfg, swaps, x)
  {
    var incoming, outgoing := 0, 0;
    for i := 0 to |swaps|
      invariant incoming == Summed(swaps[..i], x.denom, Incoming) && outgoing == Summed(swaps[..i], x.denom, Outgoing)
    {
      assert swaps[..i + 1][..i] == swaps[..i];
      if swaps[i].coin.denom == x.denom && swaps[i].status != Completed {
        match swaps[i].direction {
          case Incoming => incoming := incoming + swaps[i].coin.amount;
          case Outgoing => outgoing := outgoing + swaps[i].coin.amount;
        }
      }
    }
    assert swaps[..|swaps|] == swaps;
    var a := GetAsset(cfg.assets, x.denom);
    if a.None? { return false; }
    var limit := a.value.supplyLimit.limit;
    ok := x.supply.incoming == incoming && x.supply.outgoing == outgoing && x.supply.current <= limit &&
          x.supply.incoming <= limit && x.supply.incoming + x.supply.current <= limit && x.supply.outgoing <= limit;
  }

  // ---------------------------------------------------------------- stored swaps

  /** m holds exactly these swaps, each under its ID. */
  predicate KeyedBy(cfg: Config, m: map<Bytes, Swap>, swaps: seq<Swap>) {
    && (forall id <- m :: SwapID(cfg, m[id]) == id && m[id] in swaps)
    && (forall i :: 0 <= i < |swaps| ==> SwapID(cfg, swaps[i]) in m && m[SwapID(cfg, swaps[i])] == swaps[i])
  }

  lemma LastSwapIsNew(cfg: Config, m: map<Bytes, Swap>, swaps: seq<Swap>)
    requires UniqueSwaps(cfg, swaps) && swaps != [] && KeyedBy(cfg, m, swaps[..|swaps| - 1])
    ensures SwapID(cfg, swaps[|swaps| - 1]) !in m
  {
    forall id <- m ensures id != SwapID(cfg, swaps[|swaps| - 1]) {
      var i :| 0 <= i < |swaps| - 1 && swaps[..|swaps| - 1][i] == m[id];
      assert SwapID(cfg, swaps[i]) != SwapID(cfg, swaps[|swaps| - 1]);
    }
  }

  lemma {:induction false} StoredIsKeyed(cfg: Config, swaps: seq<Swap>)
    requires UniqueSwaps(cfg, swaps)
    ensures KeyedBy(cfg, Stored(cfg, swaps), swaps)
    decreases |swaps|
  {
    if swaps != [] {
      var init, sw := swaps[..|swaps| - 1], swaps[|swaps| - 1];
      StoredIsKeyed(cfg, init);
      LastSwapIsNew(cfg, Stored(cfg, init), swaps);
      var m := Stored(cfg, swaps);
      forall id <- m ensures SwapID(cfg, m[id]) == id && m[id] in swaps {
        if id != SwapID(cfg, sw) { assert m[id] in init; }
      }
      forall i | 0 <= i < |swaps| ensures SwapID(cfg, swaps[i]) in m && m[SwapID(cfg, swaps[i])] == swaps[i] {
        if i < |swaps| - 1 { assert init[i] == swaps[i]; }
      }
    }
  }

  lemma {:induction false} SummedIsPending(cfg: Config, swaps: seq<Swap>, denom: string, dir: Direction)
    requires UniqueSwaps(cfg, swaps)
    ensures Summed(swaps, denom, dir) == Pending(Stored(cfg, swaps), denom, dir)
    decreases |swaps|
  {
    if swaps != [] {
      var init, sw := swaps[..|swaps| - 1], swaps[|swaps| - 1];
      SummedIsPending(cfg, init, denom, dir);
      StoredIsKeyed(cfg, init);
      LastSwapIsNew(cfg, Stored(cfg, init), swaps);
      PendingUpdate(Stored(cfg, init), SwapID(cfg, sw), sw, denom, dir);
    }
  }

  lemma {:induction false} EntriesOfSwaps(cfg: Config, swaps: seq<Swap>, e: Entry)
    ensures e in OpenEntries(cfg, swaps) <==>
            exists sw <- swaps :: sw.status == Open && e == Entry(sw.expireHeight, SwapID(cfg, sw))
    ensures e in ClosedEntries(cfg, swaps) <==>
            exists sw <- swaps :: sw.status == Completed && e == DeletionEntry(cfg, sw)
    decreases |swaps|
  {
    if swaps != [] {
      EntriesOfSwaps(cfg, swaps[..|swaps| - 1], e);
      assert swaps == swaps[..|swaps| - 1] + [swaps[|swaps| - 1]];
    }
  }

  /** The rebuilt indexes are exact. */
  lemma LoadedIndexesExact(cfg: Config, swaps: seq<Swap>)
    requires UniqueSwaps(cfg, swaps)
    ensures ByBlockExact(Stored(cfg, swaps), OpenEntries(cfg, swaps)) &&
            LongtermExact(Stored(cfg, swaps), ClosedEntries(cfg, swaps))
  {
    StoredIsKeyed(cfg, swaps);
    var m := Stored(cfg, swaps);
    forall e ensures e in OpenEntries(cfg, swaps) <==> OpenAt(m, e) {
      EntriesOfSwaps(cfg, swaps, e);
      if OpenAt(m, e) { assert m[e.id] in swaps; }
    }
    forall e ensures e in ClosedEntries(cfg, swaps) <==> CompletedAt(m, e) {
      EntriesOfSwaps(cfg, swaps, e);
      if CompletedAt(m, e) { assert m[e.id] in swaps; }
    }
  }

  /** m holds exactly these supplies. */
  predicate Records(m: Supplies, supplies: seq<SupplyOf>) {
    && (forall d <- m :: SupplyOf(d, m[d]) in supplies)
    && (forall i :: 0 <= i < |supplies| ==> supplies[i].denom in m && m[supplies[i].denom] == supplies[i].supply)
  }

  lemma {:induction false} StoredSuppliesKeyed(supplies: seq<SupplyOf>)
    requires UniqueDenoms(supplies)
    ensures Records(StoredSupplies(supplies), supplies)
    decreases |supplies|
  {
    if supplies != [] {
      var init, x := supplies[..|supplies| - 1], supplies[|supplies| - 1];
      StoredSuppliesKeyed(init);
      var m := StoredSupplies(supplies);
      forall d <- m ensures SupplyOf(d, m[d]) in supplies {
        if d != x.denom { assert SupplyOf(d, m[d]) in init; }
      }
      forall i | 0 <= i < |supplies| ensures supplies[i].denom in m && m[supplies[i].denom] == supplies[i].supply {
        if i < |supplies| - 1 { assert init[i] == supplies[i] && supplies[i].denom != x.denom; }
      }
    }
  }

  // ---------------------------------------------------------------- what an import establishes

  /** What InitGenesis does not check of a supply: supply already promised away, and the time-based limit. */
  predicate UncheckedSupply(cfg: Config, denom: string, c: Supply) {
    && c.outgoing <= c.current
    && (TimeLimited(cfg, denom) ==>
          c.timeLimited + c.incoming <= GetAsset(cfg.assets, denom).value.supplyLimit.timeBasedLimit)
  }

  /** What InitGenesis does not check of a swap: a supply record for it, and parties that are users. */
  predicate UncheckedSwap(supplies: Supplies, sw: Swap) {
    sw.coin.denom in supplies && !sw.sender.Module? && !sw.recipient.Module?
  }

  /** What InitGenesis does not check, the escrow included. */
  ghost predicate Unchecked(cfg: Config, s: State) {
    && (forall id <- s.swaps :: UncheckedSwap(s.supplies, s.swaps[id]))
    && (forall d <- s.supplies :: UncheckedSupply(cfg, d, s.supplies[d]))
    && EscrowOk(s)
  }

  /** A genesis that passes starts the module in a state with the invariant exactly when the unchecked part is right
      too. */
  lemma PassingGenesisEstablishesInv(cfg: Config, gs: Genesis, bank: Balances)
    requires Passes(cfg, gs)
    ensures Inv(cfg, Loaded(cfg, gs, bank)) <==> Unchecked(cfg, Loaded(cfg, gs, bank))
  {
    LoadedIndexesExact(cfg, gs.swaps);
    SuppliesOkIffUnchecked(cfg, gs, Loaded(cfg, gs, bank));
    SwapsOkIffUnchecked(cfg, gs, Loaded(cfg, gs, bank));
  }

  lemma SuppliesOkIffUnchecked(cfg: Config, gs: Genesis, s: State)
    requires Passes(cfg, gs) && s.swaps == Stored(cfg, gs.swaps) && s.supplies == StoredSupplies(gs.supplies)
    ensures SuppliesOk(cfg, s) <==> forall d <- s.supplies :: UncheckedSupply(cfg, d, s.supplies[d])
  {
    StoredSuppliesKeyed(gs.supplies);
    forall d <- s.supplies
      ensures SupplyOk(cfg, s.swaps, d, s.supplies[d]) <==> UncheckedSupply(cfg, d, s.supplies[d])
    {
      PassingSupply(cfg, gs, SupplyOf(d, s.supplies[d]));
    }
  }

  lemma PassingSupply(cfg: Config, gs: Genesis, x: SupplyOf)
    requires Passes(cfg, gs) && x in gs.supplies
    ensures SupplyOk(cfg, Stored(cfg, gs.swaps), x.denom, x.supply) <==> UncheckedSupply(cfg, x.denom, x.supply)
  {
    assert SupplyPasses(cfg, gs.swaps, x);
    SummedIsPending(cfg, gs.swaps, x.denom, Incoming);
    SummedIsPending(cfg, gs.swaps, x.denom, Outgoing);
  }

  lemma SwapsOkIffUnchecked(cfg: Config, gs: Genesis, s: State)
    requires Passes(cfg, gs) && s.swaps == Stored(cfg, gs.swaps)
    ensures SwapsOk(cfg, s) <==> forall id <- s.swaps :: UncheckedSwap(s.supplies, s.swaps[id])
  {
    StoredIsKeyed(cfg, gs.swaps);
    forall id <- s.swaps ensures ValidSwap(s.swaps[id]) && SwapID(cfg, s.swaps[id]) == id {
      assert s.swaps[id] in gs.swaps;
    }
  }

  // ---------------------------------------------------------------- round trip

  /** gs is an export of s: the stored swaps and supplies, each once, in some order. */
  ghost predicate Exports(cfg: Config, s: State, gs: Genesis) {
    && UniqueSwaps(cfg, gs.swaps) && UniqueDenoms(gs.supplies)
    && (forall sw :: sw in gs.swaps <==> SwapID(cfg, sw) in s.swaps && s.swaps[SwapID(cfg, sw)] == sw)
    && (forall x :: x in gs.supplies <==> x.denom in s.supplies && s.supplies[x.denom] == x.supply)
    && gs.previousBlockTime == if s.previousBlockTime.Some? then s.previousBlockTime.value else DEFAULT_PREVIOUS_TIME
  }

  /** ExportGenesis: GetAllAtomicSwaps, GetAllAssetSupplies and the previous block time. */
  method ExportGenesis(cfg: Config, s: State) returns (gs: Genesis)
    requires forall id <- s.swaps :: SwapID(cfg, s.swaps[id]) == id
    ensures Exports(cfg, s, gs)
  {
    var swaps := GetAllAtomicSwaps(cfg, s.swaps);
    var supplies := GetAllAssetSupplies(s.supplies);
    var time := if s.previousBlockTime.Some? then s.previousBlockTime.value else DEFAULT_PREVIOUS_TIME;
    gs := Genesis(swaps, supplies, time);
  }

  method GetAllAtomicSwaps(cfg: Config, m: map<Bytes, Swap>) returns (swaps: seq<Swap>)
    requires forall id <- m :: SwapID(cfg, m[id]) == id
    ensures UniqueSwaps(cfg, swaps)
    ensures forall sw :: sw in swaps <==> SwapID(cfg, sw) in m && m[SwapID(cfg, sw)] == sw
  {
    swaps := [];
    var rest := m.Keys;
    while rest != {}
      invariant rest <= m.Keys && UniqueSwaps(cfg, swaps)
      invariant forall sw :: sw in swaps <==>
                  SwapID(cfg, sw) in m && SwapID(cfg, sw) !in rest && m[SwapID(cfg, sw)] == sw
      decreases |rest|
    {
      var id :| id in rest;
      forall sw ensures sw in swaps + [m[id]] <==> sw in swaps || sw == m[id] {}
      swaps, rest := swaps + [m[id]], rest - {id};
    }
  }

  method GetAllAssetSupplies(m: Supplies) returns (supplies: seq<SupplyOf>)
    ensures UniqueDenoms(supplies)
    ensures forall x :: x in supplies <==> x.denom in m && m[x.denom] == x.supply
  {
    supplies := [];
    var rest := m.Keys;
    while rest != {}
      invariant rest <= m.Keys && UniqueDenoms(supplies)
      invariant forall x :: x in supplies <==> x.denom in m && x.denom !in rest && m[x.denom] == x.supply
      decreases |rest|
    {
      var d :| d in rest;
      forall x ensures x in supplies + [SupplyOf(d, m[d])] <==> x in supplies || x == SupplyOf(d, m[d]) {}
      supplies, rest := supplies + [SupplyOf(d, m[d])], rest - {d};
    }
  }

  lemma ExportStoresSwaps(cfg: Config, s: State, gs: Genesis)
    requires SwapsOk(cfg, s) && Exports(cfg, s, gs)
    ensures Stored(cfg, gs.swaps) == s.swaps
  {
    StoredIsKeyed(cfg, gs.swaps);
    var m := Stored(cfg, gs.swaps);
    forall id <- s.swaps ensures id in m && m[id] == s.swaps[id] {
      assert SwapOk(cfg, s.supplies, id, s.swaps[id]);
      assert s.swaps[id] in gs.swaps;
    }
    forall id <- m ensures id in s.swaps {
      assert m[id] in gs.swaps;
    }
  }

  lemma ExportStoresSupplies(cfg: Config, s: State, gs: Genesis)
    requires Exports(cfg, s, gs)
    ensures StoredSupplies(gs.supplies) == s.supplies
  {
    StoredSuppliesKeyed(gs.supplies);
    var m := StoredSupplies(gs.supplies);
    forall d <- s.supplies ensures d in m && m[d] == s.supplies[d] {
      assert SupplyOf(d, s.supplies[d]) in gs.supplies;
    }
    forall d <- m ensures d in s.supplies {
      assert SupplyOf(d, m[d]) in gs.supplies;
    }
  }

  lemma ExportStoresSame(cfg: Config, s: State, gs: Genesis)
    requires SwapsOk(cfg, s) && Exports(cfg, s, gs)
    ensures Stored(cfg, gs.swaps) == s.swaps && StoredSupplies(gs.supplies) == s.supplies
  {
    ExportStoresSwaps(cfg, s, gs);
    ExportStoresSupplies(cfg, s, gs);
  }

  lemma ExportedSuppliesPass(cfg: Config, s: State, gs: Genesis)
    requires Inv(cfg, s) && Exports(cfg, s, gs)
    ensures forall x <- gs.supplies :: SupplyPasses(cfg, gs.swaps, x)
    ensures ValidSupplies(gs.supplies)
  {
    ExportStoresSame(cfg, s, gs);
    forall x <- gs.supplies ensures SupplyPasses(cfg, gs.swaps, x) && ValidDenom(x.denom) {
      assert SupplyOk(cfg, s.swaps, x.denom, s.supplies[x.denom]);
      SummedIsPending(cfg, gs.swaps, x.denom, Incoming);
      SummedIsPending(cfg, gs.swaps, x.denom, Outgoing);
    }
  }

  lemma ExportRebuilds(cfg: Config, s: State, gs: Genesis)
    requires Inv(cfg, s) && Exports(cfg, s, gs)
    ensures Loaded(cfg, gs, s.bank) == s.(previousBlockTime := Some(gs.previousBlockTime))
  {
    ExportStoresSame(cfg, s, gs);
    LoadedIndexesExact(cfg, gs.swaps);
    ExactIndexesAgree(s.swaps, OpenEntries(cfg, gs.swaps), s.byBlock, ClosedEntries(cfg, gs.swaps), s.longterm);
  }

  lemma ExportedSwapsAreStored(cfg: Config, s: State, gs: Genesis)
    requires SwapsOk(cfg, s) && Exports(cfg, s, gs)
    ensures (forall sw <- gs.swaps :: ValidSwap(sw) && LiveAsset(cfg.assets, sw.coin.denom)) <==>
            forall id <- s.swaps :: ValidSwap(s.swaps[id]) && LiveAsset(cfg.assets, s.swaps[id].coin.denom)
  {
    forall id <- s.swaps ensures s.swaps[id] in gs.swaps {
      assert SwapOk(cfg, s.supplies, id, s.swaps[id]);
    }
    forall sw <- gs.swaps ensures SwapID(cfg, sw) in s.swaps && s.swaps[SwapID(cfg, sw)] == sw {}
  }

  /** Round trip: what the module exports, it imports again as the same state with the same indexes and counters,
      exactly when every stored swap passes AtomicSwap.Validate and its asset is active; otherwise the import is
      refused. Only a block time that was never recorded comes back as the default one. */
  lemma GenesisRoundTrip(cfg: Config, s: State, gs: Genesis)
    requires Inv(cfg, s) && Exports(cfg, s, gs)
    ensures Passes(cfg, gs) <==>
            forall id <- s.swaps :: ValidSwap(s.swaps[id]) && LiveAsset(cfg.assets, s.swaps[id].coin.denom)
    ensures Loaded(cfg, gs, s.bank) == s.(previousBlockTime := Some(gs.previousBlockTime))
    ensures s.previousBlockTime.Some? ==> Loaded(cfg, gs, s.bank) == s
  {
    ExportRebuilds(cfg, s, gs);
    ExportedSuppliesPass(cfg, s, gs);
    ExportedSwapsAreStored(cfg, s, gs);
  }

  lemma ExactIndexesAgree(swaps: map<Bytes, Swap>, b1: set<Entry>, b2: set<Entry>, l1: set<Entry>, l2: set<Entry>)
    requires ByBlockExact(swaps, b1) && ByBlockExact(swaps, b2) && LongtermExact(swaps, l1) && LongtermExact(swaps, l2)
    ensures b1 == b2 && l1 == l2
  {
    forall e ensures (e in b1 <==> e in b2) && (e in l1 <==> e in l2) {
      assert e in b1 <==> OpenAt(swaps, e);
      assert e in l1 <==> CompletedAt(swaps, e);
    }
  }

  lemma BlankSenderIsRefused(cfg: Config, s: State, gs: Genesis, id: Bytes)
    requires Inv(cfg, s) && Exports(cfg, s, gs) && id in s.swaps && Blank(s.swaps[id].senderOtherChain)
    ensures !Passes(cfg, gs)
  {
    GenesisRoundTrip(cfg, s, gs);
  }

  /** The condition is not idle: a message may leave the sender's address on the other chain empty (ValidateBasic of
      MsgCreateAtomicSwap bounds only its length), and the swap it makes cannot be imported. */
  lemma EmptyOtherChainSenderIsRefused(cfg: Config, s: State, ctx: Context, m: CreateMsg, gs: Genesis)
    requires Inv(cfg, s) && !m.sender.Module? && Create(cfg, s, ctx, m).Ok? && Basic(m) && m.senderOtherChain == ""
    requires Exports(cfg, Create(cfg, s, ctx, m).value, gs)
    ensures !Passes(cfg, gs)
  {
    CreateKeepsInv(cfg, s, ctx, m);
    var id := cfg.hashID(m.randomNumberHash, m.sender, m.senderOtherChain);
    assert id in Create(cfg, s, ctx, m).value.swaps;
    BlankSenderIsRefused(cfg, Create(cfg, s, ctx, m).value, gs, id);
  }

  // ---------------------------------------------------------------- round trip of every run

  /** ValidateBasic of MsgCreateAtomicSwap. */
  predicate Basic(m: CreateMsg) {
    && !m.sender.Nobody? && !m.recipient.Nobody?
    && !Blank(m.recipientOtherChain)
    && |m.randomNumberHash| == 32
    && m.timestamp > 0 && m.heightSpan > 0
  }

  /** The messages of a run pass ValidateBasic and name a sender on the other chain. */
  predicate Named(steps: seq<Runs.Step>) {
    forall step <- steps :: step.CreateSwap? ==> Basic(step.msg) && !Blank(step.msg.senderOtherChain)
  }

  /** The expiry height does not wrap around to exactly zero, which AtomicSwap.Validate refuses. */
  predicate HasExpiry(height: nat, m: CreateMsg) {
    (height + m.heightSpan) % U64 != 0
  }

  /** Every create message of the run that the handler accepts has an expiry height. */
  ghost predicate HaveExpiry(cfg: Config, w: Runs.World, steps: seq<Runs.Step>)
    decreases |steps|
  {
    steps == [] ||
    (var before, last := steps[..|steps| - 1], steps[|steps| - 1];
     var w' := Runs.Run(cfg, w, before);
     && HaveExpiry(cfg, w, before)
     && (last.CreateSwap? && Create(cfg, w'.s, w'.ctx, last.msg).Ok? ==> HasExpiry(w'.ctx.height, last.msg)))
  }

  predicate AllValid(swaps: map<Bytes, Swap>) {
    forall id <- swaps :: ValidSwap(swaps[id])
  }

  predicate Importable(w: Runs.World) {
    AllValid(w.s.swaps) && (w.begun ==> w.ctx.height > 0)
  }

  lemma CreateKeepsValid(cfg: Config, s: State, ctx: Context, m: CreateMsg)
    requires ValidAssets(cfg.assets) && AllValid(s.swaps) && Create(cfg, s, ctx, m).Ok?
    requires Basic(m) && !Blank(m.senderOtherChain) && HasExpiry(ctx.height, m)
    ensures AllValid(Create(cfg, s, ctx, m).value.swaps)
  {
    var (c, d) := CheckCreate(cfg, s, ctx, m).value;
    CoinIsPositive(cfg, s, ctx, m);
    assert ValidSwap(NewSwap(ctx, m, c, d));
  }

  lemma SettlingKeepsValid(cfg: Config, s: State, ctx: Context, id: Bytes, secret: Bytes)
    requires AllValid(s.swaps) && ctx.height > 0
    ensures Claim(cfg, s, ctx, id, secret).Ok? ==> AllValid(Claim(cfg, s, ctx, id, secret).value.swaps)
    ensures Refund(cfg, s, ctx, id).Ok? ==> AllValid(Refund(cfg, s, ctx, id).value.swaps)
  {
    if id in s.swaps { assert ValidSwap(Complete(s.swaps[id], ctx)); }
  }

  lemma BlockKeepsValid(cfg: Config, s: State, ctx: Context)
    requires AllValid(s.swaps)
    ensures AllValid(BeginBlock(cfg, s, ctx).swaps)
  {
    var s1 := UpdateLimits(cfg, s, ctx);
    assert AllValid(ExpireDue(s1, ctx.height).swaps);
  }

  lemma StepKeepsImportable(cfg: Config, w: Runs.World, step: Runs.Step)
    requires Inv(cfg, w.s) && Importable(w) && Named([step])
    requires step.CreateSwap? && Create(cfg, w.s, w.ctx, step.msg).Ok? ==> HasExpiry(w.ctx.height, step.msg)
    ensures Importable(Runs.Exec(cfg, w, step))
  {
    if Runs.Admissible(w, step) {
      match step
      case NewBlock(ctx) => BlockKeepsValid(cfg, w.s, ctx);
      case CreateSwap(m) =>
        assert step in [step];
        if Create(cfg, w.s, w.ctx, m).Ok? { CreateKeepsValid(cfg, w.s, w.ctx, m); }
      case ClaimSwap(id, secret) => SettlingKeepsValid(cfg, w.s, w.ctx, id, secret);
      case RefundSwap(id) => SettlingKeepsValid(cfg, w.s, w.ctx, id, []);
      case OtherModules(bank) =>
    }
  }

  lemma {:induction false} RunKeepsImportable(cfg: Config, w: Runs.World, steps: seq<Runs.Step>)
    requires Inv(cfg, w.s) && Importable(w) && Named(steps) && HaveExpiry(cfg, w, steps)
    ensures Importable(Runs.Run(cfg, w, steps))
    decreases |steps|
  {
    if steps != [] {
      var before := steps[..|steps| - 1];
      RunKeepsImportable(cfg, w, before);
      Runs.RunKeepsInv(cfg, w, before);
      StepKeepsImportable(cfg, Runs.Run(cfg, w, before), steps[|steps| - 1]);
    }
  }

  /** Whatever run the module has been through, with every asset active and every sender named on the other chain,
      its export is accepted and gives back the same state. */
  lemma ExportOfEveryRunIsImported(cfg: Config, w: Runs.World, steps: seq<Runs.Step>, gs: Genesis)
    requires Runs.Start(cfg, w) && Importable(w) && Named(steps) && HaveExpiry(cfg, w, steps)
    requires forall a <- cfg.assets :: a.active
    requires Exports(cfg, Runs.Run(cfg, w, steps).s, gs)
    ensures var s := Runs.Run(cfg, w, steps).s;
            Passes(cfg, gs) && Loaded(cfg, gs, s.bank) == s.(previousBlockTime := Some(gs.previousBlockTime))
  {
    var s := Runs.Run(cfg, w, steps).s;
    RunKeepsImportable(cfg, w, steps);
    Runs.RunKeepsInv(cfg, w, steps);
    forall id <- s.swaps ensures LiveAsset(cfg.assets, s.swaps[id].coin.denom) {
      assert SwapOk(cfg, s.supplies, id, s.swaps[id]);
      assert SupplyOk(cfg, s.swaps, s.swaps[id].coin.denom, s.supplies[s.swaps[id].coin.denom]);
    }
    GenesisRoundTrip(cfg, s, gs);
  }
}
