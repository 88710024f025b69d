/** x/bep3: atomic swaps. Data model and the handlers as functions on the module's state.
    The keeper in Bep3Keeper.dfy carries out the same handlers step by step. */
module Bep3Spec {
  import opened Prelude
  import opened Banking
  import opened Keys

  /** x/bep3/types/keys.go: how many blocks a completed swap is kept. */
  const LONGTERM_BLOCKS: int := 86400
  const NANOS: int := 1_000_000_000
  const ESCROW: Account := Module("bep3")

  datatype SupplyLimit = SupplyLimit(limit: int, timeLimited: bool, timePeriod: int, timeBasedLimit: int)

  datatype Asset = Asset(
    denom: string, coinID: int, supplyLimit: SupplyLimit, active: bool, deputy: Account, fixedFee: int,
    minSwapAmount: int, maxSwapAmount: int, minBlockLock: nat, maxBlockLock: nat)

  datatype Direction = Incoming | Outgoing
  datatype Status = Open | Completed | Expired

  datatype Swap = Swap(
    coin: Coin, randomNumberHash: Bytes, expireHeight: nat, timestamp: int, sender: Account,
    recipient: Account, senderOtherChain: string, recipientOtherChain: string, closedBlock: nat,
    status: Status, crossChain: bool, direction: Direction)
  {
    predicate Live() {
      status != Completed
    }
  }

  datatype Supply = Supply(incoming: nat, outgoing: nat, current: nat, timeLimited: nat, elapsed: int)

  /** An entry of one of the two height indexes. */
  datatype Entry = Entry(height: nat, id: Bytes)

  /** What does not change during a run: the parameters, the accounts the bank refuses to pay,
      and the two hash functions, about which nothing is assumed. */
  datatype Config = Config(
    assets: seq<Asset>, blocked: set<string>,
    hashID: (Bytes, Account, string) -> Bytes, hashSecret: (Bytes, int) -> Bytes)

  datatype State = State(
    swaps: map<Bytes, Swap>, byBlock: set<Entry>, longterm: set<Entry>,
    supplies: map<string, Supply>, previousBlockTime: Option<int>, bank: Balances)

  /** Block height and block time (nanoseconds). */
  datatype Context = Context(height: nat, time: int)

  datatype CreateMsg = CreateMsg(
    randomNumberHash: Bytes, timestamp: int, heightSpan: nat, sender: Account, recipient: Account,
    senderOtherChain: string, recipientOtherChain: string, amount: seq<Coin>, crossChain: bool)

  function SwapID(cfg: Config, sw: Swap): Bytes {
    cfg.hashID(sw.randomNumberHash, sw.sender, sw.senderOtherChain)
  }

  // ---------------------------------------------------------------- parameters

  function GetAsset(assets: seq<Asset>, denom: string): (r: Option<Asset>)
    ensures r.Some? ==> r.value in assets && r.value.denom == denom
    ensures r.None? <==> forall a <- assets :: a.denom != denom
  {
    if assets == [] then None
    else if assets[0].denom == denom then Some(assets[0])
    else GetAsset(assets[1..], denom)
  }

  /** x/bep3/types/params.go validateAssetParams. */
  predicate ValidAssets(assets: seq<Asset>) {
    && (forall i, j :: 0 <= i < j < |assets| ==> assets[i].denom != assets[j].denom)
    && forall a <- assets ::
         && ValidDenom(a.denom) && a.coinID >= 0
         && 0 <= a.supplyLimit.timeBasedLimit <= a.supplyLimit.limit
         && !a.deputy.Nobody? && a.fixedFee >= 0 && a.minBlockLock <= a.maxBlockLock
         && 0 < a.minSwapAmount <= a.maxSwapAmount
  }

  lemma {:induction false} AssetIsItsOwnLookup(assets: seq<Asset>, i: nat)
    requires ValidAssets(assets) && i < |assets|
    ensures GetAsset(assets, assets[i].denom) == Some(assets[i])
  {
    if i > 0 {
      assert assets[0].denom != assets[i].denom;
      AssetIsItsOwnLookup(assets[1..], i - 1);
    }
  }

  // ---------------------------------------------------------------- supply counters

  type Supplies = map<string, Supply>

  function IncrementCurrent(cfg: Config, m: Supplies, c: Coin): Result<Supplies> {
    if c.denom !in m then Err(AssetNotSupported)
    else match GetAsset(cfg.assets, c.denom)
      case None => Err(AssetNotSupported)
      case Some(asset) =>
        var s, l := m[c.denom], asset.supplyLimit;
        if l.limit < s.current + c.amount then Err(ExceedsSupplyLimit)
        else if l.timeLimited && l.timeBasedLimit < s.timeLimited + c.amount then Err(ExceedsTimeBasedSupplyLimit)
        else Ok(m[c.denom := s.(current := s.current + c.amount,
                                timeLimited := if l.timeLimited then s.timeLimited + c.amount else s.timeLimited)])
  }

  function DecrementCurrent(m: Supplies, c: Coin): Result<Supplies> {
    if c.denom !in m then Err(AssetNotSupported)
    else if m[c.denom].current < c.amount then Err(InvalidCurrentSupply)
    else Ok(m[c.denom := m[c.denom].(current := m[c.denom].current - c.amount)])
  }

  function IncrementIncoming(cfg: Config, m: Supplies, c: Coin): Result<Supplies> {
    if c.denom !in m then Err(AssetNotSupported)
    else match GetAsset(cfg.assets, c.denom)
      case None => Err(AssetNotSupported)
      case Some(asset) =>
        var s, l := m[c.denom], asset.supplyLimit;
        if l.limit < s.current + s.incoming + c.amount then Err(ExceedsSupplyLimit)
        else if l.timeLimited && l.timeBasedLimit < s.timeLimited + s.incoming + c.amount
          then Err(ExceedsTimeBasedSupplyLimit)
        else Ok(m[c.denom := s.(incoming := s.incoming + c.amount)])
  }

  function DecrementIncoming(m: Supplies, c: Coin): Result<Supplies> {
    if c.denom !in m then Err(AssetNotSupported)
    else if m[c.denom].incoming < c.amount then Err(InvalidIncomingSupply)
    else Ok(m[c.denom := m[c.denom].(incoming := m[c.denom].incoming - c.amount)])
  }

  function IncrementOutgoing(m: Supplies, c: Coin): Result<Supplies> {
    if c.denom !in m then Err(AssetNotSupported)
    else if m[c.denom].current < m[c.denom].outgoing + c.amount then Err(ExceedsAvailableSupply)
    else Ok(m[c.denom := m[c.denom].(outgoing := m[c.denom].outgoing + c.amount)])
  }

  function DecrementOutgoing(m: Supplies, c: Coin): Result<Supplies> {
    if c.denom !in m then Err(AssetNotSupported)
    else if m[c.denom].outgoing < c.amount then Err(InvalidOutgoingSupply)
    else Ok(m[c.denom := m[c.denom].(outgoing := m[c.denom].outgoing - c.amount)])
  }

  /** One asset's share of UpdateTimeBasedSupplyLimits. */
  function Tick(asset: Asset, m: Supplies, timeElapsed: int): Supplies {
    var s := if asset.denom in m then m[asset.denom] else Supply(0, 0, 0, 0, 0);
    var e := s.elapsed + timeElapsed;
    m[asset.denom :=
      if asset.supplyLimit.timeLimited && e < asset.supplyLimit.timePeriod then s.(elapsed := e)
      else s.(elapsed := 0, timeLimited := 0)]
  }

  function TickAll(assets: seq<Asset>, m: Supplies, timeElapsed: int): Supplies
    decreases |assets|
  {
    if assets == [] then m else TickAll(assets[1..], Tick(assets[0], m, timeElapsed), timeElapsed)
  }

  // ---------------------------------------------------------------- messages

  /** The checks of CreateAtomicSwap that come before any state changes; yields the coin and the direction. */
  function CheckCreate(cfg: Config, s: State, ctx: Context, m: CreateMsg): (r: Result<(Coin, Direction)>)
    ensures r.Ok? ==> m.amount == [r.value.0]
  {
    if cfg.hashID(m.randomNumberHash, m.sender, m.senderOtherChain) in s.swaps then Err(SwapAlreadyExists)
    else if m.recipient.Module? then Err(RecipientIsModule)
    else if |m.amount| != 1 then Err(NotExactlyOneCoin)
    else match GetAsset(cfg.assets, m.amount[0].denom)
      case None => Err(AssetNotSupported)
      case Some(asset) =>
        var c := m.amount[0];
        if !asset.active then Err(AssetNotActive)
        else if c.amount < asset.minSwapAmount || c.amount > asset.maxSwapAmount then Err(InvalidAmount)
        else if || m.timestamp < (ctx.time - 15 * 60 * NANOS) / NANOS
                || m.timestamp >= (ctx.time + 30 * 60 * NANOS) / NANOS
          then Err(InvalidTimestamp)
        else if m.sender == asset.deputy then
          if m.recipient == asset.deputy then Err(InvalidSwapAccount) else Ok((c, Incoming))
        else if m.recipient != asset.deputy then Err(InvalidSwapAccount)
        else if m.heightSpan < asset.minBlockLock || m.heightSpan > asset.maxBlockLock then Err(InvalidHeightSpan)
        else if c.amount <= asset.fixedFee + asset.minSwapAmount then Err(InsufficientAmount)
        else Ok((c, Outgoing))
  }

  function NewSwap(ctx: Context, m: CreateMsg, c: Coin, d: Direction): Swap {
    Swap(c, m.randomNumberHash, (ctx.height + m.heightSpan) % U64, m.timestamp, m.sender, m.recipient,
         m.senderOtherChain, m.recipientOtherChain, 0, Open, m.crossChain, d)
  }

  function Create(cfg: Config, s: State, ctx: Context, m: CreateMsg): Result<State> {
    var (c, d) :- CheckCreate(cfg, s, ctx, m);
    var supplies :- if d == Incoming then IncrementIncoming(cfg, s.supplies, c) else IncrementOutgoing(s.supplies, c);
    var bank :- if d == Incoming then Ok(s.bank) else Apply(cfg.blocked, s.bank, Move(m.sender, ESCROW, c, SwapMoney));
    Ok(Insert(cfg, s, NewSwap(ctx, m, c, d), supplies, bank))
  }

  function Insert(cfg: Config, s: State, sw: Swap, supplies: Supplies, bank: Balances): State {
    State(s.swaps[SwapID(cfg, sw) := sw], s.byBlock + {Entry(sw.expireHeight, SwapID(cfg, sw))}, s.longterm,
          supplies, s.previousBlockTime, bank)
  }

  lemma CoinIsPositive(cfg: Config, s: State, ctx: Context, m: CreateMsg)
    requires ValidAssets(cfg.assets)
    ensures CheckCreate(cfg, s, ctx, m).Ok? ==>
              var c := CheckCreate(cfg, s, ctx, m).value.0;
              c.amount > 0 && GetAsset(cfg.assets, c.denom).Some?
  {
  }

  function Complete(sw: Swap, ctx: Context): Swap {
    sw.(status := Completed, closedBlock := ctx.height)
  }

  function DeletionEntry(cfg: Config, sw: Swap): Entry {
    Entry(sw.closedBlock + LONGTERM_BLOCKS, SwapID(cfg, sw))
  }

  /** The common end of claim and refund: the completed swap is stored and enters the long-term index. */
  function Archive(cfg: Config, s: State, done: Swap, supplies: Supplies, bank: Balances): State {
    State(s.swaps[SwapID(cfg, done) := done], s.byBlock, s.longterm + {DeletionEntry(cfg, done)},
          supplies, s.previousBlockTime, bank)
  }

  predicate RightSecret(cfg: Config, sw: Swap, secret: Bytes) {
    cfg.hashID(cfg.hashSecret(secret, sw.timestamp), sw.sender, sw.senderOtherChain) == SwapID(cfg, sw)
  }

  function ClaimSupplies(cfg: Config, m: Supplies, sw: Swap): Result<Supplies> {
    match sw.direction
    case Incoming => var m1 :- DecrementIncoming(m, sw.coin); IncrementCurrent(cfg, m1, sw.coin)
    case Outgoing => var m1 :- DecrementOutgoing(m, sw.coin); DecrementCurrent(m1, sw.coin)
  }

  function ClaimOps(sw: Swap): seq<Op> {
    match sw.direction
    case Incoming => [Mint(ESCROW, sw.coin, SwapMoney), Pay(ESCROW, sw.recipient, sw.coin, SwapMoney)]
    case Outgoing => [Burn(ESCROW, sw.coin, SwapMoney)]
  }

  function Claim(cfg: Config, s: State, ctx: Context, id: Bytes, secret: Bytes): Result<State> {
    if id !in s.swaps then Err(SwapNotFound)
    else
      var sw := s.swaps[id];
      if sw.status != Open then Err(SwapNotClaimable)
      else if !RightSecret(cfg, sw, secret) then Err(InvalidClaimSecret)
      else
        var supplies :- ClaimSupplies(cfg, s.supplies, sw);
        var bank :- ApplyAll(cfg.blocked, s.bank, ClaimOps(sw));
        Ok(Archive(cfg, s, Complete(sw, ctx), supplies, bank)
           .(byBlock := s.byBlock - {Entry(sw.expireHeight, SwapID(cfg, sw))}))
  }

  function RefundSupplies(m: Supplies, sw: Swap): Result<Supplies> {
    if sw.direction == Incoming then DecrementIncoming(m, sw.coin) else DecrementOutgoing(m, sw.coin)
  }

  function RefundOps(sw: Swap): seq<Op> {
    if sw.direction == Incoming then [] else [Pay(ESCROW, sw.sender, sw.coin, SwapMoney)]
  }

  function Refund(cfg: Config, s: State, ctx: Context, id: Bytes): Result<State> {
    if id !in s.swaps then Err(SwapNotFound)
    else
      var sw := s.swaps[id];
      if sw.status != Expired then Err(SwapNotRefundable)
      else
        var supplies :- RefundSupplies(s.supplies, sw);
        var bank :- ApplyAll(cfg.blocked, s.bank, RefundOps(sw));
        Ok(Archive(cfg, s, Complete(sw, ctx), supplies, bank))
  }

  // ---------------------------------------------------------------- begin block

  function UpdateLimits(cfg: Config, s: State, ctx: Context): State {
    if cfg.assets == [] then s
    else
      var previous := if s.previousBlockTime.Some? then s.previousBlockTime.value else ctx.time;
      s.(supplies := TickAll(cfg.assets, s.supplies, ctx.time - previous), previousBlockTime := Some(ctx.time))
  }

  predicate Due(sw: Swap, height: nat) {
    sw.status == Open && sw.expireHeight <= height
  }

  /** Every open swap whose height has come is expired and leaves the expiry index. */
  function ExpireDue(s: State, height: nat): State {
    s.(swaps := map id | id in s.swaps ::
                  if Due(s.swaps[id], height) then s.swaps[id].(status := Expired) else s.swaps[id],
       byBlock := set e | e in s.byBlock && e.height > height)
  }

  predicate Old(sw: Swap, height: nat) {
    sw.status == Completed && sw.closedBlock + LONGTERM_BLOCKS <= height
  }

  /** Every completed swap whose storage time is over is deleted and leaves the long-term index. */
  function DeleteOld(s: State, height: nat): State {
    s.(swaps := map id | id in s.swaps && !Old(s.swaps[id], height) :: s.swaps[id],
       longterm := set e | e in s.longterm && e.height > height)
  }

  function BeginBlock(cfg: Config, s: State, ctx: Context): State {
    DeleteOld(ExpireDue(UpdateLimits(cfg, s, ctx), ctx.height), ctx.height)
  }
}
