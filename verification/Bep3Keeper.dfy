/** The keeper of x/bep3: the store, its indexes and the handlers, step by step as the module carries them out.
    Every method is proved against the corresponding function of Bep3Spec. */
module Bep3Keeper {
  import opened Prelude
  import opened Banking
  import opened Keys
  import opened Bep3Spec
  import opened Bep3Invariant

  /** Block heights are int64. */
  const MAX_HEIGHT: int := 0x8000_0000_0000_0000

  // ---------------------------------------------------------------- byte-keyed height indexes

  function KeyOf(e: Entry): Bytes {
    HeightKey(e.height, e.id)
  }

  function EntryOf(key: Bytes): Entry
    requires |key| >= 8
  {
    Entry(FromBigEndian(key[..8]), key[8..])
  }

  lemma EntryKeyRoundTrip(e: Entry)
    requires e.height < U64
    ensures EntryOf(KeyOf(e)) == e
  {
    assert KeyOf(e)[..8] == Uint64Key(e.height);
    U64FitsInEightBytes(e.height);
    BigEndianRoundTrip(e.height, 8);
  }

  /** The byte map holds exactly the keys of these entries, each with its ID as value. The keeper below works with the
      entries; KeyedInsert and KeyedRemove say that the byte map follows. */
  ghost predicate Keyed(m: map<Bytes, Bytes>, entries: set<Entry>) {
    && (forall e <- entries :: e.height < U64 && KeyOf(e) in m)
    && (forall k <- m :: |k| >= 8 && EntryOf(k) in entries && KeyOf(EntryOf(k)) == k && m[k] == EntryOf(k).id)
  }

  lemma KeyedInsert(m: map<Bytes, Bytes>, entries: set<Entry>, e: Entry)
    requires Keyed(m, entries) && e.height < U64
    ensures Keyed(m[KeyOf(e) := e.id], entries + {e})
  {
    EntryKeyRoundTrip(e);
  }

  lemma KeyedRemove(m: map<Bytes, Bytes>, entries: set<Entry>, e: Entry)
    requires Keyed(m, entries) && e.height < U64
    ensures Keyed(m - {KeyOf(e)}, entries - {e})
  {
    EntryKeyRoundTrip(e);
    forall x | x in entries && x != e ensures KeyOf(x) in m - {KeyOf(e)} {
      EntryKeyRoundTrip(x);
    }
  }

  /** What an iterator up to an inclusive height visits: the entries whose key lies below the range end. */
  method EntriesUpTo(index: set<Entry>, height: nat) returns (r: set<Entry>)
    requires height < U64 && forall e <- index :: e.height < U64
    ensures r == set e | e in index && e.height <= height
  {
    var end := PrefixEnd(Uint64Key(height));
    r := set e | e in index && BelowEnd(KeyOf(e), end);
    forall e <- index ensures BelowEnd(KeyOf(e), end) <==> e.height <= height {
      RangeSelectsHeightsUpTo(e.height, e.id, height);
    }
  }

  // ---------------------------------------------------------------- messages

  datatype Msg =
    | MsgCreate(create: CreateMsg)
    | MsgClaim(id: Bytes, secret: Bytes)
    | MsgRefund(id: Bytes)

  function Handle(cfg: Config, s: State, ctx: Context, msg: Msg): Result<State> {
    match msg
    case MsgCreate(m) => Create(cfg, s, ctx, m)
    case MsgClaim(id, secret) => Claim(cfg, s, ctx, id, secret)
    case MsgRefund(id) => Refund(cfg, s, ctx, id)
  }

  class Keeper {
    const cfg: Config
    var swaps: map<Bytes, Swap>
    var byBlock: set<Entry>
    var longterm: set<Entry>
    var supplies: Supplies
    var previousBlockTime: Option<int>
    var bank: Balances

    /** Heights are within their Go types. */
    predicate Valid()
      reads this
    {
      forall id <- swaps :: swaps[id].expireHeight < U64 && swaps[id].closedBlock < MAX_HEIGHT
    }

    ghost function Abs(): State
      reads this
    {
      State(swaps, byBlock, longterm, supplies, previousBlockTime, bank)
    }

    constructor (cfg: Config, bank: Balances)
      ensures Valid() && this.cfg == cfg
      ensures Abs() == State(map[], {}, {}, map[], None, bank)
    {
      this.cfg := cfg;
      swaps, byBlock, longterm, supplies := map[], {}, {}, map[];
      previousBlockTime, this.bank := None, bank;
    }

    // -------------------------------------------------------------- store primitives

    method SetAtomicSwap(sw: Swap)
      modifies this`swaps
      ensures swaps == old(swaps)[SwapID(cfg, sw) := sw]
    {
      swaps := swaps[SwapID(cfg, sw) := sw];
    }

    method InsertIntoByBlockIndex(sw: Swap)
      modifies this`byBlock
      ensures byBlock == old(byBlock) + {Entry(sw.expireHeight, SwapID(cfg, sw))}
    {
      byBlock := byBlock + {Entry(sw.expireHeight, SwapID(cfg, sw))};
    }

    method RemoveFromByBlockIndex(sw: Swap)
      modifies this`byBlock
      ensures byBlock == old(byBlock) - {Entry(sw.expireHeight, SwapID(cfg, sw))}
    {
      byBlock := byBlock - {Entry(sw.expireHeight, SwapID(cfg, sw))};
    }

    method InsertIntoLongtermStorage(sw: Swap)
      modifies this`longterm
      ensures longterm == old(longterm) + {DeletionEntry(cfg, sw)}
    {
      var deletionHeight := sw.closedBlock + LONGTERM_BLOCKS;
      longterm := longterm + {Entry(deletionHeight, SwapID(cfg, sw))};
    }

    method RemoveFromLongtermStorage(sw: Swap)
      modifies this`longterm
      ensures longterm == old(longterm) - {DeletionEntry(cfg, sw)}
    {
      var deletionHeight := sw.closedBlock + LONGTERM_BLOCKS;
      longterm := longterm - {Entry(deletionHeight, SwapID(cfg, sw))};
    }

    /** Runs one bank operation; on error the balances stay as they were. */
    method Bank(op: Op) returns (err: Option<Error>)
      modifies this`bank
      ensures match Apply(cfg.blocked, old(bank), op)
              case Ok(b) => err == None && bank == b
              case Err(e) => err == Some(e) && bank == old(bank)
    {
      match Apply(cfg.blocked, bank, op)
      case Ok(b) => bank := b; err := None;
      case Err(e) => err := Some(e);
    }

    // -------------------------------------------------------------- supply counters

    method IncrementCurrentAssetSupply(c: Coin) returns (err: Option<Error>)
      modifies this`supplies
      ensures match IncrementCurrent(cfg, old(supplies), c)
              case Ok(m) => err == None && supplies == m
              case Err(e) => err == Some(e) && supplies == old(supplies)
    {
      if c.denom !in supplies { return Some(AssetNotSupported); }
      var supply := supplies[c.denom];
      var asset := GetAsset(cfg.assets, c.denom);
      if asset.None? { return Some(AssetNotSupported); }
      var limit := asset.value.supplyLimit;
      if limit.limit < supply.current + c.amount { return Some(ExceedsSupplyLimit); }
      if limit.timeLimited {
        if limit.timeBasedLimit < supply.timeLimited + c.amount { return Some(ExceedsTimeBasedSupplyLimit); }
        supply := supply.(timeLimited := supply.timeLimited + c.amount);
      }
      supply := supply.(current := supply.current + c.amount);
      supplies := supplies[c.denom := supply];
      err := None;
    }

    method DecrementCurrentAssetSupply(c: Coin) returns (err: Option<Error>)
      modifies this`supplies
      ensures match DecrementCurrent(old(supplies), c)
              case Ok(m) => err == None && supplies == m
              case Err(e) => err == Some(e) && supplies == old(supplies)
    {
      if c.denom !in supplies { return Some(AssetNotSupported); }
      var supply := supplies[c.denom];
      if supply.current - c.amount < 0 { return Some(InvalidCurrentSupply); }
      supply := supply.(current := supply.current - c.amount);
      supplies := supplies[c.denom := supply];
      err := None;
    }

    method IncrementIncomingAssetSupply(c: Coin) returns (err: Option<Error>)
      modifies this`supplies
      ensures match IncrementIncoming(cfg, old(supplies), c)
              case Ok(m) => err == None && supplies == m
              case Err(e) => err == Some(e) && supplies == old(supplies)
    {
      if c.denom !in supplies { return Some(AssetNotSupported); }
      var supply := supplies[c.denom];
      var totalSupply := supply.current + supply.incoming;
      var asset := GetAsset(cfg.assets, c.denom);
      if asset.None? { return Some(AssetNotSupported); }
      var limit := asset.value.supplyLimit;
      if limit.limit < totalSupply + c.amount { return Some(ExceedsSupplyLimit); }
      if limit.timeLimited {
        var timeLimitedTotal := supply.timeLimited + supply.incoming;
        if limit.timeBasedLimit < timeLimitedTotal + c.amount { return Some(ExceedsTimeBasedSupplyLimit); }
      }
      supply := supply.(incoming := supply.incoming + c.amount);
      supplies := supplies[c.denom := supply];
      err := None;
    }

    method DecrementIncomingAssetSupply(c: Coin) returns (err: Option<Error>)
      modifies this`supplies
      ensures match DecrementIncoming(old(supplies), c)
              case Ok(m) => err == None && supplies == m
              case Err(e) => err == Some(e) && supplies == old(supplies)
    {
      if c.denom !in supplies { return Some(AssetNotSupported); }
      var supply := supplies[c.denom];
      if supply.incoming - c.amount < 0 { return Some(InvalidIncomingSupply); }
      supply := supply.(incoming := supply.incoming - c.amount);
      supplies := supplies[c.denom := supply];
      err := None;
    }

    method IncrementOutgoingAssetSupply(c: Coin) returns (err: Option<Error>)
      modifies this`supplies
      ensures match IncrementOutgoing(old(supplies), c)
              case Ok(m) => err == None && supplies == m
              case Err(e) => err == Some(e) && supplies == old(supplies)
    {
      if c.denom !in supplies { return Some(AssetNotSupported); }
      var supply := supplies[c.denom];
      if supply.current < supply.outgoing + c.amount { return Some(ExceedsAvailableSupply); }
      supply := supply.(outgoing := supply.outgoing + c.amount);
      supplies := supplies[c.denom := supply];
      err := None;
    }

    method DecrementOutgoingAssetSupply(c: Coin) returns (err: Option<Error>)
      modifies this`supplies
      ensures match DecrementOutgoing(old(supplies), c)
              case Ok(m) => err == None && supplies == m
              case Err(e) => err == Some(e) && supplies == old(supplies)
    {
      if c.denom !in supplies { return Some(AssetNotSupported); }
      var supply := supplies[c.denom];
      if supply.outgoing - c.amount < 0 { return Some(InvalidOutgoingSupply); }
      supply := supply.(outgoing := supply.outgoing - c.amount);
      supplies := supplies[c.denom := supply];
      err := None;
    }

    // -------------------------------------------------------------- handlers

    /** The checks before anything is written. */
    method CheckSwap(ctx: Context, m: CreateMsg) returns (r: Result<(Coin, Direction)>)
      ensures r == CheckCreate(cfg, Abs(), ctx, m)
    {
      var swapID := cfg.hashID(m.randomNumberHash, m.sender, m.senderOtherChain);
      if swapID in swaps { return Err(SwapAlreadyExists); }
      if m.recipient.Module? { return Err(RecipientIsModule); }
      if |m.amount| != 1 { return Err(NotExactlyOneCoin); }
      var coin := m.amount[0];
      var found := GetAsset(cfg.assets, coin.denom);
      if found.None? { return Err(AssetNotSupported); }
      var asset := found.value;
      if !asset.active { return Err(AssetNotActive); }
      if coin.amount < asset.minSwapAmount || coin.amount > asset.maxSwapAmount { return Err(InvalidAmount); }
      var pastTimestampLimit := (ctx.time - 15 * 60 * NANOS) / NANOS;
      var futureTimestampLimit := (ctx.time + 30 * 60 * NANOS) / NANOS;
      if m.timestamp < pastTimestampLimit || m.timestamp >= futureTimestampLimit { return Err(InvalidTimestamp); }
      var direction;
      if m.sender == asset.deputy {
        if m.recipient == asset.deputy { return Err(InvalidSwapAccount); }
        direction := Incoming;
      } else {
        if m.recipient != asset.deputy { return Err(InvalidSwapAccount); }
        direction := Outgoing;
      }
      if direction == Outgoing {
        if m.heightSpan < asset.minBlockLock || m.heightSpan > asset.maxBlockLock { return Err(InvalidHeightSpan); }
        if coin.amount <= asset.fixedFee + asset.minSwapAmount { return Err(InsufficientAmount); }
      }
      r := Ok((coin, direction));
    }

    /** On success the new state is that of Create; on error it is whatever had been written so far. */
    method CreateAtomicSwap(ctx: Context, m: CreateMsg) returns (err: Option<Error>)
      requires Valid()
      modifies this`supplies, this`bank, this`swaps, this`byBlock
      ensures Valid()
      ensures match Create(cfg, old(Abs()), ctx, m)
              case Ok(s) => err == None && Abs() == s
              case Err(e) => err == Some(e)
    {
      var checked := CheckSwap(ctx, m);
      if checked.Err? { return Some(checked.error); }
      var (coin, direction) := checked.value;
      match direction {
        case Incoming =>
          err := IncrementIncomingAssetSupply(coin);
        case Outgoing =>
          err := IncrementOutgoingAssetSupply(coin);
          if err.Some? { return; }
          err := Bank(Move(m.sender, ESCROW, coin, SwapMoney));
      }
      if err.Some? { return; }
      var expireHeight := (ctx.height + m.heightSpan) % U64;
      var sw := Swap(coin, m.randomNumberHash, expireHeight, m.timestamp, m.sender, m.recipient,
                     m.senderOtherChain, m.recipientOtherChain, 0, Open, m.crossChain, direction);
      SetAtomicSwap(sw);
      InsertIntoByBlockIndex(sw);
    }

    method ClaimAtomicSwap(ctx: Context, id: Bytes, secret: Bytes) returns (err: Option<Error>)
      requires Valid() && ctx.height < MAX_HEIGHT
      modifies this
      ensures Valid()
      ensures match Claim(cfg, old(Abs()), ctx, id, secret)
              case Ok(s) => err == None && Abs() == s
              case Err(e) => err == Some(e)
    {
      if id !in swaps { return Some(SwapNotFound); }
      var sw := swaps[id];
      if sw.status != Open { return Some(SwapNotClaimable); }
      var submitted := cfg.hashSecret(secret, sw.timestamp);
      if cfg.hashID(submitted, sw.sender, sw.senderOtherChain) != SwapID(cfg, sw) { return Some(InvalidClaimSecret); }
      err := ClaimSuppliesAndCoins(sw);
      if err.Some? { return; }
      sw := sw.(status := Completed, closedBlock := ctx.height);
      SetAtomicSwap(sw);
      RemoveFromByBlockIndex(sw);
      InsertIntoLongtermStorage(sw);
    }

    /** The direction switch in the middle of ClaimAtomicSwap. */
    method ClaimSuppliesAndCoins(sw: Swap) returns (err: Option<Error>)
      modifies this`supplies, this`bank
      ensures var m := ClaimSupplies(cfg, old(supplies), sw);
              var b := ApplyAll(cfg.blocked, old(bank), ClaimOps(sw));
              if m.Err? then err == Some(m.error)
              else if b.Err? then err == Some(b.error)
              else err == None && supplies == m.value && bank == b.value
    {
      match sw.direction {
        case Incoming =>
          err := DecrementIncomingAssetSupply(sw.coin);
          if err.Some? { return; }
          err := IncrementCurrentAssetSupply(sw.coin);
          if err.Some? { return; }
          ApplyTwo(cfg.blocked, bank, Mint(ESCROW, sw.coin, SwapMoney), Pay(ESCROW, sw.recipient, sw.coin, SwapMoney));
          err := Bank(Mint(ESCROW, sw.coin, SwapMoney));
          if err.Some? { return; }
          err := Bank(Pay(ESCROW, sw.recipient, sw.coin, SwapMoney));
        case Outgoing =>
          err := DecrementOutgoingAssetSupply(sw.coin);
          if err.Some? { return; }
          err := DecrementCurrentAssetSupply(sw.coin);
          if err.Some? { return; }
          ApplyOneOp(cfg.blocked, bank, Burn(ESCROW, sw.coin, SwapMoney));
          err := Bank(Burn(ESCROW, sw.coin, SwapMoney));
      }
    }

    method RefundAtomicSwap(ctx: Context, id: Bytes) returns (err: Option<Error>)
      requires Valid() && ctx.height < MAX_HEIGHT
      modifies this`supplies, this`bank, this`swaps, this`longterm
      ensures Valid()
      ensures match Refund(cfg, old(Abs()), ctx, id)
              case Ok(s) => err == None && Abs() == s
              case Err(e) => err == Some(e)
    {
      if id !in swaps { return Some(SwapNotFound); }
      var sw := swaps[id];
      if sw.status != Expired { return Some(SwapNotRefundable); }
      match sw.direction {
        case Incoming =>
          err := DecrementIncomingAssetSupply(sw.coin);
        case Outgoing =>
          err := DecrementOutgoingAssetSupply(sw.coin);
          if err.Some? { return; }
          ApplyOneOp(cfg.blocked, bank, Pay(ESCROW, sw.sender, sw.coin, SwapMoney));
          err := Bank(Pay(ESCROW, sw.sender, sw.coin, SwapMoney));
      }
      if err.Some? { return; }
      sw := sw.(status := Completed, closedBlock := ctx.height);
      SetAtomicSwap(sw);
      InsertIntoLongtermStorage(sw);
    }

    /** A message as a transaction: what a failing handler wrote is thrown away. */
    method Deliver(ctx: Context, msg: Msg) returns (err: Option<Error>)
      requires Valid() && ctx.height < MAX_HEIGHT
      modifies this
      ensures Valid()
      ensures match Handle(cfg, old(Abs()), ctx, msg)
              case Ok(s) => err == None && Abs() == s
              case Err(e) => err == Some(e) && Abs() == old(Abs())
    {
      var oldSwaps, oldByBlock, oldLongterm := swaps, byBlock, longterm;
      var oldSupplies, oldTime, oldBank := supplies, previousBlockTime, bank;
      match msg {
        case MsgCreate(m) => err := CreateAtomicSwap(ctx, m);
        case MsgClaim(id, secret) => err := ClaimAtomicSwap(ctx, id, secret);
        case MsgRefund(id) => err := RefundAtomicSwap(ctx, id);
      }
      if err.Some? {
        swaps, byBlock, longterm := oldSwaps, oldByBlock, oldLongterm;
        supplies, previousBlockTime, bank := oldSupplies, oldTime, oldBank;
      }
    }

    // -------------------------------------------------------------- begin block

    /** One asset: its time window goes on, or a new one begins. */
    method UpdateTimeBasedSupplyLimit(asset: Asset, timeElapsed: int)
      modifies this`supplies
      ensures supplies == Tick(asset, old(supplies), timeElapsed)
    {
      var supply := Supply(0, 0, 0, 0, 0);
      if asset.denom in supplies { supply := supplies[asset.denom]; }
      var newTimeElapsed := supply.elapsed + timeElapsed;
      if asset.supplyLimit.timeLimited && newTimeElapsed < asset.supplyLimit.timePeriod {
        supply := supply.(elapsed := newTimeElapsed);
      } else {
        supply := supply.(elapsed := 0, timeLimited := 0);
      }
      supplies := supplies[asset.denom := supply];
    }

    method UpdateTimeBasedSupplyLimits(ctx: Context)
      modifies this`supplies, this`previousBlockTime
      ensures Abs() == UpdateLimits(cfg, old(Abs()), ctx)
    {
      if cfg.assets == [] { return; }
      if previousBlockTime.None? { previousBlockTime := Some(ctx.time); }
      var timeElapsed := ctx.time - previousBlockTime.value;
      var i := 0;
      while i < |cfg.assets|
        invariant 0 <= i <= |cfg.assets|
        invariant TickAll(cfg.assets[i..], supplies, timeElapsed) == TickAll(cfg.assets, old(supplies), timeElapsed)
      {
        assert cfg.assets[i..][0] == cfg.assets[i] && cfg.assets[i..][1..] == cfg.assets[i + 1..];
        UpdateTimeBasedSupplyLimit(cfg.assets[i], timeElapsed);
        i := i + 1;
      }
      previousBlockTime := Some(ctx.time);
    }

    /** Whatever order the index range is visited in, exactly the due swaps end up expired. */
    method UpdateExpiredAtomicSwaps(height: nat)
      requires Valid() && height < MAX_HEIGHT
      requires IndexesExact(Abs()) && SwapsOk(cfg, Abs())
      modifies this`swaps, this`byBlock
      ensures Valid()
      ensures Abs() == ExpireDue(old(Abs()), height)
    {
      ghost var swaps0, index0 := swaps, byBlock;
      ghost var done: set<Entry> := {};
      assert forall e <- byBlock :: OpenAt(swaps, e);
      var todo := EntriesUpTo(byBlock, height);
      ghost var range := todo;
      while todo != {}
        invariant done + todo == range && done !! todo
        invariant swaps == ExpireThese(swaps0, done)
        invariant byBlock == index0 - done
        decreases todo
      {
        var e :| e in todo;
        assert OpenAt(swaps0, e) && SwapOk(cfg, supplies, e.id, swaps0[e.id]);
        assert forall x <- done :: OpenAt(swaps0, x) && (x.id == e.id ==> x == e);
        if e.id in swaps {
          var sw := swaps[e.id].(status := Expired);
          RemoveFromByBlockIndex(sw);
          SetAtomicSwap(sw);
        }
        todo := todo - {e};
        ExpireOneMore(swaps0, done, e);
        done := done + {e};
      }
      ExpireRange(old(Abs()), height, range);
    }

    method DeleteClosedAtomicSwapsFromLongtermStorage(height: nat)
      requires Valid() && height < MAX_HEIGHT
      requires IndexesExact(Abs()) && SwapsOk(cfg, Abs())
      modifies this`swaps, this`longterm
      ensures Valid()
      ensures Abs() == DeleteOld(old(Abs()), height)
    {
      ghost var swaps0, index0 := swaps, longterm;
      ghost var done: set<Entry> := {};
      assert forall e <- longterm :: CompletedAt(swaps, e);
      var todo := EntriesUpTo(longterm, height);
      ghost var range := todo;
      while todo != {}
        invariant done + todo == range && done !! todo
        invariant swaps == swaps0 - IDs(done)
        invariant longterm == index0 - done
        decreases todo
      {
        var e :| e in todo;
        assert CompletedAt(swaps0, e) && SwapOk(cfg, supplies, e.id, swaps0[e.id]);
        assert forall x <- done :: CompletedAt(swaps0, x) && (x.id == e.id ==> x == e);
        if e.id in swaps {
          var sw := swaps[e.id];
          swaps := swaps - {SwapID(cfg, sw)};
          RemoveFromLongtermStorage(sw);
        }
        todo := todo - {e};
        assert IDs(done + {e}) == IDs(done) + {e.id};
        done := done + {e};
      }
      DeleteRange(old(Abs()), height, range);
    }

    method BeginBlocker(ctx: Context)
      requires Valid() && ctx.height < MAX_HEIGHT
      requires Inv(cfg, Abs())
      modifies this
      ensures Valid()
      ensures Abs() == BeginBlock(cfg, old(Abs()), ctx) && Inv(cfg, Abs())
    {
      UpdateLimitsKeepsInv(cfg, Abs(), ctx);
      UpdateTimeBasedSupplyLimits(ctx);
      ExpireKeepsInv(cfg, Abs(), ctx.height);
      UpdateExpiredAtomicSwaps(ctx.height);
      DeleteKeepsInv(cfg, Abs(), ctx.height);
      DeleteClosedAtomicSwapsFromLongtermStorage(ctx.height);
    }
  }

  // ---------------------------------------------------------------- the two begin-block loops

  ghost function IDs(entries: set<Entry>): set<Bytes> {
    set e | e in entries :: e.id
  }

  ghost function ExpireThese(swaps: map<Bytes, Swap>, done: set<Entry>): map<Bytes, Swap> {
    map id | id in swaps :: if id in IDs(done) then swaps[id].(status := Expired) else swaps[id]
  }

  lemma ExpireOneMore(swaps: map<Bytes, Swap>, done: set<Entry>, e: Entry)
    requires e.id in swaps
    ensures ExpireThese(swaps, done + {e}) == ExpireThese(swaps, done)[e.id := swaps[e.id].(status := Expired)]
  {
    assert IDs(done + {e}) == IDs(done) + {e.id};
  }

  lemma ExpireRange(s: State, height: nat, range: set<Entry>)
    requires IndexesExact(s) && range == set e | e in s.byBlock && e.height <= height
    ensures ExpireThese(s.swaps, range) == ExpireDue(s, height).swaps
    ensures s.byBlock - range == ExpireDue(s, height).byBlock
  {
    forall id <- s.swaps ensures id in IDs(range) <==> Due(s.swaps[id], height) {
      var e := Entry(s.swaps[id].expireHeight, id);
      assert e in s.byBlock <==> OpenAt(s.swaps, e);
      if x :| x in range && x.id == id { assert OpenAt(s.swaps, x); }
    }
  }

  lemma DeleteRange(s: State, height: nat, range: set<Entry>)
    requires IndexesExact(s) && range == set e | e in s.longterm && e.height <= height
    ensures s.swaps - IDs(range) == DeleteOld(s, height).swaps
    ensures s.longterm - range == DeleteOld(s, height).longterm
  {
    forall id <- s.swaps ensures id in IDs(range) <==> Old(s.swaps[id], height) {
      var e := Entry(s.swaps[id].closedBlock + LONGTERM_BLOCKS, id);
      assert e in s.longterm <==> CompletedAt(s.swaps, e);
      if x :| x in range && x.id == id { assert CompletedAt(s.swaps, x); }
    }
  }
}
