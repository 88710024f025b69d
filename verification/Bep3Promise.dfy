/** What a create message promises, said in terms of the message and of balances: who can claim the swap it makes
    and when, who is paid by a claim or a refund, which messages are accepted, and how long a settled swap is kept. */
module Bep3Promise {
  import opened Prelude
  import opened Keys
  import opened Banking
  import opened Bep3Spec
  import opened Bep3Invariant
  import opened Bep3Runs

  /** The ID of the swap a message makes. */
  function IDOf(cfg: Config, m: CreateMsg): Bytes {
    cfg.hashID(m.randomNumberHash, m.sender, m.senderOtherChain)
  }

  /** The deputy of the asset sends the message, so the coin comes in from the other chain. */
  predicate FromDeputy(cfg: Config, m: CreateMsg) {
    exists a <- cfg.assets :: |m.amount| > 0 && a.denom == m.amount[0].denom && a.deputy == m.sender
  }

  /** The height from which the swap counts as expired. */
  function ExpiryOf(made: Context, m: CreateMsg): nat {
    (made.height + m.heightSpan) % U64
  }

  /** The swap says what the message said. */
  predicate Carries(cfg: Config, sw: Swap, m: CreateMsg, made: Context) {
    && m.amount == [sw.coin] && sw.randomNumberHash == m.randomNumberHash && sw.timestamp == m.timestamp
    && sw.sender == m.sender && sw.recipient == m.recipient
    && sw.senderOtherChain == m.senderOtherChain && sw.recipientOtherChain == m.recipientOtherChain
    && sw.crossChain == m.crossChain && sw.expireHeight == ExpiryOf(made, m)
    && (sw.direction == Incoming <==> FromDeputy(cfg, m))
  }

  /** Since the swap was made, no block has begun at or after its expiry height. */
  predicate InTime(made: Context, m: CreateMsg, now: Context) {
    now.height == made.height || now.height < ExpiryOf(made, m)
  }

  /** The swap the message made is stored, and open exactly as long as it is in time. */
  ghost predicate Promised(cfg: Config, w: World, m: CreateMsg, made: Context) {
    var id := IDOf(cfg, m);
    && w.begun && made.height <= w.ctx.height
    && id in w.s.swaps && Carries(cfg, w.s.swaps[id], m, made)
    && w.s.swaps[id].status == if InTime(made, m, w.ctx) then Open else Expired
  }

  lemma {:induction false} AssetOfDenom(assets: seq<Asset>, a: Asset)
    requires ValidAssets(assets) && a in assets
    ensures GetAsset(assets, a.denom) == Some(a)
  {
    var i :| 0 <= i < |assets| && assets[i] == a;
    AssetIsItsOwnLookup(assets, i);
  }

  lemma DirectionOf(cfg: Config, s: State, ctx: Context, m: CreateMsg)
    requires ValidAssets(cfg.assets) && CheckCreate(cfg, s, ctx, m).Ok?
    ensures CheckCreate(cfg, s, ctx, m).value.1 == Incoming <==> FromDeputy(cfg, m)
  {
    if FromDeputy(cfg, m) {
      var a :| a in cfg.assets && |m.amount| > 0 && a.denom == m.amount[0].denom && a.deputy == m.sender;
      AssetOfDenom(cfg.assets, a);
    }
  }

  lemma CreateMakesPromise(cfg: Config, w: World, m: CreateMsg)
    requires Inv(cfg, w.s) && Admissible(w, CreateSwap(m)) && Create(cfg, w.s, w.ctx, m).Ok?
    ensures Promised(cfg, Exec(cfg, w, CreateSwap(m)), m, w.ctx)
  {
    DirectionOf(cfg, w.s, w.ctx, m);
    CreateUnfolds(cfg, w.s, w.ctx, m);
    ExecCreates(cfg, w, m);
  }

  // ---------------------------------------------------------------- the promise lasts until the swap is settled

  /** The log from position k on has no claim and no refund of this swap. */
  predicate Unsettled(log: seq<Event>, k: nat, id: Bytes) {
    forall i :: k <= i < |log| && log[i].id == id ==> log[i].Created?
  }

  lemma LogGrows(cfg: Config, w: World, step: Step)
    ensures var log := Exec(cfg, w, step).log; |w.log| <= |log| && log[..|w.log|] == w.log
  {
  }

  lemma {:induction false} RunLogGrows(cfg: Config, w: World, steps: seq<Step>)
    ensures var log := Run(cfg, w, steps).log; |w.log| <= |log| && log[..|w.log|] == w.log
    decreases |steps|
  {
    if steps != [] {
      RunLogGrows(cfg, w, steps[..|steps| - 1]);
      LogGrows(cfg, Run(cfg, w, steps[..|steps| - 1]), steps[|steps| - 1]);
    }
  }

  lemma BlockKeepsPromise(cfg: Config, w: World, ctx: Context, m: CreateMsg, made: Context)
    requires Promised(cfg, w, m, made) && Admissible(w, NewBlock(ctx))
    ensures Promised(cfg, Exec(cfg, w, NewBlock(ctx)), m, made)
  {
    var id := IDOf(cfg, m);
    UpdateLimitsTicks(cfg, w.s, ctx);
    var sw := w.s.swaps[id];
    var s' := BeginBlock(cfg, w.s, ctx);
    assert id in s'.swaps && s'.swaps[id] == if Due(sw, ctx.height) then sw.(status := Expired) else sw;
  }

  lemma CreateKeepsPromise(cfg: Config, w: World, x: CreateMsg, m: CreateMsg, made: Context)
    requires Promised(cfg, w, m, made) && Admissible(w, CreateSwap(x)) && Create(cfg, w.s, w.ctx, x).Ok?
    ensures Promised(cfg, Exec(cfg, w, CreateSwap(x)), m, made)
  {
    CreateUnfolds(cfg, w.s, w.ctx, x);
    ExecCreates(cfg, w, x);
  }

  lemma SettlingKeepsPromise(cfg: Config, w: World, w': World, id: Bytes, m: CreateMsg, made: Context)
    requires Promised(cfg, w, m, made) && id in w.s.swaps && Settles(cfg, w.s, w'.s, w.ctx, id)
    requires w'.ctx == w.ctx && w'.begun && id != IDOf(cfg, m)
    ensures Promised(cfg, w', m, made)
  {
  }

  lemma ClaimKeepsPromise(cfg: Config, w: World, id: Bytes, secret: Bytes, m: CreateMsg, made: Context)
    requires Inv(cfg, w.s) && Promised(cfg, w, m, made) && Claim(cfg, w.s, w.ctx, id, secret).Ok?
    requires Unsettled(Exec(cfg, w, ClaimSwap(id, secret)).log, |w.log|, IDOf(cfg, m))
    ensures Promised(cfg, Exec(cfg, w, ClaimSwap(id, secret)), m, made)
  {
    ClaimSettles(cfg, w.s, w.ctx, id, secret);
    ExecSettles(cfg, w, id, secret);
    var w' := Exec(cfg, w, ClaimSwap(id, secret));
    assert w'.log[|w.log|] == Claimed(id, w.s.swaps[id], w.ctx);
    SettlingKeepsPromise(cfg, w, w', id, m, made);
  }

  lemma RefundKeepsPromise(cfg: Config, w: World, id: Bytes, m: CreateMsg, made: Context)
    requires Inv(cfg, w.s) && Promised(cfg, w, m, made) && Refund(cfg, w.s, w.ctx, id).Ok?
    requires Unsettled(Exec(cfg, w, RefundSwap(id)).log, |w.log|, IDOf(cfg, m))
    ensures Promised(cfg, Exec(cfg, w, RefundSwap(id)), m, made)
  {
    RefundSettles(cfg, w.s, w.ctx, id);
    ExecSettles(cfg, w, id, []);
    var w' := Exec(cfg, w, RefundSwap(id));
    assert w'.log[|w.log|] == Refunded(id, w.s.swaps[id], w.ctx);
    SettlingKeepsPromise(cfg, w, w', id, m, made);
  }

  lemma StepKeepsPromise(cfg: Config, w: World, step: Step, m: CreateMsg, made: Context)
    requires Inv(cfg, w.s) && Promised(cfg, w, m, made)
    requires Unsettled(Exec(cfg, w, step).log, |w.log|, IDOf(cfg, m))
    ensures Promised(cfg, Exec(cfg, w, step), m, made)
  {
    if Admissible(w, step) {
      match step
      case NewBlock(ctx) => BlockKeepsPromise(cfg, w, ctx, m, made);
      case CreateSwap(x) =>
        if Create(cfg, w.s, w.ctx, x).Ok? { CreateKeepsPromise(cfg, w, x, m, made); }
      case ClaimSwap(id, secret) =>
        if Claim(cfg, w.s, w.ctx, id, secret).Ok? { ClaimKeepsPromise(cfg, w, id, secret, m, made); }
      case RefundSwap(id) =>
        if Refund(cfg, w.s, w.ctx, id).Ok? { RefundKeepsPromise(cfg, w, id, m, made); }
      case OtherModules(bank) =>
    }
  }

  lemma UnsettledBefore(log: seq<Event>, longer: seq<Event>, k: nat, id: Bytes)
    requires k <= |log| <= |longer| && longer[..|log|] == log && Unsettled(longer, k, id)
    ensures Unsettled(log, k, id) && Unsettled(longer, |log|, id)
  {
    forall i | k <= i < |log| && log[i].id == id ensures log[i].Created? {
      assert longer[..|log|][i] == longer[i];
    }
  }

  lemma {:induction false} RunKeepsPromise(cfg: Config, w: World, steps: seq<Step>, m: CreateMsg, made: Context)
    requires Inv(cfg, w.s) && Promised(cfg, w, m, made) && Unsettled(Run(cfg, w, steps).log, |w.log|, IDOf(cfg, m))
    ensures Promised(cfg, Run(cfg, w, steps), m, made)
    decreases |steps|
  {
    if steps != [] {
      var before, step := steps[..|steps| - 1], steps[|steps| - 1];
      RunLogGrows(cfg, w, before);
      LogGrows(cfg, Run(cfg, w, before), step);
      UnsettledBefore(Run(cfg, w, before).log, Run(cfg, w, steps).log, |w.log|, IDOf(cfg, m));
      RunKeepsPromise(cfg, w, before, m, made);
      RunKeepsInv(cfg, w, before);
      StepKeepsPromise(cfg, Run(cfg, w, before), step, m, made);
    }
  }

  /** The world after a create and any run in which the swap it made is not settled. */
  ghost predicate Later(cfg: Config, w: World, m: CreateMsg, steps: seq<Step>) {
    && Inv(cfg, w.s) && Admissible(w, CreateSwap(m)) && Create(cfg, w.s, w.ctx, m).Ok?
    && var w1 := Exec(cfg, w, CreateSwap(m)); Unsettled(Run(cfg, w1, steps).log, |w1.log|, IDOf(cfg, m))
  }

  lemma PromiseLasts(cfg: Config, w: World, m: CreateMsg, steps: seq<Step>)
    requires Later(cfg, w, m, steps)
    ensures var w' := Run(cfg, Exec(cfg, w, CreateSwap(m)), steps); Inv(cfg, w'.s) && Promised(cfg, w', m, w.ctx)
  {
    var w1 := Exec(cfg, w, CreateSwap(m));
    CreateMakesPromise(cfg, w, m);
    StepKeepsInv(cfg, w, CreateSwap(m));
    RunKeepsPromise(cfg, w1, steps, m, w.ctx);
    RunKeepsInv(cfg, w1, steps);
  }

  // ---------------------------------------------------------------- who can claim, and when

  /** After a create and any run that does not settle the swap: it can be claimed exactly in time, and exactly with
      a secret whose hash, under the message's timestamp, gives the same ID; and refunded exactly when it is no
      longer in time. */
  lemma ClaimedExactlyWithSecretInTime(cfg: Config, w: World, m: CreateMsg, steps: seq<Step>, secret: Bytes)
    requires Later(cfg, w, m, steps)
    ensures var w', id := Run(cfg, Exec(cfg, w, CreateSwap(m)), steps), IDOf(cfg, m);
            && (Claim(cfg, w'.s, w'.ctx, id, secret).Ok? <==>
                InTime(w.ctx, m, w'.ctx) &&
                cfg.hashID(cfg.hashSecret(secret, m.timestamp), m.sender, m.senderOtherChain) == id)
            && (Refund(cfg, w'.s, w'.ctx, id).Ok? <==> !InTime(w.ctx, m, w'.ctx))
  {
    PromiseLasts(cfg, w, m, steps);
    var w' := Run(cfg, Exec(cfg, w, CreateSwap(m)), steps);
    ClaimSucceedsExactly(cfg, w'.s, w'.ctx, IDOf(cfg, m), secret);
    RefundSucceedsExactly(cfg, w'.s, w'.ctx, IDOf(cfg, m));
  }

  /** Different hashes give different IDs. */
  ghost predicate Injective(cfg: Config) {
    forall x, y, sender, other :: cfg.hashID(x, sender, other) == cfg.hashID(y, sender, other) ==> x == y
  }

  /** If IDs do not collide, only a secret with the hash in the message claims the swap, and it does so as long as
      the swap is in time. */
  lemma OnlyTheSecretClaims(cfg: Config, w: World, m: CreateMsg, steps: seq<Step>, secret: Bytes)
    requires Later(cfg, w, m, steps) && Injective(cfg)
    ensures var w' := Run(cfg, Exec(cfg, w, CreateSwap(m)), steps);
            Claim(cfg, w'.s, w'.ctx, IDOf(cfg, m), secret).Ok? <==>
            InTime(w.ctx, m, w'.ctx) && cfg.hashSecret(secret, m.timestamp) == m.randomNumberHash
  {
    ClaimedExactlyWithSecretInTime(cfg, w, m, steps, secret);
  }

  // ---------------------------------------------------------------- who is paid

  /** b' is b with this account's balance in this denom changed by n, and nothing else changed. */
  ghost predicate OnlyChange(b: Balances, b': Balances, who: Account, denom: string, n: int) {
    forall x, d :: BalanceOf(b', x, d) == BalanceOf(b, x, d) + (if x == who && d == denom then n else 0)
  }

  /** An incoming create moves nothing; an outgoing one moves the coin from the sender to the escrow account. */
  lemma CreatePays(cfg: Config, w: World, m: CreateMsg)
    requires Inv(cfg, w.s) && Admissible(w, CreateSwap(m)) && Create(cfg, w.s, w.ctx, m).Ok?
    ensures |m.amount| == 1
    ensures var b, b', coin := w.s.bank, Exec(cfg, w, CreateSwap(m)).s.bank, m.amount[0];
            if FromDeputy(cfg, m) then b' == b
            else forall x, d :: BalanceOf(b', x, d) == BalanceOf(b, x, d) +
                   (if d != coin.denom then 0 else if x == m.sender then 0 - coin.amount
                    else if x == ESCROW then coin.amount
                    else 0)
  {
    DirectionOf(cfg, w.s, w.ctx, m);
    CreateUnfolds(cfg, w.s, w.ctx, m);
    ExecCreates(cfg, w, m);
  }

  /** After a create and any run that does not settle the swap, a claim pays the message's recipient exactly the
      message's coin, newly minted, if it came from the deputy; otherwise it burns the coin from the escrow. No
      other balance changes. */
  lemma ClaimPays(cfg: Config, w: World, m: CreateMsg, steps: seq<Step>, secret: Bytes)
    requires Later(cfg, w, m, steps)
    requires var w' := Run(cfg, Exec(cfg, w, CreateSwap(m)), steps); Claim(cfg, w'.s, w'.ctx, IDOf(cfg, m), secret).Ok?
    ensures |m.amount| == 1
    ensures var w' := Run(cfg, Exec(cfg, w, CreateSwap(m)), steps);
            var b, b' := w'.s.bank, Claim(cfg, w'.s, w'.ctx, IDOf(cfg, m), secret).value.bank;
            if FromDeputy(cfg, m) then OnlyChange(b, b', m.recipient, m.amount[0].denom, m.amount[0].amount)
            else OnlyChange(b, b', ESCROW, m.amount[0].denom, 0 - m.amount[0].amount)
  {
    PromiseLasts(cfg, w, m, steps);
    var w' := Run(cfg, Exec(cfg, w, CreateSwap(m)), steps);
    BankAfterClaim(cfg, w'.s, w'.ctx, IDOf(cfg, m), secret);
    assert SwapOk(cfg, w'.s.supplies, IDOf(cfg, m), w'.s.swaps[IDOf(cfg, m)]);
    ClaimOpsChange(cfg.blocked, w'.s.bank, Claim(cfg, w'.s, w'.ctx, IDOf(cfg, m), secret).value.bank,
                   w'.s.swaps[IDOf(cfg, m)]);
  }

  /** The bank leg of a settlement. */
  lemma BankAfterClaim(cfg: Config, s: State, ctx: Context, id: Bytes, secret: Bytes)
    requires Claim(cfg, s, ctx, id, secret).Ok?
    ensures id in s.swaps && s.swaps[id].Live()
    ensures ApplyAll(cfg.blocked, s.bank, ClaimOps(s.swaps[id])) == Ok(Claim(cfg, s, ctx, id, secret).value.bank)
  {
  }

  lemma BankAfterRefund(cfg: Config, s: State, ctx: Context, id: Bytes)
    requires Refund(cfg, s, ctx, id).Ok?
    ensures id in s.swaps && s.swaps[id].Live()
    ensures ApplyAll(cfg.blocked, s.bank, RefundOps(s.swaps[id])) == Ok(Refund(cfg, s, ctx, id).value.bank)
  {
  }

  /** What the operations of a claim change. */
  lemma ClaimOpsChange(blocked: set<string>, b: Balances, b': Balances, sw: Swap)
    requires !sw.recipient.Module? && ApplyAll(blocked, b, ClaimOps(sw)) == Ok(b')
    ensures if sw.direction == Incoming then OnlyChange(b, b', sw.recipient, sw.coin.denom, sw.coin.amount)
            else OnlyChange(b, b', ESCROW, sw.coin.denom, 0 - sw.coin.amount)
  {
    forall x, d ensures BalanceOf(b', x, d) == BalanceOf(b, x, d) + Net(ClaimOps(sw), x, d) {
      ApplyAllNet(blocked, b, ClaimOps(sw), x, d);
    }
    if sw.direction == Incoming {
      ApplyTwo(blocked, b, ClaimOps(sw)[0], ClaimOps(sw)[1]);
    } else {
      ApplyOneOp(blocked, b, ClaimOps(sw)[0]);
    }
  }

  lemma RefundOpsChange(blocked: set<string>, b: Balances, b': Balances, sw: Swap)
    requires !sw.sender.Module? && ApplyAll(blocked, b, RefundOps(sw)) == Ok(b')
    ensures if sw.direction == Incoming then b' == b
            else forall x, d :: BalanceOf(b', x, d) == BalanceOf(b, x, d) +
                   (if d != sw.coin.denom then 0 else if x == sw.sender then sw.coin.amount
                    else if x == ESCROW then 0 - sw.coin.amount else 0)
  {
    if sw.direction == Outgoing {
      forall x, d ensures BalanceOf(b', x, d) == BalanceOf(b, x, d) + Net(RefundOps(sw), x, d) {
        ApplyAllNet(blocked, b, RefundOps(sw), x, d);
      }
      ApplyOneOp(blocked, b, RefundOps(sw)[0]);
    }
  }

  /** Likewise a refund pays the coin of an outgoing swap back to the message's sender, and nothing for an incoming
      one. */
  lemma RefundPays(cfg: Config, w: World, m: CreateMsg, steps: seq<Step>)
    requires Later(cfg, w, m, steps)
    requires var w' := Run(cfg, Exec(cfg, w, CreateSwap(m)), steps); Refund(cfg, w'.s, w'.ctx, IDOf(cfg, m)).Ok?
    ensures |m.amount| == 1
    ensures var w' := Run(cfg, Exec(cfg, w, CreateSwap(m)), steps);
            var b, b', coin := w'.s.bank, Refund(cfg, w'.s, w'.ctx, IDOf(cfg, m)).value.bank, m.amount[0];
            if FromDeputy(cfg, m) then b' == b
            else forall x, d :: BalanceOf(b', x, d) == BalanceOf(b, x, d) +
                   (if d != coin.denom then 0 else if x == m.sender then coin.amount
                    else if x == ESCROW then 0 - coin.amount
                    else 0)
  {
    PromiseLasts(cfg, w, m, steps);
    var w', id := Run(cfg, Exec(cfg, w, CreateSwap(m)), steps), IDOf(cfg, m);
    BankAfterRefund(cfg, w'.s, w'.ctx, id);
    assert SwapOk(cfg, w'.s.supplies, id, w'.s.swaps[id]);
    RefundOpsChange(cfg.blocked, w'.s.bank, Refund(cfg, w'.s, w'.ctx, id).value.bank, w'.s.swaps[id]);
  }

  // ---------------------------------------------------------------- how long a settled swap is kept

  /** A settled swap is stored as completed at the height of the block, whichever way it was settled. */
  ghost predicate Kept(w: World, id: Bytes, height: nat) {
    && w.begun && height <= w.ctx.height
    && id in w.s.swaps && w.s.swaps[id].status == Completed && w.s.swaps[id].closedBlock == height
  }

  lemma SettledIsCompleted(cfg: Config, w: World, id: Bytes, secret: Bytes)
    requires Inv(cfg, w.s) && w.begun
    ensures Claim(cfg, w.s, w.ctx, id, secret).Ok? ==> Kept(Exec(cfg, w, ClaimSwap(id, secret)), id, w.ctx.height)
    ensures Refund(cfg, w.s, w.ctx, id).Ok? ==> Kept(Exec(cfg, w, RefundSwap(id)), id, w.ctx.height)
  {
    if Claim(cfg, w.s, w.ctx, id, secret).Ok? {
      ClaimSettles(cfg, w.s, w.ctx, id, secret);
      ExecSettles(cfg, w, id, secret);
    }
    if Refund(cfg, w.s, w.ctx, id).Ok? {
      RefundSettles(cfg, w.s, w.ctx, id);
      ExecSettles(cfg, w, id, secret);
    }
  }

  lemma BlockKeepsSettled(cfg: Config, w: World, ctx: Context, id: Bytes, height: nat)
    requires Kept(w, id, height) && Admissible(w, NewBlock(ctx)) && ctx.height < height + 86400
    ensures Kept(Exec(cfg, w, NewBlock(ctx)), id, height)
  {
    UpdateLimitsTicks(cfg, w.s, ctx);
  }

  lemma CreateKeepsSettled(cfg: Config, w: World, x: CreateMsg, id: Bytes, height: nat)
    requires Kept(w, id, height) && Admissible(w, CreateSwap(x)) && Create(cfg, w.s, w.ctx, x).Ok?
    ensures Kept(Exec(cfg, w, CreateSwap(x)), id, height)
  {
    CreateUnfolds(cfg, w.s, w.ctx, x);
    ExecCreates(cfg, w, x);
  }

  lemma OthersStaySettled(cfg: Config, w: World, w': World, y: Bytes, id: Bytes, height: nat)
    requires Kept(w, id, height) && y in w.s.swaps && w.s.swaps[y].Live() && Settles(cfg, w.s, w'.s, w.ctx, y)
    requires w'.ctx == w.ctx && w'.begun
    ensures Kept(w', id, height)
  {
  }

  lemma ClaimKeepsSettled(cfg: Config, w: World, y: Bytes, secret: Bytes, id: Bytes, height: nat)
    requires Inv(cfg, w.s) && Kept(w, id, height) && Claim(cfg, w.s, w.ctx, y, secret).Ok?
    ensures Kept(Exec(cfg, w, ClaimSwap(y, secret)), id, height)
  {
    ClaimSettles(cfg, w.s, w.ctx, y, secret);
    ExecSettles(cfg, w, y, secret);
    OthersStaySettled(cfg, w, Exec(cfg, w, ClaimSwap(y, secret)), y, id, height);
  }

  lemma RefundKeepsSettled(cfg: Config, w: World, y: Bytes, id: Bytes, height: nat)
    requires Inv(cfg, w.s) && Kept(w, id, height) && Refund(cfg, w.s, w.ctx, y).Ok?
    ensures Kept(Exec(cfg, w, RefundSwap(y)), id, height)
  {
    RefundSettles(cfg, w.s, w.ctx, y);
    ExecSettles(cfg, w, y, []);
    OthersStaySettled(cfg, w, Exec(cfg, w, RefundSwap(y)), y, id, height);
  }

  lemma StepKeepsSettled(cfg: Config, w: World, step: Step, id: Bytes, height: nat)
    requires Inv(cfg, w.s) && Kept(w, id, height) && Exec(cfg, w, step).ctx.height < height + 86400
    ensures Kept(Exec(cfg, w, step), id, height)
  {
    if Admissible(w, step) {
      match step
      case NewBlock(ctx) => BlockKeepsSettled(cfg, w, ctx, id, height);
      case CreateSwap(x) =>
        if Create(cfg, w.s, w.ctx, x).Ok? { CreateKeepsSettled(cfg, w, x, id, height); }
      case ClaimSwap(y, secret) =>
        if Claim(cfg, w.s, w.ctx, y, secret).Ok? { ClaimKeepsSettled(cfg, w, y, secret, id, height); }
      case RefundSwap(y) =>
        if Refund(cfg, w.s, w.ctx, y).Ok? { RefundKeepsSettled(cfg, w, y, id, height); }
      case OtherModules(bank) =>
    }
  }

  lemma HeightsGrow(cfg: Config, w: World, step: Step)
    ensures w.ctx.height <= Exec(cfg, w, step).ctx.height
  {
  }

  /** A settled swap stays, and keeps its ID taken, for 86400 blocks after the block it was settled in. */
  lemma {:induction false} SettledSwapIsKept(cfg: Config, w: World, steps: seq<Step>, id: Bytes, height: nat)
    requires Inv(cfg, w.s) && Kept(w, id, height) && Run(cfg, w, steps).ctx.height < height + 86400
    ensures Kept(Run(cfg, w, steps), id, height)
    decreases |steps|
  {
    if steps != [] {
      var before := steps[..|steps| - 1];
      HeightsGrow(cfg, Run(cfg, w, before), steps[|steps| - 1]);
      SettledSwapIsKept(cfg, w, before, id, height);
      RunKeepsInv(cfg, w, before);
      StepKeepsSettled(cfg, Run(cfg, w, before), steps[|steps| - 1], id, height);
    }
  }

  /** The first block from then on deletes it. */
  lemma SettledSwapIsDeleted(cfg: Config, w: World, ctx: Context, id: Bytes, height: nat)
    requires Kept(w, id, height) && Admissible(w, NewBlock(ctx)) && ctx.height >= height + 86400
    ensures id !in Exec(cfg, w, NewBlock(ctx)).s.swaps
  {
    UpdateLimitsTicks(cfg, w.s, ctx);
  }

  // ---------------------------------------------------------------- which messages are accepted

  const MINUTE: int := 60 * NANOS

  /** The timestamp is at most 15 minutes old and less than 30 minutes ahead, to the second. */
  predicate WellTimed(ctx: Context, m: CreateMsg) {
    ctx.time - 15 * MINUTE < (m.timestamp + 1) * NANOS <= ctx.time + 30 * MINUTE
  }

  /** The message against its asset: an active asset, an amount in its range, and the deputy on exactly one side; on
      the way out a span in its range and more than the fee and the least amount. */
  predicate Suits(a: Asset, m: CreateMsg, coin: Coin) {
    && a.active && a.minSwapAmount <= coin.amount <= a.maxSwapAmount
    && (m.sender == a.deputy <==> m.recipient != a.deputy)
    && (m.sender != a.deputy ==>
          a.minBlockLock <= m.heightSpan <= a.maxBlockLock && coin.amount > a.fixedFee + a.minSwapAmount)
  }

  /** The message against the counters and the sender's balance. */
  predicate Affordable(s: State, a: Asset, m: CreateMsg, coin: Coin) {
    && coin.denom in s.supplies
    && var c, l := s.supplies[coin.denom], a.supplyLimit;
       if m.sender == a.deputy then
         && c.current + c.incoming + coin.amount <= l.limit
         && (l.timeLimited ==> c.timeLimited + c.incoming + coin.amount <= l.timeBasedLimit)
       else c.outgoing + coin.amount <= c.current && coin.amount <= BalanceOf(s.bank, m.sender, coin.denom)
  }

  /** Exactly these creates are accepted. */
  lemma CreateSucceedsExactly(cfg: Config, s: State, ctx: Context, m: CreateMsg)
    requires ValidAssets(cfg.assets)
    ensures Create(cfg, s, ctx, m).Ok? <==>
            && IDOf(cfg, m) !in s.swaps && !m.recipient.Module? && |m.amount| == 1 && WellTimed(ctx, m)
            && exists a <- cfg.assets ::
                 a.denom == m.amount[0].denom && Suits(a, m, m.amount[0]) && Affordable(s, a, m, m.amount[0])
  {
    if |m.amount| == 1 {
      var found := GetAsset(cfg.assets, m.amount[0].denom);
      if found.Some? {
        forall a <- cfg.assets ensures a.denom == m.amount[0].denom ==> a == found.value {
          AssetOfDenom(cfg.assets, a);
        }
        AcceptedBy(cfg, s, ctx, m, found.value);
      }
    }
  }

  lemma AcceptedBy(cfg: Config, s: State, ctx: Context, m: CreateMsg, a: Asset)
    requires |m.amount| == 1 && GetAsset(cfg.assets, m.amount[0].denom) == Some(a)
    ensures Create(cfg, s, ctx, m).Ok? <==>
            && IDOf(cfg, m) !in s.swaps && !m.recipient.Module? && WellTimed(ctx, m)
            && Suits(a, m, m.amount[0]) && Affordable(s, a, m, m.amount[0])
  {
    var coin := m.amount[0];
    TimeWindow(ctx, m);
    var checked := CheckCreate(cfg, s, ctx, m);
    assert checked.Ok? <==> IDOf(cfg, m) !in s.swaps && !m.recipient.Module? && WellTimed(ctx, m) && Suits(a, m, coin);
    if checked.Ok? {
      assert checked.value == (coin, if m.sender == a.deputy then Incoming else Outgoing);
    }
  }

  lemma TimeWindow(ctx: Context, m: CreateMsg)
    ensures WellTimed(ctx, m) <==>
            (ctx.time - 15 * 60 * NANOS) / NANOS <= m.timestamp < (ctx.time + 30 * 60 * NANOS) / NANOS
  {
  }
}
