/** The invariant of the swap module: the two indexes, the four counters and the escrow say exactly what
    the stored swaps say. Every handler keeps it, and under it no guard of Claim or Refund can fire. */
module Bep3Invariant {
  import opened Prelude
  import opened Keys
  import opened Banking
  import opened MapSums
  import opened Bep3Spec

  // ---------------------------------------------------------------- the invariant

  function Amount(sw: Swap, denom: string, dir: Direction): nat {
    if sw.coin.denom == denom && sw.direction == dir && sw.Live() then sw.coin.amount else 0
  }

  function Counts(denom: string, dir: Direction): Swap -> int {
    (sw: Swap) => Amount(sw, denom, dir)
  }

  /** What is promised in swaps of one direction that are neither claimed nor refunded. */
  ghost function Pending(swaps: map<Bytes, Swap>, denom: string, dir: Direction): int {
    Total(swaps, Counts(denom, dir))
  }

  predicate SwapOk(cfg: Config, supplies: Supplies, id: Bytes, sw: Swap) {
    && SwapID(cfg, sw) == id
    && sw.coin.amount > 0
    && sw.coin.denom in supplies
    && !sw.sender.Module? && !sw.recipient.Module?
  }

  predicate SwapsOk(cfg: Config, s: State) {
    forall id <- s.swaps :: SwapOk(cfg, s.supplies, id, s.swaps[id])
  }

  predicate OpenAt(swaps: map<Bytes, Swap>, e: Entry) {
    e.id in swaps && swaps[e.id].status == Open && swaps[e.id].expireHeight == e.height
  }

  predicate CompletedAt(swaps: map<Bytes, Swap>, e: Entry) {
    e.id in swaps && swaps[e.id].status == Completed && swaps[e.id].closedBlock + LONGTERM_BLOCKS == e.height
  }

  ghost predicate ByBlockExact(swaps: map<Bytes, Swap>, byBlock: set<Entry>) {
    forall e :: e in byBlock <==> OpenAt(swaps, e)
  }

  ghost predicate LongtermExact(swaps: map<Bytes, Swap>, longterm: set<Entry>) {
    forall e :: e in longterm <==> CompletedAt(swaps, e)
  }

  /** The expiry index lists exactly the open swaps and the long-term index exactly the completed ones. */
  ghost predicate IndexesExact(s: State) {
    ByBlockExact(s.swaps, s.byBlock) && LongtermExact(s.swaps, s.longterm)
  }

  /** The limits on the counters of one denom. */
  predicate WithinLimits(cfg: Config, denom: string, c: Supply) {
    var a := GetAsset(cfg.assets, denom);
    && a.Some?
    && c.outgoing <= c.current
    && c.current + c.incoming <= a.value.supplyLimit.limit
    && (a.value.supplyLimit.timeLimited ==> c.timeLimited + c.incoming <= a.value.supplyLimit.timeBasedLimit)
  }

  /** The counters of one denom against its limits and against the stored swaps. */
  ghost predicate SupplyOk(cfg: Config, swaps: map<Bytes, Swap>, denom: string, c: Supply) {
    && WithinLimits(cfg, denom, c)
    && c.incoming == Pending(swaps, denom, Incoming)
    && c.outgoing == Pending(swaps, denom, Outgoing)
  }

  ghost predicate SuppliesOk(cfg: Config, s: State) {
    forall denom <- s.supplies :: SupplyOk(cfg, s.swaps, denom, s.supplies[denom])
  }

  /** The module account holds what the live outgoing swaps locked, in every denom. */
  ghost predicate EscrowOk(s: State) {
    forall denom :: BalanceOf(s.bank, ESCROW, denom) == Pending(s.swaps, denom, Outgoing)
  }

  ghost predicate Inv(cfg: Config, s: State) {
    && ValidAssets(cfg.assets)
    && SwapsOk(cfg, s)
    && IndexesExact(s)
    && SuppliesOk(cfg, s)
    && EscrowOk(s)
  }

  lemma InvInitially(cfg: Config, bank: Balances, time: Option<int>)
    requires ValidAssets(cfg.assets)
    requires forall d :: BalanceOf(bank, ESCROW, d) == 0
    ensures Inv(cfg, State(map[], {}, {}, map[], time, bank))
  {
  }

  // ---------------------------------------------------------------- sums over swaps

  lemma PendingUpdate(swaps: map<Bytes, Swap>, id: Bytes, sw: Swap, denom: string, dir: Direction)
    ensures Pending(swaps[id := sw], denom, dir) ==
            Pending(swaps, denom, dir) + Amount(sw, denom, dir)
            - (if id in swaps then Amount(swaps[id], denom, dir) else 0)
  {
    TotalUpdate(swaps, Counts(denom, dir), id, sw);
  }

  lemma PendingCovers(swaps: map<Bytes, Swap>, id: Bytes, denom: string, dir: Direction)
    requires id in swaps
    ensures Pending(swaps, denom, dir) >= Amount(swaps[id], denom, dir)
  {
    TotalBound(swaps, Counts(denom, dir), id);
  }

  lemma PendingAgrees(a: map<Bytes, Swap>, b: map<Bytes, Swap>, denom: string, dir: Direction)
    requires forall i | i in a && i in b :: Amount(a[i], denom, dir) == Amount(b[i], denom, dir)
    requires forall i | i in a && i !in b :: Amount(a[i], denom, dir) == 0
    requires forall i | i in b && i !in a :: Amount(b[i], denom, dir) == 0
    ensures Pending(a, denom, dir) == Pending(b, denom, dir)
  {
    TotalSupport(a, b, Counts(denom, dir));
  }

  /** The swap is covered by the counter of its direction, and if it is outgoing by the escrow. */
  predicate Counted(cfg: Config, s: State, id: Bytes, sw: Swap) {
    var d := sw.coin.denom;
    && SwapOk(cfg, s.supplies, id, sw)
    && WithinLimits(cfg, d, s.supplies[d])
    && (sw.direction == Incoming ==> sw.coin.amount <= s.supplies[d].incoming)
    && (sw.direction == Outgoing ==>
          sw.coin.amount <= s.supplies[d].outgoing && sw.coin.amount <= BalanceOf(s.bank, ESCROW, d))
  }

  lemma LiveSwapIsCounted(cfg: Config, s: State, id: Bytes)
    requires Inv(cfg, s) && id in s.swaps && s.swaps[id].Live()
    ensures Counted(cfg, s, id, s.swaps[id])
  {
    var sw := s.swaps[id];
    assert SwapOk(cfg, s.supplies, id, sw);
    assert SupplyOk(cfg, s.swaps, sw.coin.denom, s.supplies[sw.coin.denom]);
    PendingCovers(s.swaps, id, sw.coin.denom, sw.direction);
  }

  // ---------------------------------------------------------------- no guard fires

  /** What taking a live swap out of the counters must do to them. */
  ghost predicate TakenOut(before: Supply, after: Supply, sw: Swap) {
    && after.incoming == before.incoming - (if sw.direction == Incoming then sw.coin.amount else 0)
    && after.outgoing == before.outgoing - (if sw.direction == Outgoing then sw.coin.amount else 0)
  }

  function TimeLimited(cfg: Config, denom: string): bool {
    var a := GetAsset(cfg.assets, denom); a.Some? && a.value.supplyLimit.timeLimited
  }

  /** What a claim does to the two counters of issued coins, and a refund (claimed false) does not. */
  ghost predicate Issues(cfg: Config, before: Supply, after: Supply, sw: Swap, claimed: bool) {
    && after.current == before.current +
       (if !claimed then 0 else if sw.direction == Incoming then sw.coin.amount else 0 - sw.coin.amount)
    && after.timeLimited == before.timeLimited +
       (if claimed && sw.direction == Incoming && TimeLimited(cfg, sw.coin.denom) then sw.coin.amount else 0)
    && after.elapsed == before.elapsed
  }

  lemma ClaimSuppliesGoThrough(cfg: Config, m: Supplies, sw: Swap)
    requires sw.coin.denom in m && WithinLimits(cfg, sw.coin.denom, m[sw.coin.denom])
    requires sw.direction == Incoming ==> sw.coin.amount <= m[sw.coin.denom].incoming
    requires sw.direction == Outgoing ==> sw.coin.amount <= m[sw.coin.denom].outgoing
    ensures var r := ClaimSupplies(cfg, m, sw); var d := sw.coin.denom;
            && r.Ok? && d in r.value && r.value == m[d := r.value[d]]
            && TakenOut(m[d], r.value[d], sw) && WithinLimits(cfg, d, r.value[d])
            && Issues(cfg, m[d], r.value[d], sw, true)
  {
  }

  lemma RefundSuppliesGoThrough(cfg: Config, m: Supplies, sw: Swap)
    requires sw.coin.denom in m && WithinLimits(cfg, sw.coin.denom, m[sw.coin.denom])
    requires sw.direction == Incoming ==> sw.coin.amount <= m[sw.coin.denom].incoming
    requires sw.direction == Outgoing ==> sw.coin.amount <= m[sw.coin.denom].outgoing
    ensures var r := RefundSupplies(m, sw); var d := sw.coin.denom;
            && r.Ok? && d in r.value && r.value == m[d := r.value[d]]
            && TakenOut(m[d], r.value[d], sw) && WithinLimits(cfg, d, r.value[d])
            && Issues(cfg, m[d], r.value[d], sw, false)
  {
  }

  /** The bank leg of a claim goes through and moves nothing but the escrow and the recipient. */
  lemma ClaimOpsGoThrough(cfg: Config, b: Balances, sw: Swap)
    requires !sw.recipient.Module?
    requires sw.direction == Outgoing ==> sw.coin.amount <= BalanceOf(b, ESCROW, sw.coin.denom)
    ensures var r := ApplyAll(cfg.blocked, b, ClaimOps(sw));
            && r.Ok?
            && forall a, d :: BalanceOf(r.value, a, d) == BalanceOf(b, a, d) + Net(ClaimOps(sw), a, d)
    ensures forall a, d :: Net(ClaimOps(sw), a, d) ==
              if d != sw.coin.denom then 0
              else if sw.direction == Outgoing && a == ESCROW then 0 - sw.coin.amount
              else if sw.direction == Incoming && a == sw.recipient then sw.coin.amount
              else 0
  {
    var ops := ClaimOps(sw);
    if sw.direction == Incoming {
      ApplyTwo(cfg.blocked, b, ops[0], ops[1]);
    } else {
      ApplyOneOp(cfg.blocked, b, ops[0]);
    }
    forall a, d ensures BalanceOf(ApplyAll(cfg.blocked, b, ops).value, a, d) == BalanceOf(b, a, d) + Net(ops, a, d) {
      ApplyAllNet(cfg.blocked, b, ops, a, d);
    }
  }

  lemma RefundOpsGoThrough(cfg: Config, b: Balances, sw: Swap)
    requires !sw.sender.Module?
    requires sw.direction == Outgoing ==> sw.coin.amount <= BalanceOf(b, ESCROW, sw.coin.denom)
    ensures var r := ApplyAll(cfg.blocked, b, RefundOps(sw));
            && r.Ok?
            && forall a, d :: BalanceOf(r.value, a, d) == BalanceOf(b, a, d) + Net(RefundOps(sw), a, d)
    ensures forall a, d :: Net(RefundOps(sw), a, d) ==
              if d != sw.coin.denom || sw.direction == Incoming then 0
              else if a == ESCROW then 0 - sw.coin.amount
              else if a == sw.sender then sw.coin.amount
              else 0
  {
    var ops := RefundOps(sw);
    if sw.direction == Outgoing {
      ApplyOneOp(cfg.blocked, b, ops[0]);
    }
    forall a, d ensures BalanceOf(ApplyAll(cfg.blocked, b, ops).value, a, d) == BalanceOf(b, a, d) + Net(ops, a, d) {
      ApplyAllNet(cfg.blocked, b, ops, a, d);
    }
  }

  /** What claim and refund have in common: one live swap becomes completed, its amount leaves the counter of its
      direction, and the escrow follows the outgoing counter. */
  ghost predicate Settles(cfg: Config, s: State, s': State, ctx: Context, id: Bytes)
    requires id in s.swaps
  {
    var sw := s.swaps[id];
    var d := sw.coin.denom;
    && s'.swaps == s.swaps[id := Complete(sw, ctx)]
    && s'.byBlock == s.byBlock - {Entry(sw.expireHeight, id)}
    && s'.longterm == s.longterm + {Entry(ctx.height + LONGTERM_BLOCKS, id)}
    && d in s.supplies && d in s'.supplies && s'.supplies == s.supplies[d := s'.supplies[d]]
    && TakenOut(s.supplies[d], s'.supplies[d], sw)
    && WithinLimits(cfg, d, s'.supplies[d])
    && (forall e :: BalanceOf(s'.bank, ESCROW, e) ==
                    BalanceOf(s.bank, ESCROW, e) - (if sw.direction == Outgoing && e == d then sw.coin.amount else 0))
    && s'.previousBlockTime == s.previousBlockTime
  }

  lemma ClaimSettles(cfg: Config, s: State, ctx: Context, id: Bytes, secret: Bytes)
    requires Inv(cfg, s) && id in s.swaps && s.swaps[id].status == Open && RightSecret(cfg, s.swaps[id], secret)
    ensures var r := Claim(cfg, s, ctx, id, secret); r.Ok? && Settles(cfg, s, r.value, ctx, id)
    ensures var d := s.swaps[id].coin.denom;
            Issues(cfg, s.supplies[d], Claim(cfg, s, ctx, id, secret).value.supplies[d], s.swaps[id], true)
  {
    LiveSwapIsCounted(cfg, s, id);
    ClaimOfCountedSwap(cfg, s, ctx, id, secret);
  }

  lemma ClaimOfCountedSwap(cfg: Config, s: State, ctx: Context, id: Bytes, secret: Bytes)
    requires id in s.swaps && s.swaps[id].status == Open && RightSecret(cfg, s.swaps[id], secret)
    requires Counted(cfg, s, id, s.swaps[id])
    ensures var r := Claim(cfg, s, ctx, id, secret); r.Ok? && Settles(cfg, s, r.value, ctx, id)
    ensures var d := s.swaps[id].coin.denom;
            Issues(cfg, s.supplies[d], Claim(cfg, s, ctx, id, secret).value.supplies[d], s.swaps[id], true)
  {
    ClaimSuppliesGoThrough(cfg, s.supplies, s.swaps[id]);
    ClaimOpsGoThrough(cfg, s.bank, s.swaps[id]);
  }

  lemma RefundSettles(cfg: Config, s: State, ctx: Context, id: Bytes)
    requires Inv(cfg, s) && id in s.swaps && s.swaps[id].status == Expired
    ensures var r := Refund(cfg, s, ctx, id); r.Ok? && Settles(cfg, s, r.value, ctx, id)
    ensures var d := s.swaps[id].coin.denom;
            Issues(cfg, s.supplies[d], Refund(cfg, s, ctx, id).value.supplies[d], s.swaps[id], false)
  {
    LiveSwapIsCounted(cfg, s, id);
    assert !OpenAt(s.swaps, Entry(s.swaps[id].expireHeight, id));
    RefundOfCountedSwap(cfg, s, ctx, id);
  }

  lemma RefundOfCountedSwap(cfg: Config, s: State, ctx: Context, id: Bytes)
    requires id in s.swaps && s.swaps[id].status == Expired
    requires Entry(s.swaps[id].expireHeight, id) !in s.byBlock
    requires Counted(cfg, s, id, s.swaps[id])
    ensures var r := Refund(cfg, s, ctx, id); r.Ok? && Settles(cfg, s, r.value, ctx, id)
    ensures var d := s.swaps[id].coin.denom;
            Issues(cfg, s.supplies[d], Refund(cfg, s, ctx, id).value.supplies[d], s.swaps[id], false)
  {
    RefundSuppliesGoThrough(cfg, s.supplies, s.swaps[id]);
    RefundOpsGoThrough(cfg, s.bank, s.swaps[id]);
  }

  /** No swap is stuck, first half: an open swap can be claimed by whoever shows the secret, and by nobody else. */
  lemma ClaimSucceedsExactly(cfg: Config, s: State, ctx: Context, id: Bytes, secret: Bytes)
    requires Inv(cfg, s)
    ensures Claim(cfg, s, ctx, id, secret).Ok? <==>
            id in s.swaps && s.swaps[id].status == Open && RightSecret(cfg, s.swaps[id], secret)
  {
    if id in s.swaps && s.swaps[id].status == Open && RightSecret(cfg, s.swaps[id], secret) {
      ClaimSettles(cfg, s, ctx, id, secret);
    }
  }

  /** No swap is stuck, second half: an expired swap can be refunded, by anyone. */
  lemma RefundSucceedsExactly(cfg: Config, s: State, ctx: Context, id: Bytes)
    requires Inv(cfg, s)
    ensures Refund(cfg, s, ctx, id).Ok? <==> id in s.swaps && s.swaps[id].status == Expired
  {
    if id in s.swaps && s.swaps[id].status == Expired {
      RefundSettles(cfg, s, ctx, id);
    }
  }

  // ---------------------------------------------------------------- create keeps the invariant

  /** A new swap enters the store, the expiry index and the counter of its direction. */
  ghost predicate Opens(cfg: Config, s: State, s': State, id: Bytes, sw: Swap) {
    var d := sw.coin.denom;
    && id !in s.swaps && s'.swaps == s.swaps[id := sw] && sw.status == Open
    && s'.byBlock == s.byBlock + {Entry(sw.expireHeight, id)} && s'.longterm == s.longterm
    && d in s.supplies && d in s'.supplies && s'.supplies == s.supplies[d := s'.supplies[d]]
    && TakenOut(s'.supplies[d], s.supplies[d], sw)
    && WithinLimits(cfg, d, s'.supplies[d])
    && (forall e :: BalanceOf(s'.bank, ESCROW, e) ==
                    BalanceOf(s.bank, ESCROW, e) + (if sw.direction == Outgoing && e == d then sw.coin.amount else 0))
    && Issues(cfg, s.supplies[d], s'.supplies[d], sw, false)
    && SwapOk(cfg, s'.supplies, id, sw)
    && s'.previousBlockTime == s.previousBlockTime
  }

  lemma CreateSuppliesWithinLimits(cfg: Config, m: Supplies, c: Coin, d: Direction)
    requires c.denom in m ==> WithinLimits(cfg, c.denom, m[c.denom])
    ensures var r := if d == Incoming then IncrementIncoming(cfg, m, c) else IncrementOutgoing(m, c);
            r.Ok? ==>
              && c.denom in m && c.denom in r.value && r.value == m[c.denom := r.value[c.denom]]
              && WithinLimits(cfg, c.denom, r.value[c.denom])
              && r.value[c.denom].incoming == m[c.denom].incoming + (if d == Incoming then c.amount else 0)
              && r.value[c.denom].outgoing == m[c.denom].outgoing + (if d == Outgoing then c.amount else 0)
              && r.value[c.denom].current == m[c.denom].current
              && r.value[c.denom].timeLimited == m[c.denom].timeLimited
              && r.value[c.denom].elapsed == m[c.denom].elapsed
  {
  }

  /** The parts of a successful create. */
  lemma CreateUnfolds(cfg: Config, s: State, ctx: Context, m: CreateMsg)
    requires Create(cfg, s, ctx, m).Ok?
    ensures CheckCreate(cfg, s, ctx, m).Ok?
    ensures var (c, d) := CheckCreate(cfg, s, ctx, m).value;
            var s' := Create(cfg, s, ctx, m).value;
            var sw := NewSwap(ctx, m, c, d);
            && Ok(s'.supplies) == (if d == Incoming then IncrementIncoming(cfg, s.supplies, c)
                                   else IncrementOutgoing(s.supplies, c))
            && Ok(s'.bank) == (if d == Incoming then Ok(s.bank)
                               else Apply(cfg.blocked, s.bank, Move(m.sender, ESCROW, c, SwapMoney)))
            && s' == Insert(cfg, s, sw, s'.supplies, s'.bank)
            && SwapID(cfg, sw) !in s.swaps && !m.recipient.Module?
  {
  }

  lemma CreateOpensWithin(cfg: Config, s: State, ctx: Context, m: CreateMsg)
    requires ValidAssets(cfg.assets) && !m.sender.Module? && Create(cfg, s, ctx, m).Ok?
    requires forall denom <- s.supplies :: WithinLimits(cfg, denom, s.supplies[denom])
    ensures CheckCreate(cfg, s, ctx, m).Ok?
    ensures var (c, d) := CheckCreate(cfg, s, ctx, m).value;
            var sw := NewSwap(ctx, m, c, d);
            Opens(cfg, s, Create(cfg, s, ctx, m).value, SwapID(cfg, sw), sw)
  {
    CreateUnfolds(cfg, s, ctx, m);
    CoinIsPositive(cfg, s, ctx, m);
    var (c, d) := CheckCreate(cfg, s, ctx, m).value;
    var s' := Create(cfg, s, ctx, m).value;
    CreateSuppliesWithinLimits(cfg, s.supplies, c, d);
    InsertOpens(cfg, s, NewSwap(ctx, m, c, d), s'.supplies, s'.bank);
  }

  lemma CreateOpens(cfg: Config, s: State, ctx: Context, m: CreateMsg)
    requires Inv(cfg, s) && !m.sender.Module?
    requires Create(cfg, s, ctx, m).Ok?
    ensures CheckCreate(cfg, s, ctx, m).Ok?
    ensures var (c, d) := CheckCreate(cfg, s, ctx, m).value;
            var sw := NewSwap(ctx, m, c, d);
            Opens(cfg, s, Create(cfg, s, ctx, m).value, SwapID(cfg, sw), sw)
  {
    forall denom <- s.supplies ensures WithinLimits(cfg, denom, s.supplies[denom]) {
      assert SupplyOk(cfg, s.swaps, denom, s.supplies[denom]);
    }
    CreateOpensWithin(cfg, s, ctx, m);
  }

  lemma InsertOpens(cfg: Config, s: State, sw: Swap, supplies: Supplies, bank: Balances)
    requires SwapID(cfg, sw) !in s.swaps && sw.status == Open
    requires sw.coin.denom in s.supplies && sw.coin.denom in supplies
    requires supplies == s.supplies[sw.coin.denom := supplies[sw.coin.denom]]
    requires TakenOut(supplies[sw.coin.denom], s.supplies[sw.coin.denom], sw)
    requires WithinLimits(cfg, sw.coin.denom, supplies[sw.coin.denom])
    requires Issues(cfg, s.supplies[sw.coin.denom], supplies[sw.coin.denom], sw, false)
    requires SwapOk(cfg, supplies, SwapID(cfg, sw), sw)
    requires Ok(bank) == if sw.direction == Incoming then Ok(s.bank)
                         else Apply(cfg.blocked, s.bank, Move(sw.sender, ESCROW, sw.coin, SwapMoney))
    ensures Opens(cfg, s, Insert(cfg, s, sw, supplies, bank), SwapID(cfg, sw), sw)
  {
  }

  lemma OpeningKeepsIndexes(swaps: map<Bytes, Swap>, byBlock: set<Entry>, longterm: set<Entry>, id: Bytes, sw: Swap)
    requires ByBlockExact(swaps, byBlock) && LongtermExact(swaps, longterm)
    requires id !in swaps && sw.status == Open
    ensures ByBlockExact(swaps[id := sw], byBlock + {Entry(sw.expireHeight, id)})
    ensures LongtermExact(swaps[id := sw], longterm)
  {
    var swaps' := swaps[id := sw];
    forall e ensures e in byBlock + {Entry(sw.expireHeight, id)} <==> OpenAt(swaps', e) {
      assert e in byBlock <==> OpenAt(swaps, e);
    }
    forall e ensures e in longterm <==> CompletedAt(swaps', e) {
      assert e in longterm <==> CompletedAt(swaps, e);
    }
  }

  lemma OpeningKeepsSupplies(cfg: Config, s: State, s': State, id: Bytes, sw: Swap)
    requires SuppliesOk(cfg, s) && Opens(cfg, s, s', id, sw)
    ensures SuppliesOk(cfg, s')
  {
    forall denom <- s'.supplies ensures SupplyOk(cfg, s'.swaps, denom, s'.supplies[denom]) {
      assert SupplyOk(cfg, s.swaps, denom, s.supplies[denom]);
      PendingUpdate(s.swaps, id, sw, denom, Incoming);
      PendingUpdate(s.swaps, id, sw, denom, Outgoing);
    }
  }

  lemma OpeningKeepsEscrow(cfg: Config, s: State, s': State, id: Bytes, sw: Swap)
    requires EscrowOk(s) && Opens(cfg, s, s', id, sw)
    ensures EscrowOk(s')
  {
    forall denom ensures BalanceOf(s'.bank, ESCROW, denom) == Pending(s'.swaps, denom, Outgoing) {
      PendingUpdate(s.swaps, id, sw, denom, Outgoing);
    }
  }

  lemma OpeningKeepsInv(cfg: Config, s: State, s': State, id: Bytes, sw: Swap)
    requires Inv(cfg, s) && Opens(cfg, s, s', id, sw)
    ensures Inv(cfg, s')
  {
    OpeningKeepsIndexes(s.swaps, s.byBlock, s.longterm, id, sw);
    OpeningKeepsSupplies(cfg, s, s', id, sw);
    OpeningKeepsEscrow(cfg, s, s', id, sw);
  }

  lemma CreateKeepsInv(cfg: Config, s: State, ctx: Context, m: CreateMsg)
    requires Inv(cfg, s) && !m.sender.Module?
    requires Create(cfg, s, ctx, m).Ok?
    ensures Inv(cfg, Create(cfg, s, ctx, m).value)
  {
    CreateOpens(cfg, s, ctx, m);
    var (c, d) := CheckCreate(cfg, s, ctx, m).value;
    var sw := NewSwap(ctx, m, c, d);
    OpeningKeepsInv(cfg, s, Create(cfg, s, ctx, m).value, SwapID(cfg, sw), sw);
  }

  // ---------------------------------------------------------------- settling keeps the invariant

  lemma SettlingKeepsIndexes(
    swaps: map<Bytes, Swap>, byBlock: set<Entry>, longterm: set<Entry>, id: Bytes, ctx: Context)
    requires ByBlockExact(swaps, byBlock) && LongtermExact(swaps, longterm)
    requires id in swaps && swaps[id].Live()
    ensures ByBlockExact(swaps[id := Complete(swaps[id], ctx)], byBlock - {Entry(swaps[id].expireHeight, id)})
    ensures LongtermExact(swaps[id := Complete(swaps[id], ctx)], longterm + {Entry(ctx.height + LONGTERM_BLOCKS, id)})
  {
    var swaps' := swaps[id := Complete(swaps[id], ctx)];
    forall e ensures e in byBlock - {Entry(swaps[id].expireHeight, id)} <==> OpenAt(swaps', e) {
      assert e in byBlock <==> OpenAt(swaps, e);
    }
    forall e ensures e in longterm + {Entry(ctx.height + LONGTERM_BLOCKS, id)} <==> CompletedAt(swaps', e) {
      assert e in longterm <==> CompletedAt(swaps, e);
    }
  }

  lemma SettlingKeepsSupplies(cfg: Config, s: State, s': State, ctx: Context, id: Bytes)
    requires SuppliesOk(cfg, s) && id in s.swaps && s.swaps[id].Live() && Settles(cfg, s, s', ctx, id)
    ensures SuppliesOk(cfg, s')
  {
    var done := Complete(s.swaps[id], ctx);
    forall denom <- s'.supplies ensures SupplyOk(cfg, s'.swaps, denom, s'.supplies[denom]) {
      assert SupplyOk(cfg, s.swaps, denom, s.supplies[denom]);
      PendingUpdate(s.swaps, id, done, denom, Incoming);
      PendingUpdate(s.swaps, id, done, denom, Outgoing);
    }
  }

  lemma SettlingKeepsEscrow(cfg: Config, s: State, s': State, ctx: Context, id: Bytes)
    requires EscrowOk(s) && id in s.swaps && s.swaps[id].Live() && Settles(cfg, s, s', ctx, id)
    ensures EscrowOk(s')
  {
    forall denom ensures BalanceOf(s'.bank, ESCROW, denom) == Pending(s'.swaps, denom, Outgoing) {
      PendingUpdate(s.swaps, id, Complete(s.swaps[id], ctx), denom, Outgoing);
    }
  }

  lemma SettlingKeepsSwaps(cfg: Config, s: State, s': State, ctx: Context, id: Bytes)
    requires SwapsOk(cfg, s) && id in s.swaps && Settles(cfg, s, s', ctx, id)
    ensures SwapsOk(cfg, s')
  {
    forall i <- s'.swaps ensures SwapOk(cfg, s'.supplies, i, s'.swaps[i]) {
      assert SwapOk(cfg, s.supplies, i, s.swaps[i]);
    }
  }

  lemma SettlingKeepsInv(cfg: Config, s: State, s': State, ctx: Context, id: Bytes)
    requires Inv(cfg, s) && id in s.swaps && s.swaps[id].Live() && Settles(cfg, s, s', ctx, id)
    ensures Inv(cfg, s')
  {
    SettlingKeepsIndexes(s.swaps, s.byBlock, s.longterm, id, ctx);
    SettlingKeepsSupplies(cfg, s, s', ctx, id);
    SettlingKeepsEscrow(cfg, s, s', ctx, id);
    SettlingKeepsSwaps(cfg, s, s', ctx, id);
  }

  lemma ClaimKeepsInv(cfg: Config, s: State, ctx: Context, id: Bytes, secret: Bytes)
    requires Inv(cfg, s) && Claim(cfg, s, ctx, id, secret).Ok?
    ensures Inv(cfg, Claim(cfg, s, ctx, id, secret).value)
  {
    ClaimSettles(cfg, s, ctx, id, secret);
    SettlingKeepsInv(cfg, s, Claim(cfg, s, ctx, id, secret).value, ctx, id);
  }

  lemma RefundKeepsInv(cfg: Config, s: State, ctx: Context, id: Bytes)
    requires Inv(cfg, s) && Refund(cfg, s, ctx, id).Ok?
    ensures Inv(cfg, Refund(cfg, s, ctx, id).value)
  {
    RefundSettles(cfg, s, ctx, id);
    SettlingKeepsInv(cfg, s, Refund(cfg, s, ctx, id).value, ctx, id);
  }

  // ---------------------------------------------------------------- begin block keeps the invariant

  /** What the time-limit update does to one denom, whatever the order of the asset list. */
  lemma ValidRest(assets: seq<Asset>)
    requires ValidAssets(assets) && assets != []
    ensures ValidAssets(assets[1..]) && GetAsset(assets[1..], assets[0].denom).None?
  {
    var rest := assets[1..];
    forall a <- rest ensures a in assets && a.denom != assets[0].denom {
      var i :| 0 <= i < |rest| && rest[i] == a;
      assert assets[i + 1] == a;
    }
    forall i, j | 0 <= i < j < |rest| ensures rest[i].denom != rest[j].denom {
      assert assets[i + 1] == rest[i] && assets[j + 1] == rest[j];
    }
  }

  lemma {:induction false} TickAllPointwise(assets: seq<Asset>, m: Supplies, dt: int, denom: string)
    requires ValidAssets(assets)
    ensures var r := TickAll(assets, m, dt); var a := GetAsset(assets, denom);
            && (denom in r <==> denom in m || a.Some?)
            && (a.None? && denom in m ==> r[denom] == m[denom])
            && (a.Some? ==> r[denom] == Tick(a.value, m, dt)[denom])
    decreases |assets|
  {
    if assets != [] {
      ValidRest(assets);
      TickAllPointwise(assets[1..], Tick(assets[0], m, dt), dt, denom);
    }
  }

  /** A denom without a supply record has no swaps. */
  lemma NothingPending(cfg: Config, s: State, denom: string, dir: Direction)
    requires SwapsOk(cfg, s) && denom !in s.supplies
    ensures Pending(s.swaps, denom, dir) == 0
  {
    var none: map<Bytes, Swap> := map[];
    forall i <- s.swaps ensures s.swaps[i].coin.denom != denom {
      assert SwapOk(cfg, s.supplies, i, s.swaps[i]);
    }
    PendingAgrees(s.swaps, none, denom, dir);
  }

  /** A new time window, or a longer one, keeps the counters of every denom right; new records start at zero. */
  lemma TickKeepsSupply(cfg: Config, s: State, dt: int, denom: string)
    requires Inv(cfg, s) && denom in TickAll(cfg.assets, s.supplies, dt)
    ensures SupplyOk(cfg, s.swaps, denom, TickAll(cfg.assets, s.supplies, dt)[denom])
  {
    TickAllPointwise(cfg.assets, s.supplies, dt, denom);
    if denom in s.supplies {
      assert SupplyOk(cfg, s.swaps, denom, s.supplies[denom]);
    } else {
      NothingPending(cfg, s, denom, Incoming);
      NothingPending(cfg, s, denom, Outgoing);
    }
  }

  lemma TickKeepsSwap(cfg: Config, s: State, dt: int, id: Bytes)
    requires Inv(cfg, s) && id in s.swaps
    ensures SwapOk(cfg, TickAll(cfg.assets, s.supplies, dt), id, s.swaps[id])
  {
    assert SwapOk(cfg, s.supplies, id, s.swaps[id]);
    TickAllPointwise(cfg.assets, s.supplies, dt, s.swaps[id].coin.denom);
  }

  lemma TickKeepsInv(cfg: Config, s: State, dt: int, s': State)
    requires Inv(cfg, s) && s'.supplies == TickAll(cfg.assets, s.supplies, dt)
    requires s'.swaps == s.swaps && s'.byBlock == s.byBlock && s'.longterm == s.longterm && s'.bank == s.bank
    ensures Inv(cfg, s')
  {
    forall i <- s'.swaps ensures SwapOk(cfg, s'.supplies, i, s'.swaps[i]) {
      TickKeepsSwap(cfg, s, dt, i);
    }
    forall denom <- s'.supplies ensures SupplyOk(cfg, s'.swaps, denom, s'.supplies[denom]) {
      TickKeepsSupply(cfg, s, dt, denom);
    }
  }

  function ElapsedSince(s: State, ctx: Context): int {
    if s.previousBlockTime.Some? then ctx.time - s.previousBlockTime.value else 0
  }

  lemma UpdateLimitsTicks(cfg: Config, s: State, ctx: Context)
    ensures var s' := UpdateLimits(cfg, s, ctx);
            && s'.supplies == TickAll(cfg.assets, s.supplies, ElapsedSince(s, ctx))
            && s'.swaps == s.swaps && s'.byBlock == s.byBlock && s'.longterm == s.longterm && s'.bank == s.bank
  {
  }

  lemma UpdateLimitsKeepsInv(cfg: Config, s: State, ctx: Context)
    requires Inv(cfg, s)
    ensures Inv(cfg, UpdateLimits(cfg, s, ctx))
  {
    UpdateLimitsTicks(cfg, s, ctx);
    TickKeepsInv(cfg, s, ElapsedSince(s, ctx), UpdateLimits(cfg, s, ctx));
  }

  /** Rewriting the store without touching a live amount keeps counters and escrow right. */
  lemma SameLiveAmountsKeepSupplies(cfg: Config, s: State, s': State)
    requires SuppliesOk(cfg, s) && EscrowOk(s) && s'.supplies == s.supplies && s'.bank == s.bank
    requires forall i <- s'.swaps :: i in s.swaps
    requires forall i <- s'.swaps, d, dir :: Amount(s'.swaps[i], d, dir) == Amount(s.swaps[i], d, dir)
    requires forall i | i in s.swaps && i !in s'.swaps :: !s.swaps[i].Live()
    ensures SuppliesOk(cfg, s') && EscrowOk(s')
  {
    forall denom <- s'.supplies ensures SupplyOk(cfg, s'.swaps, denom, s'.supplies[denom]) {
      assert SupplyOk(cfg, s.swaps, denom, s.supplies[denom]);
      PendingAgrees(s'.swaps, s.swaps, denom, Incoming);
      PendingAgrees(s'.swaps, s.swaps, denom, Outgoing);
    }
    forall denom ensures BalanceOf(s'.bank, ESCROW, denom) == Pending(s'.swaps, denom, Outgoing) {
      PendingAgrees(s'.swaps, s.swaps, denom, Outgoing);
    }
  }

  lemma ExpireKeepsIndexes(s: State, height: nat)
    requires IndexesExact(s)
    ensures IndexesExact(ExpireDue(s, height))
  {
    var s' := ExpireDue(s, height);
    forall e ensures e in s'.byBlock <==> OpenAt(s'.swaps, e) {
      assert e in s.byBlock <==> OpenAt(s.swaps, e);
    }
    forall e ensures e in s'.longterm <==> CompletedAt(s'.swaps, e) {
      assert e in s.longterm <==> CompletedAt(s.swaps, e);
    }
  }

  lemma DeleteKeepsIndexes(s: State, height: nat)
    requires IndexesExact(s)
    ensures IndexesExact(DeleteOld(s, height))
  {
    var s' := DeleteOld(s, height);
    forall e ensures e in s'.byBlock <==> OpenAt(s'.swaps, e) {
      assert e in s.byBlock <==> OpenAt(s.swaps, e);
    }
    forall e ensures e in s'.longterm <==> CompletedAt(s'.swaps, e) {
      assert e in s.longterm <==> CompletedAt(s.swaps, e);
    }
  }

  lemma ExpireKeepsSupplies(cfg: Config, s: State, height: nat)
    requires SuppliesOk(cfg, s) && EscrowOk(s)
    ensures SuppliesOk(cfg, ExpireDue(s, height)) && EscrowOk(ExpireDue(s, height))
  {
    SameLiveAmountsKeepSupplies(cfg, s, ExpireDue(s, height));
  }

  lemma ExpireKeepsSwaps(cfg: Config, s: State, height: nat)
    requires SwapsOk(cfg, s)
    ensures SwapsOk(cfg, ExpireDue(s, height))
  {
  }

  lemma ExpireKeepsInv(cfg: Config, s: State, height: nat)
    requires Inv(cfg, s)
    ensures Inv(cfg, ExpireDue(s, height))
  {
    ExpireKeepsSwaps(cfg, s, height);
    ExpireKeepsIndexes(s, height);
    ExpireKeepsSupplies(cfg, s, height);
  }

  lemma DeleteKeepsInv(cfg: Config, s: State, height: nat)
    requires Inv(cfg, s)
    ensures Inv(cfg, DeleteOld(s, height))
  {
    DeleteKeepsIndexes(s, height);
    SameLiveAmountsKeepSupplies(cfg, s, DeleteOld(s, height));
  }

  lemma BeginBlockKeepsInv(cfg: Config, s: State, ctx: Context)
    requires Inv(cfg, s)
    ensures Inv(cfg, BeginBlock(cfg, s, ctx))
  {
    UpdateLimitsKeepsInv(cfg, s, ctx);
    ExpireKeepsInv(cfg, UpdateLimits(cfg, s, ctx), ctx.height);
    DeleteKeepsInv(cfg, ExpireDue(UpdateLimits(cfg, s, ctx), ctx.height), ctx.height);
  }
}
