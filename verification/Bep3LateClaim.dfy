/** A claim outside its window: the handler does not check the height span of incoming swaps, so the expiry height
    of one can wrap around and lie behind the block that makes it. */
module Bep3LateClaim {
  import opened Prelude
  import opened Keys
  import opened Bep3Spec
  import opened Bep3Invariant
  import opened Bep3Runs
  import opened Bep3RateExact
  import Genesis = Bep3Genesis

  /** The deputy's message of Bep3RateExact with the longest span there is. */
  function LongMsg(x: Setting, ctx: Context): CreateMsg {
    SwapMsg(x, ctx, Hash(1)).(heightSpan := U64 - 1)
  }

  function LateSteps(x: Setting, ctx: Context): seq<Step> {
    [NewBlock(ctx), CreateSwap(LongMsg(x, ctx)), ClaimSwap(Hash(1), Hash(1))]
  }

  /** The message passes ValidateBasic, as long as block times are past the first second. */
  lemma LongMsgIsBasic(x: Setting, ctx: Context)
    requires ctx.time >= NANOS
    ensures Genesis.Basic(LongMsg(x, ctx))
  {
    var to := LongMsg(x, ctx).recipientOtherChain;
    assert to[0] in to && !IsSpace(to[0]);
  }

  /** In any block, on any such chain: the deputy makes a swap with the longest span, it is claimed at once, and the
      claim comes at or after the expiry height. */
  lemma ClaimCanComeLate(x: Setting, ctx: Context)
    requires x.limit > 0 && 0 < ctx.height < U64 && x.time <= ctx.time
    ensures Start(Chain(x), Empty(x)) && !AllInWindow(After(x, LateSteps(x, ctx)).log)
    ensures ctx.time >= NANOS ==> Genesis.Basic(LongMsg(x, ctx))
  {
    if ctx.time >= NANOS { LongMsgIsBasic(x, ctx); }
    ChainStarts(x);
    FirstBlock(x, ctx);
    LateInBlock(x, After(x, [NewBlock(ctx)]), LongMsg(x, ctx));
    LateRun(x, ctx);
  }

  lemma FirstBlock(x: Setting, ctx: Context)
    requires x.limit > 0 && 0 < ctx.height && x.time <= ctx.time
    ensures var w := After(x, [NewBlock(ctx)]);
            && Inv(Chain(x), w.s) && w.begun && w.ctx == ctx && Quiet(w, [], 0, {})
            && BNB in w.s.supplies && w.s.supplies[BNB].timeLimited == 0
  {
    var first := [NewBlock(ctx)];
    assert [] + first == first;
    RunSnoc(Chain(x), Empty(x), [], NewBlock(ctx));
    BlockIsQuiet(x, Empty(x), ctx, [], 0, {});
    ZeroAtFirst(x, first);
    ChainStarts(x);
    RunKeepsInv(Chain(x), Empty(x), first);
  }

  lemma LateRun(x: Setting, ctx: Context)
    ensures var w1 := Exec(Chain(x), After(x, [NewBlock(ctx)]), CreateSwap(LongMsg(x, ctx)));
            After(x, LateSteps(x, ctx)) == Exec(Chain(x), w1, ClaimSwap(Hash(1), Hash(1)))
  {
    var first, make, take := [NewBlock(ctx)], CreateSwap(LongMsg(x, ctx)), ClaimSwap(Hash(1), Hash(1));
    assert LateSteps(x, ctx) == first + [make] + [take];
    RunSnoc(Chain(x), Empty(x), first, make);
    RunSnoc(Chain(x), Empty(x), first + [make], take);
  }

  lemma LateInBlock(x: Setting, w: World, m: CreateMsg)
    requires x.limit > 0 && Inv(Chain(x), w.s) && w.begun && 0 < w.ctx.height < U64 && m == LongMsg(x, w.ctx)
    requires Quiet(w, [], 0, {}) && BNB in w.s.supplies && w.s.supplies[BNB].timeLimited == 0
    ensures !AllInWindow(Exec(Chain(x), Exec(Chain(x), w, CreateSwap(m)), ClaimSwap(Hash(1), Hash(1))).log)
  {
    CreateGoesThrough(x, w.s, w.ctx, Hash(1), m);
    FirstClaimInWindowExactly(Chain(x), w, m, Hash(1));
    var log := Exec(Chain(x), Exec(Chain(x), w, CreateSwap(m)), ClaimSwap(Hash(1), Hash(1))).log;
    assert !InWindow(log[|log| - 1]);
  }
}
