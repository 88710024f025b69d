/** When the time-based limit bounds what is minted once and not twice: exactly when no reset falls inside the
    window after its first block. The bound is Bep3RateLimit.MintingIsLimitedOnce; here are the runs that exceed it
    otherwise. */
module Bep3RateExact {
  import opened Prelude
  import opened Keys
  import opened Banking
  import opened Bep3Spec
  import opened Bep3Invariant
  import opened Bep3Runs
  import opened Bep3RateLimit

  // ---------------------------------------------------------------- schedules of blocks

  /** Blocks that may follow one after another. */
  predicate Schedule(ctxs: seq<Context>, first: Context) {
    ctxs == [] ||
    (var n := |ctxs| - 1;
     var before := if n == 0 then first else ctxs[n - 1];
     Schedule(ctxs[..n], first) && before.height < ctxs[n].height && before.time <= ctxs[n].time)
  }

  function Times(ctxs: seq<Context>): seq<int> {
    seq(|ctxs|, i requires 0 <= i < |ctxs| => ctxs[i].time)
  }

  /** The blocks among the steps. */
  function BlocksIn(steps: seq<Step>): seq<Context> {
    if steps == [] then []
    else BlocksIn(steps[..|steps| - 1]) + (if steps[|steps| - 1].NewBlock? then [steps[|steps| - 1].ctx] else [])
  }

  lemma {:induction false} SchedulePrefix(ctxs: seq<Context>, first: Context, i: nat)
    requires Schedule(ctxs, first) && i <= |ctxs|
    ensures Schedule(ctxs[..i], first)
    decreases |ctxs|
  {
    if i < |ctxs| {
      SchedulePrefix(ctxs[..|ctxs| - 1], first, i);
      assert ctxs[..|ctxs| - 1][..i] == ctxs[..i];
    } else {
      assert ctxs[..i] == ctxs;
    }
  }

  lemma {:induction false} TimesDoNotFall(ctxs: seq<Context>, first: Context, i: nat, j: nat)
    requires Schedule(ctxs, first) && i <= j < |ctxs|
    ensures ctxs[i].time <= ctxs[j].time
    decreases |ctxs|, j
  {
    SchedulePrefix(ctxs, first, j + 1);
    if i < j {
      TimesDoNotFall(ctxs, first, i, j - 1);
      assert ctxs[..j + 1][j] == ctxs[j] && ctxs[..j + 1][j - 1] == ctxs[j - 1];
    }
  }

  /** In a run over a schedule every block happens, so its block times are those of the schedule. */
  lemma {:induction false} ScheduleHappens(cfg: Config, w: World, steps: seq<Step>)
    requires Schedule(BlocksIn(steps), w.ctx)
    ensures BlocksOf(cfg, w, steps).times == Times(BlocksIn(steps))
    ensures var ctxs, w' := BlocksIn(steps), Run(cfg, w, steps);
            if ctxs == [] then w'.ctx == w.ctx && w'.begun == w.begun else w'.ctx == ctxs[|ctxs| - 1] && w'.begun
    decreases |steps|
  {
    if steps != [] {
      var before, step := steps[..|steps| - 1], steps[|steps| - 1];
      if step.NewBlock? {
        assert BlocksIn(steps)[..|BlocksIn(steps)| - 1] == BlocksIn(before);
        ScheduleHappens(cfg, w, before);
        assert Admissible(Run(cfg, w, before), step);
        assert Times(BlocksIn(steps)) == Times(BlocksIn(before)) + [step.ctx.time];
      } else {
        assert BlocksIn(steps) == BlocksIn(before);
        ScheduleHappens(cfg, w, before);
        MessagesKeepBlock(cfg, Run(cfg, w, before), step);
      }
    }
  }

  lemma MessagesKeepBlock(cfg: Config, w: World, step: Step)
    requires !step.NewBlock?
    ensures Exec(cfg, w, step).ctx == w.ctx && Exec(cfg, w, step).begun == w.begun
  {
  }

  lemma BlocksInSnoc(steps: seq<Step>, step: Step)
    ensures BlocksIn(steps + [step]) == BlocksIn(steps) + (if step.NewBlock? then [step.ctx] else [])
  {
    assert (steps + [step])[..|steps + [step]| - 1] == steps;
  }

  // ---------------------------------------------------------------- a chain with one asset

  const BNB := "bnb"
  const DEPUTY: Account := User(0)

  /** The time-based limit and the period of the asset, and the time before the first block. */
  datatype Setting = Setting(limit: nat, period: int, time: int)

  function OneAsset(x: Setting): Asset {
    Asset(BNB, 714, SupplyLimit(2 * x.limit, true, x.period, x.limit), true, DEPUTY, 0, 1, x.limit, 1, 1)
  }

  /** A chain with one time-limited asset. Its hash of a secret is the secret, so every claim can be made. */
  function Chain(x: Setting): Config {
    Config([OneAsset(x)], {"bep3"}, (h: Bytes, a: Account, other: string) => h, (r: Bytes, t: int) => r)
  }

  function Empty(x: Setting): World {
    World(State(map[], {}, {}, map[], None, map[]), Context(0, x.time), false, [])
  }

  ghost function After(x: Setting, steps: seq<Step>): World {
    Run(Chain(x), Empty(x), steps)
  }

  function AnchorOf(x: Setting, ctxs: seq<Context>): int {
    Anchor(MeterOf(Empty(x).s, OneAsset(x)), Times(ctxs))
  }

  lemma ChainStarts(x: Setting)
    requires x.limit > 0
    ensures Start(Chain(x), Empty(x)) && OneAsset(x) in Chain(x).assets
    ensures GetAsset(Chain(x).assets, BNB) == Some(OneAsset(x))
  {
    assert Chain(x).assets[0] == OneAsset(x);
    InvInitially(Chain(x), map[], None);
  }

  /** A swap of the whole limit from the deputy, and the events of making and claiming it. */
  function SwapMsg(x: Setting, ctx: Context, hash: Bytes): CreateMsg {
    CreateMsg(hash, ctx.time / NANOS, 1, DEPUTY, User(1), "deputy", "user", [Coin(BNB, x.limit)], true)
  }

  function SwapOf(x: Setting, ctx: Context, hash: Bytes): Swap {
    NewSwap(ctx, SwapMsg(x, ctx, hash), Coin(BNB, x.limit), Incoming)
  }

  function MintEvents(x: Setting, ctx: Context, hash: Bytes): seq<Event> {
    [Created(hash, SwapOf(x, ctx, hash)), Claimed(hash, SwapOf(x, ctx, hash), ctx)]
  }

  function IncomingOf(s: State): nat {
    if BNB in s.supplies then s.supplies[BNB].incoming else 0
  }

  /** The span of an incoming swap plays no part in whether it can be created. */
  lemma CreateGoesThrough(x: Setting, s: State, ctx: Context, hash: Bytes, m: CreateMsg)
    requires x.limit > 0 && hash !in s.swaps && BNB in s.supplies
    requires var c := s.supplies[BNB]; c.incoming == 0 && c.current <= x.limit && c.timeLimited == 0
    requires m == SwapMsg(x, ctx, hash).(heightSpan := m.heightSpan)
    ensures var cfg := Chain(x);
            && CheckCreate(cfg, s, ctx, m) == Ok((Coin(BNB, x.limit), Incoming))
            && Create(cfg, s, ctx, m) ==
               Ok(Insert(cfg, s, NewSwap(ctx, m, Coin(BNB, x.limit), Incoming),
                         s.supplies[BNB := s.supplies[BNB].(incoming := x.limit)], s.bank))
  {
    ChainStarts(x);
    var cfg := Chain(x);
    assert CheckCreate(cfg, s, ctx, m) == Ok((Coin(BNB, x.limit), Incoming));
    assert IncrementIncoming(cfg, s.supplies, Coin(BNB, x.limit)) ==
           Ok(s.supplies[BNB := s.supplies[BNB].(incoming := x.limit)]);
  }

  /** w1 is w with a new swap of the whole limit. */
  ghost predicate Made(x: Setting, w: World, w1: World, hash: Bytes) {
    var sw := SwapOf(x, w.ctx, hash);
    && BNB in w.s.supplies && w1 == w.(s := w1.s, log := w.log + [Created(hash, sw)])
    && w1.s.swaps == w.s.swaps[hash := sw]
    && w1.s.supplies == w.s.supplies[BNB := w.s.supplies[BNB].(incoming := x.limit)]
  }

  /** w1 is w with this incoming swap claimed. */
  ghost predicate Taken(w: World, w1: World, id: Bytes) {
    && id in w.s.swaps && w1 == w.(s := w1.s, log := w.log + [Claimed(id, w.s.swaps[id], w.ctx)])
    && w1.s.swaps.Keys == w.s.swaps.Keys
    && IncomingOf(w1.s) == IncomingOf(w.s) - w.s.swaps[id].coin.amount
    && CurrentOf(w1.s, BNB) == CurrentOf(w.s, BNB) + w.s.swaps[id].coin.amount
  }

  /** With the counter at zero, a swap of the whole limit can be created. */
  lemma SwapIsMade(x: Setting, w: World, hash: Bytes)
    requires x.limit > 0 && w.begun && Inv(Chain(x), w.s) && hash !in w.s.swaps && BNB in w.s.supplies
    requires var c := w.s.supplies[BNB]; c.incoming == 0 && c.current <= x.limit && c.timeLimited == 0
    ensures var w1 := Exec(Chain(x), w, CreateSwap(SwapMsg(x, w.ctx, hash)));
            Inv(Chain(x), w1.s) && Made(x, w, w1, hash) && RightSecret(Chain(x), SwapOf(x, w.ctx, hash), hash)
  {
    CreateGoesThrough(x, w.s, w.ctx, hash, SwapMsg(x, w.ctx, hash));
    StepKeepsInv(Chain(x), w, CreateSwap(SwapMsg(x, w.ctx, hash)));
  }

  /** The counters after the claim of an incoming swap. */
  lemma CountersAfterClaim(cfg: Config, s: State, s': State, ctx: Context, id: Bytes)
    requires id in s.swaps && Settles(cfg, s, s', ctx, id)
    requires var sw := s.swaps[id]; sw.direction == Incoming && sw.coin.denom == BNB
    requires Issues(cfg, s.supplies[BNB], s'.supplies[BNB], s.swaps[id], true)
    ensures s'.swaps.Keys == s.swaps.Keys
    ensures IncomingOf(s') == IncomingOf(s) - s.swaps[id].coin.amount
    ensures CurrentOf(s', BNB) == CurrentOf(s, BNB) + s.swaps[id].coin.amount
  {
  }

  /** An open incoming swap can be claimed, which mints its coin. */
  lemma SwapIsTaken(cfg: Config, w: World, id: Bytes, secret: Bytes)
    requires w.begun && Inv(cfg, w.s) && id in w.s.swaps && RightSecret(cfg, w.s.swaps[id], secret)
    requires var sw := w.s.swaps[id]; sw.status == Open && sw.direction == Incoming && sw.coin.denom == BNB
    ensures Taken(w, Exec(cfg, w, ClaimSwap(id, secret)), id)
  {
    ClaimSucceedsExactly(cfg, w.s, w.ctx, id, secret);
    ClaimSettles(cfg, w.s, w.ctx, id, secret);
    CountersAfterClaim(cfg, w.s, Claim(cfg, w.s, w.ctx, id, secret).value, w.ctx, id);
    ExecSettles(cfg, w, id, secret);
  }

  // ---------------------------------------------------------------- runs on this chain

  /** Nothing is pending, and this much has been minted. */
  predicate Quiet(w: World, log: seq<Event>, current: nat, used: set<Bytes>)
  {
    w.log == log && CurrentOf(w.s, BNB) == current && IncomingOf(w.s) == 0 && w.s.swaps.Keys <= used
  }

  /** A run over these blocks that has left the chain quiet. */
  ghost predicate Reached(
    x: Setting, steps: seq<Step>, ctxs: seq<Context>, log: seq<Event>, current: nat, used: set<Bytes>)
  {
    x.limit > 0 && BlocksIn(steps) == ctxs && Quiet(After(x, steps), log, current, used)
  }

  /** A block leaves a quiet chain quiet. */
  lemma BlockIsQuiet(x: Setting, w: World, ctx: Context, log: seq<Event>, current: nat, used: set<Bytes>)
    requires x.limit > 0 && Quiet(w, log, current, used) && Admissible(w, NewBlock(ctx))
    ensures var w' := Exec(Chain(x), w, NewBlock(ctx));
            Quiet(w', log, current, used) && BNB in w'.s.supplies && w'.ctx == ctx && w'.begun
  {
    ChainStarts(x);
    BlockTicks(Chain(x), w.s, ctx, BNB, OneAsset(x).supplyLimit);
    assert BeginBlock(Chain(x), w.s, ctx).swaps.Keys <= w.s.swaps.Keys;
  }

  lemma AddBlock(
    x: Setting, steps: seq<Step>, ctxs: seq<Context>, log: seq<Event>, current: nat, used: set<Bytes>, ctx: Context)
    requires Reached(x, steps, ctxs, log, current, used) && Schedule(ctxs + [ctx], Context(0, x.time))
    ensures var more := steps + [NewBlock(ctx)];
            && Reached(x, more, ctxs + [ctx], log, current, used)
            && BNB in After(x, more).s.supplies && After(x, more).ctx == ctx && After(x, more).begun
  {
    assert (ctxs + [ctx])[..|ctxs|] == ctxs;
    ScheduleHappens(Chain(x), Empty(x), steps);
    BlocksInSnoc(steps, NewBlock(ctx));
    RunSnoc(Chain(x), Empty(x), steps, NewBlock(ctx));
    BlockIsQuiet(x, After(x, steps), ctx, log, current, used);
  }

  lemma {:induction false} AddBlocks(
    x: Setting, steps: seq<Step>, ctxs: seq<Context>, log: seq<Event>, current: nat, used: set<Bytes>,
    rest: seq<Context>)
    returns (more: seq<Step>)
    requires Reached(x, steps, ctxs, log, current, used) && Schedule(ctxs + rest, Context(0, x.time))
    ensures Reached(x, more, ctxs + rest, log, current, used)
    decreases |rest|
  {
    if rest == [] {
      assert ctxs + rest == ctxs;
      more := steps;
    } else {
      SchedulePrefix(ctxs + rest, Context(0, x.time), |ctxs| + 1);
      assert (ctxs + rest)[..|ctxs| + 1] == ctxs + [rest[0]] && ctxs + [rest[0]] + rest[1..] == ctxs + rest;
      AddBlock(x, steps, ctxs, log, current, used, rest[0]);
      more := AddBlocks(x, steps + [NewBlock(rest[0])], ctxs + [rest[0]], log, current, used, rest[1..]);
    }
  }

  /** With the counter at zero, the whole limit can be claimed in. */
  lemma MintHappens(x: Setting, w: World, log: seq<Event>, current: nat, used: set<Bytes>, hash: Bytes)
    requires x.limit > 0 && Inv(Chain(x), w.s) && Quiet(w, log, current, used) && current <= x.limit && hash !in used
    requires w.begun && BNB in w.s.supplies && w.s.supplies[BNB].timeLimited == 0
    ensures var w1 := Exec(Chain(x), w, CreateSwap(SwapMsg(x, w.ctx, hash)));
            var w2 := Exec(Chain(x), w1, ClaimSwap(hash, hash));
            Quiet(w2, log + MintEvents(x, w.ctx, hash), current + x.limit, used + {hash})
  {
    var w1 := Exec(Chain(x), w, CreateSwap(SwapMsg(x, w.ctx, hash)));
    SwapIsMade(x, w, hash);
    SwapIsTaken(Chain(x), w1, hash, hash);
    QuietAgain(x, w, w1, Exec(Chain(x), w1, ClaimSwap(hash, hash)), log, current, used, hash);
  }

  lemma QuietAgain(
    x: Setting, w: World, w1: World, w2: World, log: seq<Event>, current: nat, used: set<Bytes>, hash: Bytes)
    requires Quiet(w, log, current, used) && Made(x, w, w1, hash) && Taken(w1, w2, hash)
    ensures Quiet(w2, log + MintEvents(x, w.ctx, hash), current + x.limit, used + {hash})
  {
  }

  lemma AddMint(
    x: Setting, steps: seq<Step>, ctxs: seq<Context>, log: seq<Event>, current: nat, used: set<Bytes>, hash: Bytes)
    returns (more: seq<Step>)
    requires Reached(x, steps, ctxs, log, current, used) && current <= x.limit && hash !in used
    requires var w := After(x, steps); w.begun && BNB in w.s.supplies && w.s.supplies[BNB].timeLimited == 0
    ensures Reached(x, more, ctxs, log + MintEvents(x, After(x, steps).ctx, hash), current + x.limit, used + {hash})
  {
    var make, take := CreateSwap(SwapMsg(x, After(x, steps).ctx, hash)), ClaimSwap(hash, hash);
    ChainStarts(x);
    RunKeepsInv(Chain(x), Empty(x), steps);
    MintHappens(x, After(x, steps), log, current, used, hash);
    RunSnoc(Chain(x), Empty(x), steps, make);
    RunSnoc(Chain(x), Empty(x), steps + [make], take);
    BlocksInSnoc(steps, make);
    BlocksInSnoc(steps + [make], take);
    more := steps + [make] + [take];
  }

  // ---------------------------------------------------------------- the counter at zero

  /** The counter is zero as long as nothing has been claimed. */
  lemma ZeroAtFirst(x: Setting, steps: seq<Step>)
    requires x.limit > 0 && After(x, steps).begun && After(x, steps).log == []
    ensures var w := After(x, steps); BNB in w.s.supplies && w.s.supplies[BNB].timeLimited == 0
  {
    ChainStarts(x);
    CounterIsMintedSinceReset(Chain(x), Empty(x), steps, OneAsset(x));
    var bs := BlocksOf(Chain(x), Empty(x), steps);
    assert After(x, steps).log[MarkOf(MeterOf(Empty(x).s, OneAsset(x)), bs)..] == [];
  }

  /** The counter is zero in a block that starts a new period. */
  lemma ZeroAtReset(x: Setting, steps: seq<Step>, ctx: Context)
    requires x.limit > 0 && Schedule(BlocksIn(steps) + [ctx], Context(0, x.time))
    requires var ctxs := BlocksIn(steps) + [ctx]; ResetsAt(Times(ctxs), AnchorOf(x, ctxs), x.period, |ctxs| - 1)
    ensures var w := After(x, steps + [NewBlock(ctx)]); BNB in w.s.supplies && w.s.supplies[BNB].timeLimited == 0
  {
    var cfg, w0, all, ctxs := Chain(x), Empty(x), steps + [NewBlock(ctx)], BlocksIn(steps) + [ctx];
    var m, bs := MeterOf(w0.s, OneAsset(x)), BlocksOf(cfg, w0, all);
    BlocksInSnoc(steps, NewBlock(ctx));
    assert ctxs[..|ctxs| - 1] == BlocksIn(steps) && all[..|all| - 1] == steps;
    ScheduleHappens(cfg, w0, steps);
    ScheduleHappens(cfg, w0, all);
    assert Times(ctxs)[..|ctxs|] == Times(ctxs);
    assert MarkOf(m, bs) == |After(x, steps).log| == |After(x, all).log|;
    ChainStarts(x);
    CounterIsMintedSinceReset(cfg, w0, all, OneAsset(x));
    assert After(x, all).log[MarkOf(m, bs)..] == [];
  }

  // ---------------------------------------------------------------- twice the limit

  function Hash(b: byte): Bytes {
    seq(32, i => b)
  }

  /** The whole limit is claimed in at the last of these blocks, while the log is still empty. */
  lemma FirstMint(x: Setting, rest: seq<Context>, ctx: Context) returns (steps: seq<Step>)
    requires x.limit > 0 && Schedule(rest + [ctx], Context(0, x.time))
    ensures Reached(x, steps, rest + [ctx], MintEvents(x, ctx, Hash(1)), x.limit, {Hash(1)})
  {
    assert (rest + [ctx])[..|rest|] == rest == [] + rest;
    var before := AddBlocks(x, [], [], [], 0, {}, rest);
    AddBlock(x, before, rest, [], 0, {}, ctx);
    ZeroAtFirst(x, before + [NewBlock(ctx)]);
    steps := AddMint(x, before + [NewBlock(ctx)], rest + [ctx], [], 0, {}, Hash(1));
    Nothing(MintEvents(x, ctx, Hash(1)), {Hash(1)});
  }

  lemma Nothing(log: seq<Event>, used: set<Bytes>)
    ensures [] + log == log && {} + used == used
  {
  }

  /** After the limit has been claimed in once, it is claimed in again in a block that resets the counter. */
  lemma SecondMint(x: Setting, steps: seq<Step>, ctxs: seq<Context>, log: seq<Event>, rest: seq<Context>, ctx: Context)
    returns (more: seq<Step>)
    requires Reached(x, steps, ctxs, log, x.limit, {Hash(1)})
    requires Schedule(ctxs + rest + [ctx], Context(0, x.time))
    requires var all := ctxs + rest + [ctx]; ResetsAt(Times(all), AnchorOf(x, all), x.period, |all| - 1)
    ensures Reached(x, more, ctxs + rest + [ctx], log + MintEvents(x, ctx, Hash(2)), 2 * x.limit, {Hash(1), Hash(2)})
  {
    SchedulePrefix(ctxs + rest + [ctx], Context(0, x.time), |ctxs + rest|);
    assert (ctxs + rest + [ctx])[..|ctxs + rest|] == ctxs + rest;
    var before := AddBlocks(x, steps, ctxs, log, x.limit, {Hash(1)}, rest);
    AddBlock(x, before, ctxs + rest, log, x.limit, {Hash(1)}, ctx);
    ZeroAtReset(x, before, ctx);
    assert Hash(1)[0] != Hash(2)[0];
    more := AddMint(x, before + [NewBlock(ctx)], ctxs + rest + [ctx], log, x.limit, {Hash(1)}, Hash(2));
    assert {Hash(1)} + {Hash(2)} == {Hash(1), Hash(2)};
  }

  /** Whatever the schedule of blocks, if block j starts a new period, then over the same schedule twice the limit
      can be claimed in at the times of an earlier block i and of block j. */
  lemma TwiceAcrossReset(x: Setting, ctxs: seq<Context>, i: nat, j: nat) returns (steps: seq<Step>)
    requires x.limit > 0 && Schedule(ctxs, Context(0, x.time)) && i < j < |ctxs|
    requires ResetsAt(Times(ctxs), AnchorOf(x, ctxs), x.period, j)
    ensures BlocksIn(steps) == ctxs
    ensures MintedIn(After(x, steps).log, BNB, ctxs[i].time, ctxs[j].time) == 2 * x.limit
  {
    var log := MintEvents(x, ctxs[i], Hash(1));
    Pieces(ctxs, i, j);
    SchedulePrefix(ctxs, Context(0, x.time), i + 1);
    SchedulePrefix(ctxs, Context(0, x.time), j + 1);
    ResetInPrefix(x, ctxs, j);
    var first := FirstMint(x, ctxs[..i], ctxs[i]);
    var second := SecondMint(x, first, ctxs[..i + 1], log, ctxs[i + 1..j], ctxs[j]);
    steps := AddBlocks(x, second, ctxs[..j + 1], log + MintEvents(x, ctxs[j], Hash(2)), 2 * x.limit, {Hash(1), Hash(2)},
                       ctxs[j + 1..]);
    TimesDoNotFall(ctxs, Context(0, x.time), i, j);
    TwoMints(x, ctxs[i], ctxs[j]);
  }

  lemma Pieces(ctxs: seq<Context>, i: nat, j: nat)
    requires i < j < |ctxs|
    ensures ctxs[..i] + [ctxs[i]] == ctxs[..i + 1]
    ensures ctxs[..i + 1] + ctxs[i + 1..j] + [ctxs[j]] == ctxs[..j + 1]
    ensures ctxs[..j + 1] + ctxs[j + 1..] == ctxs
  {
  }

  lemma ResetInPrefix(x: Setting, ctxs: seq<Context>, j: nat)
    requires j < |ctxs| && ResetsAt(Times(ctxs), AnchorOf(x, ctxs), x.period, j)
    ensures ResetsAt(Times(ctxs[..j + 1]), AnchorOf(x, ctxs[..j + 1]), x.period, j)
  {
    assert Times(ctxs[..j + 1]) == Times(ctxs)[..j + 1] == Times(ctxs[..j + 1])[..j + 1];
  }

  lemma TwoMints(x: Setting, c: Context, d: Context)
    requires c.time <= d.time
    ensures MintedIn(MintEvents(x, c, Hash(1)) + MintEvents(x, d, Hash(2)), BNB, c.time, d.time) == 2 * x.limit
  {
    MintedConcat(MintEvents(x, c, Hash(1)), MintEvents(x, d, Hash(2)), BNB, c.time, d.time);
    OneMint(x, c, Hash(1), c.time, d.time);
    OneMint(x, d, Hash(2), c.time, d.time);
  }

  lemma OneMint(x: Setting, ctx: Context, hash: Bytes, a: int, b: int)
    requires a <= ctx.time <= b
    ensures MintedIn(MintEvents(x, ctx, hash), BNB, a, b) == x.limit
  {
    var log := MintEvents(x, ctx, hash);
    assert log == [log[0]] + [log[1]] && [] + [log[0]] == [log[0]];
    MintedInMore([log[0]], log[1], BNB, a, b);
    MintedInMore([], log[0], BNB, a, b);
  }

  lemma {:induction false} WiderMintsMore(log: seq<Event>, denom: string, a: int, b: int, a': int, b': int)
    requires a' <= a && b <= b'
    ensures MintedIn(log, denom, a, b) <= MintedIn(log, denom, a', b')
    decreases |log|
  {
    if log != [] { WiderMintsMore(log[..|log| - 1], denom, a, b, a', b'); }
  }

  // ---------------------------------------------------------------- the exact condition

  /** Every run over these blocks keeps to the limit once at block times in [a, b]. */
  ghost predicate AlwaysOnce(x: Setting, ctxs: seq<Context>, a: int, b: int) {
    forall steps :: BlocksIn(steps) == ctxs ==> MintedIn(After(x, steps).log, BNB, a, b) <= x.limit
  }

  /** The schedule of blocks decides: the limit bounds what every run over it mints in a window exactly when, of the
      blocks in the window, only the first may start a new period. */
  lemma OnceExactlyWhenUnbroken(x: Setting, ctxs: seq<Context>, a: int, b: int)
    requires x.limit > 0 && Schedule(ctxs, Context(0, x.time))
    ensures AlwaysOnce(x, ctxs, a, b) <==> Unbroken(Times(ctxs), AnchorOf(x, ctxs), x.period, a, b)
  {
    if Unbroken(Times(ctxs), AnchorOf(x, ctxs), x.period, a, b) {
      ChainStarts(x);
      forall steps | BlocksIn(steps) == ctxs ensures MintedIn(After(x, steps).log, BNB, a, b) <= x.limit {
        ScheduleHappens(Chain(x), Empty(x), steps);
        MintingIsLimitedOnce(Chain(x), Empty(x), steps, OneAsset(x), a, b);
      }
    } else {
      var i, j :| 0 <= i < j < |ctxs| && ResetsAt(Times(ctxs), AnchorOf(x, ctxs), x.period, j)
                  && ctxs[j].time <= b && ctxs[i].time >= a;
      var steps := TwiceAcrossReset(x, ctxs, i, j);
      WiderMintsMore(After(x, steps).log, BNB, ctxs[i].time, ctxs[j].time, a, b);
    }
  }

  /** A run that mints twice the limit within one nanosecond, for every limit and every period of at least two: the
      limit is claimed in one nanosecond before the period is over, and again when it is. */
  lemma TwiceWithinOnePeriod(x: Setting) returns (steps: seq<Step>)
    requires x == Setting(x.limit, x.period, 0) && x.limit > 0 && x.period >= 2
    ensures BlocksIn(steps) == [Context(1, 0), Context(2, x.period - 1), Context(3, x.period)]
    ensures MintedIn(After(x, steps).log, BNB, x.period - 1, x.period) == 2 * x.limit
  {
    var ctxs := [Context(1, 0), Context(2, x.period - 1), Context(3, x.period)];
    assert ctxs[..2] == [Context(1, 0), Context(2, x.period - 1)] && ctxs[..2][..1] == [Context(1, 0)];
    assert [Context(1, 0)][..0] == [];
    assert Schedule(ctxs[..2][..1], Context(0, 0));
    assert Schedule(ctxs[..2], Context(0, 0));
    assert Schedule(ctxs, Context(0, 0));
    var times := Times(ctxs);
    assert times[..3] == times && times[..2][..1] == times[..1] && times[..1][..0] == [];
    assert LastReset(times[..1][..0], 0, x.period) == None;
    assert LastReset(times[..1], 0, x.period) == None;
    assert LastReset(times[..2], 0, x.period) == None;
    assert LastReset(times, 0, x.period) == Some(2);
    steps := TwiceAcrossReset(x, ctxs, 1, 2);
  }
}
