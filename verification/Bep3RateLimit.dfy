/** The time-based limit as a statement about runs. Block times alone decide when the counter of claimed-in coins is
    reset; between resets at most the limit is minted, and in any stretch shorter than the period at most twice. */
module Bep3RateLimit {
  import opened Prelude
  import opened Keys
  import opened Bep3Spec
  import opened Bep3Invariant
  import opened Bep3Runs

  // ---------------------------------------------------------------- what a log mints

  /** What an event mints of a denom. */
  function MintOf(e: Event, denom: string): nat {
    if e.Claimed? && e.sw.direction == Incoming && e.sw.coin.denom == denom then e.sw.coin.amount else 0
  }

  /** What an event mints of a denom, if it happened at a block time in [a, b]. */
  function Mints(e: Event, denom: string, a: int, b: int): nat {
    if e.Claimed? && a <= e.at.time <= b then MintOf(e, denom) else 0
  }

  function MintedIn(log: seq<Event>, denom: string, a: int, b: int): nat {
    if log == [] then 0 else MintedIn(log[..|log| - 1], denom, a, b) + Mints(log[|log| - 1], denom, a, b)
  }

  /** What a stretch of the log mints of a denom, whenever. */
  function Minted(log: seq<Event>, denom: string): nat {
    if log == [] then 0 else Minted(log[..|log| - 1], denom) + MintOf(log[|log| - 1], denom)
  }

  lemma MintedMore(log: seq<Event>, k: nat, e: Event, denom: string)
    requires k <= |log|
    ensures Minted((log + [e])[k..], denom) == Minted(log[k..], denom) + MintOf(e, denom)
  {
    var more := (log + [e])[k..];
    assert more == log[k..] + [e] && more[..|more| - 1] == log[k..];
  }

  lemma {:induction false} MintedInIsMinted(log: seq<Event>, denom: string, a: int, b: int)
    ensures MintedIn(log, denom, a, b) <= Minted(log, denom)
    decreases |log|
  {
    if log != [] { MintedInIsMinted(log[..|log| - 1], denom, a, b); }
  }

  lemma {:induction false} MintedConcat(x: seq<Event>, y: seq<Event>, denom: string, a: int, b: int)
    ensures MintedIn(x + y, denom, a, b) == MintedIn(x, denom, a, b) + MintedIn(y, denom, a, b)
    decreases |y|
  {
    if y == [] {
      assert x + y == x;
    } else {
      assert (x + y)[..|x + y| - 1] == x + y[..|y| - 1];
      MintedConcat(x, y[..|y| - 1], denom, a, b);
    }
  }

  lemma MintedInMore(log: seq<Event>, e: Event, denom: string, a: int, b: int)
    ensures MintedIn(log + [e], denom, a, b) == MintedIn(log, denom, a, b) + Mints(e, denom, a, b)
  {
    assert (log + [e])[..|log + [e]| - 1] == log;
  }

  lemma {:induction false} NothingMintedLater(log: seq<Event>, denom: string, a: int, b: int)
    requires forall i :: 0 <= i < |log| && log[i].Claimed? ==> log[i].at.time < a
    ensures MintedIn(log, denom, a, b) == 0
    decreases |log|
  {
    if log != [] {
      NothingMintedLater(log[..|log| - 1], denom, a, b);
    }
  }

  // ---------------------------------------------------------------- resets, from block times alone

  /** The position of the last block that starts a new period. Periods start at a full period after the start of the one
      before; the first began at the anchor, before the first block. */
  function LastReset(times: seq<int>, anchor: int, period: int): (r: Option<nat>)
    ensures r.Some? ==> r.value < |times|
    decreases |times|, 0
  {
    if times == [] then None
    else
      var n := |times| - 1;
      if times[n] - Since(times[..n], anchor, period) >= period then Some(n) else LastReset(times[..n], anchor, period)
  }

  /** When the present period began. */
  function Since(times: seq<int>, anchor: int, period: int): int
    decreases |times|, 1
  {
    var r := LastReset(times, anchor, period);
    if r.None? then anchor else times[r.value]
  }

  /** Block j starts a new period. */
  predicate ResetsAt(times: seq<int>, anchor: int, period: int, j: nat) {
    j < |times| && LastReset(times[..j + 1], anchor, period) == Some(j)
  }

  lemma {:induction false} LastResetResets(times: seq<int>, anchor: int, period: int)
    ensures var r := LastReset(times, anchor, period); r.Some? ==> ResetsAt(times, anchor, period, r.value)
    decreases |times|
  {
    if times != [] {
      var n := |times| - 1;
      var r := LastReset(times, anchor, period);
      if r == Some(n) {
        assert times[..n + 1] == times;
      } else {
        LastResetResets(times[..n], anchor, period);
        assert r.Some? ==> times[..n][..r.value + 1] == times[..r.value + 1];
      }
    }
  }

  /** Only the first of the blocks at times in [a, b] may start a new period. */
  predicate Unbroken(times: seq<int>, anchor: int, period: int, a: int, b: int) {
    forall i, j :: 0 <= i < j < |times| && ResetsAt(times, anchor, period, j) && times[j] <= b ==> times[i] < a
  }

  lemma UnbrokenBefore(times: seq<int>, time: int, anchor: int, period: int, a: int, b: int)
    requires Unbroken(times + [time], anchor, period, a, b)
    ensures Unbroken(times, anchor, period, a, b)
  {
    var more := times + [time];
    forall i, j | 0 <= i < j < |times| && ResetsAt(times, anchor, period, j) && times[j] <= b ensures times[i] < a {
      assert more[..j + 1] == times[..j + 1];
      assert ResetsAt(more, anchor, period, j) && more[i] == times[i] && more[j] == times[j];
    }
  }

  // ---------------------------------------------------------------- the blocks of a run

  /** The times of the blocks begun so far, and how long the log was when each began. */
  datatype Blocks = Blocks(times: seq<int>, marks: seq<nat>)

  ghost function NextBlocks(w: World, bs: Blocks, step: Step): Blocks {
    if step.NewBlock? && Admissible(w, step) then Blocks(bs.times + [step.ctx.time], bs.marks + [|w.log|]) else bs
  }

  ghost function BlocksOf(cfg: Config, w: World, steps: seq<Step>): (bs: Blocks)
    ensures |bs.times| == |bs.marks|
    decreases |steps|
  {
    if steps == [] then Blocks([], [])
    else NextBlocks(Run(cfg, w, steps[..|steps| - 1]), BlocksOf(cfg, w, steps[..|steps| - 1]), steps[|steps| - 1])
  }

  /** A time-limited asset, and its counter, elapsed time and previous block time at the start of a run. */
  datatype Meter = Meter(denom: string, l: SupplyLimit, base: nat, elapsed: int, previous: Option<int>)

  function CounterOf(s: State, denom: string): nat {
    if denom in s.supplies then s.supplies[denom].timeLimited else 0
  }

  function ElapsedOf(s: State, denom: string): int {
    if denom in s.supplies then s.supplies[denom].elapsed else 0
  }

  function MeterOf(s: State, asset: Asset): Meter {
    Meter(asset.denom, asset.supplyLimit, CounterOf(s, asset.denom), ElapsedOf(s, asset.denom), s.previousBlockTime)
  }

  /** When the period that was under way at the start of the run began. Without a previous block time, the time before
      the first block does not count. */
  function Anchor(m: Meter, times: seq<int>): int {
    if m.previous.Some? then m.previous.value - m.elapsed
    else if times == [] then 0
    else times[0] - m.elapsed
  }

  function ResetOf(m: Meter, bs: Blocks): (r: Option<nat>)
    ensures r.Some? ==> r.value < |bs.times|
  {
    LastReset(bs.times, Anchor(m, bs.times), m.l.timePeriod)
  }

  function SinceOf(m: Meter, bs: Blocks): int {
    Since(bs.times, Anchor(m, bs.times), m.l.timePeriod)
  }

  /** Where in the log the present period begins. */
  function MarkOf(m: Meter, bs: Blocks): nat
    requires |bs.times| == |bs.marks|
  {
    var r := ResetOf(m, bs);
    if r.None? then 0 else bs.marks[r.value]
  }

  /** What the counter must be: all that was claimed in since the last reset, and, only if there was no reset yet,
      what it was at the start of the run. */
  function Expected(m: Meter, bs: Blocks, log: seq<Event>): nat
    requires |bs.times| == |bs.marks| && MarkOf(m, bs) <= |log|
  {
    Minted(log[MarkOf(m, bs)..], m.denom) + (if ResetOf(m, bs).None? then m.base else 0)
  }

  // ---------------------------------------------------------------- what holds all along

  ghost predicate NotLaterThan(log: seq<Event>, now: int) {
    forall i :: 0 <= i < |log| && log[i].Claimed? ==> log[i].at.time <= now
  }

  /** The log before position k ends at the last block before the reset, hence not after it, and mints at most the limit
      in the period before the reset. */
  ghost predicate EarlierPart(log: seq<Event>, m: Meter, bs: Blocks, k: nat)
    requires k <= |log|
  {
    var r := ResetOf(m, bs);
    && (r.None? || r.value == 0 ==> k == 0)
    && (r.Some? && r.value > 0 ==>
          NotLaterThan(log[..k], bs.times[r.value - 1]) && bs.times[r.value - 1] <= SinceOf(m, bs))
    && (forall a, b :: SinceOf(m, bs) - m.l.timePeriod < a ==> MintedIn(log[..k], m.denom, a, b) <= m.l.timeBasedLimit)
  }

  ghost predicate Counts(log: seq<Event>, now: int, m: Meter, bs: Blocks, c: Supply) {
    && |bs.times| == |bs.marks| && bs.times != [] && bs.times[|bs.times| - 1] == now
    && MarkOf(m, bs) <= |log| && NotLaterThan(log, now)
    && (ResetOf(m, bs).Some? ==> SinceOf(m, bs) <= now)
    && c.timeLimited == Expected(m, bs, log) && c.elapsed == now - SinceOf(m, bs)
    && EarlierPart(log, m, bs, MarkOf(m, bs))
  }

  ghost predicate Metered(w: World, bs: Blocks, m: Meter) {
    if !w.begun then
      && w.log == [] && bs == Blocks([], [])
      && m.base == CounterOf(w.s, m.denom) && m.elapsed == ElapsedOf(w.s, m.denom)
      && m.previous == w.s.previousBlockTime
    else
      && w.s.previousBlockTime == Some(w.ctx.time) && m.denom in w.s.supplies
      && Counts(w.log, w.ctx.time, m, bs, w.s.supplies[m.denom])
  }

  /** Twice the limit in any stretch shorter than the period, once in any unbroken one. */
  ghost predicate RateKept(log: seq<Event>, bs: Blocks, m: Meter) {
    && (forall a, b :: b - a < m.l.timePeriod ==> MintedIn(log, m.denom, a, b) <= 2 * m.l.timeBasedLimit)
    && (forall a, b :: Unbroken(bs.times, Anchor(m, bs.times), m.l.timePeriod, a, b) ==>
          MintedIn(log, m.denom, a, b) <= m.l.timeBasedLimit)
  }

  // ---------------------------------------------------------------- one event more

  lemma EarlierPartStays(log: seq<Event>, e: Event, m: Meter, bs: Blocks, k: nat)
    requires k <= |log| && EarlierPart(log, m, bs, k)
    ensures EarlierPart(log + [e], m, bs, k)
  {
    assert (log + [e])[..k] == log[..k];
  }

  /** An event that raises the counter by what it mints. */
  lemma CountsMore(log: seq<Event>, e: Event, now: int, m: Meter, bs: Blocks, c: Supply, c': Supply)
    requires Counts(log, now, m, bs, c) && (e.Claimed? ==> e.at.time == now)
    requires c'.timeLimited == c.timeLimited + MintOf(e, m.denom) && c'.elapsed == c.elapsed
    ensures Counts(log + [e], now, m, bs, c')
  {
    MintedMore(log, MarkOf(m, bs), e, m.denom);
    EarlierPartStays(log, e, m, bs, MarkOf(m, bs));
  }

  /** What the present period mints is at most the counter. */
  lemma PresentPart(log: seq<Event>, now: int, m: Meter, bs: Blocks, c: Supply, a: int, b: int)
    requires Counts(log, now, m, bs, c)
    ensures var k := MarkOf(m, bs);
            && MintedIn(log, m.denom, a, b) == MintedIn(log[..k], m.denom, a, b) + MintedIn(log[k..], m.denom, a, b)
            && MintedIn(log[k..], m.denom, a, b) <= c.timeLimited
  {
    var k := MarkOf(m, bs);
    assert log == log[..k] + log[k..];
    MintedConcat(log[..k], log[k..], m.denom, a, b);
    MintedInIsMinted(log[k..], m.denom, a, b);
  }

  /** A window that reaches the present sees at most one full counter before the reset and one after. */
  lemma TwiceAtPresent(log: seq<Event>, now: int, m: Meter, bs: Blocks, c: Supply, a: int, b: int)
    requires Counts(log, now, m, bs, c) && m.l.timeBasedLimit >= 0
    requires a <= now <= b && b - a < m.l.timePeriod
    ensures MintedIn(log, m.denom, a, b) <= m.l.timeBasedLimit + c.timeLimited
  {
    PresentPart(log, now, m, bs, c, a, b);
    if ResetOf(m, bs).Some? {
      assert SinceOf(m, bs) - m.l.timePeriod < a;
    } else {
      assert log[..MarkOf(m, bs)] == [];
    }
  }

  /** An unbroken window that reaches the present sees nothing from before the reset. */
  lemma OnceAtPresent(log: seq<Event>, now: int, m: Meter, bs: Blocks, c: Supply, a: int, b: int)
    requires Counts(log, now, m, bs, c) && a <= now <= b
    requires Unbroken(bs.times, Anchor(m, bs.times), m.l.timePeriod, a, b)
    ensures MintedIn(log, m.denom, a, b) <= c.timeLimited
  {
    PresentPart(log, now, m, bs, c, a, b);
    var r := ResetOf(m, bs);
    LastResetResets(bs.times, Anchor(m, bs.times), m.l.timePeriod);
    if r.Some? && r.value > 0 {
      assert bs.times[r.value - 1] < a;
      NothingMintedLater(log[..MarkOf(m, bs)], m.denom, a, b);
    } else {
      assert log[..MarkOf(m, bs)] == [];
    }
  }

  lemma RateKeptMore(log: seq<Event>, e: Event, now: int, m: Meter, bs: Blocks, c: Supply)
    requires RateKept(log, bs, m) && Counts(log + [e], now, m, bs, c) && (e.Claimed? ==> e.at.time == now)
    requires MintOf(e, m.denom) > 0 ==> c.timeLimited <= m.l.timeBasedLimit
    requires m.l.timeBasedLimit >= 0
    ensures RateKept(log + [e], bs, m)
  {
    forall a, b | b - a < m.l.timePeriod ensures MintedIn(log + [e], m.denom, a, b) <= 2 * m.l.timeBasedLimit {
      MintedInMore(log, e, m.denom, a, b);
      if Mints(e, m.denom, a, b) > 0 { TwiceAtPresent(log + [e], now, m, bs, c, a, b); }
    }
    forall a, b | Unbroken(bs.times, Anchor(m, bs.times), m.l.timePeriod, a, b)
      ensures MintedIn(log + [e], m.denom, a, b) <= m.l.timeBasedLimit
    {
      MintedInMore(log, e, m.denom, a, b);
      if Mints(e, m.denom, a, b) > 0 { OnceAtPresent(log + [e], now, m, bs, c, a, b); }
    }
  }

  // ---------------------------------------------------------------- one block more

  ghost predicate LimitedAsset(cfg: Config, denom: string, l: SupplyLimit) {
    var a := GetAsset(cfg.assets, denom);
    a.Some? && a.value.supplyLimit == l && l.timeLimited
  }

  lemma BlockTicks(cfg: Config, s: State, ctx: Context, denom: string, l: SupplyLimit)
    requires ValidAssets(cfg.assets) && LimitedAsset(cfg, denom, l)
    ensures var s' := BeginBlock(cfg, s, ctx);
            var was := if denom in s.supplies then s.supplies[denom] else Supply(0, 0, 0, 0, 0);
            var e := was.elapsed + ElapsedSince(s, ctx);
            && s'.previousBlockTime == Some(ctx.time) && denom in s'.supplies
            && s'.supplies[denom] == if e < l.timePeriod then was.(elapsed := e)
               else was.(elapsed := 0, timeLimited := 0)
  {
    TickAllPointwise(cfg.assets, s.supplies, ElapsedSince(s, ctx), denom);
  }

  /** The reset of a new block, from the reset so far. */
  lemma NextReset(m: Meter, bs: Blocks, bs': Blocks, time: int)
    requires bs'.times == bs.times + [time] && |bs.times| == |bs.marks|
    ensures var since := Since(bs.times, Anchor(m, bs'.times), m.l.timePeriod);
            ResetOf(m, bs') ==
            if time - since >= m.l.timePeriod then Some(|bs.times|)
            else LastReset(bs.times, Anchor(m, bs'.times), m.l.timePeriod)
    ensures bs.times != [] ==> Anchor(m, bs'.times) == Anchor(m, bs.times)
  {
    assert bs'.times[..|bs.times|] == bs.times;
  }

  lemma FirstBlockCounts(time: int, m: Meter, c: Supply)
    requires m.l.timeBasedLimit >= 0
    requires var e := time - Anchor(m, [time]);
             if e < m.l.timePeriod then c.timeLimited == m.base && c.elapsed == e
             else c.timeLimited == 0 && c.elapsed == 0
    ensures Counts([], time, m, Blocks([time], [0]), c)
  {
    var bs' := Blocks([time], [0]);
    NextReset(m, Blocks([], []), bs', time);
    assert LastReset([], Anchor(m, [time]), m.l.timePeriod) == None;
  }

  /** A block that does not start a new period only moves the clock. */
  lemma LaterBlockCounts(log: seq<Event>, now: int, time: int, m: Meter, bs: Blocks, bs': Blocks, c: Supply, c': Supply)
    requires Counts(log, now, m, bs, c) && now <= time
    requires bs' == Blocks(bs.times + [time], bs.marks + [|log|]) && time - SinceOf(m, bs) < m.l.timePeriod
    requires c'.timeLimited == c.timeLimited && c'.elapsed == time - SinceOf(m, bs)
    ensures Counts(log, time, m, bs', c')
  {
    NextReset(m, bs, bs', time);
    var r := ResetOf(m, bs);
    assert ResetOf(m, bs') == r && SinceOf(m, bs') == SinceOf(m, bs) && MarkOf(m, bs') == MarkOf(m, bs);
    assert r.Some? && r.value > 0 ==> bs'.times[r.value - 1] == bs.times[r.value - 1];
  }

  /** A block that starts a new period puts everything so far into the earlier part. */
  lemma ResetBlockCounts(log: seq<Event>, now: int, time: int, m: Meter, bs: Blocks, bs': Blocks, c: Supply, c': Supply)
    requires Counts(log, now, m, bs, c) && now <= time && c.timeLimited <= m.l.timeBasedLimit
    requires bs' == Blocks(bs.times + [time], bs.marks + [|log|]) && time - SinceOf(m, bs) >= m.l.timePeriod
    requires c'.timeLimited == 0 && c'.elapsed == 0
    ensures Counts(log, time, m, bs', c')
  {
    NextReset(m, bs, bs', time);
    var n := |bs.times|;
    assert ResetOf(m, bs') == Some(n) && SinceOf(m, bs') == time && MarkOf(m, bs') == |log|;
    assert log[|log|..] == [] && log[..|log|] == log && bs'.times[n - 1] == now;
    forall a, b | time - m.l.timePeriod < a ensures MintedIn(log, m.denom, a, b) <= m.l.timeBasedLimit {
      PresentPart(log, now, m, bs, c, a, b);
      if ResetOf(m, bs).Some? {
        NothingMintedLater(log[..MarkOf(m, bs)], m.denom, a, b);
      } else {
        assert log[..MarkOf(m, bs)] == [];
      }
    }
  }

  lemma RateKeptNextBlock(log: seq<Event>, bs: Blocks, time: int, m: Meter, mark: nat)
    requires RateKept(log, bs, m) && (bs.times == [] ==> log == []) && m.l.timeBasedLimit >= 0
    ensures RateKept(log, Blocks(bs.times + [time], bs.marks + [mark]), m)
  {
    var more := bs.times + [time];
    forall a, b | Unbroken(more, Anchor(m, more), m.l.timePeriod, a, b)
      ensures MintedIn(log, m.denom, a, b) <= m.l.timeBasedLimit
    {
      if bs.times != [] {
        assert Anchor(m, more) == Anchor(m, bs.times);
        UnbrokenBefore(bs.times, time, Anchor(m, more), m.l.timePeriod, a, b);
      }
    }
  }

  // ---------------------------------------------------------------- steps

  ghost predicate Kept(cfg: Config, w: World, bs: Blocks, m: Meter) {
    && LimitedAsset(cfg, m.denom, m.l) && m.l.timeBasedLimit >= 0
    && Metered(w, bs, m) && RateKept(w.log, bs, m)
  }

  lemma BlockKeepsRate(cfg: Config, w: World, bs: Blocks, ctx: Context, m: Meter)
    requires Inv(cfg, w.s) && Kept(cfg, w, bs, m) && Admissible(w, NewBlock(ctx))
    ensures Kept(cfg, Exec(cfg, w, NewBlock(ctx)), NextBlocks(w, bs, NewBlock(ctx)), m)
  {
    BlockTicks(cfg, w.s, ctx, m.denom, m.l);
    var bs', c' := NextBlocks(w, bs, NewBlock(ctx)), BeginBlock(cfg, w.s, ctx).supplies[m.denom];
    RateKeptNextBlock(w.log, bs, ctx.time, m, |w.log|);
    if !w.begun {
      assert bs' == Blocks([ctx.time], [0]);
      FirstBlockCounts(ctx.time, m, c');
    } else {
      var c := w.s.supplies[m.denom];
      assert SupplyOk(cfg, w.s.swaps, m.denom, c);
      if ctx.time - SinceOf(m, bs) < m.l.timePeriod {
        LaterBlockCounts(w.log, w.ctx.time, ctx.time, m, bs, bs', c, c');
      } else {
        ResetBlockCounts(w.log, w.ctx.time, ctx.time, m, bs, bs', c, c');
      }
    }
  }

  /** A message that raises the counter by exactly what it mints, within the limit. */
  lemma MessageKeepsRate(cfg: Config, w: World, bs: Blocks, s': State, e: Event, m: Meter)
    requires w.begun && Kept(cfg, w, bs, m)
    requires s'.previousBlockTime == w.s.previousBlockTime && m.denom in s'.supplies
    requires e.Claimed? ==> e.at == w.ctx
    requires s'.supplies[m.denom].timeLimited == w.s.supplies[m.denom].timeLimited + MintOf(e, m.denom)
    requires MintOf(e, m.denom) > 0 ==> s'.supplies[m.denom].timeLimited <= m.l.timeBasedLimit
    requires s'.supplies[m.denom].elapsed == w.s.supplies[m.denom].elapsed
    ensures Kept(cfg, w.(s := s', log := w.log + [e]), bs, m)
  {
    CountsMore(w.log, e, w.ctx.time, m, bs, w.s.supplies[m.denom], s'.supplies[m.denom]);
    RateKeptMore(w.log, e, w.ctx.time, m, bs, s'.supplies[m.denom]);
  }

  lemma SettlingKeepsRate(cfg: Config, w: World, bs: Blocks, s': State, id: Bytes, claimed: bool, e: Event, m: Meter)
    requires w.begun && Kept(cfg, w, bs, m)
    requires id in w.s.swaps && Settles(cfg, w.s, s', w.ctx, id)
    requires var d := w.s.swaps[id].coin.denom; Issues(cfg, w.s.supplies[d], s'.supplies[d], w.s.swaps[id], claimed)
    requires e == if claimed then Claimed(id, w.s.swaps[id], w.ctx) else Refunded(id, w.s.swaps[id], w.ctx)
    ensures Kept(cfg, w.(s := s', log := w.log + [e]), bs, m)
  {
    MessageKeepsRate(cfg, w, bs, s', e, m);
  }

  lemma CreationKeepsRate(cfg: Config, w: World, bs: Blocks, msg: CreateMsg, m: Meter)
    requires Inv(cfg, w.s) && Kept(cfg, w, bs, m)
    requires Admissible(w, CreateSwap(msg)) && Create(cfg, w.s, w.ctx, msg).Ok?
    ensures Kept(cfg, Exec(cfg, w, CreateSwap(msg)), bs, m)
  {
    CreateOpens(cfg, w.s, w.ctx, msg);
    var (c, d) := CheckCreate(cfg, w.s, w.ctx, msg).value;
    var sw := NewSwap(w.ctx, msg, c, d);
    var s' := Create(cfg, w.s, w.ctx, msg).value;
    MessageKeepsRate(cfg, w, bs, s', Created(SwapID(cfg, sw), sw), m);
    assert Exec(cfg, w, CreateSwap(msg)) == w.(s := s', log := w.log + [Created(SwapID(cfg, sw), sw)]);
  }

  lemma ClaimKeepsRate(cfg: Config, w: World, bs: Blocks, id: Bytes, secret: Bytes, m: Meter)
    requires Inv(cfg, w.s) && Kept(cfg, w, bs, m)
    requires w.begun && Claim(cfg, w.s, w.ctx, id, secret).Ok?
    ensures Kept(cfg, Exec(cfg, w, ClaimSwap(id, secret)), bs, m)
  {
    ClaimSettles(cfg, w.s, w.ctx, id, secret);
    var e := Claimed(id, w.s.swaps[id], w.ctx);
    SettlingKeepsRate(cfg, w, bs, Claim(cfg, w.s, w.ctx, id, secret).value, id, true, e, m);
    ExecSettles(cfg, w, id, secret);
  }

  lemma RefundKeepsRate(cfg: Config, w: World, bs: Blocks, id: Bytes, m: Meter)
    requires Inv(cfg, w.s) && Kept(cfg, w, bs, m)
    requires w.begun && Refund(cfg, w.s, w.ctx, id).Ok?
    ensures Kept(cfg, Exec(cfg, w, RefundSwap(id)), bs, m)
  {
    RefundSettles(cfg, w.s, w.ctx, id);
    var e := Refunded(id, w.s.swaps[id], w.ctx);
    SettlingKeepsRate(cfg, w, bs, Refund(cfg, w.s, w.ctx, id).value, id, false, e, m);
    ExecSettles(cfg, w, id, []);
  }

  lemma StepKeepsRate(cfg: Config, w: World, bs: Blocks, step: Step, m: Meter)
    requires Inv(cfg, w.s) && Kept(cfg, w, bs, m)
    ensures Kept(cfg, Exec(cfg, w, step), NextBlocks(w, bs, step), m)
  {
    if Admissible(w, step) {
      match step
      case NewBlock(ctx) => BlockKeepsRate(cfg, w, bs, ctx, m);
      case CreateSwap(msg) =>
        if Create(cfg, w.s, w.ctx, msg).Ok? { CreationKeepsRate(cfg, w, bs, msg, m); }
      case ClaimSwap(id, secret) =>
        if Claim(cfg, w.s, w.ctx, id, secret).Ok? { ClaimKeepsRate(cfg, w, bs, id, secret, m); }
      case RefundSwap(id) =>
        if Refund(cfg, w.s, w.ctx, id).Ok? { RefundKeepsRate(cfg, w, bs, id, m); }
      case OtherModules(bank) =>
    }
  }

  lemma {:induction false} RunKeepsRate(cfg: Config, w: World, steps: seq<Step>, asset: Asset)
    requires Start(cfg, w) && asset in cfg.assets && asset.supplyLimit.timeLimited
    ensures Kept(cfg, Run(cfg, w, steps), BlocksOf(cfg, w, steps), MeterOf(w.s, asset))
    decreases |steps|
  {
    var i :| 0 <= i < |cfg.assets| && cfg.assets[i] == asset;
    AssetIsItsOwnLookup(cfg.assets, i);
    if steps != [] {
      var before := steps[..|steps| - 1];
      RunKeepsRate(cfg, w, before, asset);
      RunKeepsInv(cfg, w, before);
      StepKeepsRate(cfg, Run(cfg, w, before), BlocksOf(cfg, w, before), steps[|steps| - 1], MeterOf(w.s, asset));
    }
  }

  // ---------------------------------------------------------------- what that means

  /** Over any run that has begun a block, the counter of a time-limited asset is exactly what was claimed in since
      the last reset (before the first reset: on top of what it was at the start), and the elapsed time exactly the
      time since then; when the last reset was is a matter of the block times alone. */
  lemma CounterIsMintedSinceReset(cfg: Config, w: World, steps: seq<Step>, asset: Asset)
    requires Start(cfg, w) && asset in cfg.assets && asset.supplyLimit.timeLimited && Run(cfg, w, steps).begun
    ensures var w', bs, m := Run(cfg, w, steps), BlocksOf(cfg, w, steps), MeterOf(w.s, asset);
            && asset.denom in w'.s.supplies && MarkOf(m, bs) <= |w'.log|
            && w'.s.supplies[asset.denom].timeLimited == Expected(m, bs, w'.log)
            && w'.s.supplies[asset.denom].elapsed == w'.ctx.time - SinceOf(m, bs)
  {
    RunKeepsRate(cfg, w, steps, asset);
  }

  /** Over any run, for a time-limited asset: whatever is claimed in at block times in [a, b], with b - a shorter
      than the period, is at most twice the time-based limit. */
  lemma MintingIsRateLimited(cfg: Config, w: World, steps: seq<Step>, asset: Asset, a: int, b: int)
    requires Start(cfg, w) && asset in cfg.assets && asset.supplyLimit.timeLimited
    requires b - a < asset.supplyLimit.timePeriod
    ensures MintedIn(Run(cfg, w, steps).log, asset.denom, a, b) <= 2 * asset.supplyLimit.timeBasedLimit
  {
    RunKeepsRate(cfg, w, steps, asset);
  }

  /** Over any run: whatever is claimed in at block times in [a, b], where only the first block may start a new
      period, is at most the time-based limit, however long the window. */
  lemma MintingIsLimitedOnce(cfg: Config, w: World, steps: seq<Step>, asset: Asset, a: int, b: int)
    requires Start(cfg, w) && asset in cfg.assets && asset.supplyLimit.timeLimited
    requires var times := BlocksOf(cfg, w, steps).times;
             Unbroken(times, Anchor(MeterOf(w.s, asset), times), asset.supplyLimit.timePeriod, a, b)
    ensures MintedIn(Run(cfg, w, steps).log, asset.denom, a, b) <= asset.supplyLimit.timeBasedLimit
  {
    RunKeepsRate(cfg, w, steps, asset);
  }

  // ---------------------------------------------------------------- assets without a time limit

  /** The time-limited counter and its clock stand still. */
  ghost predicate Still(w: World, denom: string) {
    w.begun ==> denom in w.s.supplies && w.s.supplies[denom].timeLimited == 0 && w.s.supplies[denom].elapsed == 0
  }

  lemma BlockStaysStill(cfg: Config, w: World, ctx: Context, a: Asset)
    requires ValidAssets(cfg.assets) && GetAsset(cfg.assets, a.denom) == Some(a) && !a.supplyLimit.timeLimited
    ensures var s' := BeginBlock(cfg, w.s, ctx);
            a.denom in s'.supplies && s'.supplies[a.denom].timeLimited == 0 && s'.supplies[a.denom].elapsed == 0
  {
    TickAllPointwise(cfg.assets, w.s.supplies, ElapsedSince(w.s, ctx), a.denom);
    UpdateLimitsTicks(cfg, w.s, ctx);
  }

  lemma SettlingStaysStill(cfg: Config, w: World, s': State, id: Bytes, claimed: bool, a: Asset)
    requires w.begun && Still(w, a.denom) && GetAsset(cfg.assets, a.denom) == Some(a) && !a.supplyLimit.timeLimited
    requires id in w.s.swaps && Settles(cfg, w.s, s', w.ctx, id)
    requires var d := w.s.swaps[id].coin.denom; Issues(cfg, w.s.supplies[d], s'.supplies[d], w.s.swaps[id], claimed)
    ensures Still(w.(s := s'), a.denom)
  {
  }

  lemma MessageStaysStill(cfg: Config, w: World, step: Step, a: Asset)
    requires Inv(cfg, w.s) && w.begun && Still(w, a.denom)
    requires GetAsset(cfg.assets, a.denom) == Some(a) && !a.supplyLimit.timeLimited && Admissible(w, step)
    ensures step.CreateSwap? || step.ClaimSwap? || step.RefundSwap? ==> Still(Exec(cfg, w, step), a.denom)
  {
    match step
    case NewBlock(_) =>
    case OtherModules(_) =>
    case CreateSwap(m) =>
      if Create(cfg, w.s, w.ctx, m).Ok? {
        CreateOpens(cfg, w.s, w.ctx, m);
        ExecCreates(cfg, w, m);
      }
    case ClaimSwap(id, secret) =>
      if Claim(cfg, w.s, w.ctx, id, secret).Ok? {
        ClaimSettles(cfg, w.s, w.ctx, id, secret);
        SettlingStaysStill(cfg, w, Claim(cfg, w.s, w.ctx, id, secret).value, id, true, a);
        ExecSettles(cfg, w, id, secret);
      }
    case RefundSwap(id) =>
      if Refund(cfg, w.s, w.ctx, id).Ok? {
        RefundSettles(cfg, w.s, w.ctx, id);
        SettlingStaysStill(cfg, w, Refund(cfg, w.s, w.ctx, id).value, id, false, a);
        ExecSettles(cfg, w, id, []);
      }
  }

  /** Over any run, an asset without a time limit has its time-limited counter at zero in every block. */
  lemma {:induction false} UnlimitedStaysStill(cfg: Config, w: World, steps: seq<Step>, asset: Asset)
    requires Start(cfg, w) && asset in cfg.assets && !asset.supplyLimit.timeLimited
    ensures Still(Run(cfg, w, steps), asset.denom)
    decreases |steps|
  {
    var i :| 0 <= i < |cfg.assets| && cfg.assets[i] == asset;
    AssetIsItsOwnLookup(cfg.assets, i);
    if steps != [] {
      var before, step := steps[..|steps| - 1], steps[|steps| - 1];
      UnlimitedStaysStill(cfg, w, before, asset);
      RunKeepsInv(cfg, w, before);
      var w1 := Run(cfg, w, before);
      if Admissible(w1, step) {
        if step.NewBlock? {
          BlockStaysStill(cfg, w1, step.ctx, asset);
        } else if w1.begun {
          MessageStaysStill(cfg, w1, step, asset);
        }
      }
    }
  }
}
