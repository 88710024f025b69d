/** Whole runs of the swap module: any sequence of blocks, messages (failing or not) and coin movements of other
    modules. */
module Bep3Runs {
  import opened Prelude
  import opened Keys
  import opened Banking
  import opened Bep3Spec
  import opened Bep3Invariant

  /** What is observable from outside. The swap is the one stored before the event. */
  datatype Event =
    | Created(id: Bytes, sw: Swap)
    | Claimed(id: Bytes, sw: Swap, at: Context)
    | Refunded(id: Bytes, sw: Swap, at: Context)

  datatype Step =
    | NewBlock(ctx: Context)
    | CreateSwap(msg: CreateMsg)
    | ClaimSwap(id: Bytes, secret: Bytes)
    | RefundSwap(id: Bytes)
    | OtherModules(bank: Balances)

  /** begun says that BeginBlock of the current block has run; messages come only after it. */
  datatype World = World(s: State, ctx: Context, begun: bool, log: seq<Event>)

  /** Block heights grow and block times do not fall; messages are signed by users and come after the begin blocker;
      nobody else touches the escrow account. */
  ghost predicate Admissible(w: World, step: Step) {
    match step
    case NewBlock(ctx) => w.ctx.height < ctx.height && w.ctx.time <= ctx.time
    case CreateSwap(m) => w.begun && !m.sender.Module?
    case ClaimSwap(_, _) => w.begun
    case RefundSwap(_) => w.begun
    case OtherModules(bank) => forall d :: BalanceOf(bank, ESCROW, d) == BalanceOf(w.s.bank, ESCROW, d)
  }

  /** One step. A message that fails is rolled back; a step that is not admissible does not happen. */
  ghost function Exec(cfg: Config, w: World, step: Step): World {
    if !Admissible(w, step) then w
    else match step
      case NewBlock(ctx) => World(BeginBlock(cfg, w.s, ctx), ctx, true, w.log)
      case CreateSwap(m) => (
        match Create(cfg, w.s, w.ctx, m)
        case Err(_) => w
        case Ok(s') =>
          var (c, d) := CheckCreate(cfg, w.s, w.ctx, m).value;
          var sw := NewSwap(w.ctx, m, c, d);
          w.(s := s', log := w.log + [Created(SwapID(cfg, sw), sw)]))
      case ClaimSwap(id, secret) => (
        match Claim(cfg, w.s, w.ctx, id, secret)
        case Err(_) => w
        case Ok(s') => w.(s := s', log := w.log + [Claimed(id, w.s.swaps[id], w.ctx)]))
      case RefundSwap(id) => (
        match Refund(cfg, w.s, w.ctx, id)
        case Err(_) => w
        case Ok(s') => w.(s := s', log := w.log + [Refunded(id, w.s.swaps[id], w.ctx)]))
      case OtherModules(bank) => w.(s := w.s.(bank := bank))
  }

  ghost function Run(cfg: Config, w: World, steps: seq<Step>): World
    decreases |steps|
  {
    if steps == [] then w else Exec(cfg, Run(cfg, w, steps[..|steps| - 1]), steps[|steps| - 1])
  }

  lemma RunSnoc(cfg: Config, w: World, steps: seq<Step>, step: Step)
    ensures Run(cfg, w, steps + [step]) == Exec(cfg, Run(cfg, w, steps), step)
  {
    var longer := steps + [step];
    assert longer[..|longer| - 1] == steps;
  }

  /** A start: an empty module, or a restart from a state that satisfies the invariant. */
  ghost predicate Start(cfg: Config, w: World) {
    && Inv(cfg, w.s) && w.log == [] && !w.begun
    && forall id <- w.s.swaps :: w.s.swaps[id].status == Expired ==> w.s.swaps[id].expireHeight <= w.ctx.height
  }

  // ---------------------------------------------------------------- the invariant holds over every run

  lemma BlockStepKeepsInv(cfg: Config, w: World, ctx: Context)
    requires Inv(cfg, w.s)
    ensures Inv(cfg, Exec(cfg, w, NewBlock(ctx)).s)
  {
    BeginBlockKeepsInv(cfg, w.s, ctx);
  }

  /** The state after a message. */
  lemma StateAfterCreate(cfg: Config, w: World, m: CreateMsg)
    ensures Exec(cfg, w, CreateSwap(m)).s ==
            if Admissible(w, CreateSwap(m)) && Create(cfg, w.s, w.ctx, m).Ok? then Create(cfg, w.s, w.ctx, m).value
            else w.s
  {
  }

  lemma StateAfterClaim(cfg: Config, w: World, id: Bytes, secret: Bytes)
    ensures Exec(cfg, w, ClaimSwap(id, secret)).s ==
            if w.begun && Claim(cfg, w.s, w.ctx, id, secret).Ok? then Claim(cfg, w.s, w.ctx, id, secret).value else w.s
  {
  }

  lemma StateAfterRefund(cfg: Config, w: World, id: Bytes)
    ensures Exec(cfg, w, RefundSwap(id)).s ==
            if w.begun && Refund(cfg, w.s, w.ctx, id).Ok? then Refund(cfg, w.s, w.ctx, id).value else w.s
  {
  }

  lemma CreateStepKeepsInv(cfg: Config, w: World, m: CreateMsg)
    requires Inv(cfg, w.s)
    ensures Inv(cfg, Exec(cfg, w, CreateSwap(m)).s)
  {
    StateAfterCreate(cfg, w, m);
    if Admissible(w, CreateSwap(m)) && Create(cfg, w.s, w.ctx, m).Ok? { CreateKeepsInv(cfg, w.s, w.ctx, m); }
  }

  lemma ClaimStepKeepsInv(cfg: Config, w: World, id: Bytes, secret: Bytes)
    requires Inv(cfg, w.s)
    ensures Inv(cfg, Exec(cfg, w, ClaimSwap(id, secret)).s)
  {
    StateAfterClaim(cfg, w, id, secret);
    if w.begun && Claim(cfg, w.s, w.ctx, id, secret).Ok? { ClaimKeepsInv(cfg, w.s, w.ctx, id, secret); }
  }

  lemma RefundStepKeepsInv(cfg: Config, w: World, id: Bytes)
    requires Inv(cfg, w.s)
    ensures Inv(cfg, Exec(cfg, w, RefundSwap(id)).s)
  {
    StateAfterRefund(cfg, w, id);
    if w.begun && Refund(cfg, w.s, w.ctx, id).Ok? { RefundKeepsInv(cfg, w.s, w.ctx, id); }
  }

  lemma OthersKeepInv(cfg: Config, w: World, bank: Balances)
    requires Inv(cfg, w.s)
    ensures Inv(cfg, Exec(cfg, w, OtherModules(bank)).s)
  {
  }

  lemma StepKeepsInv(cfg: Config, w: World, step: Step)
    requires Inv(cfg, w.s)
    ensures Inv(cfg, Exec(cfg, w, step).s)
  {
    match step
    case NewBlock(ctx) => BlockStepKeepsInv(cfg, w, ctx);
    case CreateSwap(m) => CreateStepKeepsInv(cfg, w, m);
    case ClaimSwap(id, secret) => ClaimStepKeepsInv(cfg, w, id, secret);
    case RefundSwap(id) => RefundStepKeepsInv(cfg, w, id);
    case OtherModules(bank) => OthersKeepInv(cfg, w, bank);
  }

  lemma {:induction false} RunKeepsInv(cfg: Config, w: World, steps: seq<Step>)
    requires Inv(cfg, w.s)
    ensures Inv(cfg, Run(cfg, w, steps).s)
    decreases |steps|
  {
    if steps != [] {
      var before := steps[..|steps| - 1];
      RunKeepsInv(cfg, w, before);
      StepKeepsInv(cfg, Run(cfg, w, before), steps[|steps| - 1]);
    }
  }

  /** In every reachable state every open swap can be claimed with its secret and every expired one refunded. */
  lemma NoSwapIsEverStuck(cfg: Config, w: World, steps: seq<Step>, id: Bytes, secret: Bytes, ctx: Context)
    requires Start(cfg, w)
    ensures var s := Run(cfg, w, steps).s;
            && (Claim(cfg, s, ctx, id, secret).Ok? <==>
                id in s.swaps && s.swaps[id].status == Open && RightSecret(cfg, s.swaps[id], secret))
            && (Refund(cfg, s, ctx, id).Ok? <==> id in s.swaps && s.swaps[id].status == Expired)
  {
    RunKeepsInv(cfg, w, steps);
    ClaimSucceedsExactly(cfg, Run(cfg, w, steps).s, ctx, id, secret);
    RefundSucceedsExactly(cfg, Run(cfg, w, steps).s, ctx, id);
  }

  // ---------------------------------------------------------------- disjoint windows

  /** Inside a block, open swaps still have blocks to go and expired swaps have none. */
  predicate Timely(s: State, height: nat, begun: bool) {
    forall id <- s.swaps ::
      && (begun && s.swaps[id].status == Open ==> height < s.swaps[id].expireHeight)
      && (s.swaps[id].status == Expired ==> s.swaps[id].expireHeight <= height)
  }

  predicate InWindow(e: Event) {
    match e
    case Created(_, _) => true
    case Claimed(_, sw, at) => at.height < sw.expireHeight
    case Refunded(_, sw, at) => sw.expireHeight <= at.height
  }

  predicate AllInWindow(log: seq<Event>) {
    forall e <- log :: InWindow(e)
  }

  lemma BlockKeepsTimely(cfg: Config, s: State, height: nat, begun: bool, ctx: Context)
    requires Timely(s, height, begun) && height < ctx.height
    ensures Timely(BeginBlock(cfg, s, ctx), ctx.height, true)
  {
  }

  lemma OpeningKeepsTimely(cfg: Config, s: State, s': State, id: Bytes, sw: Swap, height: nat)
    requires Timely(s, height, true) && Opens(cfg, s, s', id, sw) && height < sw.expireHeight
    ensures Timely(s', height, true)
  {
  }

  lemma SettlingKeepsTimely(cfg: Config, s: State, s': State, ctx: Context, id: Bytes)
    requires Timely(s, ctx.height, true) && id in s.swaps && Settles(cfg, s, s', ctx, id)
    ensures Timely(s', ctx.height, true)
  {
  }

  /** A new swap is inside its window exactly when its height span is positive and the 64-bit sum does not wrap. */
  predicate SpanFits(height: nat, m: CreateMsg) {
    0 < m.heightSpan && height + m.heightSpan < U64
  }

  lemma CreationKeepsTimely(cfg: Config, s: State, ctx: Context, m: CreateMsg)
    requires Inv(cfg, s) && Timely(s, ctx.height, true) && !m.sender.Module?
    requires Create(cfg, s, ctx, m).Ok? && SpanFits(ctx.height, m)
    ensures Timely(Create(cfg, s, ctx, m).value, ctx.height, true)
  {
    CreateOpens(cfg, s, ctx, m);
    var (c, d) := CheckCreate(cfg, s, ctx, m).value;
    var sw := NewSwap(ctx, m, c, d);
    SpanInRange(ctx, m, c, d);
    OpeningKeepsTimely(cfg, s, Create(cfg, s, ctx, m).value, SwapID(cfg, sw), sw, ctx.height);
  }

  lemma ClaimKeepsTimely(cfg: Config, s: State, ctx: Context, id: Bytes, secret: Bytes)
    requires Inv(cfg, s) && Timely(s, ctx.height, true) && Claim(cfg, s, ctx, id, secret).Ok?
    ensures Timely(Claim(cfg, s, ctx, id, secret).value, ctx.height, true)
  {
    ClaimSettles(cfg, s, ctx, id, secret);
    SettlingKeepsTimely(cfg, s, Claim(cfg, s, ctx, id, secret).value, ctx, id);
  }

  lemma RefundKeepsTimely(cfg: Config, s: State, ctx: Context, id: Bytes)
    requires Inv(cfg, s) && Timely(s, ctx.height, true) && Refund(cfg, s, ctx, id).Ok?
    ensures Timely(Refund(cfg, s, ctx, id).value, ctx.height, true)
  {
    RefundSettles(cfg, s, ctx, id);
    SettlingKeepsTimely(cfg, s, Refund(cfg, s, ctx, id).value, ctx, id);
  }

  lemma StepKeepsTimely(cfg: Config, w: World, step: Step)
    requires Inv(cfg, w.s) && Timely(w.s, w.ctx.height, w.begun)
    requires step.CreateSwap? && Create(cfg, w.s, w.ctx, step.msg).Ok? ==> SpanFits(w.ctx.height, step.msg)
    ensures var w' := Exec(cfg, w, step); Timely(w'.s, w'.ctx.height, w'.begun)
  {
    if Admissible(w, step) {
      match step
      case NewBlock(ctx) => BlockKeepsTimely(cfg, w.s, w.ctx.height, w.begun, ctx);
      case CreateSwap(m) =>
        if Create(cfg, w.s, w.ctx, m).Ok? { CreationKeepsTimely(cfg, w.s, w.ctx, m); }
      case ClaimSwap(id, secret) =>
        if Claim(cfg, w.s, w.ctx, id, secret).Ok? { ClaimKeepsTimely(cfg, w.s, w.ctx, id, secret); }
      case RefundSwap(id) =>
        if Refund(cfg, w.s, w.ctx, id).Ok? { RefundKeepsTimely(cfg, w.s, w.ctx, id); }
      case OtherModules(bank) =>
    }
  }

  /** A creation keeps open swaps inside their window exactly when its span fits; the handler checks the span of
      outgoing swaps only. */
  lemma CreationKeepsTimelyExactly(cfg: Config, s: State, ctx: Context, m: CreateMsg)
    requires Inv(cfg, s) && Timely(s, ctx.height, true) && !m.sender.Module? && Create(cfg, s, ctx, m).Ok?
    requires m.heightSpan < U64 && ctx.height < U64
    ensures Timely(Create(cfg, s, ctx, m).value, ctx.height, true) <==> SpanFits(ctx.height, m)
  {
    var (c, d) := CheckCreate(cfg, s, ctx, m).value;
    var sw := NewSwap(ctx, m, c, d);
    SpanInRange(ctx, m, c, d);
    assert Create(cfg, s, ctx, m).value.swaps[SwapID(cfg, sw)] == sw;
    if SpanFits(ctx.height, m) { CreationKeepsTimely(cfg, s, ctx, m); }
  }

  /** A new swap can be claimed in the block that made it by whoever has the secret, and this claim is inside its window
      exactly when the span fits; otherwise it comes at or after the expiry height. */
  lemma FirstClaimInWindowExactly(cfg: Config, w: World, m: CreateMsg, secret: Bytes)
    requires Inv(cfg, w.s) && Admissible(w, CreateSwap(m)) && Create(cfg, w.s, w.ctx, m).Ok?
    requires m.heightSpan < U64 && w.ctx.height < U64
    requires var (c, d) := CheckCreate(cfg, w.s, w.ctx, m).value; RightSecret(cfg, NewSwap(w.ctx, m, c, d), secret)
    ensures var (c, d) := CheckCreate(cfg, w.s, w.ctx, m).value;
            var sw := NewSwap(w.ctx, m, c, d);
            var id, claim := SwapID(cfg, sw), Claimed(SwapID(cfg, sw), sw, w.ctx);
            var w2 := Exec(cfg, Exec(cfg, w, CreateSwap(m)), ClaimSwap(id, secret));
            && w2.log == w.log + [Created(id, sw)] + [claim]
            && (InWindow(claim) <==> SpanFits(w.ctx.height, m))
  {
    var (c, d) := CheckCreate(cfg, w.s, w.ctx, m).value;
    var sw := NewSwap(w.ctx, m, c, d);
    CreateKeepsInv(cfg, w.s, w.ctx, m);
    CreateOpens(cfg, w.s, w.ctx, m);
    ClaimSucceedsExactly(cfg, Create(cfg, w.s, w.ctx, m).value, w.ctx, SwapID(cfg, sw), secret);
    SpanInRange(w.ctx, m, c, d);
    ExecCreates(cfg, w, m);
    ExecSettles(cfg, Exec(cfg, w, CreateSwap(m)), SwapID(cfg, sw), secret);
  }

  lemma ExecCreates(cfg: Config, w: World, m: CreateMsg)
    requires Admissible(w, CreateSwap(m)) && Create(cfg, w.s, w.ctx, m).Ok?
    ensures var (c, d) := CheckCreate(cfg, w.s, w.ctx, m).value;
            var sw := NewSwap(w.ctx, m, c, d);
            Exec(cfg, w, CreateSwap(m)) ==
            w.(s := Create(cfg, w.s, w.ctx, m).value, log := w.log + [Created(SwapID(cfg, sw), sw)])
  {
  }

  lemma ExecSettles(cfg: Config, w: World, id: Bytes, secret: Bytes)
    requires w.begun && id in w.s.swaps
    ensures Claim(cfg, w.s, w.ctx, id, secret).Ok? ==>
              Exec(cfg, w, ClaimSwap(id, secret)) ==
              w.(s := Claim(cfg, w.s, w.ctx, id, secret).value, log := w.log + [Claimed(id, w.s.swaps[id], w.ctx)])
    ensures Refund(cfg, w.s, w.ctx, id).Ok? ==>
              Exec(cfg, w, RefundSwap(id)) ==
              w.(s := Refund(cfg, w.s, w.ctx, id).value, log := w.log + [Refunded(id, w.s.swaps[id], w.ctx)])
  {
  }

  /** What a step adds to the log, if anything, is inside its window. */
  lemma StepLogsInWindow(cfg: Config, w: World, step: Step)
    requires Timely(w.s, w.ctx.height, w.begun)
    ensures var w' := Exec(cfg, w, step);
            w'.log == w.log || (|w'.log| == |w.log| + 1 && w'.log == w.log + [w'.log[|w.log|]] &&
                                InWindow(w'.log[|w.log|]))
  {
  }

  /** The expiry height of a new swap lies ahead exactly when the span is positive and the 64-bit sum does not wrap
      (an incoming swap's span is not range-checked by the handler). */
  lemma SpanInRange(ctx: Context, m: CreateMsg, c: Coin, d: Direction)
    requires m.heightSpan < U64 && ctx.height < U64
    ensures ctx.height < NewSwap(ctx, m, c, d).expireHeight <==> SpanFits(ctx.height, m)
  {
    var sum := ctx.height + m.heightSpan;
    if sum >= U64 {
      assert sum % U64 == (sum - U64) % U64 == sum - U64;
    } else {
      assert sum % U64 == sum;
    }
  }

  /** Every create message of the run that the handler accepts comes at a height where its span fits. */
  ghost predicate SpansFit(cfg: Config, w: World, steps: seq<Step>)
    decreases |steps|
  {
    steps == [] ||
    (var before, last := steps[..|steps| - 1], steps[|steps| - 1];
     var w' := Run(cfg, w, before);
     && SpansFit(cfg, w, before)
     && (last.CreateSwap? && Create(cfg, w'.s, w'.ctx, last.msg).Ok? ==> SpanFits(w'.ctx.height, last.msg)))
  }

  /** Over any run whose spans fit, claims happen only before the expiry height and refunds only from it on. */
  lemma {:induction false} WindowsAreDisjoint(cfg: Config, w: World, steps: seq<Step>)
    requires Start(cfg, w) && SpansFit(cfg, w, steps)
    ensures var w' := Run(cfg, w, steps); Timely(w'.s, w'.ctx.height, w'.begun) && AllInWindow(w'.log)
    decreases |steps|
  {
    if steps != [] {
      var before := steps[..|steps| - 1];
      WindowsAreDisjoint(cfg, w, before);
      RunKeepsInv(cfg, w, before);
      StepKeepsTimely(cfg, Run(cfg, w, before), steps[|steps| - 1]);
      StepLogsInWindow(cfg, Run(cfg, w, before), steps[|steps| - 1]);
    }
  }

  // ---------------------------------------------------------------- exactly-once settlement

  predicate IsLive(s: State, id: Bytes) {
    id in s.swaps && s.swaps[id].Live()
  }

  /** A two-state automaton reading a log: a creation needs the swap not to be live, a claim or refund needs it
      to be live and ends that. None is rejection. */
  function Lives(log: seq<Event>, id: Bytes, live: bool): Option<bool> {
    if log == [] then Some(live)
    else
      var e := log[|log| - 1];
      var before := Lives(log[..|log| - 1], id, live);
      if e.id != id || before.None? then before
      else if before.value == e.Created? then None
      else Some(e.Created?)
  }

  lemma LivesSnoc(log: seq<Event>, e: Event, id: Bytes, live: bool)
    ensures var before := Lives(log, id, live);
            Lives(log + [e], id, live) ==
            if e.id != id || before.None? then before else if before.value == e.Created? then None else Some(e.Created?)
  {
    assert (log + [e])[..|log|] == log;
  }

  lemma BlockKeepsLive(cfg: Config, s: State, ctx: Context, id: Bytes)
    ensures IsLive(BeginBlock(cfg, s, ctx), id) == IsLive(s, id)
  {
  }

  lemma OpeningChangesLive(cfg: Config, s: State, s': State, id: Bytes, sw: Swap, x: Bytes)
    requires Opens(cfg, s, s', id, sw)
    ensures IsLive(s', x) == (IsLive(s, x) || x == id) && !IsLive(s, id)
  {
  }

  lemma SettlingChangesLive(cfg: Config, s: State, s': State, ctx: Context, id: Bytes, x: Bytes)
    requires id in s.swaps && s.swaps[id].Live() && Settles(cfg, s, s', ctx, id)
    ensures IsLive(s', x) == (IsLive(s, x) && x != id)
  {
  }

  lemma StepIsAccepted(cfg: Config, w: World, step: Step, id: Bytes, live: bool)
    requires Inv(cfg, w.s) && Lives(w.log, id, live) == Some(IsLive(w.s, id))
    ensures var w' := Exec(cfg, w, step); Lives(w'.log, id, live) == Some(IsLive(w'.s, id))
  {
    if Admissible(w, step) {
      match step
      case NewBlock(ctx) => BlockKeepsLive(cfg, w.s, ctx, id);
      case CreateSwap(m) =>
        if Create(cfg, w.s, w.ctx, m).Ok? {
          CreateOpens(cfg, w.s, w.ctx, m);
          var (c, d) := CheckCreate(cfg, w.s, w.ctx, m).value;
          var sw := NewSwap(w.ctx, m, c, d);
          OpeningChangesLive(cfg, w.s, Create(cfg, w.s, w.ctx, m).value, SwapID(cfg, sw), sw, id);
          LivesSnoc(w.log, Created(SwapID(cfg, sw), sw), id, live);
        }
      case ClaimSwap(x, secret) =>
        if Claim(cfg, w.s, w.ctx, x, secret).Ok? {
          ClaimSettles(cfg, w.s, w.ctx, x, secret);
          SettlingChangesLive(cfg, w.s, Claim(cfg, w.s, w.ctx, x, secret).value, w.ctx, x, id);
          LivesSnoc(w.log, Claimed(x, w.s.swaps[x], w.ctx), id, live);
        }
      case RefundSwap(x) =>
        if Refund(cfg, w.s, w.ctx, x).Ok? {
          RefundSettles(cfg, w.s, w.ctx, x);
          SettlingChangesLive(cfg, w.s, Refund(cfg, w.s, w.ctx, x).value, w.ctx, x, id);
          LivesSnoc(w.log, Refunded(x, w.s.swaps[x], w.ctx), id, live);
        }
      case OtherModules(bank) =>
    }
  }

  /** Over any run, every swap ID alternates strictly between creation and one settlement: no swap is claimed or
      refunded twice, and none is both claimed and refunded. */
  lemma {:induction false} SettledExactlyOnce(cfg: Config, w: World, steps: seq<Step>, id: Bytes)
    requires Start(cfg, w)
    ensures var w' := Run(cfg, w, steps); Lives(w'.log, id, IsLive(w.s, id)) == Some(IsLive(w'.s, id))
    decreases |steps|
  {
    if steps != [] {
      var before := steps[..|steps| - 1];
      SettledExactlyOnce(cfg, w, before, id);
      RunKeepsInv(cfg, w, before);
      StepIsAccepted(cfg, Run(cfg, w, before), steps[|steps| - 1], id, IsLive(w.s, id));
    }
  }

  /** What acceptance means: between any two settlements of an ID lies a creation of that ID. */
  lemma {:induction false} CreationBetweenSettlements(log: seq<Event>, id: Bytes, live: bool, i: nat, j: nat)
    requires Lives(log, id, live).Some? && i < j < |log|
    requires log[i].id == id == log[j].id && !log[i].Created? && !log[j].Created?
    ensures exists k :: i < k < j && log[k].id == id && log[k].Created?
    decreases |log|
  {
    var before := log[..|log| - 1];
    if j < |log| - 1 {
      CreationBetweenSettlements(before, id, live, i, j);
      var k :| i < k < j && before[k].id == id && before[k].Created?;
      assert log[k] == before[k];
    } else {
      assert Lives(before, id, live) == Some(true);
      LastEventIsCreation(before, id, live, i);
      var k :| i < k < |before| && before[k].id == id && before[k].Created?;
      assert log[k] == before[k];
    }
  }

  lemma {:induction false} LastEventIsCreation(log: seq<Event>, id: Bytes, live: bool, i: nat)
    requires Lives(log, id, live) == Some(true) && i < |log| && log[i].id == id && !log[i].Created?
    ensures exists k :: i < k < |log| && log[k].id == id && log[k].Created?
    decreases |log|
  {
    var e := log[|log| - 1];
    if e.id == id {
      assert e.Created?;
    } else {
      var before := log[..|log| - 1];
      LastEventIsCreation(before, id, live, i);
      var k :| i < k < |before| && before[k].id == id && before[k].Created?;
      assert log[k] == before[k];
    }
  }

  // ---------------------------------------------------------------- current supply is minted minus burned

  /** What an event mints (claimed incoming) or burns (claimed outgoing) of a denom. */
  function Issued(e: Event, denom: string): int {
    if e.Claimed? && e.sw.coin.denom == denom then
      if e.sw.direction == Incoming then e.sw.coin.amount else 0 - e.sw.coin.amount
    else 0
  }

  function IssuedBy(log: seq<Event>, denom: string): int {
    if log == [] then 0 else IssuedBy(log[..|log| - 1], denom) + Issued(log[|log| - 1], denom)
  }

  lemma IssuedSnoc(log: seq<Event>, e: Event, denom: string)
    ensures IssuedBy(log + [e], denom) == IssuedBy(log, denom) + Issued(e, denom)
  {
    assert (log + [e])[..|log|] == log;
  }

  function CurrentOf(s: State, denom: string): nat {
    if denom in s.supplies then s.supplies[denom].current else 0
  }

  lemma BlockKeepsCurrent(cfg: Config, s: State, ctx: Context, denom: string)
    requires ValidAssets(cfg.assets)
    ensures CurrentOf(BeginBlock(cfg, s, ctx), denom) == CurrentOf(s, denom)
  {
    TickAllPointwise(cfg.assets, s.supplies, ElapsedSince(s, ctx), denom);
    UpdateLimitsTicks(cfg, s, ctx);
  }

  lemma SettlingIssues(cfg: Config, s: State, s': State, ctx: Context, id: Bytes, claimed: bool, denom: string)
    requires id in s.swaps && Settles(cfg, s, s', ctx, id)
    requires var d := s.swaps[id].coin.denom; Issues(cfg, s.supplies[d], s'.supplies[d], s.swaps[id], claimed)
    ensures CurrentOf(s', denom) == CurrentOf(s, denom) +
            Issued(if claimed then Claimed(id, s.swaps[id], ctx) else Refunded(id, s.swaps[id], ctx), denom)
  {
  }

  lemma OpeningIssuesNothing(cfg: Config, s: State, s': State, id: Bytes, sw: Swap, denom: string)
    requires Opens(cfg, s, s', id, sw)
    ensures CurrentOf(s', denom) == CurrentOf(s, denom)
  {
  }

  lemma StepKeepsIssue(cfg: Config, w: World, step: Step, denom: string)
    requires Inv(cfg, w.s)
    ensures var w' := Exec(cfg, w, step);
            CurrentOf(w'.s, denom) - CurrentOf(w.s, denom) == IssuedBy(w'.log, denom) - IssuedBy(w.log, denom)
  {
    if Admissible(w, step) {
      match step
      case NewBlock(ctx) => BlockKeepsCurrent(cfg, w.s, ctx, denom);
      case CreateSwap(m) =>
        if Create(cfg, w.s, w.ctx, m).Ok? {
          CreateOpens(cfg, w.s, w.ctx, m);
          var (c, d) := CheckCreate(cfg, w.s, w.ctx, m).value;
          var sw := NewSwap(w.ctx, m, c, d);
          OpeningIssuesNothing(cfg, w.s, Create(cfg, w.s, w.ctx, m).value, SwapID(cfg, sw), sw, denom);
          IssuedSnoc(w.log, Created(SwapID(cfg, sw), sw), denom);
        }
      case ClaimSwap(id, secret) =>
        if Claim(cfg, w.s, w.ctx, id, secret).Ok? {
          ClaimSettles(cfg, w.s, w.ctx, id, secret);
          SettlingIssues(cfg, w.s, Claim(cfg, w.s, w.ctx, id, secret).value, w.ctx, id, true, denom);
          IssuedSnoc(w.log, Claimed(id, w.s.swaps[id], w.ctx), denom);
        }
      case RefundSwap(id) =>
        if Refund(cfg, w.s, w.ctx, id).Ok? {
          RefundSettles(cfg, w.s, w.ctx, id);
          SettlingIssues(cfg, w.s, Refund(cfg, w.s, w.ctx, id).value, w.ctx, id, false, denom);
          IssuedSnoc(w.log, Refunded(id, w.s.swaps[id], w.ctx), denom);
        }
      case OtherModules(bank) =>
    }
  }

  /** The current supply counter is exactly what the module minted minus what it burned. */
  lemma {:induction false} CurrentIsMintedMinusBurned(cfg: Config, w: World, steps: seq<Step>, denom: string)
    requires Start(cfg, w)
    ensures var w' := Run(cfg, w, steps); CurrentOf(w'.s, denom) == CurrentOf(w.s, denom) + IssuedBy(w'.log, denom)
    decreases |steps|
  {
    if steps != [] {
      var before := steps[..|steps| - 1];
      CurrentIsMintedMinusBurned(cfg, w, before, denom);
      RunKeepsInv(cfg, w, before);
      StepKeepsIssue(cfg, Run(cfg, w, before), steps[|steps| - 1], denom);
    }
  }

  // ---------------------------------------------------------------- every swap comes to an end

  /** One more block at the end of a run. */
  lemma NextBlock(cfg: Config, w: World, steps: seq<Step>, ctx: Context)
    requires Admissible(Run(cfg, w, steps), NewBlock(ctx))
    ensures Run(cfg, w, steps + [NewBlock(ctx)]) ==
            var w' := Run(cfg, w, steps); World(BeginBlock(cfg, w'.s, ctx), ctx, true, w'.log)
  {
    RunSnoc(cfg, w, steps, NewBlock(ctx));
  }

  lemma BlockExpires(cfg: Config, s: State, ctx: Context, id: Bytes)
    requires IsLive(s, id) && s.swaps[id].expireHeight <= ctx.height
    ensures var s' := BeginBlock(cfg, s, ctx);
            id in s'.swaps && s'.swaps[id] == s.swaps[id].(status := Expired) && s'.bank == s.bank
  {
  }

  /** Whatever happened before, a swap still live when its expiry height comes can be refunded from that block on. */
  lemma LiveSwapCanBeRefunded(cfg: Config, w: World, steps: seq<Step>, ctx: Context, id: Bytes)
    requires Start(cfg, w)
    requires var w' := Run(cfg, w, steps);
             && w'.ctx.height < ctx.height && w'.ctx.time <= ctx.time
             && IsLive(w'.s, id) && w'.s.swaps[id].expireHeight <= ctx.height
    ensures Refund(cfg, Run(cfg, w, steps + [NewBlock(ctx)]).s, ctx, id).Ok?
  {
    var w' := Run(cfg, w, steps);
    RunKeepsInv(cfg, w, steps);
    NextBlock(cfg, w, steps, ctx);
    BlockExpires(cfg, w'.s, ctx, id);
    BeginBlockKeepsInv(cfg, w'.s, ctx);
    RefundSucceedsExactly(cfg, BeginBlock(cfg, w'.s, ctx), ctx, id);
  }

  /** A swap that is created and then refunded leaves every balance and every counter as if it had never been. */
  lemma RefundUndoesCreate(cfg: Config, s: State, ctx: Context, m: CreateMsg, later: Context, id: Bytes)
    requires Inv(cfg, s) && !m.sender.Module? && Create(cfg, s, ctx, m).Ok?
    requires id == cfg.hashID(m.randomNumberHash, m.sender, m.senderOtherChain)
    requires var s2 := BeginBlock(cfg, Create(cfg, s, ctx, m).value, later); Refund(cfg, s2, later, id).Ok?
    ensures var s3 := Refund(cfg, BeginBlock(cfg, Create(cfg, s, ctx, m).value, later), later, id).value;
            && (forall a, d :: BalanceOf(s3.bank, a, d) == BalanceOf(s.bank, a, d))
            && (forall d <- s.supplies :: d in s3.supplies && SameCounters(s3.supplies[d], s.supplies[d]))
  {
    CreateOpens(cfg, s, ctx, m);
    CreateKeepsInv(cfg, s, ctx, m);
    var (c, d) := CheckCreate(cfg, s, ctx, m).value;
    var s1, sw := Create(cfg, s, ctx, m).value, NewSwap(ctx, m, c, d);
    var s2 := BeginBlock(cfg, s1, later);
    assert IsLive(s1, id) && s1.swaps[id] == sw;
    BeginBlockKeepsInv(cfg, s1, later);
    RefundFindsSwap(cfg, s1, later, id);
    var gone := sw.(status := Expired);
    RefundSettles(cfg, s2, later, id);
    var s3 := Refund(cfg, s2, later, id).value;
    CreateMovesCoin(cfg, s, ctx, m);
    RefundUndoesMove(cfg, s.bank, s1.bank, gone);
    forall x <- s.supplies ensures x in s3.supplies && SameCounters(s3.supplies[x], s.supplies[x]) {
      BlockKeepsCounters(cfg, s1, later, x);
      UndoneCounters(cfg, s, s1, s2, s3, later, id, sw, x);
    }
  }

  predicate SameCounters(x: Supply, y: Supply) {
    x.incoming == y.incoming && x.outgoing == y.outgoing && x.current == y.current
  }

  lemma CreateMovesCoin(cfg: Config, s: State, ctx: Context, m: CreateMsg)
    requires Create(cfg, s, ctx, m).Ok?
    ensures var (c, d) := CheckCreate(cfg, s, ctx, m).value;
            Ok(Create(cfg, s, ctx, m).value.bank) ==
            if d == Incoming then Ok(s.bank) else Apply(cfg.blocked, s.bank, Move(m.sender, ESCROW, c, SwapMoney))
  {
  }

  lemma RefundFindsSwap(cfg: Config, s1: State, later: Context, id: Bytes)
    requires id in s1.swaps && s1.swaps[id].status == Open
    requires Refund(cfg, BeginBlock(cfg, s1, later), later, id).Ok?
    ensures var s2 := BeginBlock(cfg, s1, later);
            && id in s2.swaps && s2.swaps[id] == s1.swaps[id].(status := Expired) && s2.bank == s1.bank
            && Ok(Refund(cfg, s2, later, id).value.bank) == ApplyAll(cfg.blocked, s2.bank, RefundOps(s2.swaps[id]))
  {
  }

  lemma UndoneCounters(
    cfg: Config, s: State, s1: State, s2: State, s3: State, later: Context, id: Bytes, sw: Swap, d: string)
    requires Opens(cfg, s, s1, id, sw) && d in s.supplies
    requires d in s2.supplies && SameCounters(s2.supplies[d], s1.supplies[d])
    requires id in s2.swaps && s2.swaps[id] == sw.(status := Expired) && Settles(cfg, s2, s3, later, id)
    requires var x := sw.coin.denom; Issues(cfg, s2.supplies[x], s3.supplies[x], s2.swaps[id], false)
    ensures d in s3.supplies && SameCounters(s3.supplies[d], s.supplies[d])
  {
  }

  lemma RefundUndoesMove(cfg: Config, b: Balances, b1: Balances, sw: Swap)
    requires !sw.sender.Module?
    requires Ok(b1) == if sw.direction == Incoming then Ok(b)
             else Apply(cfg.blocked, b, Move(sw.sender, ESCROW, sw.coin, SwapMoney))
    ensures var r := ApplyAll(cfg.blocked, b1, RefundOps(sw));
            r.Ok? && forall a, d :: BalanceOf(r.value, a, d) == BalanceOf(b, a, d)
  {
    RefundOpsGoThrough(cfg, b1, sw);
  }

  lemma BlockKeepsCounters(cfg: Config, s: State, ctx: Context, denom: string)
    requires ValidAssets(cfg.assets) && denom in s.supplies
    ensures var s' := BeginBlock(cfg, s, ctx);
            denom in s'.supplies && SameCounters(s'.supplies[denom], s.supplies[denom])
  {
    TickAllPointwise(cfg.assets, s.supplies, ElapsedSince(s, ctx), denom);
    UpdateLimitsTicks(cfg, s, ctx);
  }
}
