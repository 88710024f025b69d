/** The governance tally (app/tally_handler.go): votes of delegators, of holders of staking derivatives, and of
    validators with what their delegators left them. The result as a sum, and that it does not depend on any order. */
module Tally {
  import opened Prelude
  import opened MapSums
  import opened Decimal

  /** A voter's address and the operator address made of the same bytes are one number here. */
  type Addr = nat

  datatype VoteOption = Yes | Abstain | No | NoWithVeto
  datatype Weighted = Weighted(option: VoteOption, weight: int)
  datatype Vote = Vote(voter: Addr, options: seq<Weighted>)

  /** Shares are Dec, so scaled by ONE; tokens are whole. */
  datatype Validator = Validator(tokens: nat, shares: int, bonded: bool)
  datatype Delegation = Delegation(val: Addr, shares: int)
  /** An amount of the derivative of one validator. */
  datatype Holding = Holding(val: Addr, amount: nat)

  /** What the other modules know: validators, delegations, and the derivatives in wallets, savings deposits and
      vaults. */
  datatype Env = Env(
    validators: map<Addr, Validator>, delegations: map<Addr, seq<Delegation>>,
    wallet: map<Addr, seq<Holding>>, savings: map<Addr, seq<Holding>>, earn: map<Addr, seq<Holding>>)
  {
    predicate Valid() {
      forall a <- validators :: validators[a].shares > 0
    }

    predicate Bonded(a: Addr) {
      a in validators && validators[a].bonded
    }
  }

  function ListOf<T>(m: map<Addr, seq<T>>, a: Addr): seq<T> {
    if a in m then m[a] else []
  }

  /** A validator during the tally. */
  datatype ValInfo = ValInfo(tokens: nat, shares: int, deductions: int, vote: seq<Weighted>)

  datatype Params = Params(quorum: int, threshold: int, vetoThreshold: int, burnVoteQuorum: bool, burnVoteVeto: bool)

  // ---------------------------------------------------------------- voting power

  /** shares * tokens / total shares. */
  function Power(shares: int, tokens: nat, total: int): int
    requires total > 0
  {
    QuoDec(shares * tokens, total)
  }

  /** GetStakedTokensForDerivatives: derivatives are one to one with shares; whole tokens, rounded down. */
  function Staked(v: Validator, amount: nat): int
    requires v.shares > 0
  {
    TruncDiv(TruncDiv(TruncDiv(amount * ONE * v.tokens * ONE * ONE, v.shares), ONE), ONE)
  }

  /** What a vote with some power adds to one option. */
  function OptionScore(ws: seq<Weighted>, power: int, o: VoteOption): int {
    if ws == [] then 0
    else OptionScore(ws[..|ws| - 1], power, o) +
         (if ws[|ws| - 1].option == o then MulDec(power, ws[|ws| - 1].weight) else 0)
  }

  /** A place in the result: one of the options, or (None) the total voting power. */
  type Slot = Option<VoteOption>

  function Score(ws: seq<Weighted>, power: int, slot: Slot): int {
    if slot.None? then power else OptionScore(ws, power, slot.value)
  }

  // ---------------------------------------------------------------- derivatives of a voter

  /** bkavaByDenom.add, for denoms that are derivatives of a known validator. */
  function AddHolding(env: Env, m: map<Addr, Holding>, h: Holding): map<Addr, Holding> {
    if h.val !in env.validators then m
    else m[h.val := Holding(h.val, h.amount + if h.val in m then m[h.val].amount else 0)]
  }

  function AddHoldings(env: Env, m: map<Addr, Holding>, hs: seq<Holding>): map<Addr, Holding> {
    if hs == [] then m else AddHolding(env, AddHoldings(env, m, hs[..|hs| - 1]), hs[|hs| - 1])
  }

  /** getAddrBkava: everything a voter holds, one entry per validator. */
  function Bkava(env: Env, voter: Addr): map<Addr, Holding> {
    AddHoldings(env, AddHoldings(env, AddHoldings(env, map[], ListOf(env.wallet, voter)),
                                 ListOf(env.savings, voter)), ListOf(env.earn, voter))
  }

  // ---------------------------------------------------------------- the tally as a sum

  function DelegationScore(env: Env, d: Delegation, ws: seq<Weighted>, slot: Slot): int
    requires env.Valid()
  {
    if env.Bonded(d.val) then
      Score(ws, Power(d.shares, env.validators[d.val].tokens, env.validators[d.val].shares), slot)
    else 0
  }

  function DelegationScores(env: Env, ds: seq<Delegation>, ws: seq<Weighted>, slot: Slot): int
    requires env.Valid()
  {
    if ds == [] then 0
    else DelegationScores(env, ds[..|ds| - 1], ws, slot) + DelegationScore(env, ds[|ds| - 1], ws, slot)
  }

  function HoldingScore(env: Env, ws: seq<Weighted>, slot: Slot): Holding -> int
    requires env.Valid()
  {
    (h: Holding) =>
      if h.val in env.validators then Score(ws, Staked(env.validators[h.val], h.amount) * ONE, slot) else 0
  }

  /** What one vote adds, apart from the voter's own validator. */
  ghost function VoteScore(env: Env, v: Vote, slot: Slot): int
    requires env.Valid()
  {
    DelegationScores(env, ListOf(env.delegations, v.voter), v.options, slot)
    + Total(Bkava(env, v.voter), HoldingScore(env, v.options, slot))
  }

  ghost function VoteScores(env: Env, votes: seq<Vote>, slot: Slot): int
    requires env.Valid()
  {
    if votes == [] then 0 else VoteScores(env, votes[..|votes| - 1], slot) + VoteScore(env, votes[|votes| - 1], slot)
  }

  function DelegatedTo(ds: seq<Delegation>, a: Addr): int {
    if ds == [] then 0 else DelegatedTo(ds[..|ds| - 1], a) + (if ds[|ds| - 1].val == a then ds[|ds| - 1].shares else 0)
  }

  /** The shares of a validator that a voter votes with directly. */
  function DeductedBy(env: Env, voter: Addr, a: Addr): int {
    DelegatedTo(ListOf(env.delegations, voter), a) +
    (if a in Bkava(env, voter) then Bkava(env, voter)[a].amount * ONE else 0)
  }

  function Deducted(env: Env, votes: seq<Vote>, a: Addr): int {
    if votes == [] then 0 else Deducted(env, votes[..|votes| - 1], a) + DeductedBy(env, votes[|votes| - 1].voter, a)
  }

  /** The vote recorded for a validator. */
  function VoteOf(votes: seq<Vote>, a: Addr): seq<Weighted> {
    if votes == [] then []
    else if votes[|votes| - 1].voter == a then votes[|votes| - 1].options
    else VoteOf(votes[..|votes| - 1], a)
  }

  /** The bonded validators after these votes. */
  function Infos(env: Env, votes: seq<Vote>): map<Addr, ValInfo> {
    map a | a in env.validators && env.validators[a].bonded ::
      ValInfo(env.validators[a].tokens, env.validators[a].shares, Deducted(env, votes, a), VoteOf(votes, a))
  }

  /** What a validator adds: the power of the shares nobody else voted with. */
  function InfoScore(slot: Slot): ValInfo -> int {
    (i: ValInfo) =>
      if i.vote == [] || i.shares <= 0 then 0
      else Score(i.vote, Power(i.shares - i.deductions, i.tokens, i.shares), slot)
  }

  ghost function TallyOf(env: Env, votes: seq<Vote>, slot: Slot): int
    requires env.Valid()
  {
    VoteScores(env, votes, slot) + Total(Infos(env, votes), InfoScore(slot))
  }

  /** The decision, from the results and the total alone. Dividing by a zero total panics. */
  function Decide(p: Params, bondedTokens: nat, results: map<VoteOption, int>, total: int): Result<(bool, bool)>
    requires forall o: VoteOption :: o in results
  {
    if bondedTokens == 0 then Ok((false, false))
    else if QuoDec(total, bondedTokens * ONE) < p.quorum then Ok((false, p.burnVoteQuorum))
    else if total - results[Abstain] == 0 then Ok((false, false))
    else if total == 0 then Err(InvalidAmount)
    else if QuoDec(results[NoWithVeto], total) > p.vetoThreshold then Ok((false, p.burnVoteVeto))
    else if QuoDec(results[Yes], total - results[Abstain]) > p.threshold then Ok((true, false))
    else Ok((false, false))
  }

  // ---------------------------------------------------------------- no order matters

  predicate OneVoteEach(votes: seq<Vote>) {
    forall i, j :: 0 <= i < j < |votes| ==> votes[i].voter != votes[j].voter
  }

  /** Taking a vote out of the middle. */
  lemma {:induction false} VoteTakenOut(env: Env, xs: seq<Vote>, v: Vote, ys: seq<Vote>, slot: Slot, a: Addr)
    requires env.Valid() && OneVoteEach(xs + [v] + ys)
    ensures VoteScores(env, xs + [v] + ys, slot) == VoteScores(env, xs + ys, slot) + VoteScore(env, v, slot)
    ensures Deducted(env, xs + [v] + ys, a) == Deducted(env, xs + ys, a) + DeductedBy(env, v.voter, a)
    ensures VoteOf(xs + [v] + ys, a) == if v.voter == a then v.options else VoteOf(xs + ys, a)
    decreases |ys|
  {
    var all := xs + [v] + ys;
    if ys == [] {
      assert all[..|all| - 1] == xs == xs + ys;
    } else {
      var ys' := ys[..|ys| - 1];
      assert all[..|all| - 1] == xs + [v] + ys';
      assert (xs + ys)[..|xs + ys| - 1] == xs + ys';
      assert all[|xs|].voter != all[|all| - 1].voter;
      VoteTakenOut(env, xs, v, ys', slot, a);
    }
  }

  /** The last vote of one list, found in the other. */
  lemma PullOut(votes: seq<Vote>, other: seq<Vote>) returns (xs: seq<Vote>, ys: seq<Vote>)
    requires votes != [] && multiset(votes) == multiset(other) && OneVoteEach(other)
    ensures other == xs + [votes[|votes| - 1]] + ys && OneVoteEach(xs + ys)
    ensures multiset(votes[..|votes| - 1]) == multiset(xs + ys)
  {
    var v, init := votes[|votes| - 1], votes[..|votes| - 1];
    assert votes == init + [v];
    assert v in multiset(other);
    var p :| 0 <= p < |other| && other[p] == v;
    xs, ys := other[..p], other[p + 1..];
    assert other == xs + [v] + ys;
    SameButOne(init, v, xs, ys);
    WithoutOne(other, p);
  }

  lemma SameButOne(init: seq<Vote>, v: Vote, xs: seq<Vote>, ys: seq<Vote>)
    requires multiset(init + [v]) == multiset(xs + [v] + ys)
    ensures multiset(init) == multiset(xs + ys)
  {
    assert multiset(init + [v]) == multiset(init) + multiset{v};
    assert multiset(xs + [v] + ys) == multiset(xs + ys) + multiset{v};
    assert multiset(init) == multiset(init) + multiset{v} - multiset{v};
    assert multiset(xs + ys) == multiset(xs + ys) + multiset{v} - multiset{v};
  }

  /** Any two lists of the same votes give the same sums, deductions and recorded votes. */
  lemma {:induction false} VotesReordered(env: Env, votes: seq<Vote>, other: seq<Vote>, slot: Slot, a: Addr)
    requires env.Valid() && multiset(votes) == multiset(other) && OneVoteEach(votes) && OneVoteEach(other)
    ensures VoteScores(env, votes, slot) == VoteScores(env, other, slot)
    ensures Deducted(env, votes, a) == Deducted(env, other, a) && VoteOf(votes, a) == VoteOf(other, a)
    decreases |votes|
  {
    if votes == [] {
      assert |other| == |multiset(other)| == |multiset(votes)| == 0;
    } else {
      var xs, ys := PullOut(votes, other);
      VotesReordered(env, votes[..|votes| - 1], xs + ys, slot, a);
      VoteTakenOut(env, xs, votes[|votes| - 1], ys, slot, a);
    }
  }

  lemma WithoutOne(votes: seq<Vote>, p: nat)
    requires p < |votes| && OneVoteEach(votes)
    ensures OneVoteEach(votes[..p] + votes[p + 1..])
  {
    var rest := votes[..p] + votes[p + 1..];
    forall i, j | 0 <= i < j < |rest| ensures rest[i].voter != rest[j].voter {
      assert rest[i] == votes[if i < p then i else i + 1];
      assert rest[j] == votes[if j < p then j else j + 1];
    }
  }

  /** The tally does not depend on the order of the votes. (That it does not depend on the order of the validator
      and derivative maps either is built into TallyOf, which sums over maps; the methods CountBkava and
      CountValidators visit them in any order.) */
  lemma TallyIsOrderIndependent(env: Env, votes: seq<Vote>, other: seq<Vote>, slot: Slot)
    requires env.Valid() && multiset(votes) == multiset(other) && OneVoteEach(votes) && OneVoteEach(other)
    ensures TallyOf(env, votes, slot) == TallyOf(env, other, slot)
  {
    VotesReordered(env, votes, other, slot, 0);
    forall a | a in Infos(env, votes) ensures Infos(env, votes)[a] == Infos(env, other)[a] {
      VotesReordered(env, votes, other, slot, a);
    }
    assert Infos(env, votes) == Infos(env, other);
  }

  // ---------------------------------------------------------------- power is conserved

  /** What one voter's delegations to a validator count for. */
  function PowerVia(env: Env, ds: seq<Delegation>, a: Addr): int
    requires env.Valid() && a in env.validators
  {
    if ds == [] then 0
    else PowerVia(env, ds[..|ds| - 1], a)
         + (if ds[|ds| - 1].val != a then 0
            else Power(ds[|ds| - 1].shares, env.validators[a].tokens, env.validators[a].shares))
  }

  function CountTo(ds: seq<Delegation>, a: Addr): nat {
    if ds == [] then 0 else CountTo(ds[..|ds| - 1], a) + (if ds[|ds| - 1].val == a then 1 else 0)
  }

  /** The power counted through one validator by one voter: delegations, and derivatives in whole tokens. */
  function VoterPowerVia(env: Env, voter: Addr, a: Addr): int
    requires env.Valid() && a in env.validators
  {
    PowerVia(env, ListOf(env.delegations, voter), a)
    + (if a in Bkava(env, voter) then Staked(env.validators[a], Bkava(env, voter)[a].amount) * ONE else 0)
  }

  function VotersPowerVia(env: Env, votes: seq<Vote>, a: Addr): int
    requires env.Valid() && a in env.validators
  {
    if votes == [] then 0
    else VotersPowerVia(env, votes[..|votes| - 1], a) + VoterPowerVia(env, votes[|votes| - 1].voter, a)
  }

  /** How many units in the last place the rounding may amount to: one per delegation, a whole token per derivative. */
  function Slack(env: Env, votes: seq<Vote>, a: Addr): nat {
    if votes == [] then 0
    else
      var voter := votes[|votes| - 1].voter;
      Slack(env, votes[..|votes| - 1], a) + CountTo(ListOf(env.delegations, voter), a) +
      (if a in Bkava(env, voter) then ONE else 0)
  }

  /** Being near: x parts of S stand for p, up to k units. */
  predicate Near(p: int, S: int, x: int, tokens: int, k: int) {
    -(k * S) <= p * S - x * tokens * ONE <= k * S
  }

  lemma NearSum(p: int, q: int, S: int, x: int, y: int, tokens: int, k: int, l: int)
    requires Near(p, S, x, tokens, k) && Near(q, S, y, tokens, l)
    ensures Near(p + q, S, x + y, tokens, k + l)
  {
    assert (p + q) * S == p * S + q * S;
    assert (x + y) * tokens * ONE == x * tokens * ONE + y * tokens * ONE by {
      assert (x + y) * tokens == x * tokens + y * tokens;
    }
    assert (k + l) * S == k * S + l * S;
  }

  lemma PowerIsNear(shares: int, tokens: nat, total: int)
    requires total > 0
    ensures Near(Power(shares, tokens, total), total, shares, tokens, 1)
  {
    QuoDecClose(shares * tokens, total);
  }

  lemma StakedIsNear(v: Validator, amount: nat)
    requires v.shares > 0
    ensures Near(Staked(v, amount) * ONE, v.shares, amount * ONE, v.tokens, ONE)
  {
    var x := amount * ONE * v.tokens;
    var t := TruncDiv(x * ONE * ONE, v.shares);
    var u := TruncDiv(t, ONE);
    TruncDivClose(x * ONE * ONE, v.shares);
    FloorDown(x * ONE * ONE, v.shares);
    FloorDown(t, ONE);
    FloorDown(u, ONE);
    StakedArithmetic(x, v.shares, t, u, TruncDiv(u, ONE));
  }

  lemma StakedArithmetic(x: int, S: int, t: int, u: int, s: int)
    requires S > 0
    requires 0 <= x * ONE * ONE - t * S < S
    requires 0 <= t - u * ONE < ONE
    requires 0 <= u - s * ONE < ONE
    ensures -(ONE * S) <= s * ONE * S - x * ONE <= ONE * S
  {
    Scaled(S, t - u * ONE, ONE - 1);
    Scaled(S, 0, t - u * ONE);
    Scaled(S, u - s * ONE, ONE - 1);
    Scaled(S, 0, u - s * ONE);
    assert (t - u * ONE) * S == t * S - u * S * ONE;
    assert (u - s * ONE) * S == u * S - s * S * ONE;
    assert s * ONE * S == s * S * ONE;
  }

  lemma {:induction false} PowerViaIsNear(env: Env, ds: seq<Delegation>, a: Addr)
    requires env.Valid() && a in env.validators
    ensures var v := env.validators[a];
            Near(PowerVia(env, ds, a), v.shares, DelegatedTo(ds, a), v.tokens, CountTo(ds, a))
    decreases |ds|
  {
    if ds != [] {
      var v, d := env.validators[a], ds[|ds| - 1];
      var init := ds[..|ds| - 1];
      PowerViaIsNear(env, init, a);
      if d.val == a {
        PowerIsNear(d.shares, v.tokens, v.shares);
        NearSum(PowerVia(env, init, a), Power(d.shares, v.tokens, v.shares), v.shares, DelegatedTo(init, a), d.shares,
                v.tokens, CountTo(init, a), 1);
      }
    }
  }

  lemma VoterIsNear(env: Env, voter: Addr, a: Addr)
    requires env.Valid() && a in env.validators
    ensures var v := env.validators[a];
            Near(VoterPowerVia(env, voter, a), v.shares, DeductedBy(env, voter, a), v.tokens,
                 CountTo(ListOf(env.delegations, voter), a) + (if a in Bkava(env, voter) then ONE else 0))
  {
    var v, ds := env.validators[a], ListOf(env.delegations, voter);
    PowerViaIsNear(env, ds, a);
    if a in Bkava(env, voter) {
      var h := Bkava(env, voter)[a].amount;
      StakedIsNear(v, h);
      NearSum(PowerVia(env, ds, a), Staked(v, h) * ONE, v.shares, DelegatedTo(ds, a), h * ONE, v.tokens,
              CountTo(ds, a), ONE);
    }
  }

  lemma {:induction false} VotersAreNear(env: Env, votes: seq<Vote>, a: Addr)
    requires env.Valid() && a in env.validators
    ensures var v := env.validators[a];
            Near(VotersPowerVia(env, votes, a), v.shares, Deducted(env, votes, a), v.tokens, Slack(env, votes, a))
    decreases |votes|
  {
    if votes != [] {
      var v, init, voter := env.validators[a], votes[..|votes| - 1], votes[|votes| - 1].voter;
      VotersAreNear(env, init, a);
      VoterIsNear(env, voter, a);
      NearSum(VotersPowerVia(env, init, a), VoterPowerVia(env, voter, a), v.shares, Deducted(env, init, a),
              DeductedBy(env, voter, a), v.tokens, Slack(env, init, a),
              CountTo(ListOf(env.delegations, voter), a) + (if a in Bkava(env, voter) then ONE else 0));
    }
  }

  lemma NearWhole(p: int, S: int, tokens: int, k: int)
    requires S > 0 && Near(p, S, S, tokens, k)
    ensures -k <= p - tokens * ONE <= k
  {
    assert p * S - S * tokens * ONE == (p - tokens * ONE) * S;
    Scaled(S, k + 1, p - tokens * ONE);
    Scaled(S, p - tokens * ONE, -k - 1);
    assert (k + 1) * S == k * S + S && (-k - 1) * S == -(k * S) - S;
  }

  /** Everything counted through one validator: by its voting delegators and derivative holders, and by itself. */
  function CountedVia(env: Env, votes: seq<Vote>, a: Addr): int
    requires env.Valid() && a in env.validators
  {
    var v := env.validators[a];
    VotersPowerVia(env, votes, a)
    + (if VoteOf(votes, a) == [] then 0 else Power(v.shares - Deducted(env, votes, a), v.tokens, v.shares))
  }

  /** Power is conserved: a bonded validator that votes counts, together with its voting delegators, for its bonded
      tokens, up to one unit in the last place per delegation (and one for itself) and one token per derivative
      holding. */
  lemma ValidatorPowerIsConserved(env: Env, votes: seq<Vote>, a: Addr)
    requires env.Valid() && env.Bonded(a) && VoteOf(votes, a) != []
    ensures var k := Slack(env, votes, a) + 1;
            -k <= CountedVia(env, votes, a) - env.validators[a].tokens * ONE <= k
  {
    var v, x := env.validators[a], Deducted(env, votes, a);
    VotersAreNear(env, votes, a);
    PowerIsNear(v.shares - x, v.tokens, v.shares);
    NearSum(VotersPowerVia(env, votes, a), Power(v.shares - x, v.tokens, v.shares), v.shares, x, v.shares - x, v.tokens,
            Slack(env, votes, a), 1);
    NearWhole(CountedVia(env, votes, a), v.shares, v.tokens, Slack(env, votes, a) + 1);
  }

  // ---------------------------------------------------------------- every vote counts through exactly one validator

  /** What a voter's delegations count for at a validator: only bonded ones count. */
  function ViaDelegations(env: Env, ds: seq<Delegation>): map<Addr, int>
    requires env.Valid()
  {
    map a | a in env.validators :: if env.validators[a].bonded then PowerVia(env, ds, a) else 0
  }

  lemma {:induction false} DelegationsByValidator(env: Env, ds: seq<Delegation>, ws: seq<Weighted>)
    requires env.Valid()
    ensures DelegationScores(env, ds, ws, None) == Total(ViaDelegations(env, ds), Id())
    decreases |ds|
  {
    if ds == [] {
      var none: map<Addr, int> := map[];
      TotalImage(none, Id(), ViaDelegations(env, ds));
    } else {
      DelegationsByValidator(env, ds[..|ds| - 1], ws);
      LastDelegation(env, ds, ws);
    }
  }

  lemma LastDelegation(env: Env, ds: seq<Delegation>, ws: seq<Weighted>)
    requires env.Valid() && ds != []
    ensures Total(ViaDelegations(env, ds), Id()) ==
            Total(ViaDelegations(env, ds[..|ds| - 1]), Id()) + DelegationScore(env, ds[|ds| - 1], ws, None)
  {
    var d, init := ds[|ds| - 1], ds[..|ds| - 1];
    var before: map<Addr, int> := ViaDelegations(env, init);
    var after: map<Addr, int> := ViaDelegations(env, ds);
    if env.Bonded(d.val) {
      var more := DelegationScore(env, d, ws, None);
      assert after == before[d.val := before[d.val] + more];
      TotalUpdate<Addr, int>(before, Id(), d.val, before[d.val] + more);
      assert Id()(before[d.val] + more) == before[d.val] + more && Id()(before[d.val]) == before[d.val];
    } else {
      assert after == before;
    }
  }

  lemma {:induction false} HoldingsAreKeyed(env: Env, m: map<Addr, Holding>, hs: seq<Holding>)
    requires forall a <- m :: a in env.validators && m[a].val == a
    ensures var r := AddHoldings(env, m, hs); forall a <- r :: a in env.validators && r[a].val == a
    decreases |hs|
  {
    if hs != [] { HoldingsAreKeyed(env, m, hs[..|hs| - 1]); }
  }

  lemma BkavaIsKeyed(env: Env, voter: Addr)
    ensures var m := Bkava(env, voter); forall a <- m :: a in env.validators && m[a].val == a
  {
    var w := AddHoldings(env, map[], ListOf(env.wallet, voter));
    HoldingsAreKeyed(env, map[], ListOf(env.wallet, voter));
    HoldingsAreKeyed(env, w, ListOf(env.savings, voter));
    HoldingsAreKeyed(env, AddHoldings(env, w, ListOf(env.savings, voter)), ListOf(env.earn, voter));
  }

  /** How much of a validator's derivative is in a list of holdings. */
  function AmountIn(hs: seq<Holding>, a: Addr): nat {
    if hs == [] then 0 else AmountIn(hs[..|hs| - 1], a) + (if hs[|hs| - 1].val == a then hs[|hs| - 1].amount else 0)
  }

  function AmountAt(m: map<Addr, Holding>, a: Addr): nat {
    if a in m then m[a].amount else 0
  }

  lemma {:induction false} HoldingsAddUp(env: Env, m: map<Addr, Holding>, hs: seq<Holding>, a: Addr)
    ensures AmountAt(AddHoldings(env, m, hs), a) == AmountAt(m, a) +
            (if a in env.validators then AmountIn(hs, a) else 0)
    decreases |hs|
  {
    if hs != [] { HoldingsAddUp(env, m, hs[..|hs| - 1], a); }
  }

  /** What a voter holds of a validator's derivative: all that is in the wallet, in savings deposits and in vaults, and
      nothing that is not the derivative of a known validator. */
  lemma BkavaIsEverythingHeld(env: Env, voter: Addr, a: Addr)
    ensures AmountAt(Bkava(env, voter), a) ==
            if a !in env.validators then 0
            else AmountIn(ListOf(env.wallet, voter), a) + AmountIn(ListOf(env.savings, voter), a)
                 + AmountIn(ListOf(env.earn, voter), a)
  {
    var w := AddHoldings(env, map[], ListOf(env.wallet, voter));
    HoldingsAddUp(env, map[], ListOf(env.wallet, voter), a);
    HoldingsAddUp(env, w, ListOf(env.savings, voter), a);
    HoldingsAddUp(env, AddHoldings(env, w, ListOf(env.savings, voter)), ListOf(env.earn, voter), a);
  }

  function ViaHoldings(env: Env, voter: Addr): map<Addr, int>
    requires env.Valid()
  {
    map a | a in env.validators ::
      if a in Bkava(env, voter) then Staked(env.validators[a], Bkava(env, voter)[a].amount) * ONE else 0
  }

  lemma HoldingsByValidator(env: Env, voter: Addr, ws: seq<Weighted>)
    requires env.Valid()
    ensures Total(Bkava(env, voter), HoldingScore(env, ws, None)) == Total(ViaHoldings(env, voter), Id())
  {
    BkavaIsKeyed(env, voter);
    TotalImage(Bkava(env, voter), HoldingScore(env, ws, None), ViaHoldings(env, voter));
  }

  /** The power counted through each validator; delegations to a validator that is not bonded do not count,
      derivatives of one do. */
  function ByValidator(env: Env, votes: seq<Vote>): map<Addr, int>
    requires env.Valid()
    decreases |votes|
  {
    if votes == [] then map a | a in env.validators :: 0
    else
      var rest, voter := ByValidator(env, votes[..|votes| - 1]), votes[|votes| - 1].voter;
      map a | a in env.validators ::
        (if a in rest then rest[a] else 0) + ViaDelegations(env, ListOf(env.delegations, voter))[a] +
        ViaHoldings(env, voter)[a]
  }

  lemma {:induction false} ByValidatorIsVoters(env: Env, votes: seq<Vote>, a: Addr)
    requires env.Valid() && env.Bonded(a)
    ensures a in ByValidator(env, votes) && ByValidator(env, votes)[a] == VotersPowerVia(env, votes, a)
    decreases |votes|
  {
    if votes != [] { ByValidatorIsVoters(env, votes[..|votes| - 1], a); }
  }

  lemma {:induction false} VotesByValidator(env: Env, votes: seq<Vote>)
    requires env.Valid()
    ensures ByValidator(env, votes).Keys == env.validators.Keys
    ensures VoteScores(env, votes, None) == Total(ByValidator(env, votes), Id())
    decreases |votes|
  {
    if votes == [] {
      var none: map<Addr, int> := map[];
      TotalImage(none, Id(), ByValidator(env, votes));
    } else {
      var init, v := votes[..|votes| - 1], votes[|votes| - 1];
      VotesByValidator(env, init);
      var ds := ListOf(env.delegations, v.voter);
      DelegationsByValidator(env, ds, v.options);
      HoldingsByValidator(env, v.voter, v.options);
      var two: map<Addr, int> := map a | a in env.validators :: ByValidator(env, init)[a] + ViaDelegations(env, ds)[a];
      TotalSum(ByValidator(env, init), ViaDelegations(env, ds), two);
      TotalSum(two, ViaHoldings(env, v.voter), ByValidator(env, votes));
    }
  }

  /** The power counted through each validator, the validator's own vote included. */
  function AllByValidator(env: Env, votes: seq<Vote>): map<Addr, int>
    requires env.Valid()
  {
    map a | a in env.validators ::
      if env.validators[a].bonded then CountedVia(env, votes, a)
      else if a in ByValidator(env, votes) then ByValidator(env, votes)[a] else 0
  }

  /** What each validator's own vote adds to the total. */
  function OwnPower(env: Env, votes: seq<Vote>): map<Addr, int>
    requires env.Valid()
  {
    map a | a in env.validators ::
      if env.validators[a].bonded && VoteOf(votes, a) != []
      then Power(env.validators[a].shares - Deducted(env, votes, a), env.validators[a].tokens, env.validators[a].shares)
      else 0
  }

  lemma OwnPowerIsInfoScore(env: Env, votes: seq<Vote>)
    requires env.Valid()
    ensures Total(Infos(env, votes), InfoScore(None)) == Total(OwnPower(env, votes), Id())
  {
    TotalImage(Infos(env, votes), InfoScore(None), OwnPower(env, votes));
  }

  /** The total voting power is the sum, over the validators, of what is counted through each: no power is counted
      without a validator behind it, and none through two. */
  lemma TotalPowerIsByValidator(env: Env, votes: seq<Vote>)
    requires env.Valid()
    ensures TallyOf(env, votes, None) == Total(AllByValidator(env, votes), Id())
  {
    VotesByValidator(env, votes);
    OwnPowerIsInfoScore(env, votes);
    forall a | a in env.validators
      ensures AllByValidator(env, votes)[a] == ByValidator(env, votes)[a] + OwnPower(env, votes)[a]
    {
      AllIsVotersAndOwn(env, votes, a);
    }
    TotalSum(ByValidator(env, votes), OwnPower(env, votes), AllByValidator(env, votes));
  }

  lemma AllIsVotersAndOwn(env: Env, votes: seq<Vote>, a: Addr)
    requires env.Valid() && a in env.validators && a in ByValidator(env, votes)
    ensures AllByValidator(env, votes)[a] == ByValidator(env, votes)[a] + OwnPower(env, votes)[a]
  {
    if env.Bonded(a) { ByValidatorIsVoters(env, votes, a); }
  }
}
