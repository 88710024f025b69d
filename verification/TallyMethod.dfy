/** TallyHandler.Tally as the source runs it: nested loops over votes, delegations and derivatives that update the
    results, the total and the validators, then a loop over the validators; maps are visited in any order. */
module TallyMethod {
  import opened Prelude
  import opened MapSums
  import opened Decimal
  import opened Tally

  datatype Sums = Sums(results: map<VoteOption, int>, total: int) {
    predicate Full() {
      forall o: VoteOption :: o in results
    }

    function At(slot: Slot): int
      requires Full()
    {
      if slot.None? then total else results[slot.value]
    }
  }

  const ZERO: Sums := Sums(map[Yes := 0, Abstain := 0, No := 0, NoWithVeto := 0], 0)

  lemma ZeroIsZero()
    ensures ZERO.Full() && forall slot: Slot :: ZERO.At(slot) == 0
  {
    forall o: VoteOption ensures o in ZERO.results && ZERO.results[o] == 0 {
      match o
      case Yes =>
      case Abstain =>
      case No =>
      case NoWithVeto =>
    }
  }

  /** s' is s with these scores added. */
  ghost predicate Added(s: Sums, s': Sums, ws: seq<Weighted>, power: int)
    requires s.Full()
  {
    s'.Full() && forall slot: Slot :: s'.At(slot) == s.At(slot) + Score(ws, power, slot)
  }

  /** The loop over the options of a vote, and the total. */
  method AddScores(s: Sums, ws: seq<Weighted>, power: int) returns (s': Sums)
    requires s.Full()
    ensures Added(s, s', ws, power)
  {
    var results := s.results;
    for i := 0 to |ws|
      invariant forall o: VoteOption :: o in results && results[o] == s.results[o] + OptionScore(ws[..i], power, o)
    {
      var option := ws[i].option;
      assert ws[..i + 1][..i] == ws[..i];
      var subPower := MulDec(power, ws[i].weight);
      results := results[option := results[option] + subPower];
    }
    assert ws[..|ws|] == ws;
    s' := Sums(results, s.total + power);
    forall slot: Slot ensures s'.At(slot) == s.At(slot) + Score(ws, power, slot) {
      if slot.Some? { assert slot.value in results; }
    }
  }

  // ---------------------------------------------------------------- deductions

  ghost predicate InfosOf(env: Env, infos: map<Addr, ValInfo>) {
    forall a :: a in infos <==> env.Bonded(a)
  }

  ghost predicate SameBases(env: Env, infos: map<Addr, ValInfo>)
    requires InfosOf(env, infos)
  {
    forall a <- infos :: infos[a].tokens == env.validators[a].tokens && infos[a].shares == env.validators[a].shares
  }

  function Deduct(infos: map<Addr, ValInfo>, a: Addr, shares: int): map<Addr, ValInfo> {
    if a in infos then infos[a := infos[a].(deductions := infos[a].deductions + shares)] else infos
  }

  method DeductShares(infos: map<Addr, ValInfo>, a: Addr, shares: int) returns (infos': map<Addr, ValInfo>)
    ensures infos' == Deduct(infos, a, shares)
  {
    infos' := infos;
    if a in infos {
      var val := infos[a];
      infos' := infos[a := val.(deductions := val.deductions + shares)];
    }
  }

  function DeductDelegations(infos: map<Addr, ValInfo>, ds: seq<Delegation>): map<Addr, ValInfo> {
    map a | a in infos :: infos[a].(deductions := infos[a].deductions + DelegatedTo(ds, a))
  }

  lemma DeductOneMore(infos: map<Addr, ValInfo>, ds: seq<Delegation>)
    requires ds != []
    ensures var d := ds[|ds| - 1];
            DeductDelegations(infos, ds) == Deduct(DeductDelegations(infos, ds[..|ds| - 1]), d.val, d.shares)
  {
  }

  /** The loop over a voter's delegations. */
  method CountDelegations(env: Env, ds: seq<Delegation>, ws: seq<Weighted>, infos0: map<Addr, ValInfo>, s: Sums)
    returns (infos: map<Addr, ValInfo>, s': Sums)
    requires env.Valid() && InfosOf(env, infos0) && SameBases(env, infos0) && s.Full()
    ensures infos == DeductDelegations(infos0, ds)
    ensures s'.Full() && forall slot: Slot :: s'.At(slot) == s.At(slot) + DelegationScores(env, ds, ws, slot)
  {
    infos, s' := infos0, s;
    assert DeductDelegations(infos0, []) == infos0;
    for j := 0 to |ds|
      invariant infos == DeductDelegations(infos0, ds[..j])
      invariant s'.Full() && forall slot: Slot :: s'.At(slot) == s.At(slot) + DelegationScores(env, ds[..j], ws, slot)
    {
      var d := ds[j];
      assert ds[..j + 1][..j] == ds[..j] && ds[..j + 1][j] == d;
      DeductOneMore(infos0, ds[..j + 1]);
      if d.val in infos {
        var val := infos[d.val];
        infos := infos[d.val := val.(deductions := val.deductions + d.shares)];
        var votingPower := Power(d.shares, val.tokens, val.shares);
        s' := AddScores(s', ws, votingPower);
      }
    }
    assert ds[..|ds|] == ds;
  }

  // ---------------------------------------------------------------- derivatives

  method AddList(env: Env, m0: map<Addr, Holding>, hs: seq<Holding>) returns (m: map<Addr, Holding>)
    ensures m == AddHoldings(env, m0, hs)
  {
    m := m0;
    for i := 0 to |hs|
      invariant m == AddHoldings(env, m0, hs[..i])
    {
      assert hs[..i + 1][..i] == hs[..i];
      var h := hs[i];
      if h.val in env.validators {
        var already := if h.val in m then m[h.val].amount else 0;
        m := m[h.val := Holding(h.val, already + h.amount)];
      }
    }
    assert hs[..|hs|] == hs;
  }

  method GetAddrBkava(env: Env, voter: Addr) returns (m: map<Addr, Holding>)
    ensures m == Bkava(env, voter)
    ensures forall a <- env.validators :: AmountAt(m, a) ==
              AmountIn(ListOf(env.wallet, voter), a) + AmountIn(ListOf(env.savings, voter), a) +
              AmountIn(ListOf(env.earn, voter), a)
  {
    m := AddList(env, map[], ListOf(env.wallet, voter));
    m := AddList(env, m, ListOf(env.savings, voter));
    m := AddList(env, m, ListOf(env.earn, voter));
    forall a <- env.validators ensures AmountAt(m, a) ==
        AmountIn(ListOf(env.wallet, voter), a) + AmountIn(ListOf(env.savings, voter), a) +
        AmountIn(ListOf(env.earn, voter), a)
    {
      BkavaIsEverythingHeld(env, voter, a);
    }
  }

  /** The deductions of the holdings already visited. */
  function DeductHoldings(infos: map<Addr, ValInfo>, held: map<Addr, Holding>, todo: set<Addr>): map<Addr, ValInfo> {
    map a | a in infos ::
      infos[a].(deductions := infos[a].deductions + if a in held && a !in todo then held[a].amount * ONE else 0)
  }

  lemma DeductHolding(infos: map<Addr, ValInfo>, held: map<Addr, Holding>, todo: set<Addr>, a: Addr)
    requires a in held && a in todo
    ensures DeductHoldings(infos, held, todo - {a}) ==
            Deduct(DeductHoldings(infos, held, todo), a, held[a].amount * ONE)
  {
  }

  /** The derivatives counted and those still to count make up the whole. */
  ghost predicate HeldBalanced(
    env: Env, ws: seq<Weighted>, s: Sums, s': Sums, todo: map<Addr, Holding>, held: map<Addr, Holding>)
    requires env.Valid() && s.Full()
  {
    s'.Full() && forall slot: Slot :: s'.At(slot) + Total(todo, HoldingScore(env, ws, slot)) ==
                                      s.At(slot) + Total(held, HoldingScore(env, ws, slot))
  }

  lemma HeldStaysBalanced(
    env: Env, ws: seq<Weighted>, s: Sums, s1: Sums, s2: Sums, todo: map<Addr, Holding>, held: map<Addr, Holding>,
    a: Addr)
    requires env.Valid() && s.Full() && HeldBalanced(env, ws, s, s1, todo, held) && a in todo &&
             todo[a].val in env.validators
    requires Added(s1, s2, ws, Staked(env.validators[todo[a].val], todo[a].amount) * ONE)
    ensures HeldBalanced(env, ws, s, s2, todo - {a}, held)
  {
    forall slot: Slot ensures s2.At(slot) + Total(todo - {a}, HoldingScore(env, ws, slot)) ==
                              s.At(slot) + Total(held, HoldingScore(env, ws, slot))
    {
      TotalRemove<Addr, Holding>(todo, HoldingScore(env, ws, slot), a);
      assert s2.At(slot) == s1.At(slot) + HoldingScore(env, ws, slot)(todo[a]);
    }
  }

  /** The validators with the derivatives counted so far deducted. */
  ghost predicate HeldDeducted(
    infos0: map<Addr, ValInfo>, infos: map<Addr, ValInfo>, todo: map<Addr, Holding>, held: map<Addr, Holding>)
  {
    && todo.Keys <= held.Keys && (forall a <- todo :: todo[a] == held[a])
    && infos == DeductHoldings(infos0, held, todo.Keys)
  }

  lemma HeldStaysDeducted(
    infos0: map<Addr, ValInfo>, infos: map<Addr, ValInfo>, todo: map<Addr, Holding>, held: map<Addr, Holding>, a: Addr)
    requires HeldDeducted(infos0, infos, todo, held) && a in todo
    ensures HeldDeducted(infos0, Deduct(infos, a, todo[a].amount * ONE), todo - {a}, held)
  {
    DeductHolding(infos0, held, todo.Keys, a);
    assert (todo - {a}).Keys == todo.Keys - {a};
  }

  lemma NothingDeducted(infos0: map<Addr, ValInfo>, held: map<Addr, Holding>)
    ensures HeldDeducted(infos0, infos0, held, held)
  {
    assert DeductHoldings(infos0, held, held.Keys) == infos0;
  }

  /** The loop over a voter's derivatives, one entry per validator, in any order. */
  method CountBkava(env: Env, voter: Addr, ws: seq<Weighted>, infos0: map<Addr, ValInfo>, s: Sums)
    returns (infos: map<Addr, ValInfo>, s': Sums)
    requires env.Valid() && s.Full()
    ensures infos == DeductHoldings(infos0, Bkava(env, voter), {})
    ensures s'.Full() && forall slot: Slot ::
              s'.At(slot) == s.At(slot) + Total(Bkava(env, voter), HoldingScore(env, ws, slot))
  {
    var held := GetAddrBkava(env, voter);
    BkavaIsKeyed(env, voter);
    var todo := held;
    infos, s' := infos0, s;
    NothingDeducted(infos0, held);
    while todo != map[]
      invariant HeldDeducted(infos0, infos, todo, held)
      invariant HeldBalanced(env, ws, s, s', todo, held)
      decreases |todo|
    {
      var a :| a in todo;
      var h := todo[a];
      assert h.val == a && a in env.validators;
      HeldStaysDeducted(infos0, infos, todo, held, a);
      infos := DeductShares(infos, h.val, h.amount * ONE);
      ghost var before := s';
      var votingPower := Staked(env.validators[h.val], h.amount) * ONE;
      s' := AddScores(s', ws, votingPower);
      HeldStaysBalanced(env, ws, s, before, s', todo, held, a);
      todo := todo - {a};
    }
  }

  // ---------------------------------------------------------------- votes

  /** The bonded validators, before any vote. */
  method FetchValidators(env: Env) returns (infos: map<Addr, ValInfo>)
    ensures infos == Infos(env, [])
  {
    infos := map a | a in env.validators && env.validators[a].bonded ::
      ValInfo(env.validators[a].tokens, env.validators[a].shares, 0, []);
  }

  lemma OneVoteMore(env: Env, votes: seq<Vote>, infos: map<Addr, ValInfo>)
    requires votes != []
    requires var v := votes[|votes| - 1];
             var recorded := Record(Infos(env, votes[..|votes| - 1]), v);
             infos == DeductHoldings(DeductDelegations(recorded, ListOf(env.delegations, v.voter)),
                                     Bkava(env, v.voter), {})
    ensures infos == Infos(env, votes)
  {
    var v, init := votes[|votes| - 1], votes[..|votes| - 1];
    forall a ensures a in infos <==> a in Infos(env, votes) {
    }
    forall a | a in infos ensures infos[a] == Infos(env, votes)[a] {
      assert infos[a].deductions == Deducted(env, init, a) + DeductedBy(env, v.voter, a);
    }
  }

  /** A validator's vote is recorded in its entry. */
  function Record(infos: map<Addr, ValInfo>, v: Vote): map<Addr, ValInfo> {
    if v.voter in infos then infos[v.voter := infos[v.voter].(vote := v.options)] else infos
  }

  /** The loop over the votes, each of which is deleted once it is counted; left are those that are not. */
  method CountVotes(env: Env, votes: seq<Vote>) returns (infos: map<Addr, ValInfo>, s: Sums, left: seq<Vote>)
    requires env.Valid()
    ensures infos == Infos(env, votes) && left == []
    ensures s.Full() && forall slot: Slot :: s.At(slot) == VoteScores(env, votes, slot)
  {
    infos := FetchValidators(env);
    s, left := ZERO, votes;
    ZeroIsZero();
    for i := 0 to |votes|
      invariant infos == Infos(env, votes[..i]) && left == votes[i..]
      invariant s.Full() && forall slot: Slot :: s.At(slot) == VoteScores(env, votes[..i], slot)
    {
      var vote := votes[i];
      assert votes[..i + 1][..i] == votes[..i] && votes[..i + 1][i] == vote;
      if vote.voter in infos {
        infos := infos[vote.voter := infos[vote.voter].(vote := vote.options)];
      }
      infos, s := CountDelegations(env, ListOf(env.delegations, vote.voter), vote.options, infos, s);
      infos, s := CountBkava(env, vote.voter, vote.options, infos, s);
      OneVoteMore(env, votes[..i + 1], infos);
      left := left[1..];
    }
    assert votes[..|votes|] == votes;
  }

  // ---------------------------------------------------------------- validators and decision

  lemma InfoTaken(todo: map<Addr, ValInfo>, a: Addr)
    requires a in todo
    ensures forall slot: Slot ::
              Total(todo, InfoScore(slot)) == Total(todo - {a}, InfoScore(slot)) + InfoScore(slot)(todo[a])
  {
    forall slot: Slot
      ensures Total(todo, InfoScore(slot)) == Total(todo - {a}, InfoScore(slot)) + InfoScore(slot)(todo[a])
    {
      TotalRemove<Addr, ValInfo>(todo, InfoScore(slot), a);
    }
  }

  /** Counted and still to count make up the whole. */
  ghost predicate Balanced(s: Sums, s': Sums, todo: map<Addr, ValInfo>, infos: map<Addr, ValInfo>)
    requires s.Full()
  {
    s'.Full() && forall slot: Slot ::
      s'.At(slot) + Total(todo, InfoScore(slot)) == s.At(slot) + Total(infos, InfoScore(slot))
  }

  lemma StaysBalanced(s: Sums, s1: Sums, s2: Sums, todo: map<Addr, ValInfo>, infos: map<Addr, ValInfo>, a: Addr)
    requires s.Full() && Balanced(s, s1, todo, infos) && a in todo && todo[a].shares > 0
    requires if todo[a].vote == [] then s2 == s1
             else Added(s1, s2, todo[a].vote,
                        Power(todo[a].shares - todo[a].deductions, todo[a].tokens, todo[a].shares))
    ensures Balanced(s, s2, todo - {a}, infos)
  {
    InfoTaken(todo, a);
    forall slot: Slot
      ensures s2.At(slot) + Total(todo - {a}, InfoScore(slot)) == s.At(slot) + Total(infos, InfoScore(slot))
    {
      assert s2.At(slot) == s1.At(slot) + InfoScore(slot)(todo[a]);
    }
  }

  /** The loop over the validators, in any order. */
  method CountValidators(infos: map<Addr, ValInfo>, s: Sums) returns (s': Sums)
    requires s.Full() && forall a <- infos :: infos[a].shares > 0
    ensures s'.Full() && forall slot: Slot :: s'.At(slot) == s.At(slot) + Total(infos, InfoScore(slot))
  {
    s' := s;
    var todo := infos;
    while todo != map[]
      invariant forall a <- todo :: todo[a].shares > 0
      invariant Balanced(s, s', todo, infos)
      decreases |todo|
    {
      var a :| a in todo;
      var val := todo[a];
      ghost var before := s';
      if |val.vote| != 0 {
        var sharesAfterDeductions := val.shares - val.deductions;
        var votingPower := Power(sharesAfterDeductions, val.tokens, val.shares);
        s' := AddScores(s', val.vote, votingPower);
      }
      StaysBalanced(s, before, s', todo, infos, a);
      todo := todo - {a};
    }
  }

  /** The quorum, veto and threshold tests, in order. */
  method MakeDecision(p: Params, bondedTokens: nat, s: Sums) returns (decision: Result<(bool, bool)>)
    requires s.Full()
    ensures decision == Decide(p, bondedTokens, s.results, s.total)
  {
    if bondedTokens == 0 { return Ok((false, false)); }
    var percentVoting := QuoDec(s.total, bondedTokens * ONE);
    if percentVoting < p.quorum { return Ok((false, p.burnVoteQuorum)); }
    var abstain, veto, yes := s.results[Abstain], s.results[NoWithVeto], s.results[Yes];
    if s.total - abstain == 0 { return Ok((false, false)); }
    if s.total == 0 { return Err(InvalidAmount); }
    if QuoDec(veto, s.total) > p.vetoThreshold { return Ok((false, p.burnVoteVeto)); }
    if QuoDec(yes, s.total - abstain) > p.threshold { return Ok((true, false)); }
    decision := Ok((false, false));
  }

  /** NewTallyResultFromMap: whole tokens, the fraction cut off. */
  function TallyResult(results: map<VoteOption, int>): map<VoteOption, int> {
    map o | o in results :: TruncDiv(results[o], ONE)
  }

  /** The whole tally: whatever order maps are visited in, the results and the total are those of TallyOf, the
      decision is made from them alone, the recorded result is their whole tokens, and no vote is left in the store. */
  method TallyVotes(env: Env, votes: seq<Vote>, p: Params, bondedTokens: nat)
    returns (s: Sums, decision: Result<(bool, bool)>, recorded: map<VoteOption, int>, left: seq<Vote>)
    requires env.Valid()
    ensures s.Full() && forall slot: Slot :: s.At(slot) == TallyOf(env, votes, slot)
    ensures decision == Decide(p, bondedTokens, s.results, s.total)
    ensures forall o: VoteOption :: o in recorded && recorded[o] == TruncDiv(TallyOf(env, votes, Some(o)), ONE)
    ensures left == []
  {
    var infos;
    infos, s, left := CountVotes(env, votes);
    s := CountValidators(infos, s);
    recorded := TallyResult(s.results);
    decision := MakeDecision(p, bondedTokens, s);
    forall o: VoteOption ensures o in recorded && recorded[o] == TruncDiv(TallyOf(env, votes, Some(o)), ONE) {
      assert s.At(Some(o)) == TallyOf(env, votes, Some(o));
    }
  }
}
