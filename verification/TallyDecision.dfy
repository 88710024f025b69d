/** The decision of the tally: the same for every order of the votes, and made without dividing by a zero total. */
module TallyDecision {
  import opened Prelude
  import opened MapSums
  import opened Decimal
  import opened Tally

  /** These are the results and the total of the votes. */
  ghost predicate IsTally(env: Env, votes: seq<Vote>, results: map<VoteOption, int>, total: int)
    requires env.Valid()
  {
    && total == TallyOf(env, votes, None)
    && forall o: VoteOption :: o in results && results[o] == TallyOf(env, votes, Some(o))
  }

  /** Two orders of the same votes decide alike. */
  lemma DecisionIsOrderIndependent(
    env: Env, votes: seq<Vote>, other: seq<Vote>, p: Params, bondedTokens: nat,
    results: map<VoteOption, int>, total: int, results': map<VoteOption, int>, total': int)
    requires env.Valid() && multiset(votes) == multiset(other) && OneVoteEach(votes) && OneVoteEach(other)
    requires IsTally(env, votes, results, total) && IsTally(env, other, results', total')
    ensures Decide(p, bondedTokens, results, total) == Decide(p, bondedTokens, results', total')
  {
    TallyIsOrderIndependent(env, votes, other, None);
    forall o: VoteOption ensures o in results && o in results' && results[o] == results'[o] {
      TallyIsOrderIndependent(env, votes, other, Some(o));
    }
  }

  // ---------------------------------------------------------------- a zero total

  /** Nobody delegates less than nothing. */
  predicate NonNegative(env: Env) {
    forall v <- env.delegations :: forall d <- env.delegations[v] :: d.shares >= 0
  }

  /** No validator that votes has more shares voted with by others than it has. */
  predicate NoOverdraft(env: Env, votes: seq<Vote>) {
    forall a <- env.validators :: env.Bonded(a) && VoteOf(votes, a) != [] ==>
      Deducted(env, votes, a) <= env.validators[a].shares
  }

  lemma PowerNonNegative(shares: int, tokens: nat, total: int)
    requires shares >= 0 && total > 0
    ensures Power(shares, tokens, total) >= 0
  {
    assert shares * tokens >= 0;
    QuoDecNonNegative(shares * tokens, total);
  }

  lemma StakedNonNegative(v: Validator, amount: nat)
    requires v.shares > 0
    ensures Staked(v, amount) >= 0
  {
    assert amount * ONE * v.tokens >= 0;
    var x := amount * ONE * v.tokens * ONE * ONE;
    FloorDown(x, v.shares);
    FloorDown(TruncDiv(x, v.shares), ONE);
    FloorDown(TruncDiv(TruncDiv(x, v.shares), ONE), ONE);
  }

  lemma {:induction false} NoPowerNoScore(ws: seq<Weighted>, o: VoteOption)
    ensures OptionScore(ws, 0, o) == 0
    decreases |ws|
  {
    if ws != [] { NoPowerNoScore(ws[..|ws| - 1], o); }
  }

  lemma {:induction false} ZeroDelegations(env: Env, ds: seq<Delegation>, ws: seq<Weighted>, o: VoteOption)
    requires env.Valid() && forall d <- ds :: d.shares >= 0
    ensures var total := DelegationScores(env, ds, ws, None);
            total >= 0 && (total == 0 ==> DelegationScores(env, ds, ws, Some(o)) == 0)
    decreases |ds|
  {
    if ds != [] {
      var d := ds[|ds| - 1];
      ZeroDelegations(env, ds[..|ds| - 1], ws, o);
      if env.Bonded(d.val) {
        PowerNonNegative(d.shares, env.validators[d.val].tokens, env.validators[d.val].shares);
        NoPowerNoScore(ws, o);
      }
    }
  }

  lemma ZeroVote(env: Env, v: Vote, o: VoteOption)
    requires env.Valid() && NonNegative(env)
    ensures VoteScore(env, v, None) >= 0 && (VoteScore(env, v, None) == 0 ==> VoteScore(env, v, Some(o)) == 0)
  {
    ZeroDelegations(env, ListOf(env.delegations, v.voter), v.options, o);
    var f, g, held := HoldingScore(env, v.options, None), HoldingScore(env, v.options, Some(o)), Bkava(env, v.voter);
    forall a <- held ensures f(held[a]) >= 0 && (f(held[a]) == 0 ==> g(held[a]) == 0) {
      if held[a].val in env.validators { StakedNonNegative(env.validators[held[a].val], held[a].amount); }
      NoPowerNoScore(v.options, o);
    }
    ZeroTotal(held, f, g);
  }

  lemma {:induction false} ZeroVotes(env: Env, votes: seq<Vote>, o: VoteOption)
    requires env.Valid() && NonNegative(env)
    ensures var total := VoteScores(env, votes, None);
            total >= 0 && (total == 0 ==> VoteScores(env, votes, Some(o)) == 0)
    decreases |votes|
  {
    if votes != [] {
      ZeroVotes(env, votes[..|votes| - 1], o);
      ZeroVote(env, votes[|votes| - 1], o);
    }
  }

  /** If the total is zero, so is every option. */
  lemma ZeroTally(env: Env, votes: seq<Vote>, o: VoteOption)
    requires env.Valid() && NonNegative(env) && NoOverdraft(env, votes)
    ensures TallyOf(env, votes, None) == 0 ==> TallyOf(env, votes, Some(o)) == 0
  {
    ZeroVotes(env, votes, o);
    var infos, f, g := Infos(env, votes), InfoScore(None), InfoScore(Some(o));
    forall a <- infos ensures f(infos[a]) >= 0 && (f(infos[a]) == 0 ==> g(infos[a]) == 0) {
      var i := infos[a];
      if i.vote != [] {
        PowerNonNegative(i.shares - i.deductions, i.tokens, i.shares);
        NoPowerNoScore(i.vote, o);
      }
    }
    ZeroTotal(infos, f, g);
  }

  /** The tally always comes to a decision, if the quorum is positive, or if no validator is overdrawn: it never
      divides by a zero total. */
  lemma DecisionIsAlwaysMade(
    env: Env, votes: seq<Vote>, p: Params, bondedTokens: nat, results: map<VoteOption, int>, total: int)
    requires env.Valid() && IsTally(env, votes, results, total)
    requires p.quorum > 0 || (NonNegative(env) && NoOverdraft(env, votes))
    ensures Decide(p, bondedTokens, results, total).Ok?
  {
    if p.quorum <= 0 { ZeroTally(env, votes, Abstain); }
    if bondedTokens > 0 { assert QuoDec(0, bondedTokens * ONE) == 0; }
  }

  // ---------------------------------------------------------------- what the decision means

  /** The voting power reaches the quorum; amounts are scaled like the thresholds, bonded tokens are not. */
  predicate QuorumMet(p: Params, bondedTokens: nat, total: int) {
    bondedTokens > 0 && total >= p.quorum * bondedTokens
  }

  /** Somebody voted, and not only to abstain. */
  predicate Contested(results: map<VoteOption, int>, total: int)
    requires forall o: VoteOption :: o in results
  {
    results[Abstain] < total && 0 < total
  }

  /** With enough voting power: a veto of more than its threshold, by at least one unit in the last place, rejects. */
  lemma VetoRejects(p: Params, bondedTokens: nat, results: map<VoteOption, int>, total: int)
    requires (forall o: VoteOption :: o in results) && QuorumMet(p, bondedTokens, total) && Contested(results, total)
    requires results[NoWithVeto] * ONE >= (p.vetoThreshold + 1) * total
    ensures Decide(p, bondedTokens, results, total) == Ok((false, p.burnVoteVeto))
  {
    QuorumIsMet(p, bondedTokens, total);
    QuoDecAtLeast(results[NoWithVeto], total, p.vetoThreshold + 1);
  }

  /** With enough voting power and a veto within its threshold: Yes votes that exceed their threshold of what is not
      abstention, by at least one unit in the last place, pass. */
  lemma MajorityPasses(p: Params, bondedTokens: nat, results: map<VoteOption, int>, total: int)
    requires (forall o: VoteOption :: o in results) && QuorumMet(p, bondedTokens, total) && Contested(results, total)
    requires results[NoWithVeto] * ONE <= p.vetoThreshold * total
    requires results[Yes] * ONE >= (p.threshold + 1) * (total - results[Abstain])
    ensures Decide(p, bondedTokens, results, total) == Ok((true, false))
  {
    QuorumIsMet(p, bondedTokens, total);
    QuoDecAtMost(results[NoWithVeto], total, p.vetoThreshold);
    QuoDecAtLeast(results[Yes], total - results[Abstain], p.threshold + 1);
  }

  /** And Yes votes within their threshold do not; nothing is burned then. */
  lemma MinorityFails(p: Params, bondedTokens: nat, results: map<VoteOption, int>, total: int)
    requires (forall o: VoteOption :: o in results) && QuorumMet(p, bondedTokens, total) && Contested(results, total)
    requires results[NoWithVeto] * ONE <= p.vetoThreshold * total
    requires results[Yes] * ONE <= p.threshold * (total - results[Abstain])
    ensures Decide(p, bondedTokens, results, total) == Ok((false, false))
  {
    QuorumIsMet(p, bondedTokens, total);
    QuoDecAtMost(results[NoWithVeto], total, p.vetoThreshold);
    QuoDecAtMost(results[Yes], total - results[Abstain], p.threshold);
  }

  /** Without enough voting power, by at least one unit in the last place, the proposal fails; without any stake, or
      if all that voted abstained, it fails too, and nothing is burned. */
  lemma TooFewVotesFail(p: Params, bondedTokens: nat, results: map<VoteOption, int>, total: int)
    requires forall o: VoteOption :: o in results
    ensures bondedTokens == 0 ==> Decide(p, bondedTokens, results, total) == Ok((false, false))
    ensures bondedTokens > 0 && total <= (p.quorum - 1) * bondedTokens ==>
              Decide(p, bondedTokens, results, total) == Ok((false, p.burnVoteQuorum))
    ensures QuorumMet(p, bondedTokens, total) && total == results[Abstain] ==>
              Decide(p, bondedTokens, results, total) == Ok((false, false))
  {
    if bondedTokens > 0 && total <= (p.quorum - 1) * bondedTokens {
      ScaledByOne(total, p.quorum - 1, bondedTokens);
      QuoDecAtMost(total, bondedTokens * ONE, p.quorum - 1);
    }
    if QuorumMet(p, bondedTokens, total) { QuorumIsMet(p, bondedTokens, total); }
  }

  lemma QuorumIsMet(p: Params, bondedTokens: nat, total: int)
    requires QuorumMet(p, bondedTokens, total)
    ensures bondedTokens > 0 && QuoDec(total, bondedTokens * ONE) >= p.quorum
  {
    ScaledByOne(total, p.quorum, bondedTokens);
    QuoDecAtLeast(total, bondedTokens * ONE, p.quorum);
  }

  lemma ScaledByOne(total: int, t: int, bondedTokens: nat)
    ensures total >= t * bondedTokens ==> total * ONE >= t * (bondedTokens * ONE)
    ensures total <= t * bondedTokens ==> total * ONE <= t * (bondedTokens * ONE)
  {
    assert t * (bondedTokens * ONE) == (t * bondedTokens) * ONE;
  }

  /** The fraction part / whole, cut to 36 digits and rounded to 18, exceeds the threshold. */
  predicate Exceeds(part: int, whole: int, threshold: int) {
    part * ONE * ONE >= JustOver(threshold) * whole
  }

  /** Exactly when a contested proposal passes, to the last unit: enough voting power, no veto, and more than the
      threshold of Yes votes; and exactly when it fails with the deposit burned for a veto. */
  lemma PassesExactly(p: Params, bondedTokens: nat, results: map<VoteOption, int>, total: int)
    requires (forall o: VoteOption :: o in results) && Contested(results, total)
    requires p.quorum >= 0 && p.vetoThreshold >= 0 && p.threshold >= 0
    ensures var enough := bondedTokens > 0 && (p.quorum == 0 || Exceeds(total, bondedTokens * ONE, p.quorum - 1));
            var vetoed := Exceeds(results[NoWithVeto], total, p.vetoThreshold);
            var approved := Exceeds(results[Yes], total - results[Abstain], p.threshold);
            Decide(p, bondedTokens, results, total) ==
            Ok((enough && !vetoed && approved,
                bondedTokens > 0 && (if !enough then p.burnVoteQuorum else vetoed && p.burnVoteVeto)))
  {
    if bondedTokens > 0 {
      if p.quorum == 0 { QuoDecNonNegative(total, bondedTokens * ONE); }
      else { QuoDecExceeds(total, bondedTokens * ONE, p.quorum - 1); }
    }
    QuoDecExceeds(results[NoWithVeto], total, p.vetoThreshold);
    QuoDecExceeds(results[Yes], total - results[Abstain], p.threshold);
  }

  /** Moving power from No to Yes never turns a proposal that passes into one that does not. */
  lemma YesNeverHurts(
    p: Params, bondedTokens: nat, results: map<VoteOption, int>, results': map<VoteOption, int>, total: int, moved: nat)
    requires (forall o: VoteOption :: o in results) && p.threshold >= 0 && results[Yes] >= 0
    requires results' == results[Yes := results[Yes] + moved][No := results[No] - moved]
    requires Decide(p, bondedTokens, results, total) == Ok((true, false))
    ensures (forall o: VoteOption :: o in results') && Decide(p, bondedTokens, results', total) == Ok((true, false))
  {
    var rest := total - results[Abstain];
    if rest < 0 {
      QuoDecNotPositive(results[Yes], rest);
    } else {
      QuoDecMonotone(results[Yes], results[Yes] + moved, rest);
    }
  }
}
