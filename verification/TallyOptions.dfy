/** Where voting power goes: to the options a vote names, in the shares it gives them, and nowhere else. */
module TallyOptions {
  import opened Prelude
  import opened MapSums
  import opened Decimal
  import opened Tally

  function WeightSum(ws: seq<Weighted>): int {
    if ws == [] then 0 else WeightSum(ws[..|ws| - 1]) + ws[|ws| - 1].weight
  }

  /** An option that a vote does not name gets nothing from it. */
  lemma {:induction false} OnlyNamedOptions(ws: seq<Weighted>, power: int, o: VoteOption)
    requires forall w <- ws :: w.option != o
    ensures OptionScore(ws, power, o) == 0
    decreases |ws|
  {
    if ws != [] {
      assert ws[|ws| - 1] in ws;
      OnlyNamedOptions(ws[..|ws| - 1], power, o);
    }
  }

  /** A vote for one option gives it all its power. */
  lemma WholeVote(power: int, o: VoteOption)
    ensures OptionScore([Weighted(o, ONE)], power, o) == power
  {
    var ws := [Weighted(o, ONE)];
    assert ws[..0] == [];
    RoundHalfEvenIsNearest(power * ONE, ONE);
    NearestIsUnique(power * ONE, ONE, power, MulDec(power, ONE));
  }

  // ---------------------------------------------------------------- the options add up

  /** The four options of a score, together. */
  function Spread(ws: seq<Weighted>, power: int): int {
    OptionScore(ws, power, Yes) + OptionScore(ws, power, Abstain) + OptionScore(ws, power, No)
    + OptionScore(ws, power, NoWithVeto)
  }

  lemma SpreadOneMore(ws: seq<Weighted>, power: int)
    requires ws != []
    ensures Spread(ws, power) == Spread(ws[..|ws| - 1], power) + MulDec(power, ws[|ws| - 1].weight)
  {
    match ws[|ws| - 1].option
    case Yes =>
    case Abstain =>
    case No =>
    case NoWithVeto =>
  }

  lemma WeightOneMore(ws: seq<Weighted>, power: int)
    requires ws != []
    ensures power * WeightSum(ws) == power * WeightSum(ws[..|ws| - 1]) + power * ws[|ws| - 1].weight
  {
    Distribute(power, WeightSum(ws[..|ws| - 1]), ws[|ws| - 1].weight);
  }

  lemma Distribute(x: int, y: int, z: int)
    ensures x * (y + z) == x * y + x * z
  {
  }

  lemma {:induction false} SpreadIsNear(ws: seq<Weighted>, power: int)
    ensures Close(Spread(ws, power) * ONE, power * WeightSum(ws), |ws| * ONE)
    decreases |ws|
  {
    if ws != [] {
      var w := ws[|ws| - 1];
      SpreadIsNear(ws[..|ws| - 1], power);
      SpreadOneMore(ws, power);
      WeightOneMore(ws, power);
      RoundedIsClose(power * w.weight);
      CloseSum(Spread(ws[..|ws| - 1], power), power * WeightSum(ws[..|ws| - 1]), |ws| - 1, MulDec(power, w.weight),
               power * w.weight);
    }
  }

  lemma RoundedIsClose(n: int)
    ensures Close(RoundHalfEven(n, ONE) * ONE, n, ONE)
  {
    RoundHalfEvenIsNearest(n, ONE);
  }

  lemma CloseSum(x: int, y: int, n: int, r: int, z: int)
    requires Close(x * ONE, y, n * ONE) && Close(r * ONE, z, ONE)
    ensures Close((x + r) * ONE, y + z, (n + 1) * ONE)
  {
  }

  /** Twice x and y differ by at most n. */
  predicate Close(x: int, y: int, n: int) {
    -n <= 2 * (x - y) <= n
  }

  /** With weights that sum to one, the options share out the power, up to half a unit in the last place for each. */
  lemma OptionsAddUp(ws: seq<Weighted>, power: int)
    requires WeightSum(ws) == ONE
    ensures Close(Spread(ws, power), power, |ws|)
  {
    SpreadIsNear(ws, power);
  }

  // ---------------------------------------------------------------- over the whole tally

  /** The weights of every vote sum to one. */
  predicate Whole(votes: seq<Vote>) {
    forall v <- votes :: WeightSum(v.options) == ONE
  }

  lemma {:induction false} DelegationsAddUp(env: Env, ds: seq<Delegation>, ws: seq<Weighted>)
    requires env.Valid() && WeightSum(ws) == ONE
    ensures Close(DelegationScores(env, ds, ws, Some(Yes)) + DelegationScores(env, ds, ws, Some(Abstain))
                  + DelegationScores(env, ds, ws, Some(No)) + DelegationScores(env, ds, ws, Some(NoWithVeto)),
                  DelegationScores(env, ds, ws, None), |ws| * |ds|)
    decreases |ds|
  {
    if ds != [] {
      var d := ds[|ds| - 1];
      DelegationsAddUp(env, ds[..|ds| - 1], ws);
      if env.Bonded(d.val) {
        OptionsAddUp(ws, Power(d.shares, env.validators[d.val].tokens, env.validators[d.val].shares));
      }
      assert |ws| * |ds| == |ws| * |ds[..|ds| - 1]| + |ws|;
    }
  }

  /** Four totals together are close to a fifth if their summands are. */
  lemma {:induction false} TotalsClose<K(!new), V>(
    m: map<K, V>, f: V -> int, g: V -> int, h: V -> int, i: V -> int, all: V -> int, n: V -> int)
    requires forall k <- m :: Close(f(m[k]) + g(m[k]) + h(m[k]) + i(m[k]), all(m[k]), n(m[k]))
    ensures Close(Total(m, f) + Total(m, g) + Total(m, h) + Total(m, i), Total(m, all), Total(m, n))
    decreases |m|
  {
    if k :| k in m {
      TotalRemove(m, f, k);
      TotalRemove(m, g, k);
      TotalRemove(m, h, k);
      TotalRemove(m, i, k);
      TotalRemove(m, all, k);
      TotalRemove(m, n, k);
      TotalsClose(m - {k}, f, g, h, i, all, n);
    }
  }

  function Each(n: nat): Holding -> int {
    (h: Holding) => n
  }

  /** One unit for every weighted option of every delegation and derivative a vote counts through. */
  ghost function VoteUnits(env: Env, v: Vote): int {
    |v.options| * |ListOf(env.delegations, v.voter)| + Total(Bkava(env, v.voter), Each(|v.options|))
  }

  ghost function VotesUnits(env: Env, votes: seq<Vote>): int {
    if votes == [] then 0 else VotesUnits(env, votes[..|votes| - 1]) + VoteUnits(env, votes[|votes| - 1])
  }

  function OwnUnits(): ValInfo -> int {
    (i: ValInfo) => |i.vote|
  }

  /** And one for every weighted option of a validator's own vote. */
  ghost function Units(env: Env, votes: seq<Vote>): int {
    VotesUnits(env, votes) + Total(Infos(env, votes), OwnUnits())
  }

  lemma HoldingsAddUp(env: Env, held: map<Addr, Holding>, ws: seq<Weighted>)
    requires env.Valid() && WeightSum(ws) == ONE
    ensures Close(Total(held, HoldingScore(env, ws, Some(Yes))) + Total(held, HoldingScore(env, ws, Some(Abstain)))
                  + Total(held, HoldingScore(env, ws, Some(No))) + Total(held, HoldingScore(env, ws, Some(NoWithVeto))),
                  Total(held, HoldingScore(env, ws, None)), Total(held, Each(|ws|)))
  {
    forall a <- held ensures
        var h := held[a];
        Close(HoldingScore(env, ws, Some(Yes))(h) + HoldingScore(env, ws, Some(Abstain))(h)
              + HoldingScore(env, ws, Some(No))(h) + HoldingScore(env, ws, Some(NoWithVeto))(h),
              HoldingScore(env, ws, None)(h), Each(|ws|)(h))
    {
      var h := held[a];
      if h.val in env.validators { OptionsAddUp(ws, Staked(env.validators[h.val], h.amount) * ONE); }
    }
    TotalsClose(held, HoldingScore(env, ws, Some(Yes)), HoldingScore(env, ws, Some(Abstain)),
                HoldingScore(env, ws, Some(No)), HoldingScore(env, ws, Some(NoWithVeto)), HoldingScore(env, ws, None),
                Each(|ws|));
  }

  lemma {:induction false} VotesAddUp(env: Env, votes: seq<Vote>)
    requires env.Valid() && Whole(votes)
    ensures Close(VoteScores(env, votes, Some(Yes)) + VoteScores(env, votes, Some(Abstain))
                  + VoteScores(env, votes, Some(No)) + VoteScores(env, votes, Some(NoWithVeto)),
                  VoteScores(env, votes, None), VotesUnits(env, votes))
    decreases |votes|
  {
    if votes != [] {
      var v := votes[|votes| - 1];
      assert v in votes;
      VotesAddUp(env, votes[..|votes| - 1]);
      DelegationsAddUp(env, ListOf(env.delegations, v.voter), v.options);
      HoldingsAddUp(env, Bkava(env, v.voter), v.options);
    }
  }

  lemma {:induction false} RecordedVoteIsWhole(votes: seq<Vote>, a: Addr)
    requires Whole(votes)
    ensures VoteOf(votes, a) == [] || WeightSum(VoteOf(votes, a)) == ONE
    decreases |votes|
  {
    if votes != [] {
      assert votes[|votes| - 1] in votes;
      RecordedVoteIsWhole(votes[..|votes| - 1], a);
    }
  }

  lemma OwnVotesAddUp(env: Env, votes: seq<Vote>)
    requires env.Valid() && Whole(votes)
    ensures Close(Total(Infos(env, votes), InfoScore(Some(Yes))) + Total(Infos(env, votes), InfoScore(Some(Abstain)))
                  + Total(Infos(env, votes), InfoScore(Some(No)))
                  + Total(Infos(env, votes), InfoScore(Some(NoWithVeto))),
                  Total(Infos(env, votes), InfoScore(None)), Total(Infos(env, votes), OwnUnits()))
  {
    var infos := Infos(env, votes);
    forall a <- infos ensures
        var i := infos[a];
        Close(InfoScore(Some(Yes))(i) + InfoScore(Some(Abstain))(i) + InfoScore(Some(No))(i)
              + InfoScore(Some(NoWithVeto))(i), InfoScore(None)(i), OwnUnits()(i))
    {
      var i := infos[a];
      RecordedVoteIsWhole(votes, a);
      if i.vote != [] { OptionsAddUp(i.vote, Power(i.shares - i.deductions, i.tokens, i.shares)); }
    }
    TotalsClose(infos, InfoScore(Some(Yes)), InfoScore(Some(Abstain)), InfoScore(Some(No)),
                InfoScore(Some(NoWithVeto)), InfoScore(None), OwnUnits());
  }

  /** If the weights of every vote sum to one, the four options of the whole tally add up to the total voting power,
      up to half a unit in the last place for every weighted option counted. */
  lemma TallyAddsUp(env: Env, votes: seq<Vote>)
    requires env.Valid() && Whole(votes)
    ensures Close(TallyOf(env, votes, Some(Yes)) + TallyOf(env, votes, Some(Abstain)) + TallyOf(env, votes, Some(No))
                  + TallyOf(env, votes, Some(NoWithVeto)), TallyOf(env, votes, None), Units(env, votes))
  {
    VotesAddUp(env, votes);
    OwnVotesAddUp(env, votes);
  }

  // ---------------------------------------------------------------- an option nobody or everybody votes for

  function Of(all: bool, power: int): int {
    if all then power else 0
  }

  /** Every one of these votes gives the option all of its power (all), or every one gives it none (not all). */
  ghost predicate AllGive(votes: seq<Vote>, o: VoteOption, all: bool) {
    forall v <- votes :: Gives(v.options, o, all)
  }

  ghost predicate Gives(ws: seq<Weighted>, o: VoteOption, all: bool) {
    forall power :: OptionScore(ws, power, o) == Of(all, power)
  }

  lemma {:induction false} TotalShare<K(!new), V>(m: map<K, V>, f: V -> int, g: V -> int, all: bool)
    requires forall k <- m :: f(m[k]) == Of(all, g(m[k]))
    ensures Total(m, f) == Of(all, Total(m, g))
    decreases |m|
  {
    if k :| k in m {
      TotalRemove(m, f, k);
      TotalRemove(m, g, k);
      TotalShare(m - {k}, f, g, all);
    }
  }

  lemma {:induction false} DelegationsShare(env: Env, ds: seq<Delegation>, ws: seq<Weighted>, o: VoteOption, all: bool)
    requires env.Valid() && Gives(ws, o, all)
    ensures DelegationScores(env, ds, ws, Some(o)) == Of(all, DelegationScores(env, ds, ws, None))
    decreases |ds|
  {
    if ds != [] { DelegationsShare(env, ds[..|ds| - 1], ws, o, all); }
  }

  lemma {:induction false} VotesShare(env: Env, votes: seq<Vote>, o: VoteOption, all: bool)
    requires env.Valid() && AllGive(votes, o, all)
    ensures votes == [] || VoteScores(env, votes, Some(o)) == Of(all, VoteScores(env, votes, None))
    decreases |votes|
  {
    if votes != [] {
      var v := votes[|votes| - 1];
      assert v in votes;
      VotesShare(env, votes[..|votes| - 1], o, all);
      DelegationsShare(env, ListOf(env.delegations, v.voter), v.options, o, all);
      TotalShare(Bkava(env, v.voter), HoldingScore(env, v.options, Some(o)), HoldingScore(env, v.options, None), all);
    }
  }

  lemma {:induction false} RecordedVoteGives(votes: seq<Vote>, a: Addr, o: VoteOption, all: bool)
    requires AllGive(votes, o, all)
    ensures VoteOf(votes, a) == [] || Gives(VoteOf(votes, a), o, all)
    decreases |votes|
  {
    if votes != [] {
      assert votes[|votes| - 1] in votes;
      RecordedVoteGives(votes[..|votes| - 1], a, o, all);
    }
  }

  lemma TallyShare(env: Env, votes: seq<Vote>, o: VoteOption, all: bool)
    requires env.Valid() && votes != [] && AllGive(votes, o, all)
    ensures TallyOf(env, votes, Some(o)) == Of(all, TallyOf(env, votes, None))
  {
    assert votes[0] in votes;
    VotesShare(env, votes, o, all);
    var infos := Infos(env, votes);
    forall a <- infos ensures InfoScore(Some(o))(infos[a]) == Of(all, InfoScore(None)(infos[a])) {
      RecordedVoteGives(votes, a, o, all);
    }
    TotalShare(infos, InfoScore(Some(o)), InfoScore(None), all);
  }

  /** An option that no vote names gets nothing; one that every vote is wholly for gets all the voting power. */
  lemma NobodyOrEverybody(env: Env, votes: seq<Vote>, o: VoteOption)
    requires env.Valid() && votes != []
    ensures (forall v <- votes :: forall w <- v.options :: w.option != o) ==> TallyOf(env, votes, Some(o)) == 0
    ensures (forall v <- votes :: v.options == [Weighted(o, ONE)]) ==>
              TallyOf(env, votes, Some(o)) == TallyOf(env, votes, None)
  {
    if forall v <- votes :: forall w <- v.options :: w.option != o {
      forall v <- votes ensures Gives(v.options, o, false) {
        forall power ensures OptionScore(v.options, power, o) == Of(false, power) {
          OnlyNamedOptions(v.options, power, o);
        }
      }
      TallyShare(env, votes, o, false);
    }
    if forall v <- votes :: v.options == [Weighted(o, ONE)] {
      forall v <- votes ensures Gives(v.options, o, true) {
        forall power ensures OptionScore(v.options, power, o) == Of(true, power) {
          WholeVote(power, o);
        }
      }
      TallyShare(env, votes, o, true);
    }
  }
}
