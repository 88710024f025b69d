/** ResetPeriodicVestingAccount: moving a periodic vesting account to a new start time without changing its meaning. */
module Vesting {
  import opened Prelude
  import opened CoinSets

  // ---------------------------------------------------------------- schedules

  datatype Period = Period(length: int, amount: Coins)

  datatype Account = Account(
    startTime: int, endTime: int, originalVesting: Coins, periods: seq<Period>, delegatedVesting: Coins,
    delegatedFree: Coins)

  function SumOf(ps: seq<Period>, d: string): nat {
    if ps == [] then 0 else AmountOf(ps[0].amount, d) + SumOf(ps[1..], d)
  }

  function Duration(ps: seq<Period>): int {
    if ps == [] then 0 else ps[0].length + Duration(ps[1..])
  }

  predicate NonNegative(ps: seq<Period>) {
    forall i :: 0 <= i < |ps| ==> ps[i].length >= 0
  }

  /** The account's own validity rule: the end time and the original vesting are those of the periods. */
  ghost predicate Valid(v: Account) {
    && NonNegative(v.periods)
    && v.endTime == v.startTime + Duration(v.periods)
    && Holds(v.originalVesting, v.periods)
  }

  /** The amount of the periods that are over, counting from the front up to the first that is not. */
  function VestedBy(ps: seq<Period>, start: int, t: int, d: string): nat
    decreases |ps|
  {
    if ps == [] || t - start < ps[0].length then 0
    else AmountOf(ps[0].amount, d) + VestedBy(ps[1..], start + ps[0].length, t, d)
  }

  /** GetVestedCoins of a periodic vesting account. */
  function Vested(v: Account, t: int, d: string): nat {
    if t <= v.startTime then 0
    else if t >= v.endTime then AmountOf(v.originalVesting, d)
    else VestedBy(v.periods, v.startTime, t, d)
  }

  function Unvested(v: Account, t: int, d: string): int {
    AmountOf(v.originalVesting, d) - Vested(v, t, d)
  }

  // ---------------------------------------------------------------- the reset as a function

  /** The periods that end after the new start; the first of them is measured from there. */
  function Kept(ps: seq<Period>, start: int, newStart: int, any: bool): seq<Period>
    decreases |ps|
  {
    if ps == [] then []
    else
      var end := start + ps[0].length;
      if newStart < end then
        [if any then ps[0] else ps[0].(length := end - newStart)] + Kept(ps[1..], end, newStart, true)
      else Kept(ps[1..], end, newStart, any)
  }

  /** r is v reset to newStart. */
  ghost predicate IsReset(v: Account, newStart: int, r: Account) {
    && r.startTime == newStart
    && r.endTime == Max(v.endTime, newStart)
    && r.periods == Kept(v.periods, v.startTime, newStart, false)
    && Holds(r.originalVesting, r.periods)
    && (forall d :: AmountOf(r.delegatedVesting, d) ==
                    Min(AmountOf(v.delegatedVesting, d), AmountOf(r.originalVesting, d)))
    && (forall d :: AmountOf(r.delegatedFree, d) ==
                    AmountOf(v.delegatedFree, d) + AmountOf(v.delegatedVesting, d) - AmountOf(r.delegatedVesting, d))
  }

  lemma ResetIsUnique(v: Account, newStart: int, r: Account, r': Account)
    requires IsReset(v, newStart, r) && IsReset(v, newStart, r')
    ensures r == r'
  {
    SameCoins(r.originalVesting, r'.originalVesting);
    SameCoins(r.delegatedVesting, r'.delegatedVesting);
    SameCoins(r.delegatedFree, r'.delegatedFree);
  }

  // ---------------------------------------------------------------- the reset in place

  class PeriodicVestingAccount {
    var startTime: int
    var endTime: int
    var originalVesting: Coins
    var periods: seq<Period>
    var delegatedVesting: Coins
    var delegatedFree: Coins

    ghost function Abs(): Account
      reads this
    {
      Account(startTime, endTime, originalVesting, periods, delegatedVesting, delegatedFree)
    }

    method ResetPeriodicVestingAccount(newStartTime: int)
      modifies this
      ensures IsReset(old(Abs()), newStartTime, Abs())
    {
      var newPeriods, newOriginalVesting := KeepPeriods(periods, startTime, newStartTime);
      AdjustDelegations(newOriginalVesting);
      startTime := newStartTime;
      originalVesting := newOriginalVesting;
      periods := newPeriods;
      if startTime >= endTime { endTime := startTime; }
    }

    /** The second loop: delegated vesting coins that no longer vest become delegated free coins. */
    method AdjustDelegations(newOriginalVesting: Coins)
      modifies this`delegatedVesting, this`delegatedFree
      ensures forall d :: AmountOf(delegatedVesting, d) ==
                          Min(AmountOf(old(delegatedVesting), d), AmountOf(newOriginalVesting, d))
      ensures forall d :: AmountOf(delegatedFree, d) + AmountOf(delegatedVesting, d) ==
                          AmountOf(old(delegatedFree), d) + AmountOf(old(delegatedVesting), d)
    {
      var coins := delegatedVesting;
      var todo := coins.Keys;
      while todo != {}
        invariant todo <= coins.Keys
        invariant forall d :: AmountOf(delegatedVesting, d) ==
                    if d in coins && d !in todo then Min(coins[d], AmountOf(newOriginalVesting, d))
                    else AmountOf(coins, d)
        invariant forall d :: AmountOf(delegatedFree, d) + AmountOf(delegatedVesting, d) ==
                              AmountOf(old(delegatedFree), d) + AmountOf(coins, d)
        decreases todo
      {
        var denom :| denom in todo;
        todo := todo - {denom};
        var kept := Min(coins[denom], AmountOf(newOriginalVesting, denom));
        var adjustment := coins[denom] - kept;
        if adjustment != 0 {
          delegatedVesting := MinusCoin(delegatedVesting, denom, adjustment);
          delegatedFree := PlusCoin(delegatedFree, denom, adjustment);
        }
      }
    }
  }

  /** The first loop: the periods still vesting, and their sum. */
  method KeepPeriods(
    periods: seq<Period>, startTime: int, newStartTime: int)
    returns (newPeriods: seq<Period>, newOriginalVesting: Coins)
    ensures newPeriods == Kept(periods, startTime, newStartTime, false)
    ensures Holds(newOriginalVesting, newPeriods)
  {
    var currentPeriod := startTime;
    newPeriods, newOriginalVesting := [], map[];
    for i := 0 to |periods|
      invariant Progress(periods, startTime, newStartTime, newPeriods, newOriginalVesting, i, currentPeriod)
    {
      var period := periods[i];
      OnePeriodMore(periods, startTime, newStartTime, newPeriods, newOriginalVesting, i, currentPeriod);
      currentPeriod := currentPeriod + period.length;
      if newStartTime < currentPeriod {
        if |newPeriods| == 0 { period := period.(length := currentPeriod - newStartTime); }
        newOriginalVesting := Plus(newOriginalVesting, period.amount);
        newPeriods := newPeriods + [period];
      }
    }
    KeptEnd(periods, startTime, newStartTime, newPeriods, currentPeriod);
  }

  /** The coins are the sum of the periods. */
  ghost predicate Holds(c: Coins, ps: seq<Period>) {
    forall d :: AmountOf(c, d) == SumOf(ps, d)
  }

  lemma HoldsOneMore(c: Coins, ps: seq<Period>, p: Period)
    requires Holds(c, ps)
    ensures Holds(Plus(c, p.amount), ps + [p])
  {
    forall d ensures AmountOf(Plus(c, p.amount), d) == SumOf(ps + [p], d) {
      SumOfSnoc(ps, p, d);
    }
  }

  /** The periods kept so far, with those still to be kept from position i on, are the periods to keep. */
  predicate Continues(ps: seq<Period>, start: int, newStart: int, kept: seq<Period>, i: nat, current: int) {
    i <= |ps| && kept + Kept(ps[i..], current, newStart, kept != []) == Kept(ps, start, newStart, false)
  }

  /** One step of the loop over the periods. */
  lemma KeptFront(ps: seq<Period>, start: int, i: nat, current: int, newStart: int, kept: seq<Period>)
    requires i < |ps| && Continues(ps, start, newStart, kept, i, current)
    ensures var end := current + ps[i].length;
            var p := if kept == [] then ps[i].(length := end - newStart) else ps[i];
            Continues(ps, start, newStart, if newStart < end then kept + [p] else kept, i + 1, end)
  {
    var end := current + ps[i].length;
    var p := if kept == [] then ps[i].(length := end - newStart) else ps[i];
    assert ps[i..][0] == ps[i] && ps[i..][1..] == ps[i + 1..];
    assert kept + ([p] + Kept(ps[i + 1..], end, newStart, true)) == kept + [p] + Kept(ps[i + 1..], end, newStart, true);
  }

  ghost predicate Progress(
    ps: seq<Period>, start: int, newStart: int, kept: seq<Period>, sum: Coins, i: nat, current: int)
  {
    Continues(ps, start, newStart, kept, i, current) && Holds(sum, kept)
  }

  lemma OnePeriodMore(ps: seq<Period>, start: int, newStart: int, kept: seq<Period>, sum: Coins, i: nat, current: int)
    requires i < |ps| && Progress(ps, start, newStart, kept, sum, i, current)
    ensures var end := current + ps[i].length;
            var p := if kept == [] then ps[i].(length := end - newStart) else ps[i];
            if newStart < end then Progress(ps, start, newStart, kept + [p], Plus(sum, p.amount), i + 1, end)
            else Progress(ps, start, newStart, kept, sum, i + 1, end)
  {
    var end := current + ps[i].length;
    var p := if kept == [] then ps[i].(length := end - newStart) else ps[i];
    KeptFront(ps, start, i, current, newStart, kept);
    HoldsOneMore(sum, kept, p);
  }

  lemma KeptEnd(ps: seq<Period>, start: int, newStart: int, kept: seq<Period>, current: int)
    requires Continues(ps, start, newStart, kept, |ps|, current)
    ensures kept == Kept(ps, start, newStart, false)
  {
    assert ps[|ps|..] == [] && kept + [] == kept;
  }

  lemma {:induction false} SumOfSnoc(ps: seq<Period>, p: Period, d: string)
    ensures SumOf(ps + [p], d) == SumOf(ps, d) + AmountOf(p.amount, d)
    decreases |ps|
  {
    if ps == [] {
      assert ps + [p] == [p] && [p][1..] == [];
    } else {
      assert (ps + [p])[1..] == ps[1..] + [p];
      SumOfSnoc(ps[1..], p, d);
    }
  }

  // ---------------------------------------------------------------- the reset keeps the account's meaning

  /** What is unvested at a time is what the periods not yet over hold. */
  lemma {:induction false} VestedAndKept(ps: seq<Period>, start: int, t: int, any: bool, d: string)
    requires NonNegative(ps)
    ensures VestedBy(ps, start, t, d) + SumOf(Kept(ps, start, t, any), d) == SumOf(ps, d)
    decreases |ps|
  {
    if ps != [] {
      var end := start + ps[0].length;
      if t < end {
        KeptAll(ps[1..], end, t);
        KeptHead(ps, start, t, any, d);
      } else {
        VestedAndKept(ps[1..], end, t, any, d);
      }
    }
  }

  lemma KeptHead(ps: seq<Period>, start: int, t: int, any: bool, d: string)
    requires ps != [] && t < start + ps[0].length
    ensures SumOf(Kept(ps, start, t, any), d) == AmountOf(ps[0].amount, d) +
            SumOf(Kept(ps[1..], start + ps[0].length, t, true), d)
  {
    var k := Kept(ps, start, t, any);
    assert k[1..] == Kept(ps[1..], start + ps[0].length, t, true);
  }

  /** Once one period is kept, all later ones are, unchanged. */
  lemma {:induction false} KeptAll(ps: seq<Period>, start: int, newStart: int)
    requires NonNegative(ps) && newStart < start
    ensures Kept(ps, start, newStart, true) == ps
    decreases |ps|
  {
    if ps != [] {
      KeptAll(ps[1..], start + ps[0].length, newStart);
      assert ps == [ps[0]] + ps[1..];
    }
  }

  lemma {:induction false} KeptIsNonNegative(ps: seq<Period>, start: int, newStart: int)
    requires NonNegative(ps)
    ensures NonNegative(Kept(ps, start, newStart, false))
    ensures ps != [] && newStart < start + Duration(ps) ==>
              newStart + Duration(Kept(ps, start, newStart, false)) == start + Duration(ps)
    ensures start + Duration(ps) <= newStart ==> Kept(ps, start, newStart, false) == []
    decreases |ps|
  {
    if ps != [] {
      var end := start + ps[0].length;
      var k := Kept(ps, start, newStart, false);
      DurationNonNegative(ps[1..]);
      if newStart < end {
        KeptAll(ps[1..], end, newStart);
        assert k == [ps[0].(length := end - newStart)] + ps[1..];
        assert k[1..] == ps[1..] && Duration(k) == end - newStart + Duration(ps[1..]);
      } else {
        KeptIsNonNegative(ps[1..], end, newStart);
      }
    }
  }

  lemma {:induction false} DurationNonNegative(ps: seq<Period>)
    requires NonNegative(ps)
    ensures Duration(ps) >= 0
    decreases |ps|
  {
    if ps != [] { DurationNonNegative(ps[1..]); }
  }

  /** A reset account is a valid account, unless it has no periods and is moved back in time: its end time then
      stays. */
  lemma ResetKeepsValid(v: Account, newStart: int, r: Account)
    requires Valid(v) && IsReset(v, newStart, r)
    ensures Valid(r) <==> v.periods != [] || v.startTime <= newStart
  {
    KeptIsNonNegative(v.periods, v.startTime, newStart);
  }

  /** Such an account: without periods, moved from time 10 back to time 5, it still ends at 10. */
  lemma ResetCanLeaveEndBehind(v: Account, r: Account)
    requires v == Account(10, 10, map[], [], map[], map[]) && IsReset(v, 5, r)
    ensures Valid(v) && r.startTime == 5 && r.endTime == 10 && !Valid(r)
  {
    assert r.periods == [] && Duration(r.periods) == 0;
  }

  /** At or after the end everything has vested; before it, periods decide. */
  lemma {:induction false} VestedByAtEnd(ps: seq<Period>, start: int, t: int, d: string)
    requires NonNegative(ps)
    ensures start + Duration(ps) <= t ==> VestedBy(ps, start, t, d) == SumOf(ps, d)
    ensures t < start ==> VestedBy(ps, start, t, d) == 0
    decreases |ps|
  {
    if ps != [] {
      DurationNonNegative(ps[1..]);
      VestedByAtEnd(ps[1..], start + ps[0].length, t, d);
    }
  }

  /** For a valid account, what has vested is the sum of the periods that are over, except exactly at the start time,
      where nothing counts as vested yet. */
  lemma VestedIsPeriodsOver(v: Account, t: int, d: string)
    requires Valid(v)
    ensures Vested(v, t, d) == if t == v.startTime then 0 else VestedBy(v.periods, v.startTime, t, d)
  {
    VestedByAtEnd(v.periods, v.startTime, t, d);
  }

  /** Resetting does not change which periods are over at any later time. */
  lemma {:induction false} KeptVestsTheSame(ps: seq<Period>, start: int, newStart: int, t: int, d: string)
    requires NonNegative(ps) && newStart <= t
    ensures var k := Kept(ps, start, newStart, false);
            SumOf(k, d) - VestedBy(k, newStart, t, d) == SumOf(ps, d) - VestedBy(ps, start, t, d)
    decreases |ps|
  {
    if ps != [] {
      var end := start + ps[0].length;
      var k := Kept(ps, start, newStart, false);
      if newStart < end {
        KeptAll(ps[1..], end, newStart);
        assert k == [ps[0].(length := end - newStart)] + ps[1..];
        assert k[1..] == ps[1..];
      } else {
        KeptVestsTheSame(ps[1..], end, newStart, t, d);
      }
    }
  }

  /** What is due exactly at the start: the leading periods of length zero. */
  function DueAtStart(v: Account, d: string): nat {
    VestedBy(v.periods, v.startTime, v.startTime, d)
  }

  /** The reset keeps the unvested amount at every time from the new start on, with one exception: at the old start time
      itself, an account whose leading periods have length zero counts them as unvested before the reset and as vested
      (or gone) after it. */
  lemma ResetKeepsUnvestedExactly(v: Account, newStart: int, r: Account, t: int, d: string)
    requires Valid(v) && IsReset(v, newStart, r) && newStart <= t
    ensures Unvested(r, t, d) == Unvested(v, t, d) <==> !(t == v.startTime && DueAtStart(v, d) > 0)
  {
    ResetKeepsValid(v, newStart, r);
    VestedIsPeriodsOver(v, t, d);
    if v.periods != [] { VestedIsPeriodsOver(r, t, d); }
    KeptVestsTheSame(v.periods, v.startTime, newStart, t, d);
    KeptStartsLater(v.periods, v.startTime, newStart, d);
  }

  /** Right after a reset no kept period is over yet. */
  lemma {:induction false} KeptStartsLater(ps: seq<Period>, start: int, newStart: int, d: string)
    requires NonNegative(ps)
    ensures VestedBy(Kept(ps, start, newStart, false), newStart, newStart, d) == 0
    decreases |ps|
  {
    if ps != [] {
      var end := start + ps[0].length;
      if newStart < end {
        var k := Kept(ps, start, newStart, false);
        assert k[0].length == end - newStart;
      } else {
        KeptStartsLater(ps[1..], end, newStart, d);
      }
    }
  }

  /** The exception is real: a schedule with a period of length zero, reset to its own start time, loses that period. */
  lemma ResetCanLoseLeadingPeriod(r: Account)
    requires var gift: Coins := map["ukava" := 5];
             IsReset(Account(10, 10, gift, [Period(0, gift)], map[], map[]), 10, r)
    ensures var gift: Coins := map["ukava" := 5];
            var v := Account(10, 10, gift, [Period(0, gift)], map[], map[]);
            Valid(v) && Unvested(v, 10, "ukava") == 5 && Unvested(r, 10, "ukava") == 0
  {
    var gift: Coins := map["ukava" := 5];
    var v := Account(10, 10, gift, [Period(0, gift)], map[], map[]);
    assert v.periods[1..] == [];
    assert Kept(v.periods, 10, 10, false) == [];
    assert forall d :: SumOf(v.periods, d) == AmountOf(gift, d);
  }

  /** Delegated coins are only relabelled. */
  lemma ResetConservesDelegations(v: Account, newStart: int, r: Account, d: string)
    requires IsReset(v, newStart, r)
    ensures AmountOf(r.delegatedVesting, d) + AmountOf(r.delegatedFree, d) ==
            AmountOf(v.delegatedVesting, d) + AmountOf(v.delegatedFree, d)
    ensures AmountOf(r.delegatedVesting, d) <= AmountOf(r.originalVesting, d)
    ensures AmountOf(v.delegatedFree, d) <= AmountOf(r.delegatedFree, d)
  {
  }

  // ---------------------------------------------------------------- two resets are one

  lemma {:induction false} KeptTwice(ps: seq<Period>, start: int, t1: int, t2: int)
    requires NonNegative(ps) && t1 <= t2
    ensures Kept(Kept(ps, start, t1, false), t1, t2, false) == Kept(ps, start, t2, false)
    decreases |ps|
  {
    if ps != [] {
      var end := start + ps[0].length;
      if t1 < end {
        KeptAll(ps[1..], end, t1);
        var k := Kept(ps, start, t1, false);
        assert k == [ps[0].(length := end - t1)] + ps[1..];
        assert k[1..] == ps[1..] && t1 + k[0].length == end;
      } else {
        KeptTwice(ps[1..], end, t1, t2);
      }
    }
  }

  lemma {:induction false} KeptShrinks(ps: seq<Period>, start: int, newStart: int, any: bool, d: string)
    ensures SumOf(Kept(ps, start, newStart, any), d) <= SumOf(ps, d)
    decreases |ps|
  {
    if ps != [] {
      var end := start + ps[0].length;
      if newStart < end {
        KeptHead(ps, start, newStart, any, d);
        KeptShrinks(ps[1..], end, newStart, true, d);
      } else {
        KeptShrinks(ps[1..], end, newStart, any, d);
      }
    }
  }

  /** Resetting to t1 and then to a later t2 is resetting to t2. */
  lemma TwoResetsAreOne(v: Account, t1: int, r1: Account, t2: int, r2: Account)
    requires Valid(v) && t1 <= t2 && IsReset(v, t1, r1) && IsReset(r1, t2, r2)
    ensures IsReset(v, t2, r2)
  {
    KeptTwice(v.periods, v.startTime, t1, t2);
    forall d ensures AmountOf(r2.originalVesting, d) <= AmountOf(r1.originalVesting, d) {
      KeptShrinks(r1.periods, t1, t2, false, d);
    }
  }
}
