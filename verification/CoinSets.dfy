/** sdk.Coins: amounts by denom. */
module CoinSets {

  /** sdk.Coins: no zero entries, so equal sets of coins are equal values. */
  type Coins = c: map<string, nat> | forall d <- c :: c[d] > 0 witness map[]

  function AmountOf(c: map<string, nat>, d: string): nat {
    if d in c then c[d] else 0
  }

  function Plus(a: Coins, b: Coins): (c: Coins)
    ensures forall d :: AmountOf(c, d) == AmountOf(a, d) + AmountOf(b, d)
  {
    map d | d in a.Keys + b.Keys :: AmountOf(a, d) + AmountOf(b, d)
  }

  function MinusCoin(a: Coins, denom: string, n: nat): (c: Coins)
    requires n <= AmountOf(a, denom)
    ensures forall d :: AmountOf(c, d) == AmountOf(a, d) - (if d == denom then n else 0)
  {
    if AmountOf(a, denom) == n then a - {denom} else a[denom := AmountOf(a, denom) - n]
  }

  function PlusCoin(a: Coins, denom: string, n: nat): (c: Coins)
    ensures forall d :: AmountOf(c, d) == AmountOf(a, d) + (if d == denom then n else 0)
  {
    if n == 0 then a else a[denom := AmountOf(a, denom) + n]
  }

  /** Equal amounts make equal coins. */
  lemma SameCoins(a: Coins, b: Coins)
    requires forall d :: AmountOf(a, d) == AmountOf(b, d)
    ensures a == b
  {
    forall d ensures d in a <==> d in b {
      assert AmountOf(a, d) == AmountOf(b, d);
    }
    forall d | d in a ensures a[d] == b[d] {
      assert AmountOf(a, d) == AmountOf(b, d);
    }
  }
}
