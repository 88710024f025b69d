/** splitIntIntoWeightedBuckets: the largest remainder method. Exactness and optimality for every order
    that sorts by decreasing remainder (sort.Slice is not stable, so ties may fall either way). */
module Split {
  import opened Prelude

  function Sum(xs: seq<int>): int {
    if xs == [] then 0 else Sum(xs[..|xs| - 1]) + xs[|xs| - 1]
  }

  /** Weights that can be split over. */
  predicate ValidWeights(ws: seq<int>) {
    |ws| > 0 && (forall w <- ws :: w >= 0) && Sum(ws) > 0
  }

  function Quotas(amount: nat, ws: seq<int>, total: int): (r: seq<int>)
    requires total > 0
    ensures |r| == |ws|
  {
    seq(|ws|, i requires 0 <= i < |ws| => amount * ws[i] / total)
  }

  function Remainders(amount: nat, ws: seq<int>, total: int): (r: seq<int>)
    requires total > 0
    ensures |r| == |ws| && forall i :: 0 <= i < |r| ==> 0 <= r[i] < total
  {
    seq(|ws|, i requires 0 <= i < |ws| => amount * ws[i] % total)
  }

  /** What the quotas leave over. */
  function Leftover(amount: nat, ws: seq<int>): int
    requires ValidWeights(ws)
  {
    amount - Sum(Quotas(amount, ws, Sum(ws)))
  }

  /** A permutation of the indices below n. */
  predicate IsOrder(order: seq<nat>, n: nat) {
    && |order| == n
    && (forall i :: 0 <= i < n ==> order[i] < n)
    && forall i, j :: 0 <= i < j < n ==> order[i] != order[j]
  }

  predicate Decreasing(order: seq<nat>, rems: seq<int>)
    requires IsOrder(order, |rems|)
  {
    forall i, j :: 0 <= i < j < |rems| ==> rems[order[i]] >= rems[order[j]]
  }

  /** One unit of the leftover goes to each of the first buckets in the order. */
  predicate HandedOut(q: seq<int>, order: seq<nat>, left: int, r: seq<int>)
    requires |r| == |q| && IsOrder(order, |q|)
  {
    forall j :: 0 <= j < |q| ==> r[order[j]] == q[order[j]] + (if j < left then 1 else 0)
  }

  ghost predicate Apportioned(amount: nat, ws: seq<int>, order: seq<nat>, r: seq<int>)
    requires ValidWeights(ws)
  {
    && |r| == |ws| && IsOrder(order, |ws|)
    && Decreasing(order, Remainders(amount, ws, Sum(ws)))
    && HandedOut(Quotas(amount, ws, Sum(ws)), order, Leftover(amount, ws), r)
  }

  /** A result the source may return: some order of the sort leads to it. */
  ghost predicate IsSplit(amount: nat, ws: seq<int>, r: seq<int>) {
    ValidWeights(ws) && exists order :: Apportioned(amount, ws, order, r)
  }

  // ---------------------------------------------------------------- sums

  lemma {:induction false} SumOfSums(xs: seq<int>, ys: seq<int>, zs: seq<int>, c: int)
    requires |xs| == |ys| == |zs|
    requires forall i :: 0 <= i < |xs| ==> zs[i] == c * xs[i] + ys[i]
    ensures Sum(zs) == c * Sum(xs) + Sum(ys)
    decreases |xs|
  {
    if xs != [] {
      var n := |xs| - 1;
      SumOfSums(xs[..n], ys[..n], zs[..n], c);
      assert c * (Sum(xs[..n]) + xs[n]) == c * Sum(xs[..n]) + c * xs[n];
    }
  }

  lemma {:induction false} SumBounds(xs: seq<int>, lo: int, hi: int)
    requires forall i :: 0 <= i < |xs| ==> lo <= xs[i] <= hi
    ensures lo * |xs| <= Sum(xs) <= hi * |xs|
    decreases |xs|
  {
    if xs != [] {
      SumBounds(xs[..|xs| - 1], lo, hi);
      assert lo * |xs| == lo * (|xs| - 1) + lo;
      assert hi * |xs| == hi * (|xs| - 1) + hi;
    }
  }

  lemma {:induction false} SumMonotone(xs: seq<int>, ys: seq<int>)
    requires |xs| == |ys| && forall i :: 0 <= i < |xs| ==> xs[i] <= ys[i]
    ensures Sum(xs) <= Sum(ys)
    decreases |xs|
  {
    if xs != [] {
      SumMonotone(xs[..|xs| - 1], ys[..|ys| - 1]);
    }
  }

  lemma {:induction false} SumConcat(xs: seq<int>, ys: seq<int>)
    ensures Sum(xs + ys) == Sum(xs) + Sum(ys)
    decreases |ys|
  {
    if ys == [] {
      assert xs + ys == xs;
    } else {
      assert (xs + ys)[..|xs + ys| - 1] == xs + ys[..|ys| - 1];
      SumConcat(xs, ys[..|ys| - 1]);
    }
  }

  function Pick(xs: seq<int>, order: seq<nat>): (r: seq<int>)
    requires forall i :: 0 <= i < |order| ==> order[i] < |xs|
    ensures |r| == |order|
  {
    seq(|order|, i requires 0 <= i < |order| => xs[order[i]])
  }

  /** Reordering does not change a sum. */
  lemma {:induction false} SumReordered(xs: seq<int>, order: seq<nat>)
    requires IsOrder(order, |xs|)
    ensures Sum(Pick(xs, order)) == Sum(xs)
    decreases |xs|
  {
    if xs != [] {
      var n := |xs| - 1;
      var front, back := SplitAtLastIndex(order);
      SumReordered(xs[..n], front + back);
      PickConcat(xs, n, front, back);
      SumPicked(xs, front, n, back);
    }
  }

  /** Pigeonhole: n different indices below n include n - 1; the others are an order of n - 1. */
  lemma SplitAtLastIndex(order: seq<nat>) returns (front: seq<nat>, back: seq<nat>)
    requires |order| > 0 && IsOrder(order, |order|)
    ensures order == front + ([(|order| - 1) as nat] + back) && IsOrder(front + back, |order| - 1)
    ensures forall k :: 0 <= k < |front| ==> front[k] < |order| - 1
    ensures forall k :: 0 <= k < |back| ==> back[k] < |order| - 1
  {
    IndexOccurs(order, |order| - 1);
    var p :| 0 <= p < |order| && order[p] == |order| - 1;
    front, back := order[..p], order[p + 1..];
    WithoutLastIsOrder(order, p, front, back);
  }

  lemma PickConcat(xs: seq<int>, n: nat, front: seq<nat>, back: seq<nat>)
    requires n <= |xs|
    requires (forall k :: 0 <= k < |front| ==> front[k] < n) && (forall k :: 0 <= k < |back| ==> back[k] < n)
    ensures forall k :: 0 <= k < |front + back| ==> (front + back)[k] < n
    ensures Pick(xs[..n], front + back) == Pick(xs, front) + Pick(xs, back)
  {
  }

  lemma WithoutLastIsOrder(order: seq<nat>, p: nat, front: seq<nat>, back: seq<nat>)
    requires p < |order| && IsOrder(order, |order|) && order[p] == |order| - 1
    requires front == order[..p] && back == order[p + 1..]
    ensures IsOrder(front + back, |order| - 1)
    ensures forall k :: 0 <= k < |front| ==> front[k] < |order| - 1
    ensures forall k :: 0 <= k < |back| ==> back[k] < |order| - 1
  {
    var rest := front + back;
    forall i | 0 <= i < |rest| ensures rest[i] < |order| - 1 {
      assert rest[i] == order[if i < p then i else i + 1];
    }
    forall i, j | 0 <= i < j < |rest| ensures rest[i] != rest[j] {
      assert rest[i] == order[if i < p then i else i + 1];
      assert rest[j] == order[if j < p then j else j + 1];
    }
  }

  lemma SumPicked(xs: seq<int>, front: seq<nat>, i: nat, back: seq<nat>)
    requires i < |xs|
    requires (forall k :: 0 <= k < |front| ==> front[k] < |xs|) && (forall k :: 0 <= k < |back| ==> back[k] < |xs|)
    ensures Sum(Pick(xs, front + ([i] + back))) == Sum(Pick(xs, front) + Pick(xs, back)) + xs[i]
  {
    assert Pick(xs, front + ([i] + back)) == Pick(xs, front) + ([xs[i]] + Pick(xs, back));
    SumConcat(Pick(xs, front), [xs[i]] + Pick(xs, back));
    SumConcat([xs[i]], Pick(xs, back));
    SumConcat(Pick(xs, front), Pick(xs, back));
    assert [xs[i]][..0] == [];
  }

  ghost function Below(n: nat): set<nat> {
    if n == 0 then {} else Below(n - 1) + {n - 1}
  }

  lemma {:induction false} BelowCount(n: nat)
    ensures |Below(n)| == n && forall x: nat :: x in Below(n) <==> x < n
  {
    if n > 0 { BelowCount(n - 1); }
  }

  lemma IndexOccurs(order: seq<nat>, i: nat)
    requires IsOrder(order, |order|) && i < |order|
    ensures exists p :: 0 <= p < |order| && order[p] == i
  {
    var s := set x | x in order;
    var all := Below(|order|);
    DistinctCount(order, s);
    BelowCount(|order|);
    assert s <= all;
    assert |all - s| == 0;
    assert i in all && i !in all - s;
  }

  lemma {:induction false} DistinctCount(xs: seq<nat>, s: set<nat>)
    requires forall i, j :: 0 <= i < j < |xs| ==> xs[i] != xs[j]
    requires s == set x | x in xs
    ensures |s| == |xs|
    decreases |xs|
  {
    if xs != [] {
      var init, last := xs[..|xs| - 1], xs[|xs| - 1];
      DistinctCount(init, set x | x in init);
      assert xs == init + [last];
      assert s == (set x | x in init) + {last};
      assert last !in init;
    }
  }

  // ---------------------------------------------------------------- exactness

  /** Quota and remainder of a product. */
  lemma QuotaAndRemainder(amount: nat, ws: seq<int>, total: int, i: nat)
    requires total > 0 && i < |ws|
    ensures amount * ws[i] == total * Quotas(amount, ws, total)[i] + Remainders(amount, ws, total)[i]
  {
  }

  lemma SumOfProducts(amount: int, ws: seq<int>, q: seq<int>, r: seq<int>, total: int)
    requires |ws| == |q| == |r|
    requires forall i :: 0 <= i < |ws| ==> amount * ws[i] == total * q[i] + r[i]
    ensures amount * Sum(ws) == total * Sum(q) + Sum(r)
  {
    var scaled := seq(|ws|, i requires 0 <= i < |ws| => total * q[i] + r[i]);
    var none := seq(|ws|, i => 0);
    SumOfSums(q, r, scaled, total);
    SumOfSums(ws, none, scaled, amount);
    SumBounds(none, 0, 0);
  }

  lemma MulMonotone(W: int, a: int, b: int)
    requires W > 0
    ensures a <= b ==> W * a <= W * b
  {
  }

  lemma Distribute(W: int, a: int, b: int)
    ensures W * (a + b) == W * a + W * b && W * (a - b) == W * a - W * b
  {
  }

  lemma MulNonNegative(a: int, b: int)
    requires a >= 0 && b >= 0
    ensures a * b >= 0
  {
  }

  lemma LeftoverInRange(W: int, left: int, n: nat, rest: int)
    requires W > 0 && W * left == rest && 0 <= rest <= (W - 1) * n && n > 0
    ensures 0 <= left < n
  {
    MulMonotone(W, n, left);
    MulMonotone(W, left, -1);
    assert (W - 1) * n == W * n - n;
  }

  /** The remainders add up to exactly the leftover units. */
  lemma RemaindersMakeLeftover(amount: nat, ws: seq<int>)
    requires ValidWeights(ws)
    ensures Sum(Remainders(amount, ws, Sum(ws))) == Sum(ws) * Leftover(amount, ws)
    ensures 0 <= Leftover(amount, ws) < |ws|
  {
    var W := Sum(ws);
    var q, r := Quotas(amount, ws, W), Remainders(amount, ws, W);
    forall i | 0 <= i < |ws| ensures amount * ws[i] == W * q[i] + r[i] {
      QuotaAndRemainder(amount, ws, W, i);
    }
    SumOfProducts(amount, ws, q, r, W);
    LeftoverOf(W, amount, Sum(q), r);
  }

  lemma LeftoverOf(W: int, amount: int, quotas: int, r: seq<int>)
    requires W > 0 && |r| > 0 && forall i :: 0 <= i < |r| ==> 0 <= r[i] < W
    requires amount * W == W * quotas + Sum(r)
    ensures Sum(r) == W * (amount - quotas) && 0 <= amount - quotas < |r|
  {
    SumBounds(r, 0, W - 1);
    Distribute(W, amount, quotas);
    LeftoverInRange(W, amount - quotas, |r|, Sum(r));
  }

  /** How many are not zero. */
  function NonZero(xs: seq<int>): nat {
    if xs == [] then 0 else NonZero(xs[..|xs| - 1]) + (if xs[|xs| - 1] != 0 then 1 else 0)
  }

  lemma {:induction false} SumOfNonZero(xs: seq<int>, W: int)
    requires forall i :: 0 <= i < |xs| ==> 0 <= xs[i] < W
    ensures 0 <= Sum(xs) <= (W - 1) * NonZero(xs)
    decreases |xs|
  {
    if xs != [] {
      var init, x := xs[..|xs| - 1], xs[|xs| - 1];
      SumOfNonZero(init, W);
      Distribute(W - 1, NonZero(init), if x != 0 then 1 else 0);
    }
  }

  /** The leftover is smaller than the number of buckets with a remainder; without any there is none. */
  lemma LeftoverBelowNonZero(amount: nat, ws: seq<int>)
    requires ValidWeights(ws)
    ensures var n := NonZero(Remainders(amount, ws, Sum(ws)));
            if n == 0 then Leftover(amount, ws) == 0 else 0 <= Leftover(amount, ws) < n
  {
    var W := Sum(ws);
    var rems, left := Remainders(amount, ws, W), Leftover(amount, ws);
    RemaindersMakeLeftover(amount, ws);
    SumOfNonZero(rems, W);
    if NonZero(rems) > 0 {
      LeftoverInRange(W, left, NonZero(rems), Sum(rems));
    } else {
      MulMonotone(W, 1, left);
    }
  }

  /** Only buckets with a remainder get an extra unit: were the remainder at place j zero, so would be all later ones,
      and the earlier ones could not make up the leftover. */
  lemma WinnersHaveRemainder(rems: seq<int>, order: seq<nat>, W: int, left: int, j: nat)
    requires W > 0 && (forall i :: 0 <= i < |rems| ==> 0 <= rems[i] < W) && Sum(rems) == W * left
    requires IsOrder(order, |rems|) && Decreasing(order, rems)
    requires j < left && j < |rems|
    ensures rems[order[j]] > 0
  {
    var sorted := Pick(rems, order);
    SumReordered(rems, order);
    ZeroTailBound(sorted, W, j);
    TooFewUnits(W, left, j, Sum(rems));
  }

  lemma ZeroTailBound(sorted: seq<int>, W: int, j: nat)
    requires j < |sorted| && forall i :: 0 <= i < |sorted| ==> 0 <= sorted[i] < W
    requires forall i :: j <= i < |sorted| ==> sorted[i] <= sorted[j]
    ensures sorted[j] == 0 ==> Sum(sorted) <= (W - 1) * j
  {
    var front, back := sorted[..j], sorted[j..];
    assert sorted == front + back;
    SumConcat(front, back);
    SumBounds(front, 0, W - 1);
    SumBounds(back, 0, sorted[j]);
  }

  lemma TooFewUnits(W: int, left: int, j: nat, rest: int)
    requires W > 0 && rest == W * left
    ensures rest <= (W - 1) * j ==> left <= j
  {
    MulMonotone(W, j + 1, left);
    assert W * (j + 1) == W * j + W;
    assert (W - 1) * j == W * j - j;
  }

  lemma PartNearQuota(x: nat, W: int, extra: int)
    requires W > 0 && (extra == 0 || (extra == 1 && x % W > 0))
    ensures x / W + extra >= 0
    ensures -W < (x / W + extra) * W - x < W
    ensures x % W == 0 ==> (x / W + extra) * W == x
    ensures x == 0 ==> x / W + extra == 0
  {
    assert x == x / W * W + x % W;
    assert (x / W + extra) * W == x / W * W + extra * W;
  }

  /** Handing out the leftover one by one makes the parts add up. */
  lemma UnitsAddUp(q: seq<int>, order: seq<nat>, left: nat, r: seq<int>)
    requires |r| == |q| && IsOrder(order, |q|) && left <= |q|
    requires HandedOut(q, order, left, r)
    ensures Sum(r) == Sum(q) + left
  {
    var ones, zeros := seq(left, j => 1), seq(|q| - left, j => 0);
    SumReordered(r, order);
    SumReordered(q, order);
    SumOfSums(Pick(q, order), ones + zeros, Pick(r, order), 1);
    SumConcat(ones, zeros);
    SumBounds(ones, 1, 1);
    SumBounds(zeros, 0, 0);
  }

  predicate PartOk(amount: nat, w: int, total: int, part: int)
    requires total > 0
  {
    && part >= 0
    && -total < part * total - amount * w < total
    && (amount * w % total == 0 ==> part * total == amount * w)
    && (w == 0 ==> part == 0)
  }

  /** Exactness: the parts add up to the amount, each differs from the exact share by less than one unit, and an exact
      share is paid exactly (so a bucket of weight zero gets nothing). */
  lemma SplitIsExact(amount: nat, ws: seq<int>, r: seq<int>)
    requires IsSplit(amount, ws, r)
    ensures |r| == |ws| && Sum(r) == amount
    ensures forall i :: 0 <= i < |ws| ==> PartOk(amount, ws[i], Sum(ws), r[i])
  {
    var order :| Apportioned(amount, ws, order, r);
    RemaindersMakeLeftover(amount, ws);
    UnitsAddUp(Quotas(amount, ws, Sum(ws)), order, Leftover(amount, ws), r);
    forall i | 0 <= i < |ws| ensures PartOk(amount, ws[i], Sum(ws), r[i]) {
      PartIsExact(amount, ws, order, r, i);
    }
  }

  /** Where a bucket stands in the order, and what it gets. */
  lemma PlaceOf(amount: nat, ws: seq<int>, order: seq<nat>, r: seq<int>, i: nat) returns (j: nat)
    requires ValidWeights(ws) && Apportioned(amount, ws, order, r) && i < |ws|
    ensures j < |ws| && order[j] == i
    ensures r[i] == Quotas(amount, ws, Sum(ws))[i] + (if j < Leftover(amount, ws) then 1 else 0)
  {
    IndexOccurs(order, i);
    j :| 0 <= j < |order| && order[j] == i;
  }

  lemma PartIsExact(amount: nat, ws: seq<int>, order: seq<nat>, r: seq<int>, i: nat)
    requires ValidWeights(ws) && Apportioned(amount, ws, order, r) && i < |ws|
    ensures PartOk(amount, ws[i], Sum(ws), r[i])
  {
    var j := PlaceOf(amount, ws, order, r, i);
    RemaindersMakeLeftover(amount, ws);
    if j < Leftover(amount, ws) {
      WinnersHaveRemainder(Remainders(amount, ws, Sum(ws)), order, Sum(ws), Leftover(amount, ws), j);
    }
    QuotaGivesPart(amount, ws, i, if j < Leftover(amount, ws) then 1 else 0);
  }

  lemma QuotaGivesPart(amount: nat, ws: seq<int>, i: nat, extra: int)
    requires ValidWeights(ws) && i < |ws|
    requires extra == 0 || (extra == 1 && Remainders(amount, ws, Sum(ws))[i] > 0)
    ensures PartOk(amount, ws[i], Sum(ws), Quotas(amount, ws, Sum(ws))[i] + extra)
  {
    assert ws[i] in ws;
    MulNonNegative(amount, ws[i]);
    PartNearQuota(amount * ws[i], Sum(ws), extra);
  }

  // ---------------------------------------------------------------- optimality

  /** The exact shares, scaled by the total weight. */
  function Shares(amount: nat, ws: seq<int>): (r: seq<int>)
    ensures |r| == |ws|
  {
    seq(|ws|, i requires 0 <= i < |ws| => amount * ws[i])
  }

  /** How far an allocation is from exact proportion, bucket by bucket, in units of 1/W. */
  function Errors(xs: seq<int>, W: int, r: seq<int>): (e: seq<int>)
    requires |r| == |xs|
    ensures |e| == |xs|
  {
    seq(|xs|, i requires 0 <= i < |xs| => Abs(r[i] * W - xs[i]))
  }

  /** The total error of an allocation of the amount over the weights. */
  function TotalError(amount: nat, ws: seq<int>, r: seq<int>): int
    requires |r| == |ws|
  {
    Sum(Errors(Shares(amount, ws), Sum(ws), r))
  }

  /** The error of a bucket k units above its quota, less the price of those units. */
  function Cost(W: int, rem: int, price: int, k: int): int {
    Abs(k * W - rem) - price * k
  }

  /** The cost is convex in k, so only quota and quota + 1 matter. */
  lemma CostIsConvex(W: int, rem: int, price: int, k: int)
    requires W > 0 && 0 <= rem < W && -W <= price <= W
    ensures k >= 1 ==> Cost(W, rem, price, k) >= W - rem - price
    ensures k <= 0 ==> Cost(W, rem, price, k) >= rem
  {
    if k >= 1 {
      MulNonNegative(k - 1, W - price);
      AboveQuota(W, price, k);
      MulMonotone(W, 1, k);
    } else {
      MulNonNegative(-k, W + price);
      BelowQuota(W, price, k);
      MulMonotone(W, k, 0);
    }
  }

  lemma AboveQuota(W: int, price: int, k: int)
    ensures (k - 1) * (W - price) == k * W - W - price * k + price
  {
  }

  lemma BelowQuota(W: int, price: int, k: int)
    ensures (-k) * (W + price) == 0 - k * W - price * k
  {
  }

  lemma CostAtQuota(W: int, rem: int, price: int)
    requires 0 <= rem < W
    ensures Cost(W, rem, price, 0) == rem && Cost(W, rem, price, 1) == W - rem - price
  {
  }

  lemma CostOfPart(x: int, q: int, rem: int, W: int, price: int, part: int)
    requires x == W * q + rem
    ensures Abs(part * W - x) - price * part == Cost(W, rem, price, part - q) - price * q
  {
    assert part * W - x == (part - q) * W - rem;
    assert price * part == price * (part - q) + price * q;
  }

  /** With the price of a unit set between the smallest winning and the largest losing remainder,
      each bucket on its own can do no better than its part. */
  lemma BestAtPrice(x: int, q: int, rem: int, W: int, price: int, part: int, other: int)
    requires x == W * q + rem && 0 <= rem < W && -W <= price <= W
    requires (part == q && price <= W - 2 * rem) || (part == q + 1 && W - 2 * rem <= price)
    ensures Abs(part * W - x) - price * part <= Abs(other * W - x) - price * other
  {
    CostOfPart(x, q, rem, W, price, part);
    CostOfPart(x, q, rem, W, price, other);
    CostIsConvex(W, rem, price, other - q);
    CostAtQuota(W, rem, price);
  }

  /** Bucket-wise optimality at a common price is optimality for a fixed total. */
  lemma {:induction false} PricedOptimum(e: seq<int>, f: seq<int>, r: seq<int>, other: seq<int>, price: int)
    requires |e| == |f| == |r| == |other|
    requires forall i :: 0 <= i < |e| ==> e[i] - price * r[i] <= f[i] - price * other[i]
    ensures Sum(e) - price * Sum(r) <= Sum(f) - price * Sum(other)
    decreases |e|
  {
    if e != [] {
      var n := |e| - 1;
      PricedOptimum(e[..n], f[..n], r[..n], other[..n], price);
      Distribute(price, Sum(r[..n]), r[n]);
      Distribute(price, Sum(other[..n]), other[n]);
    }
  }

  /** A price of a unit at which the winners want their extra unit and the losers do not. */
  predicate Separates(price: int, rems: seq<int>, W: int, order: seq<nat>, left: nat)
    requires IsOrder(order, |rems|)
  {
    && -W <= price <= W
    && (forall j :: 0 <= j < left && j < |rems| ==> W - 2 * rems[order[j]] <= price)
    && (forall j :: left <= j < |rems| ==> price <= W - 2 * rems[order[j]])
  }

  lemma PriceExists(rems: seq<int>, W: int, order: seq<nat>, left: nat) returns (price: int)
    requires forall i :: 0 <= i < |rems| ==> 0 <= rems[i] < W
    requires IsOrder(order, |rems|) && Decreasing(order, rems) && left < |rems|
    ensures Separates(price, rems, W, order, left)
  {
    price := W - 2 * rems[order[left]];
  }

  predicate Decomposes(xs: seq<int>, W: int, q: seq<int>, rems: seq<int>)
    requires |xs| == |q| == |rems|
  {
    forall i :: 0 <= i < |xs| ==> xs[i] == W * q[i] + rems[i] && 0 <= rems[i] < W
  }

  predicate ErrorsOf(xs: seq<int>, W: int, r: seq<int>, e: seq<int>)
    requires |xs| == |r| == |e|
  {
    forall i :: 0 <= i < |xs| ==> e[i] == Abs(r[i] * W - xs[i])
  }

  /** The heart of the optimality proof, free of divisions: xs are the exact shares times W. */
  lemma ApportionedIsOptimal(xs: seq<int>, q: seq<int>, rems: seq<int>, W: int, order: seq<nat>, left: nat, price: int,
                             r: seq<int>, other: seq<int>, e: seq<int>, f: seq<int>)
    requires |xs| == |q| == |rems| == |r| == |other| == |e| == |f|
    requires Decomposes(xs, W, q, rems)
    requires IsOrder(order, |xs|) && Separates(price, rems, W, order, left)
    requires HandedOut(q, order, left, r)
    requires ErrorsOf(xs, W, r, e) && ErrorsOf(xs, W, other, f)
    requires Sum(r) == Sum(other)
    ensures Sum(e) <= Sum(f)
  {
    forall i | 0 <= i < |xs| ensures e[i] - price * r[i] <= f[i] - price * other[i] {
      IndexOccurs(order, i);
      var j :| 0 <= j < |order| && order[j] == i;
      BestAtPrice(xs[i], q[i], rems[i], W, price, r[i], other[i]);
    }
    PricedOptimum(e, f, r, other, price);
  }

  lemma SharesDecompose(amount: nat, ws: seq<int>, total: int)
    requires total > 0
    ensures Decomposes(Shares(amount, ws), total, Quotas(amount, ws, total), Remainders(amount, ws, total))
  {
    forall i | 0 <= i < |ws|
      ensures Shares(amount, ws)[i] == total * Quotas(amount, ws, total)[i] + Remainders(amount, ws, total)[i]
    {
      QuotaAndRemainder(amount, ws, total, i);
    }
  }

  lemma ErrorsAreErrors(xs: seq<int>, W: int, r: seq<int>)
    requires |r| == |xs|
    ensures ErrorsOf(xs, W, r, Errors(xs, W, r))
  {
  }

  /** Optimality: no integer allocation of the amount (negative parts included) has a smaller total error,
      whichever way ties were broken. */
  lemma SplitIsOptimal(amount: nat, ws: seq<int>, r: seq<int>, other: seq<int>)
    requires IsSplit(amount, ws, r)
    requires |other| == |ws| && Sum(other) == amount
    ensures |r| == |ws| && TotalError(amount, ws, r) <= TotalError(amount, ws, other)
  {
    var order :| Apportioned(amount, ws, order, r);
    SplitIsExact(amount, ws, r);
    OrderIsOptimal(amount, ws, order, r, other);
  }

  lemma OrderIsOptimal(amount: nat, ws: seq<int>, order: seq<nat>, r: seq<int>, other: seq<int>)
    requires ValidWeights(ws) && Apportioned(amount, ws, order, r)
    requires |other| == |ws| && Sum(other) == Sum(r)
    ensures TotalError(amount, ws, r) <= TotalError(amount, ws, other)
  {
    RemaindersMakeLeftover(amount, ws);
    var W := Sum(ws);
    SharesDecompose(amount, ws, W);
    var xs := Shares(amount, ws);
    ErrorsAreErrors(xs, W, r);
    ErrorsAreErrors(xs, W, other);
    var price := PriceExists(Remainders(amount, ws, W), W, order, Leftover(amount, ws));
    ApportionedIsOptimal(xs, Quotas(amount, ws, W), Remainders(amount, ws, W), W, order,
                         Leftover(amount, ws), price, r, other, Errors(xs, W, r), Errors(xs, W, other));
  }
}
