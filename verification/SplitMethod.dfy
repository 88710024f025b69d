/** splitIntIntoWeightedBuckets as the source runs it: fill an array of quotients, sort it in place, hand out the
    leftover. */
module SplitMethod {
  import opened Prelude
  import opened Split

  datatype QuoRem = QuoRem(index: nat, quo: int, rem: int)

  /** t holds the elements of s, each once, in some order. */
  ghost predicate Shuffled(s: seq<QuoRem>, t: seq<QuoRem>) {
    && |t| == |s|
    && (forall k :: 0 <= k < |t| ==> t[k].index < |s| && t[k] == s[t[k].index])
    && forall i, j :: 0 <= i < j < |t| ==> t[i].index != t[j].index
  }

  lemma SwapShuffles(s: seq<QuoRem>, t: seq<QuoRem>, u: seq<QuoRem>, i: nat, j: nat)
    requires Shuffled(s, t) && i < j < |t| && u == t[i := t[j]][j := t[i]]
    ensures Shuffled(s, u)
  {
  }

  ghost predicate SortedUpTo(t: seq<QuoRem>, n: nat)
    requires n <= |t|
  {
    forall i, j :: 0 <= i < j < n ==> t[i].rem >= t[j].rem
  }

  /** Sorted up to n but for the element at k, which may be larger than those before it. */
  ghost predicate SortedBut(t: seq<QuoRem>, n: nat, k: nat)
    requires k <= n < |t|
  {
    && (forall i, j :: 0 <= i < j <= n && j != k ==> t[i].rem >= t[j].rem)
    && forall j :: k < j <= n ==> t[k].rem >= t[j].rem
  }

  lemma SwapKeepsSorted(t: seq<QuoRem>, u: seq<QuoRem>, n: nat, k: nat)
    requires 0 < k <= n < |t| && SortedBut(t, n, k) && t[k - 1].rem < t[k].rem
    requires u == t[k - 1 := t[k]][k := t[k - 1]]
    ensures SortedBut(u, n, k - 1)
  {
  }

  /** A sort by decreasing remainder. Its contract leaves the order of ties open, as sort.Slice does. */
  method SortByRemainder(a: array<QuoRem>)
    requires forall i :: 0 <= i < a.Length ==> a[i].index == i
    modifies a
    ensures Shuffled(old(a[..]), a[..])
    ensures SortedUpTo(a[..], a.Length)
  {
    var n := 0;
    while n < a.Length
      invariant 0 <= n <= a.Length
      invariant Shuffled(old(a[..]), a[..])
      invariant SortedUpTo(a[..], n)
    {
      SinkIntoPlace(a, n, old(a[..]));
      n := n + 1;
    }
  }

  method SinkIntoPlace(a: array<QuoRem>, n: nat, ghost s: seq<QuoRem>)
    requires n < a.Length && Shuffled(s, a[..]) && SortedUpTo(a[..], n)
    modifies a
    ensures Shuffled(s, a[..]) && SortedUpTo(a[..], n + 1)
  {
    var k := n;
    while k > 0 && a[k - 1].rem < a[k].rem
      invariant 0 <= k <= n
      invariant Shuffled(s, a[..])
      invariant SortedBut(a[..], n, k)
    {
      ghost var before := a[..];
      a[k - 1], a[k] := a[k], a[k - 1];
      assert a[..] == before[k - 1 := before[k]][k := before[k - 1]];
      SwapShuffles(s, before, a[..], k - 1, k);
      SwapKeepsSorted(before, a[..], n, k);
      k := k - 1;
    }
    SinkDone(a[..], n, k);
  }

  lemma SinkDone(t: seq<QuoRem>, n: nat, k: nat)
    requires k <= n < |t| && SortedBut(t, n, k) && (k == 0 || t[k - 1].rem >= t[k].rem)
    ensures SortedUpTo(t, n + 1)
  {
    forall i | 0 <= i < k ensures t[i].rem >= t[k].rem {
      assert i == k - 1 || t[i].rem >= t[k - 1].rem;
    }
  }

  /** totalInts. */
  method TotalInts(xs: seq<int>) returns (total: int)
    ensures total == Sum(xs)
  {
    total := 0;
    for i := 0 to |xs|
      invariant total == Sum(xs[..i])
    {
      assert xs[..i + 1][..i] == xs[..i];
      total := total + xs[i];
    }
    assert xs[..|xs|] == xs;
  }

  /** Step 1: quotient and remainder of every bucket. */
  method FillQuotients(amount: nat, buckets: seq<int>, total: int) returns (a: array<QuoRem>)
    requires total > 0
    ensures fresh(a) && a.Length == |buckets|
    ensures forall i :: 0 <= i < a.Length ==>
              a[i] == QuoRem(i, Quotas(amount, buckets, total)[i], Remainders(amount, buckets, total)[i])
  {
    a := new QuoRem[|buckets|](_ => QuoRem(0, 0, 0));
    for i := 0 to |buckets|
      invariant forall k :: 0 <= k < i ==>
                  a[k] == QuoRem(k, Quotas(amount, buckets, total)[k], Remainders(amount, buckets, total)[k])
    {
      a[i] := QuoRem(i, amount * buckets[i] / total, amount * buckets[i] % total);
    }
  }

  /** The indices of a sorted array of quotients are an order of the buckets. */
  function OrderOf(t: seq<QuoRem>): (r: seq<nat>)
    ensures |r| == |t|
  {
    seq(|t|, k requires 0 <= k < |t| => t[k].index)
  }

  function QuosOf(t: seq<QuoRem>): (r: seq<int>)
    ensures |r| == |t|
  {
    seq(|t|, k requires 0 <= k < |t| => t[k].quo)
  }

  /** The first left elements get one more; all of them if left is negative, since the count then never reaches zero. */
  ghost predicate GivenOut(t: seq<QuoRem>, left: int, results: seq<int>)
    requires IsOrder(OrderOf(t), |t|) && |results| == |t|
  {
    forall j :: 0 <= j < |t| ==> results[OrderOf(t)[j]] == t[j].quo + (if left >= 0 && j >= left then 0 else 1)
  }

  /** Step 2: count what is left, then hand it out front to back. */
  method HandOut(amount: int, a: array<QuoRem>) returns (results: seq<int>)
    requires IsOrder(OrderOf(a[..]), a.Length)
    ensures |results| == a.Length
    ensures GivenOut(a[..], amount - Sum(QuosOf(a[..])), results)
  {
    ghost var quos := QuosOf(a[..]);
    var handedOut := 0;
    for i := 0 to a.Length
      invariant handedOut == Sum(quos[..i])
    {
      assert quos[..i + 1][..i] == quos[..i];
      handedOut := handedOut + a[i].quo;
    }
    assert quos[..a.Length] == quos;
    var leftToAllocate := amount - handedOut;
    ghost var left := leftToAllocate;
    var out := new int[a.Length](_ => 0);
    ghost var order := OrderOf(a[..]);
    for j := 0 to a.Length
      invariant leftToAllocate == if left >= 0 && j >= left then 0 else left - j
      invariant forall k :: 0 <= k < j ==> out[order[k]] == a[k].quo + (if left >= 0 && k >= left then 0 else 1)
    {
      assert order[j] == a[j].index;
      out[a[j].index] := a[j].quo;
      if leftToAllocate != 0 {
        out[a[j].index] := out[a[j].index] + 1;
        leftToAllocate := leftToAllocate - 1;
      }
    }
    results := out[..];
  }

  /** The whole split: it fails exactly on a negative amount, no buckets, a negative weight or weights that are all
      zero; otherwise the result is a largest-remainder split, so exact (SplitIsExact) and optimal (SplitIsOptimal). */
  method SplitIntIntoWeightedBuckets(amount: int, buckets: seq<int>) returns (r: Result<seq<int>>)
    ensures r.Ok? <==> amount >= 0 && ValidWeights(buckets)
    ensures r.Ok? ==> IsSplit(amount, buckets, r.value)
    ensures r.Ok? ==> |r.value| == |buckets| && Sum(r.value) == amount
  {
    if amount < 0 { return Err(NegativeCoin); }
    if |buckets| < 1 { return Err(InvalidLotReturns); }
    for i := 0 to |buckets|
      invariant forall k :: 0 <= k < i ==> buckets[k] >= 0
    {
      if buckets[i] < 0 {
        assert buckets[i] in buckets;
        return Err(InvalidLotReturns);
      }
    }
    var total := TotalInts(buckets);
    if total <= 0 { return Err(InvalidLotReturns); }
    assert ValidWeights(buckets);
    var a := FillQuotients(amount, buckets, total);
    ghost var filled := a[..];
    SortByRemainder(a);
    SortedIsOrder(amount, buckets, filled, a[..]);
    var results := HandOut(amount, a);
    HandedOutIsApportioned(amount, buckets, a[..], results);
    SplitIsExact(amount, buckets, results);
    r := Ok(results);
  }

  lemma SortedIsOrder(amount: nat, ws: seq<int>, s: seq<QuoRem>, t: seq<QuoRem>)
    requires ValidWeights(ws) && |s| == |ws| && Shuffled(s, t)
    requires forall i :: 0 <= i < |s| ==>
             s[i] == QuoRem(i, Quotas(amount, ws, Sum(ws))[i], Remainders(amount, ws, Sum(ws))[i])
    requires SortedUpTo(t, |t|)
    ensures IsOrder(OrderOf(t), |ws|) && Decreasing(OrderOf(t), Remainders(amount, ws, Sum(ws)))
    ensures forall k :: 0 <= k < |t| ==> t[k].quo == Quotas(amount, ws, Sum(ws))[OrderOf(t)[k]]
  {
    var rems := Remainders(amount, ws, Sum(ws));
    forall k | 0 <= k < |t|
      ensures t[k].rem == rems[OrderOf(t)[k]] && t[k].quo == Quotas(amount, ws, Sum(ws))[OrderOf(t)[k]]
    {
      assert t[k] == s[t[k].index];
    }
  }

  lemma HandedOutIsApportioned(amount: nat, ws: seq<int>, t: seq<QuoRem>, results: seq<int>)
    requires ValidWeights(ws) && |t| == |ws| == |results|
    requires IsOrder(OrderOf(t), |ws|) && Decreasing(OrderOf(t), Remainders(amount, ws, Sum(ws)))
    requires forall k :: 0 <= k < |t| ==> t[k].quo == Quotas(amount, ws, Sum(ws))[OrderOf(t)[k]]
    requires GivenOut(t, amount - Sum(QuosOf(t)), results)
    ensures Apportioned(amount, ws, OrderOf(t), results)
  {
    RemaindersMakeLeftover(amount, ws);
    GivenOutIsHandedOut(t, Quotas(amount, ws, Sum(ws)), amount, results);
  }

  lemma GivenOutIsHandedOut(t: seq<QuoRem>, q: seq<int>, amount: int, results: seq<int>)
    requires |t| == |q| == |results| && IsOrder(OrderOf(t), |t|)
    requires forall k :: 0 <= k < |t| ==> t[k].quo == q[OrderOf(t)[k]]
    requires GivenOut(t, amount - Sum(QuosOf(t)), results) && amount >= Sum(q)
    ensures HandedOut(q, OrderOf(t), amount - Sum(q), results)
  {
    assert QuosOf(t) == Pick(q, OrderOf(t));
    SumReordered(q, OrderOf(t));
  }
}
