/** Sums over the values of a finite map: the spelling of "the total over everything in the store". */
module MapSums {

  ghost function Pick<K(!new), V>(m: map<K, V>): (k: K)
    requires m != map[]
    ensures k in m
  {
    var k :| k in m;
    k
  }

  ghost function Total<K(!new), V>(m: map<K, V>, f: V -> int): int
    decreases |m|
  {
    if m == map[] then 0 else f(m[Pick(m)]) + Total(m - {Pick(m)}, f)
  }

  /** The choice of key inside Total does not matter. */
  lemma {:induction false} TotalRemove<K(!new), V>(m: map<K, V>, f: V -> int, k: K)
    requires k in m
    ensures Total(m, f) == f(m[k]) + Total(m - {k}, f)
    decreases |m|
  {
    var c := Pick(m);
    if c != k {
      TotalRemove(m - {c}, f, k);
      TotalRemove(m - {k}, f, c);
      assert m - {c} - {k} == m - {k} - {c};
    }
  }

  lemma TotalUpdate<K(!new), V>(m: map<K, V>, f: V -> int, k: K, v: V)
    ensures Total(m[k := v], f) == Total(m, f) + f(v) - (if k in m then f(m[k]) else 0)
  {
    TotalRemove(m[k := v], f, k);
    assert m[k := v] - {k} == m - {k};
    if k in m {
      TotalRemove(m, f, k);
    } else {
      assert m - {k} == m;
    }
  }

  /** Keys whose values count for zero may come and go freely. */
  lemma {:induction false} TotalSupport<K(!new), V>(m: map<K, V>, n: map<K, V>, f: V -> int)
    requires forall k | k in m && k in n :: f(m[k]) == f(n[k])
    requires forall k | k in m && k !in n :: f(m[k]) == 0
    requires forall k | k in n && k !in m :: f(n[k]) == 0
    ensures Total(m, f) == Total(n, f)
    decreases |m| + |n|
  {
    if k :| k in m {
      TotalRemove(m, f, k);
      if k in n {
        TotalRemove(n, f, k);
        TotalSupport(m - {k}, n - {k}, f);
      } else {
        TotalSupport(m - {k}, n, f);
      }
    } else if k :| k in n {
      TotalRemove(n, f, k);
      TotalSupport(m, n - {k}, f);
    } else {
      assert m == n == map[];
    }
  }

  /** With no negative summand, a total is at least each of its summands. */
  lemma {:induction false} TotalBound<K(!new), V>(m: map<K, V>, f: V -> int, k: K)
    requires k in m
    requires forall v :: v in m.Values ==> f(v) >= 0
    ensures Total(m, f) >= f(m[k])
  {
    TotalRemove(m, f, k);
    TotalNonNegative(m - {k}, f);
  }

  lemma {:induction false} TotalNonNegative<K(!new), V>(m: map<K, V>, f: V -> int)
    requires forall k :: k in m ==> f(m[k]) >= 0
    ensures Total(m, f) >= 0
    decreases |m|
  {
    if k :| k in m {
      TotalRemove(m, f, k);
      TotalNonNegative(m - {k}, f);
    }
  }

  /** With no negative summand, a total of zero leaves nothing to any other summand that vanishes where they do. */
  lemma {:induction false} ZeroTotal<K(!new), V>(m: map<K, V>, f: V -> int, g: V -> int)
    requires forall k <- m :: f(m[k]) >= 0 && (f(m[k]) == 0 ==> g(m[k]) == 0)
    ensures Total(m, f) >= 0 && (Total(m, f) == 0 ==> Total(m, g) == 0)
    decreases |m|
  {
    if k :| k in m {
      TotalRemove(m, f, k);
      TotalRemove(m, g, k);
      ZeroTotal(m - {k}, f, g);
    }
  }

  // ---------------------------------------------------------------- sums of numbers

  function Id(): int -> int {
    (x: int) => x
  }

  lemma {:induction false} TotalSum<K(!new)>(m: map<K, int>, n: map<K, int>, s: map<K, int>)
    requires m.Keys == n.Keys == s.Keys && forall k <- s :: s[k] == m[k] + n[k]
    ensures Total(s, Id()) == Total(m, Id()) + Total(n, Id())
    decreases |s|
  {
    if k :| k in s {
      TotalRemove(s, Id(), k);
      TotalRemove(m, Id(), k);
      TotalRemove(n, Id(), k);
      TotalSum(m - {k}, n - {k}, s - {k});
    } else {
      assert m == n == s == map[];
    }
  }

  /** Summing f over a map is summing its images over any map that extends them by zeros. */
  lemma {:induction false} TotalImage<K(!new), V>(m: map<K, V>, f: V -> int, n: map<K, int>)
    requires m.Keys <= n.Keys
    requires forall k <- n :: n[k] == if k in m then f(m[k]) else 0
    ensures Total(m, f) == Total(n, Id())
    decreases |n|
  {
    if k :| k in n {
      TotalRemove(n, Id(), k);
      if k in m {
        TotalRemove(m, f, k);
        TotalImage(m - {k}, f, n - {k});
      } else {
        TotalImage(m, f, n - {k});
      }
    } else {
      assert m == map[] && n == map[];
    }
  }
}
