/** Splitting samples across ranks, in exact arithmetic: rank `i` of `d` takes the samples
    from floor(s * i / d) up to floor(s * (i + 1) / d). */
module RankPartition {
  import opened Arith

  function Start(s: nat, i: nat, d: nat): nat
    requires d > 0
  {
    s * i / d
  }

  /** The half-open range of samples of rank `i`. */
  function StartEnd(s: nat, i: nat, d: nat): (r: (nat, nat))
    requires d > 0
  {
    (Start(s, i, d), Start(s, i + 1, d))
  }

  lemma StartSplits(s: nat, i: nat, d: nat)
    requires d > 0
    ensures Start(s, i, d) == s / d * i + s % d * i / d
  {
    var q, r := s / d, s % d;
    var x := r * i;
    calc {
      s * i;
      (d * q + r) * i;
      d * (q * i) + x;
      d * (q * i) + (d * (x / d) + x % d);
      { Distribute(d, q * i, x / d); }
      d * (q * i + x / d) + x % d;
    }
    DivModUnique(s * i, d, q * i + x / d, x % d);
  }

  lemma Distribute(d: int, x: int, y: int)
    ensures d * x + d * y == d * (x + y)
  {
  }

  /** Adding less than the divisor moves the quotient by at most one. */
  lemma SmallStep(x: nat, r: nat, d: nat)
    requires r < d
    ensures x / d <= (x + r) / d <= x / d + 1
  {
    var q, m := x / d, x % d;
    assert x == d * q + m;
    if m + r < d {
      DivModUnique(x + r, d, q, m + r);
    } else {
      Distribute(d, q, 1);
      DivModUnique(x + r, d, q + 1, m + r - d);
    }
  }

  /** Every rank gets the average number of samples, rounded down or up. */
  lemma BalancedSizes(s: nat, i: nat, d: nat)
    requires d > 0
    ensures var (start, end) := StartEnd(s, i, d); s / d <= end - start <= s / d + 1
  {
    StartSplits(s, i, d);
    StartSplits(s, i + 1, d);
    var q, r := s / d, s % d;
    assert r * (i + 1) == r * i + r && q * (i + 1) == q * i + q;
    SmallStep(r * i, r, d);
  }

  /** The ranks' ranges run from 0 to the number of samples without gap or overlap. */
  lemma Ends(s: nat, d: nat)
    requires d > 0
    ensures Start(s, 0, d) == 0 && Start(s, d, d) == s
  {
    DivModUnique(s * 0, d, 0, 0);
    DivModUnique(s * d, d, s, 0);
  }

  lemma {:induction false} Increasing(s: nat, i: nat, j: nat, d: nat)
    requires d > 0 && i <= j
    ensures Start(s, i, d) <= Start(s, j, d)
    decreases j - i
  {
    if i < j {
      BalancedSizes(s, j - 1, d);
      Quotient(s, d);
      Increasing(s, i, j - 1, d);
    }
  }

  lemma Quotient(s: nat, d: nat)
    requires d > 0
    ensures s / d >= 0 && (s / d >= 1 <==> s >= d)
  {
    var q := s / d;
    assert s == d * q + s % d;
    assert q == 0 ==> d * q == 0;
    if q >= 1 {
      MulAtLeast(d, q);
    }
  }

  ghost predicate Holds(s: nat, i: nat, d: nat, k: nat)
    requires d > 0
  {
    Start(s, i, d) <= k < Start(s, i + 1, d)
  }

  /** Among the first `n` ranks, some rank holds every sample below their end. */
  lemma {:induction false} SomeRank(s: nat, n: nat, d: nat, k: nat) returns (i: nat)
    requires d > 0 && k < Start(s, n, d)
    ensures i < n && Holds(s, i, d, k)
    decreases n
  {
    Ends(s, d);
    if k < Start(s, n - 1, d) {
      i := SomeRank(s, n - 1, d, k);
    } else {
      i := n - 1;
    }
  }

  lemma OnlyRank(s: nat, i: nat, j: nat, d: nat, k: nat)
    requires d > 0 && Holds(s, i, d, k) && Holds(s, j, d, k)
    ensures i == j
  {
    if j < i {
      Increasing(s, j + 1, i, d);
    } else if i < j {
      Increasing(s, i + 1, j, d);
    }
  }

  /** Every sample belongs to exactly one rank. */
  lemma Tiles(s: nat, d: nat, k: nat) returns (i: nat)
    requires d > 0 && k < s
    ensures i < d && Holds(s, i, d, k) && forall j: nat | Holds(s, j, d, k) :: j == i
  {
    Ends(s, d);
    i := SomeRank(s, d, d, k);
    forall j: nat | Holds(s, j, d, k)
      ensures j == i
    {
      OnlyRank(s, i, j, d, k);
    }
  }

  lemma NonEmpty(s: nat, i: nat, d: nat)
    requires 0 < d <= s
    ensures Start(s, i, d) < Start(s, i + 1, d)
  {
    Quotient(s, d);
    BalancedSizes(s, i, d);
  }

  /** Every rank has a sample exactly when there are at least as many samples as ranks. */
  lemma NonEmptyExactly(s: nat, d: nat)
    requires d > 0
    ensures (forall i: nat | i < d :: Start(s, i, d) < Start(s, i + 1, d)) <==> s >= d
  {
    Quotient(s, d);
    if s >= d {
      forall i: nat | i < d
        ensures Start(s, i, d) < Start(s, i + 1, d)
      {
        NonEmpty(s, i, d);
      }
    } else {
      assert Start(s, 0, d) == 0 by {
        Ends(s, d);
      }
      assert Start(s, 1, d) == 0 by {
        DivModUnique(s * 1, d, 0, s);
      }
      assert !(Start(s, 0, d) < Start(s, 0 + 1, d));
    }
  }
}
