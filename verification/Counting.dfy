/**
  Multiplication and division by counting, tied to the operators. Definitions that unfold into products
  of two variables are costly to reason about; these are not.
 */
module Counting {
  lemma MulGap(a: nat, b: nat, n: nat)
    requires a < b
    ensures a * n + n <= b * n
  {
    assert b * n == a * n + (b - a) * n;
    assert (b - a) * n == n + (b - a - 1) * n;
  }

  lemma DivUnique(x: nat, n: nat, q: nat, r: nat)
    requires n > 0 && x == q * n + r && r < n
    ensures x / n == q && x % n == r
  {
    if q < x / n {
      MulGap(q, x / n, n);
    } else if x / n < q {
      MulGap(x / n, q, n);
    }
  }

  /** k * n, by counting. */
  function Span(k: nat, n: nat): nat { if k == 0 then 0 else Span(k - 1, n) + n }

  lemma {:induction false} SpanIsProduct(k: nat, n: nat)
    ensures Span(k, n) == k * n
  {
    if k > 0 {
      SpanIsProduct(k - 1, n);
      assert k * n == (k - 1) * n + n;
    }
  }

  lemma {:induction false} SpanGrows(k: nat, l: nat, n: nat)
    requires k < l
    ensures Span(k, n) + n <= Span(l, n)
  {
    if k + 1 < l {
      SpanGrows(k, l - 1, n);
    }
  }

  /** Number of groups of n needed for a things. */
  function CeilDiv(a: nat, n: nat): nat
    requires n > 0
  {
    if a == 0 then 0 else if a <= n then 1 else 1 + CeilDiv(a - n, n)
  }

  /** Quotient and remainder, by counting. */
  function Quot(t: nat, n: nat): nat
    requires n > 0
  {
    if t < n then 0 else 1 + Quot(t - n, n)
  }

  function Rem(t: nat, n: nat): nat
    requires n > 0
  {
    if t < n then t else Rem(t - n, n)
  }

  lemma {:induction false} QuotRem(t: nat, n: nat)
    requires n > 0
    ensures t == Span(Quot(t, n), n) + Rem(t, n) && Rem(t, n) < n
    ensures Quot(t, n) == t / n && Rem(t, n) == t % n
    decreases t
  {
    if t >= n {
      QuotRem(t - n, n);
    }
    SpanIsProduct(Quot(t, n), n);
    DivUnique(t, n, Quot(t, n), Rem(t, n));
  }

  lemma {:induction false} QuotRemSpan(k: nat, j: nat, n: nat)
    requires j < n
    ensures Quot(Span(k, n) + j, n) == k && Rem(Span(k, n) + j, n) == j
  {
    if k > 0 {
      QuotRemSpan(k - 1, j, n);
    }
  }

  lemma {:induction false} SpanAssociative(k: nat, q: nat, n: nat)
    ensures Span(k, Span(q, n)) == Span(Span(k, q), n)
  {
    if k > 0 {
      SpanAssociative(k - 1, q, n);
      SpanAdds(Span(k - 1, q), q, n);
    }
  }

  lemma {:induction false} SpanAdds(a: nat, b: nat, n: nat)
    ensures Span(a + b, n) == Span(a, n) + Span(b, n)
  {
    if b > 0 {
      SpanAdds(a, b - 1, n);
    }
  }

  lemma {:induction false} CeilDivIsDivision(a: nat, n: nat)
    requires n > 0
    ensures CeilDiv(a, n) == (a + n - 1) / n
    decreases a
  {
    if a > n {
      CeilDivIsDivision(a - n, n);
      var y, r := (a - n + n - 1) / n, (a - n + n - 1) % n;
      assert (y + 1) * n == y * n + n;
      DivUnique(a + n - 1, n, y + 1, r);
    } else if a > 0 {
      DivUnique(a + n - 1, n, 1, a - 1);
    } else {
      DivUnique(n - 1, n, 0, n - 1);
    }
  }

  lemma {:induction false} CeilDivShift(q: nat, n: nat, a: nat)
    requires n > 0
    ensures CeilDiv(Span(q, n) + a, n) == q + CeilDiv(a, n)
  {
    if q > 0 {
      CeilDivShift(q - 1, n, a);
    }
  }
}
