/** Quotient and remainder are determined by the division equation. */
module Division {

  lemma {:induction false} MultipleGrows(k: nat, m: nat, n: nat)
    requires k < m
    ensures k * n + n <= m * n
    decreases m
  {
    assert m * n == (m - 1) * n + n;
    if k < m - 1 {
      MultipleGrows(k, m - 1, n);
    }
  }

  lemma DivisionIs(x: nat, q: nat, r: nat, n: nat)
    requires r < n && x == q * n + r
    ensures x / n == q && x % n == r
  {
    var q', r' := x / n, x % n;
    assert x == q' * n + r';
    if q' < q {
      MultipleGrows(q', q, n);
    } else if q < q' {
      MultipleGrows(q, q', n);
    }
  }
}
