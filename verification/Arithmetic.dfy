/** Products by repeated addition, which step-by-step proofs unfold one step at a time. */
module Arithmetic {

  /** n * k. */
  function Multiple(k: int, n: nat): int {
    if n == 0 then 0 else Multiple(k, n - 1) + k
  }

  lemma {:induction false} MultipleClosed(k: int, n: nat)
    ensures Multiple(k, n) == n * k
  {
    if n > 0 { MultipleClosed(k, n - 1); }
  }

  lemma {:induction false} MultipleNonNegative(k: int, n: nat)
    requires k >= 0
    ensures Multiple(k, n) >= 0
  {
    if n > 0 { MultipleNonNegative(k, n - 1); }
  }

  lemma {:induction false} MultipleAtLeast(k: int, n: nat)
    requires k >= 1
    ensures Multiple(k, n) >= n
  {
    if n > 0 { MultipleAtLeast(k, n - 1); }
  }

  /** A bounded product bounds the quotient. */
  lemma QuotientBound(n: nat, k: int, bound: int)
    requires k >= 1 && n * k <= bound
    ensures n <= bound / k
  {
    var q := bound / k;
    assert bound < q * k + k;
    assert n >= q + 1 ==> n * k >= (q + 1) * k;
  }
}
