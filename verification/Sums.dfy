/** Sums over the positions of a list, for measures of the work that is left. */
module Sums {
  function Sum(n: nat, weight: nat -> nat): nat {
    if n == 0 then 0 else Sum(n - 1, weight) + weight(n - 1)
  }

  lemma {:induction false} SumSame(n: nat, f: nat -> nat, g: nat -> nat)
    requires forall i :: 0 <= i < n ==> f(i) == g(i)
    ensures Sum(n, f) == Sum(n, g)
  {
    if n > 0 { SumSame(n - 1, f, g); }
  }

  /** Changing one weight changes the sum by as much. */
  lemma {:induction false} SumChange(n: nat, f: nat -> nat, g: nat -> nat, k: nat)
    requires k < n && forall i :: 0 <= i < n && i != k ==> f(i) == g(i)
    ensures Sum(n, g) == Sum(n, f) - f(k) + g(k)
  {
    if k == n - 1 { SumSame(n - 1, f, g); } else { SumChange(n - 1, f, g, k); }
  }
}
