/** Powers of two, and scaling by them one doubling at a time. */
module Powers {
  function Pow2(n: nat): (p: nat)
    ensures p >= 1
  {
    if n == 0 then 1 else 2 * Pow2(n - 1)
  }

  /** `x` times two to the `n`. */
  function Scale(x: int, n: nat): int {
    if n == 0 then x else 2 * Scale(x, n - 1)
  }

  lemma ScaleIsProduct(x: int, n: nat)
    ensures Scale(x, n) == x * Pow2(n)
  {
  }

  lemma ScaleAdds(x: int, y: int, n: nat)
    ensures Scale(x + y, n) == Scale(x, n) + Scale(y, n)
  {
    if n > 0 {
      ScaleAdds(x, y, n - 1);
    }
  }

  lemma ScaleTwice(x: int, m: nat, n: nat)
    ensures Scale(Scale(x, m), n) == Scale(x, m + n)
  {
  }

  lemma ScaleGrows(x: int, m: nat, n: nat)
    requires x >= 0 && m <= n
    ensures x <= Scale(x, m) <= Scale(x, n)
    decreases n
  {
  }

  lemma ScaleOrder(x: int, y: int, n: nat)
    ensures x <= y <==> Scale(x, n) <= Scale(y, n)
  {
  }

  lemma Pow2Adds(m: nat, n: nat)
    ensures Pow2(m + n) == Pow2(m) * Pow2(n)
  {
    if m > 0 {
      Pow2Adds(m - 1, n);
    }
  }

  lemma Pow2Grows(m: nat, n: nat)
    requires m <= n
    ensures Pow2(m) <= Pow2(n)
    decreases n
  {
  }
}
