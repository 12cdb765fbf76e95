/** The size of a machine word, and division where the verifier needs help with it. */
module Arithmetic {

  const WORD: nat := 0x1_0000_0000_0000_0000

  lemma MulAtLeast(a: int, n: nat)
    requires a >= 1
    ensures a * n >= n
  {
  }

  /** Division has one answer. */
  lemma DivUnique(a: int, b: int, r: int, d: int, n: nat)
    requires n > 0 && a * n + r == b * n + d && 0 <= r < n && 0 <= d < n
    ensures a == b && r == d
  {
    if a > b {
      assert (a - b) * n == a * n - b * n;
      MulAtLeast(a - b, n);
    } else if b > a {
      assert (b - a) * n == b * n - a * n;
      MulAtLeast(b - a, n);
    }
  }

  lemma DivMod(x: nat, n: nat)
    requires n > 0
    ensures x == (x / n) * n + x % n
  {
  }

  lemma ModBelow(x: nat, n: nat)
    requires n > 0
    ensures x % n <= x && x % n < n
  {
    if x < n {
      ModUnique(x, 0, x, n);
    }
  }

  lemma ModUnique(x: nat, q: nat, d: nat, n: nat)
    requires n > 0 && x == q * n + d && d < n
    ensures x % n == d && x / n == q
  {
    DivMod(x, n);
    DivUnique(x / n, q, x % n, d, n);
  }
}
