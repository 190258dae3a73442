// Sums, and the few facts about products, quotients and remainders that the solver
// does not find alone.
module Arithmetic {

  lemma MulAtLeast(k: int, n: nat)
    requires k >= 1
    ensures k * n >= n
  {
    assert k * n == (k - 1) * n + n;
  }

  lemma MulMonotone(a: nat, b: nat, c: nat)
    requires b <= c
    ensures a * b <= a * c
  {
    assert a * c == a * b + a * (c - b);
  }

  lemma NextTurn(q: int, n: int)
    ensures (q + 1) * n == q * n + n
  {
  }

  lemma DivMod(x: nat, n: nat) returns (q: nat, r: nat)
    requires n > 0
    ensures q == x / n && r == x % n && r < n && x == q * n + r
  {
    q, r := x / n, x % n;
  }

  // Quotient and remainder are the only ones of their kind.
  lemma DivModUnique(x: nat, q: nat, n: nat, r: nat)
    requires r < n && x == q * n + r
    ensures x % n == r && x / n == q
  {
    var d := q - x / n;
    assert d * n == q * n - x / n * n == x % n - r;
    if d > 0 {
      MulAtLeast(d, n);
    } else if d < 0 {
      MulAtLeast(-d, n);
    }
  }

  // Going at most one turn forward.
  lemma ModForward(x: nat, d: nat, n: nat)
    requires d <= n && n > 0
    ensures (x + d) % n == if x % n + d < n then x % n + d else x % n + d - n
  {
    var q, r := DivMod(x, n);
    if r + d < n {
      DivModUnique(x + d, q, n, r + d);
    } else {
      NextTurn(q, n);
      DivModUnique(x + d, q + 1, n, r + d - n);
    }
  }

  // Reducing first modulo a multiple makes no difference.
  lemma ModOfMultiple(x: nat, m: nat, n: nat)
    requires m > 0 && n > 0 && m % n == 0
    ensures x % m % n == x % n
  {
    var q, r := DivMod(x, m);
    var w, _ := DivMod(m, n);
    var t, y := DivMod(r, n);
    assert q * (w * n) + t * n == (q * w + t) * n;
    DivModUnique(x, q * w + t, n, y);
  }

  function Sum(s: seq<nat>): nat {
    if s == [] then 0 else Sum(s[..|s| - 1]) + s[|s| - 1]
  }
}
