/** The little arithmetic that block numbers and ring positions share: division with remainder,
    powers of two, and the mask that takes the place of a remainder. */
module DivMod {

  lemma MulMono(a: nat, b: nat, m: nat)
    requires a <= b
    ensures a * m <= b * m
  {
  }

  lemma DivisionUnique(a: nat, r: nat, b: nat, s: nat, m: nat)
    requires r < m && s < m && a * m + r == b * m + s
    ensures a == b
  {
    if a < b {
      MulMono(a + 1, b, m);
    } else if b < a {
      MulMono(b + 1, a, m);
    }
  }

  lemma ModOf(q: nat, m: nat, r: nat)
    requires r < m
    ensures (q * m + r) % m == r && (q * m + r) / m == q
  {
    var n := q * m + r;
    DivisionUnique(n / m, n % m, q, r, m);
  }

  /** Positions less than a full turn apart have different slots. */
  lemma DistinctSlots(x: nat, y: nat, cap: nat)
    requires cap > 0 && x < y < x + cap
    ensures x % cap != y % cap
  {
    var q, r, e := x / cap, x % cap, y - x;
    if r + e < cap {
      assert y == q * cap + (r + e);
      ModOf(q, cap, r + e);
    } else {
      assert y == (q + 1) * cap + (r + e - cap);
      ModOf(q + 1, cap, r + e - cap);
    }
  }

  lemma FullTurn(x: nat, cap: nat)
    requires cap > 0
    ensures (x + cap) % cap == x % cap
  {
    var q := x / cap;
    assert x + cap == (q + 1) * cap + x % cap;
    ModOf(q + 1, cap, x % cap);
  }

  function Power2(n: nat): (r: nat)
    ensures r >= 1
  {
    if n == 0 then 1 else 2 * Power2(n - 1)
  }

  /** Bitwise and, on numbers of any width. */
  function BitAnd(x: nat, y: nat): nat {
    if x == 0 || y == 0 then 0 else 2 * BitAnd(x / 2, y / 2) + (x % 2) * (y % 2)
  }

  lemma HalfMod(x: nat, m: nat)
    requires m >= 1
    ensures x % (2 * m) == 2 * (x / 2 % m) + x % 2
  {
    var q, r := x / 2 / m, x / 2 % m;
    assert x == q * (2 * m) + (2 * r + x % 2);
    ModOf(q, 2 * m, 2 * r + x % 2);
  }

  /** Masking with a power of two less one is the remainder by that power. */
  lemma {:induction false} MaskIsMod(x: nat, k: nat)
    ensures BitAnd(x, Power2(k) - 1) == x % Power2(k)
    decreases k
  {
    if k == 0 {
      ModOf(x, 1, 0);
      assert BitAnd(x, 0) == 0;
    } else if x == 0 {
      ModOf(0, Power2(k), 0);
    } else {
      var half := Power2(k - 1);
      var mask := 2 * half - 1;
      ModOf(half - 1, 2, 1);
      assert mask / 2 == half - 1 && mask % 2 == 1;
      MaskIsMod(x / 2, k - 1);
      HalfMod(x, half);
      assert (x % 2) * (mask % 2) == x % 2;
    }
  }
}
