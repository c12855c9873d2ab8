/** Integer facts behind the flat indices and the action decoding. */
module IndexArith {

  lemma {:induction false} MulAtLeast(a: int, m: int)
    requires a >= 1 && m > 0
    ensures a * m >= m
    decreases a
  {
    if a > 1 {
      MulAtLeast(a - 1, m);
      assert a * m == (a - 1) * m + m;
    }
  }

  /** Row r of an n-column grid starts at r * n and ends within n * n. */
  lemma {:induction false} RowStart(r: int, n: int)
    requires 0 <= r < n
    ensures 0 <= r * n && r * n + n <= n * n
    decreases n - r
  {
    if r > 0 {
      MulAtLeast(r, n);
    }
    if r == n - 1 {
      assert r * n + n == n * n;
    } else {
      RowStart(r + 1, n);
      assert (r + 1) * n == r * n + n;
    }
  }

  /** Stepping x to the other member of its pair {2k, 2k + 1} keeps its
      quotient by an even m and the half of its remainder. */
  lemma LayerPair(x: int, m: int, step: int)
    requires 0 < m && m % 2 == 0 && 0 <= x < 2 * m
    requires (x % 2 == 0 && step == 1) || (x % 2 == 1 && step == -1)
    ensures 0 <= x + step < 2 * m
    ensures x / m == (x + step) / m && 0 <= x / m <= 1
    ensures (x % m) / 2 == ((x + step) % m) / 2 && (x % m) / 2 < m / 2
  {
    var rest := if x < m then x else x - m;
    assert rest % 2 == x % 2;
    assert 0 <= rest + step < m;
    assert rest / 2 == (rest + step) / 2;
    if x < m {
      DivModUnique(x, m, 0, rest);
      DivModUnique(x + step, m, 0, rest + step);
    } else {
      DivModUnique(x, m, 1, rest);
      DivModUnique(x + step, m, 1, rest + step);
    }
  }

  /** Quotient and remainder are the unique q, r with x == q * m + r and 0 <= r < m. */
  lemma DivModUnique(x: int, m: int, q: int, r: int)
    requires m > 0 && 0 <= r < m && x == q * m + r
    ensures x / m == q && x % m == r
  {
    var q', r' := x / m, x % m;
    assert x == q' * m + r';
    assert 0 <= r' < m;
    assert (q - q') * m == r' - r;
    if q > q' {
      MulAtLeast(q - q', m);
    } else if q < q' {
      MulAtLeast(q' - q, m);
    }
  }
}
