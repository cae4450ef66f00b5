/** Facts about division and remainders. */
module Division {

  lemma MulMono(a: nat, b: nat, m: nat)
    ensures a <= b ==> a * m <= b * m
  {
  }

  lemma ModUnique(x: nat, q: nat, r: nat, m: nat)
    requires m >= 1 && x == q * m + r && r < m
    ensures x % m == r
  {
    var q', r' := x / m, x % m;
    assert x == q' * m + r';
    MulMono(q + 1, q', m);
    MulMono(q' + 1, q, m);
  }

  lemma DivUnique(x: nat, q: nat, r: nat, m: nat)
    requires m >= 1 && x == q * m + r && r < m
    ensures x / m == q
  {
    var q', r' := x / m, x % m;
    assert x == q' * m + r';
    MulMono(q + 1, q', m);
    MulMono(q' + 1, q, m);
  }

  lemma Distribute(q: nat, b: nat, s: nat, a: nat)
    ensures (q * b + s) * a == q * (a * b) + s * a
  {
    assert (q * b) * a == q * (a * b);
  }

  lemma BelowProduct(s: nat, b: nat, r: nat, a: nat)
    requires s < b && r < a
    ensures s * a + r < a * b
  {
    MulMono(s + 1, b, a);
    assert (s + 1) * a == s * a + a && b * a == a * b;
  }

  /** Dividing twice is dividing by the product. */
  lemma DivDiv(x: nat, a: nat, b: nat)
    requires a >= 1 && b >= 1
    ensures a * b >= 1 && x / a / b == x / (a * b)
  {
    Quotients(x, x / a, x % a, x / a / b, x / a % b, a, b);
  }

  lemma Quotients(x: nat, y: nat, r: nat, q: nat, s: nat, a: nat, b: nat)
    requires x == y * a + r && r < a && y == q * b + s && s < b
    ensures a * b >= 1 && x / (a * b) == q
  {
    Distribute(q, b, s, a);
    BelowProduct(s, b, r, a);
    BelowProduct(0, b, 0, a);
    DivUnique(x, q, s * a + r, a * b);
  }

  lemma MulMod(q: nat, m: nat)
    requires m >= 1
    ensures (q * m) % m == 0
  {
    if q > 0 {
      MulMod(q - 1, m);
      assert q * m == (q - 1) * m + m;
      assert ((q - 1) * m + m) % m == ((q - 1) * m) % m by { AddMod((q - 1) * m, m); }
    }
  }

  lemma AddMod(x: nat, m: nat)
    requires m >= 1
    ensures (x + m) % m == x % m
  {
    var q, r := x / m, x % m;
    assert x + m == (q + 1) * m + r;
    ModUnique(x + m, q + 1, r, m);
  }

  lemma SumMod(x: nat, y: nat, m: nat)
    requires m >= 1 && x % m == 0 && y % m == 0
    ensures (x + y) % m == 0
  {
    assert x == (x / m) * m && y == (y / m) * m;
    assert x + y == (x / m + y / m) * m;
    ModUnique(x + y, x / m + y / m, 0, m);
  }

  lemma Regroup(q: nat, m: nat, r: nat, b: nat, q': nat, r': nat)
    requires r * b == q' * m + r'
    ensures (q * m + r) * b == (q * b + q') * m + r'
  {
    assert (q * m) * b == (q * b) * m;
    assert (q * m + r) * b == (q * m) * b + r * b;
    assert (q * b + q') * m == (q * b) * m + q' * m;
  }

  /** A factor may be reduced before multiplying. */
  lemma ModOfProduct(a: nat, b: nat, m: nat)
    requires m >= 1
    ensures ((a % m) * b) % m == (a * b) % m
  {
    var q, r := a / m, a % m;
    var c: nat := r * b;
    Regroup(q, m, r, b, c / m, c % m);
    ModUnique(a * b, q * b + c / m, c % m, m);
  }

  lemma Between(p: nat, q: nat, m: nat)
    requires m >= 1 && p * m <= q * m < p * m + m
    ensures p == q
  {
    MulMono(p + 1, q, m);
    MulMono(q + 1, p, m);
  }
}
