/** Facts of multiplication and division that the solver does not find by itself. */
module Arithmetic {
  lemma MultipleModulo(q: nat, m: nat)
    requires m > 0
    ensures (q * m) % m == 0
  {
    if q > 0 {
      MultipleModulo(q - 1, m);
      assert q * m == (q - 1) * m + m;
      ModuloPlus((q - 1) * m, m);
    }
  }

  lemma AtLeastFactor(a: nat, m: nat)
    requires a >= 1
    ensures a * m >= m
  {
  }

  lemma RemainderUnique(x: nat, q: nat, r: nat, m: nat)
    requires m > 0 && x == q * m + r && r < m
    ensures x % m == r && x / m == q
  {
    var q', r' := x / m, x % m;
    assert x == q' * m + r';
    if q' > q {
      Distribute(q', q, m);
      AtLeastFactor(q' - q, m);
    } else if q' < q {
      Distribute(q, q', m);
      AtLeastFactor(q - q', m);
    }
  }

  lemma Distribute(a: nat, b: nat, m: nat)
    requires a >= b
    ensures (a - b) * m == a * m - b * m
  {
  }

  lemma ModuloPlus(x: nat, m: nat)
    requires m > 0
    ensures (x + m) % m == x % m
  {
    var q, r := x / m, x % m;
    assert x == q * m + r;
    assert (q + 1) * m == q * m + m;
    RemainderUnique(x + m, q + 1, r, m);
  }

  lemma {:induction false} ModuloPlusMultiple(x: nat, q: nat, m: nat)
    requires m > 0
    ensures (x + q * m) % m == x % m
  {
    if q > 0 {
      ModuloPlusMultiple(x, q - 1, m);
      assert x + q * m == (x + (q - 1) * m) + m;
      ModuloPlus(x + (q - 1) * m, m);
    }
  }

  /** Reducing modulo a multiple first changes no remainder. */
  lemma NestedModulo(x: nat, k: nat, m: nat)
    requires m > 0 && k > 0 && k * m > 0
    ensures (x % (k * m)) % m == x % m
  {
    var q, r := x / (k * m), x % (k * m);
    assert x == q * (k * m) + r;
    assert q * (k * m) == (q * k) * m;
    ModuloPlusMultiple(r, q * k, m);
  }

  lemma WholeQuotient(w: nat, m: nat) returns (k: nat)
    requires m > 0 && w > 0 && w % m == 0
    ensures k > 0 && w == k * m
  {
    k := w / m;
    assert w == k * m + w % m;
  }

  lemma Split(x: nat, m: nat)
    requires m > 0
    ensures x == (x / m) * m + x % m && x % m < m
  {
  }

  /** The quotient, scaled back. */
  lemma QuotientBounds(x: nat, m: nat)
    requires m > 0
    ensures (x / m) * m <= x < (x / m) * m + m
  {
    assert x == (x / m) * m + x % m;
  }

  /** Multiples are at least one factor apart. */
  lemma LaterMultiple(a: nat, b: nat, m: nat)
    requires a < b
    ensures a * m + m <= b * m
  {
    Distribute(b, a, m);
    AtLeastFactor(b - a, m);
  }
}
