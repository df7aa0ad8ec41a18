/** Division facts the solver needs spelled out. */
module Arithmetic {
  lemma DivModUnique(x: int, t: int, q: int, r: int)
    requires t > 0 && x == q * t + r && 0 <= r < t
    ensures x / t == q && x % t == r
  {
    var d := q - x / t;
    assert d * t == x % t - r by {
      assert x == (x / t) * t + x % t;
      assert d * t == q * t - (x / t) * t;
    }
    if d >= 1 {
      ScaleAtLeast(d, t);
    } else if d <= -1 {
      ScaleAtLeast(-d, t);
    }
  }

  lemma ScaleAtLeast(d: int, t: int)
    requires d >= 1 && t >= 0
    ensures d * t >= t
    ensures -d * t <= -t
  {
    assert d * t == (d - 1) * t + t;
    assert (d - 1) * t >= 0;
    assert -d * t == -(d * t);
  }

  lemma ModBelow(x: int, t: int)
    requires 0 <= x < t
    ensures x % t == x
  {
    DivModUnique(x, t, 0, x);
  }

  lemma ModOnce(x: int, t: int)
    requires 0 < t <= x < 2 * t
    ensures x % t == x - t
  {
    DivModUnique(x, t, 1, x - t);
  }

  function AlignDown(x: int, p: int): int
    requires p > 0
  {
    x - x % p
  }

  lemma AlignDownIsMultiple(x: int, p: int) returns (k: int)
    requires p > 0
    ensures AlignDown(x, p) == k * p && k * p <= x < k * p + p
  {
    k := x / p;
    assert x == k * p + x % p;
  }

  lemma AlignedInside(x: int, p: int, q: int)
    requires p > 0 && q > 0 && 0 <= x < p * q
    ensures 0 <= AlignDown(x, p) && AlignDown(x, p) + p <= p * q
  {
    var k := AlignDownIsMultiple(x, p);
    if k < 0 {
      ScaleAtLeast(-k, p);
    } else if k >= q {
      OrderedProducts(q, k, p);
    } else {
      OrderedProducts(0, k, p);
      OrderedProducts(k + 1, q, p);
      assert (k + 1) * p == k * p + p;
    }
  }

  lemma OrderedProducts(a: int, b: int, p: int)
    requires a <= b && p >= 0
    ensures a * p <= b * p
  {
    assert b * p == a * p + (b - a) * p;
    assert (b - a) * p >= 0;
  }

  lemma SameAlignment(x: int, y: int, p: int)
    requires p > 0
    ensures AlignDown(y, p) == AlignDown(x, p) <==> AlignDown(x, p) <= y < AlignDown(x, p) + p
  {
    var k := AlignDownIsMultiple(x, p);
    var j := AlignDownIsMultiple(y, p);
    if k * p <= y < k * p + p {
      DivModUnique(y, p, k, y - k * p);
    }
  }
}
