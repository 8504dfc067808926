/** Products and quotients of two unknowns, one small step at a time. */
module Arith {

  lemma DivMod(a: int, b: int)
    requires b > 0
    ensures a == b * (a / b) + a % b && 0 <= a % b < b
  {}

  lemma Monotone(l: int, a: int, b: int)
    requires 0 <= l && a <= b
    ensures l * a <= l * b
  {}

  lemma Cancel(d: int, x: int, q: int, r: int)
    requires 0 <= r < d && d * q <= d * x + r
    ensures q <= x
  {
    if x + 1 <= q {
      Monotone(d, x + 1, q);
      assert false;
    }
  }

  lemma QuotientAtLeast(num: nat, den: nat, q: nat)
    requires 0 < den && den * q <= num
    ensures q <= num / den
  {
    DivMod(num, den);
    Cancel(den, num / den, q, num % den);
  }

  lemma QuotientFits(a: nat, b: nat)
    requires b > 0
    ensures 0 <= a / b <= a
  {
    var q := a / b;
    DivMod(a, b);
    Monotone(q, 1, b);
  }

  lemma RealProduct(a: int, b: int)
    ensures (a * b) as real == a as real * b as real
  {}

  lemma Positive(a: real, b: real)
    requires 0.0 <= a && 0.0 < b
    ensures 0.0 <= a * b && (0.0 < a ==> 0.0 < a * b)
  {}

  lemma Distribute(a: real, b: real, c: real)
    ensures (a - b) * c == a * c - b * c
  {}

  lemma AddOne(a: real, next: real, c: real)
    requires next == a + 1.0
    ensures next * c == a * c + c
  {}

  lemma TimesMonotone(x: real, y: real, c: real)
    requires x <= y && 0.0 < c
    ensures x * c <= y * c && (x < y ==> x * c < y * c)
  {
    var d := y - x;
    Positive(d, c);
    Distribute(y, x, c);
  }

  lemma BelowNext(t: real, c: real, q: real, r: real, next: real)
    requires 0.0 < c && q * c == t && q < next && next == r + 1.0
    ensures t < r * c + c
  {
    TimesMonotone(q, next, c);
    AddOne(r, next, c);
  }

  lemma AboveFloor(t: real, c: real, q: real, r: real)
    requires 0.0 < c && q * c == t && r <= q
    ensures r * c <= t
  {
    TimesMonotone(r, q, c);
  }

  lemma FloorBounds(t: real, c: real, q: real, r: real)
    requires 0.0 < c && q * c == t && r <= q < r + 1.0
    ensures r * c <= t < r * c + c
  {
    var next := r + 1.0;
    AboveFloor(t, c, q, r);
    BelowNext(t, c, q, r, next);
  }

  /** Every moment falls into one of the consecutive intervals of length `c`. */
  lemma LocateInterval(t: real, c: real) returns (k: nat)
    requires 0.0 <= t && 0.0 < c
    ensures k as real * c <= t < k as real * c + c
  {
    k := (t / c).Floor;
    FloorBounds(t, c, t / c, k as real);
  }
}
