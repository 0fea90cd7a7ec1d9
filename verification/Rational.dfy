/** Exact rational arithmetic on unbounded integers, with the truncating division of the source. */
module Rational {

  datatype Rat = Rat(num: int, den: int)

  /** Division that truncates toward zero. */
  function TruncDiv(a: int, b: int): (q: int)
    requires b != 0
    ensures a >= 0 && b > 0 ==> q == a / b
  {
    var q := Abs(a) / Abs(b);
    if (a < 0) == (b < 0) then q else -q
  }

  function Abs(a: int): (r: nat) {
    if a < 0 then -a else a
  }

  function MulDivFloor(value: int, num: int, den: int): int
    requires den != 0
  {
    TruncDiv(value * num, den)
  }

  function MulDivCeil(value: int, num: int, den: int): int
    requires den != 0
  {
    var p := value * num;
    if p % den == 0 then TruncDiv(p, den) else TruncDiv(p, den) + 1
  }

  // ----- What floor and ceiling mean -----

  /** On non-negative amounts the two are the largest q with q * den <= p and the smallest with p <= q * den. */
  lemma FloorMeans(p: int, den: int, q: int)
    requires p >= 0 && den > 0
    ensures q <= p / den <==> q * den <= p
  {
    var f := p / den;
    assert f * den <= p < f * den + den;
    if q <= f {
      MulMono(q, f, den);
    } else {
      MulMono(f + 1, q, den);
      assert (f + 1) * den == f * den + den;
    }
  }

  lemma MulMono(a: int, b: int, c: int)
    requires a <= b && c >= 0
    ensures a * c <= b * c
  {
  }

  function CeilDiv(p: int, den: int): (q: int)
    requires p >= 0 && den > 0
    ensures q == if p % den == 0 then p / den else p / den + 1
  {
    if p % den == 0 then p / den else p / den + 1
  }

  lemma CeilMeans(p: int, den: int, q: int)
    requires p >= 0 && den > 0
    ensures CeilDiv(p, den) <= q <==> p <= q * den
  {
    var f := p / den;
    assert f * den + p % den == p && 0 <= p % den < den;
    var c := CeilDiv(p, den);
    assert p <= c * den by { assert (f + 1) * den == f * den + den; }
    if c <= q {
      MulMono(c, q, den);
    } else if p % den == 0 {
      MulMono(q, f - 1, den);
      assert (f - 1) * den == f * den - den;
    } else {
      MulMono(q, f, den);
    }
  }

  lemma TruncMeans(a: int, b: int)
    requires b > 0
    ensures TruncDiv(-a, b) == -TruncDiv(a, b)
    ensures Abs(TruncDiv(a, b)) == Abs(a) / b
  {
    assert Abs(-a) == Abs(a);
    if a == 0 { assert 0 / b == 0; }
  }

  // ----- Greatest common divisor -----

  function Gcd(a: nat, b: nat): nat
    decreases b
  {
    if b == 0 then a else Gcd(b, a % b)
  }

  ghost predicate Divides(d: int, n: int) {
    exists k: int :: n == k * d
  }

  lemma Combine(q: int, b: int, r: int, k: int, l: int, d: int)
    requires b == k * d && r == l * d
    ensures q * b + r == (q * k + l) * d
    ensures r - q * b == (l - q * k) * d
  {
    assert q * (k * d) == (q * k) * d;
  }

  lemma {:induction false} GcdDivides(a: nat, b: nat)
    ensures Divides(Gcd(a, b), a) && Divides(Gcd(a, b), b)
    ensures a > 0 || b > 0 ==> Gcd(a, b) > 0
    decreases b
  {
    if b == 0 {
      assert a == 1 * a && 0 == 0 * a;
    } else {
      GcdDivides(b, a % b);
      DividesCombination(a / b, b, a % b, Gcd(b, a % b));
    }
  }

  lemma DividesCombination(q: int, b: int, r: int, d: int)
    requires Divides(d, b) && Divides(d, r)
    ensures Divides(d, q * b + r)
  {
    var k :| b == k * d;
    var l :| r == l * d;
    Combine(q, b, r, k, l, d);
  }

  lemma {:induction false} GcdIsGreatest(a: nat, b: nat, d: nat)
    requires d > 0 && Divides(d, a) && Divides(d, b)
    ensures Divides(d, Gcd(a, b))
    decreases b
  {
    if b != 0 {
      var k :| a == k * d;
      var l :| b == l * d;
      Combine(a / b, b, a, l, k, d);
      var m := k - (a / b) * l;
      assert a % b == m * d;
      GcdIsGreatest(b, a % b, d);
    }
  }

  method GcdLoop(a: nat, b: nat) returns (g: nat)
    ensures g == Gcd(a, b)
  {
    var x, y := a, b;
    while y != 0
      invariant x >= 0 && y >= 0 && Gcd(x, y) == Gcd(a, b)
      decreases y
    {
      x, y := y, x % y;
    }
    g := x;
  }

  /** Rates are non-negative over a positive denominator. */
  predicate IsRate(r: Rat) {
    r.num >= 0 && r.den > 0
  }

  function Normalized(r: Rat): Rat
    requires IsRate(r)
  {
    if r.num == 0 then Rat(0, 1) else
    GcdDivides(r.num, r.den);
    Rat(r.num / Gcd(r.num, r.den), r.den / Gcd(r.num, r.den))
  }

  method Normalize(r: Rat) returns (n: Rat)
    requires IsRate(r)
    ensures n == Normalized(r)
  {
    if r.num == 0 {
      return Rat(0, 1);
    }
    GcdDivides(r.num, r.den);
    var g := GcdLoop(r.num, r.den);
    n := Rat(r.num / g, r.den / g);
  }

  lemma DivideOut(n: nat, d: nat)
    requires d > 0 && Divides(d, n)
    ensures (n / d) * d == n
  {
    var k :| n == k * d;
    assert (n / d) * d <= n < (n / d) * d + d && (n / d + 1) * d == (n / d) * d + d && (k + 1) * d == k * d + d;
    if n / d < k {
      MulMono(n / d + 1, k, d);
    } else if n / d > k {
      MulMono(k + 1, n / d, d);
    }
  }

  /** Normalising keeps the value, leaves a rate, and leaves nothing to cancel. */
  lemma NormalizedSpec(r: Rat) returns (g: nat)
    requires IsRate(r)
    ensures var n := Normalized(r);
            && IsRate(n) && (n.num == 0 <==> r.num == 0)
            && g > 0 && r.num == n.num * g && r.den == n.den * g
            && n.num * r.den == r.num * n.den
            && forall d: nat :: d > 0 && Divides(d, n.num) && Divides(d, n.den) ==> d == 1
  {
    var n := Normalized(r);
    if r.num == 0 {
      g := r.den;
      assert r.num == n.num * r.den && r.den == n.den * r.den;
      forall d: nat | d > 0 && Divides(d, n.num) && Divides(d, n.den) ensures d == 1 { OnlyOneDividesOne(d); }
    } else {
      GcdDivides(r.num, r.den);
      g := Gcd(r.num, r.den);
      DivideOut(r.num, g);
      DivideOut(r.den, g);
      assert n.num > 0 && n.den > 0;
      assert n.num * (n.den * g) == (n.num * g) * n.den;
      forall d: nat | d > 0 && Divides(d, n.num) && Divides(d, n.den) ensures d == 1 {
        LowestTerms(r.num, r.den, n.num, n.den, g, d);
      }
    }
  }

  lemma OnlyOneDividesOne(d: nat)
    requires d > 0 && Divides(d, 1)
    ensures d == 1
  {
    var k :| 1 == k * d;
    if d > 1 {
      if k >= 1 { MulMono(1, k, d); } else { MulMono(k, 0, d); }
    }
  }

  lemma LowestTerms(a: nat, b: nat, x: nat, y: nat, g: nat, d: nat)
    requires a > 0 && b > 0 && g == Gcd(a, b) && g > 0 && a == x * g && b == y * g
    requires d > 0 && Divides(d, x) && Divides(d, y)
    ensures d == 1
  {
    assert d * g > 0;
    DividesTimes(d, x, g);
    DividesTimes(d, y, g);
    GcdIsGreatest(a, b, d * g);
    var j :| g == j * (d * g);
    NoBiggerDivisor(g, d * g, j);
    if d > 1 { MulMono(2, d, g); }
  }

  lemma DividesTimes(d: int, x: int, g: int)
    requires Divides(d, x)
    ensures Divides(d * g, x * g)
  {
    var k :| x == k * d;
    assert (k * d) * g == k * (d * g);
  }

  lemma NoBiggerDivisor(g: int, e: int, j: int)
    requires g > 0 && e > 0 && g == j * e
    ensures e <= g
  {
    if j <= 0 { MulMono(j, 0, e); } else { MulMono(1, j, e); }
  }
}
