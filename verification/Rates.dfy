/** Fee rates as exact fractions, and Python's `math.ceil` and `math.floor` of them. */
module Rates {

  datatype Fraction = Fraction(num: int, den: int)

  /** Base units per virtual byte. */
  type Rate = r: Fraction | r.den > 0 witness Fraction(0, 1)

  /** `math.floor(a / b)`: Dafny's division rounds down when the divisor is positive. */
  function FloorDiv(a: int, b: int): int
    requires b > 0
  {
    a / b
  }

  function CeilDiv(a: int, b: int): int
    requires b > 0
  {
    -FloorDiv(-a, b)
  }

  /** `math.ceil(size * rate)`. */
  function CeilAt(size: int, rate: Rate): int {
    CeilDiv(size * rate.num, rate.den)
  }

  lemma FloorMeans(a: int, b: int)
    requires b > 0
    ensures FloorDiv(a, b) * b <= a < FloorDiv(a, b) * b + b
  {
    assert a == a / b * b + a % b;
  }

  /** The floor is the greatest integer whose multiple of `b` stays below `a`. */
  lemma FloorGalois(a: int, b: int, k: int)
    requires b > 0
    ensures k * b <= a <==> k <= FloorDiv(a, b)
  {
    FloorMeans(a, b);
    var f := FloorDiv(a, b);
    if k <= f {
      Scale(k, f, b);
    } else {
      Scale(f + 1, k, b);
      assert (f + 1) * b == f * b + b;
    }
  }

  /** The ceiling is the least integer whose multiple of `b` reaches `a`. */
  lemma CeilGalois(a: int, b: int, k: int)
    requires b > 0
    ensures a <= k * b <==> CeilDiv(a, b) <= k
  {
    FloorGalois(-a, b, -k);
    assert (-k) * b == -(k * b);
  }

  lemma Scale(x: int, y: int, b: int)
    requires x <= y && b >= 0
    ensures x * b <= y * b
  {
    assert (y - x) * b >= 0;
    assert y * b == x * b + (y - x) * b;
  }

  /** A fee covers a size at a rate exactly when it reaches the ceiling. */
  lemma CeilAtGalois(size: int, rate: Rate, fee: int)
    ensures size * rate.num <= fee * rate.den <==> CeilAt(size, rate) <= fee
  {
    CeilGalois(size * rate.num, rate.den, fee);
  }

  lemma CeilAtMono(m: int, n: int, rate: Rate)
    requires m <= n && rate.num >= 0
    ensures CeilAt(m, rate) <= CeilAt(n, rate)
  {
    Scale(m, n, rate.num);
    var c := CeilAt(n, rate);
    CeilAtGalois(n, rate, c);
    CeilAtGalois(m, rate, c);
  }

  /** `r` is at most `s`. */
  predicate AtMost(r: Rate, s: Rate) { r.num * s.den <= s.num * r.den }

  lemma CeilAtRateMono(size: nat, r: Rate, s: Rate)
    requires AtMost(r, s)
    ensures CeilAt(size, r) <= CeilAt(size, s)
  {
    var c := CeilAt(size, s);
    CeilAtGalois(size, s, c);
    Scale(size * s.num, c * s.den, r.den);
    Scale(r.num * s.den, s.num * r.den, size);
    CrossCancel(size, c, r, s);
    CeilAtGalois(size, r, c);
  }

  lemma CrossCancel(size: int, c: int, r: Rate, s: Rate)
    requires (r.num * s.den) * size <= (s.num * r.den) * size && (size * s.num) * r.den <= (c * s.den) * r.den
    ensures size * r.num <= c * r.den
  {
    var x, y := size * r.num, c * r.den;
    assert (r.num * s.den) * size == x * s.den;
    assert (s.num * r.den) * size == (size * s.num) * r.den;
    assert (c * s.den) * r.den == y * s.den;
    if x > y { Scale(y + 1, x, s.den); }
  }
}
