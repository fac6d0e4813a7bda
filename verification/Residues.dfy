/** Exactly when a paging loop leaves, whether or not its pieces tile the range: the ends it computes run through the
    uint64 values of one residue class, so it leaves if and only if the highest of them reaches the end of the range. */
module Residues {
  import opened Ranges

  function Gcd(a: nat, b: nat): nat
    decreases b
  {
    if b == 0 then a else Gcd(b, a % b)
  }

  /** The greatest common divisor divides both numbers and is a combination of them. */
  lemma {:induction false} Bezout(a: nat, b: nat) returns (x: int, y: int, p: nat, q: nat)
    requires a > 0 || b > 0
    ensures var g := Gcd(a, b); g > 0 && g == x * a + y * b && a == p * g && b == q * g
    decreases b
  {
    if b == 0 {
      x, y, p, q := 1, 0, 1, 0;
    } else {
      var n, r := a / b, a % b;
      var u, v, s, t := Bezout(b, r);
      x, y, p, q := v, u - v * n, n * s + t, s;
      Combine(u, v, n, b, r);
      Collect(n, s, t, Gcd(a, b));
    }
  }

  lemma Combine(u: int, v: int, n: int, b: int, r: int)
    ensures u * b + v * r == v * (n * b + r) + (u - v * n) * b
  {
  }

  lemma Collect(n: int, s: int, t: int, g: int)
    ensures n * (s * g) + t * g == (n * s + t) * g
  {
  }

  /** The largest uint64 congruent to the height before the range, modulo what the step has in common with 2^64. */
  function HighestEnd(whole: Range, size: u64): int {
    var g := Gcd(size, TWO_64);
    if g == 0 then 0 else TWO_64 - g + (whole.lo - 1) % g
  }

  /** The end computed in turn n, before it is clamped. */
  function EndAt(whole: Range, size: u64, n: nat): u64 {
    Wrap(whole.lo + n * size + size - 1)
  }

  lemma {:induction false} LeavesSometime(whole: Range, size: u64, n: nat)
    requires PieceAt(whole, size, n).hi == whole.hi
    ensures Stops(whole, size)
  {
    if k: nat :| k < n && PieceAt(whole, size, k).hi == whole.hi {
      LeavesSometime(whole, size, k);
    } else {
      assert LeavesAt(whole, size, n);
    }
  }

  lemma Before(v: int, m: int, g: nat, e: nat, total: nat)
    requires g > 0 && 0 <= e < total * g && e == v + m * g
    ensures e <= total * g - g + v % g
  {
    var k := v / g;
    assert v == k * g + v % g;
    Spread(k, m, g);
    assert e == (k + m) * g + v % g;
    if k + m >= total {
      MulMonotone(total, k + m, g);
    } else if k + m < 0 {
      NegativeProduct(k + m, g);
    } else {
      MulMonotone(k + m, total - 1, g);
      Spread(total, -1, g);
    }
  }

  lemma NegativeProduct(k: int, g: int)
    requires k < 0 <= g
    ensures k * g <= -g
  {
  }

  lemma Spread(k: int, m: int, g: int)
    ensures k * g + m * g == (k + m) * g
  {
  }

  /** No turn's end is above the highest. */
  lemma NoEndAbove(whole: Range, size: u64, n: nat)
    ensures EndAt(whole, size, n) <= HighestEnd(whole, size)
  {
    var x, y, p, q := Bezout(size, TWO_64);
    var g := Gcd(size, TWO_64);
    var v := whole.lo - 1;
    var t := (v + (n + 1) * size) / TWO_64;
    assert n * size + size == (n + 1) * size;
    assert EndAt(whole, size, n) == v + (n + 1) * size - t * TWO_64;
    Multiple(n + 1, p, t, q, g);
    Before(v, (n + 1) * p - t * q, g, EndAt(whole, size, n), q);
  }

  lemma Multiple(a: int, p: int, t: int, q: int, g: int)
    ensures a * (p * g) - t * (q * g) == (a * p - t * q) * g
  {
  }

  /** Some turn's end is the highest. */
  lemma SomeEndIsHighest(whole: Range, size: u64) returns (n: nat)
    ensures EndAt(whole, size, n) == HighestEnd(whole, size)
  {
    var x, y, p, q := Bezout(size, TWO_64);
    var g := Gcd(size, TWO_64);
    var k := StepsToHighest(whole.lo - 1, q, g);
    var d: int;
    n, d := TurnFor(k * x);
    StepsTo(k, x, y, d, size, g);
    TurnEnds(whole, size, n, k * g, d * size - k * y);
  }

  /** The highest end lies a multiple of the divisor ahead. */
  lemma StepsToHighest(v: int, q: nat, g: int) returns (k: int)
    requires g > 0 && TWO_64 == q * g
    ensures v + k * g == TWO_64 - g + v % g
    ensures 0 <= v + k * g < TWO_64
  {
    k := q - 1 - v / g;
    var f := v / g;
    assert v == f * g + v % g;
    Spread(q, -1 - f, g);
    Spread(-1, -f, g);
    assert (-1) * g == -g && (-f) * g == -(f * g);
    MulMonotone(1, q, g);
  }

  /** A turn whose number, plus one, is m up to a multiple of 2^64. */
  lemma TurnFor(m: int) returns (n: nat, d: int)
    ensures n + 1 == m + d * TWO_64
  {
    n := if Wrap(m) == 0 then TWO_64 - 1 else Wrap(m) - 1;
    d := if Wrap(m) == 0 then 1 - m / TWO_64 else -(m / TWO_64);
  }

  lemma TurnEnds(whole: Range, size: u64, n: nat, ahead: int, d: int)
    requires (n + 1) * size == ahead + d * TWO_64 && 0 <= whole.lo - 1 + ahead < TWO_64
    ensures EndAt(whole, size, n) == whole.lo - 1 + ahead
  {
    assert n * size + size == (n + 1) * size;
    SameWrap(whole.lo - 1 + ahead, whole.lo + n * size + size - 1, d);
  }

  lemma StepsTo(k: int, x: int, y: int, d: int, size: int, g: int)
    requires g == x * size + y * TWO_64
    ensures (k * x + d * TWO_64) * size == k * g + (d * size - k * y) * TWO_64
  {
    calc {
      k * g;
      k * (x * size + y * TWO_64);
      k * x * size + k * y * TWO_64;
    }
    assert (k * x + d * TWO_64) * size == k * x * size + d * size * TWO_64;
  }

  /** A paging loop leaves if and only if the highest end is not below the end of the range. */
  lemma StopsIff(whole: Range, size: u64)
    ensures Stops(whole, size) <==> HighestEnd(whole, size) >= whole.hi
  {
    if Stops(whole, size) {
      NoEndAbove(whole, size, Total(whole, size) - 1);
    }
    if HighestEnd(whole, size) >= whole.hi {
      var n := SomeEndIsHighest(whole, size);
      LeavesSometime(whole, size, n);
    }
  }
}
