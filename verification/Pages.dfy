/** How many pages of 100 transactions are asked for: `int(math.Ceil(float64(n) / float64(page)))`, in binary64
    arithmetic (IEEE 754-2019, section 4.3.1, round to nearest, ties to even), and what those pages hold. */
module Pages {
  import opened Ranges

  const PAGE: nat := 100
  const TWO_53: nat := 0x20_0000_0000_0000

  function Pow2(n: nat): nat {
    if n == 0 then 1 else 2 * Pow2(n - 1)
  }

  /** The integer nearest to num/den; of two equally near ones, the even one. */
  function NearestEven(num: nat, den: nat): nat
    requires den > 0
  {
    var q, r := num / den, num % den;
    if 2 * r < den || (2 * r == den && q % 2 == 0) then q else q + 1
  }

  /** A non-negative binary64 number, mantissa * 2^exp.  All exponents met here are far inside the format. */
  datatype Double = Double(mantissa: nat, exp: int)

  /** num/den * 2^exp rounded to 53 significant bits. */
  function Round(num: nat, den: nat, exp: int): Double
    requires num > 0 && den > 0
    decreases if num >= TWO_53 * den then num - TWO_53 * den + 1
              else if 2 * num < TWO_53 * den then TWO_53 * den - 2 * num
              else 0
  {
    if num >= TWO_53 * den then Round(num, 2 * den, exp + 1)
    else if 2 * num < TWO_53 * den then Round(2 * num, den, exp - 1)
    else Double(NearestEven(num, den), exp)
  }

  function CeilDiv(a: nat, b: nat): nat
    requires b > 0
  {
    (a + b - 1) / b
  }

  /** `math.Ceil`. */
  function Ceil(d: Double): nat {
    if d.exp >= 0 then d.mantissa * Pow2(d.exp)
    else Pow2Positive(-d.exp); CeilDiv(d.mantissa, Pow2(-d.exp))
  }

  lemma {:induction false} Pow2Positive(n: nat)
    ensures Pow2(n) > 0
  {
    if n > 0 { Pow2Positive(n - 1); }
  }

  /** `float64(n)`. */
  function ToDouble(n: u64): Double
    requires n > 0
  {
    Round(n, 1, 0)
  }

  /** `toBeDone` for a block of n transactions; the source asks only when n > 0. */
  function PageCount(n: u64): nat {
    if n == 0 then 0
    else
      var d := ToDouble(n);
      if d.mantissa == 0 then 0 else Ceil(Round(d.mantissa, PAGE, d.exp))
  }

  // ----- rounding -----

  /** NearestEven is the nearest integer, and the even one of two. */
  lemma NearestIsNearest(num: nat, den: nat, k: int)
    requires den > 0
    ensures var m := NearestEven(num, den);
            && Distance(num, den, m) <= Distance(num, den, k)
            && (k != m && Distance(num, den, k) == Distance(num, den, m) ==> m % 2 == 0)
  {
    var q, r := num / den, num % den;
    Nearby(q, r, den, num, k);
    Nearby(q, r, den, num, NearestEven(num, den));
  }

  /** Distances from q * den + r to the multiples of den. */
  lemma Nearby(q: nat, r: nat, den: nat, num: nat, k: int)
    requires r < den && num == q * den + r
    ensures k == q ==> Distance(num, den, k) == r
    ensures k == q + 1 ==> Distance(num, den, k) == den - r
    ensures k < q ==> Distance(num, den, k) >= r + den
    ensures k > q + 1 ==> Distance(num, den, k) >= 2 * den - r
  {
    var y := (q - k) * den;
    assert num - den * k == y + r;
    if k < q {
      ProductMonotone(1, q - k, den);
    } else if k > q + 1 {
      ProductMonotone(2, k - q, den);
    }
  }

  function Distance(num: nat, den: nat, k: int): nat {
    if num >= den * k then num - den * k else den * k - num
  }

  lemma ProductMonotone(a: int, b: int, c: nat)
    requires a <= b
    ensures a * c <= b * c && c * a <= c * b
  {
  }

  /** A number below 2^53 times its denominator is only ever scaled up by a power of two before it is rounded. */
  lemma {:induction false} RoundScalesUp(num: nat, den: nat, exp: int) returns (t: nat)
    requires 0 < num < TWO_53 * den && den > 0
    ensures TWO_53 * den <= 2 * (num * Pow2(t)) < 2 * (TWO_53 * den)
    ensures Round(num, den, exp) == Double(NearestEven(num * Pow2(t), den), exp - t)
    decreases TWO_53 * den - num
  {
    if 2 * num < TWO_53 * den {
      var s := RoundScalesUp(2 * num, den, exp - 1);
      t := s + 1;
      assert 2 * num * Pow2(s) == num * Pow2(t) by { Reassociate(num, Pow2(s)); }
    } else {
      t := 0;
      assert num * Pow2(0) == num;
    }
  }

  lemma Reassociate(a: nat, b: nat)
    ensures 2 * a * b == a * (2 * b)
  {
  }

  lemma {:induction false} PowAdd(a: nat, b: nat)
    ensures Pow2(a + b) == Pow2(a) * Pow2(b)
  {
    if a > 0 {
      PowAdd(a - 1, b);
    }
  }

  /** Rounding n/100 at a resolution finer than 1/50 never reaches or passes an integer it should not. */
  lemma CeilSurvives(n: nat, p: nat)
    requires p > 50
    ensures CeilDiv(NearestEven(n * p, PAGE), p) == CeilDiv(n, PAGE)
  {
    var q, r := n / PAGE, n % PAGE;
    var x := r * p;
    SplitProduct(n, p);
    var m := x / PAGE;
    assert NearestEven(n * p, PAGE) == q * p + (NearestEven(n * p, PAGE) - q * p);
    var y := NearestEven(n * p, PAGE) - q * p;
    assert (n * p) / PAGE == q * p + m && (n * p) % PAGE == x % PAGE;
    if r == 0 {
      assert y == 0;
      Quotient(q, 0, p);
    } else {
      ProductMonotone(1, r, p);
      ProductMonotone(r, PAGE - 1, p);
      assert 0 < y <= p;
      Quotient(q, y, p);
    }
  }

  lemma SplitProduct(n: nat, p: nat)
    ensures n * p == PAGE * ((n / PAGE) * p) + (n % PAGE) * p
  {
    var q, r := n / PAGE, n % PAGE;
    assert n == PAGE * q + r;
    Expand(PAGE, q, r, p);
  }

  lemma Expand(a: nat, q: nat, r: nat, p: nat)
    ensures (a * q + r) * p == a * (q * p) + r * p
  {
  }

  lemma Quotient(q: nat, y: nat, p: nat)
    requires 0 <= y <= p && p > 0
    ensures CeilDiv(q * p + y, p) == if y == 0 then q else q + 1
  {
    DivUnique(q * p + y + p - 1, p, if y == 0 then q else q + 1);
  }

  lemma DivUnique(a: nat, p: nat, q: nat)
    requires p > 0 && q * p <= a < q * p + p
    ensures a / p == q
  {
    var d := a / p;
    assert d * p <= a < d * p + p;
    if d < q { ProductMonotone(d + 1, q, p); }
    if d > q { ProductMonotone(q + 1, d, p); }
  }

  const SAFE: u64 := TWO_53 + 8

  /** The double next to n, in the range where doubles are one or two apart. */
  function NearestDouble(n: u64): u64
    requires n <= SAFE + 1
  {
    if n < TWO_53 then n else 2 * NearestEven(n, 2)
  }

  /** Dividing the stored number by 100 and rounding up gives the integer ceiling of the stored number. */
  lemma PageCountOfDouble(n: u64)
    requires 0 < n <= SAFE + 1
    ensures PageCount(n) == CeilDiv(NearestDouble(n), PAGE)
  {
    var t := ScaledDivision(n);
    var m := NearestDouble(n);
    ResolutionFine(m, t);
    CeilSurvives(m, Pow2(t));
  }

  /** The whole computation is one rounding of NearestDouble(n)/100, at some resolution 2^-t. */
  lemma ScaledDivision(n: u64) returns (t: nat)
    requires 0 < n <= SAFE + 1
    ensures TWO_53 * PAGE <= 2 * (NearestDouble(n) * Pow2(t)) && t > 0
    ensures PageCount(n) == (Pow2Positive(t); CeilDiv(NearestEven(NearestDouble(n) * Pow2(t), PAGE), Pow2(t)))
  {
    if n < TWO_53 {
      var k := RoundScalesUp(n, 1, 0);
      var m := n * Pow2(k);
      assert NearestEven(m, 1) == m;
      var e: int := k;
      var j := RoundScalesUp(m, PAGE, -e);
      t := k + j;
      PowAdd(k, j);
      Reassociate3(n, Pow2(k), Pow2(j));
      NotZero(j, m);
    } else {
      var m := NearestEven(n, 2);
      assert ToDouble(n) == Double(m, 1) by {
        assert Round(n, 2, 1) == Double(m, 1);
      }
      var j := RoundScalesUp(m, PAGE, 1);
      NotZero(j, m);
      t := j - 1;
      assert m * Pow2(j) == 2 * m * Pow2(t) by { Reassociate(m, Pow2(t)); }
      Pow2Positive(t);
    }
  }

  lemma Reassociate3(a: nat, b: nat, c: nat)
    ensures a * b * c == a * (b * c)
  {
  }

  lemma NotZero(j: nat, m: nat)
    requires m <= TWO_53 && TWO_53 * PAGE <= 2 * (m * Pow2(j))
    ensures j > 1
  {
    assert Pow2(0) == 1 && Pow2(1) == 2;
  }

  lemma ResolutionFine(m: nat, t: nat)
    requires m <= TWO_53 + 10 && TWO_53 * PAGE <= 2 * (m * Pow2(t))
    ensures Pow2(t) > 50
  {
    if Pow2(t) <= 32 {
      ProductMonotone(Pow2(t), 32, m);
      assert false;
    }
    NoPowerBetween(t);
  }

  lemma NoPowerBetween(t: nat)
    requires Pow2(t) > 32
    ensures Pow2(t) >= 64
  {
    assert Pow2(5) == 32;
    if t <= 5 {
      PowMonotone(t, 5);
    } else {
      PowMonotone(6, t);
    }
  }

  lemma {:induction false} PowMonotone(a: nat, b: nat)
    requires a <= b
    ensures Pow2(a) <= Pow2(b)
  {
    if a < b {
      PowMonotone(a, b - 1);
    }
  }

  /** The floating-point page count is the integer ceiling of n/100 for every n up to 2^53 + 8. */
  lemma PageCountExact(n: u64)
    requires n <= SAFE
    ensures PageCount(n) == CeilDiv(n, PAGE)
  {
    if n > 0 {
      PageCountOfDouble(n);
    }
  }

  /** It is one page short for the next n: 2^53 + 9 is not a double, and is stored as 2^53 + 8. */
  lemma PageCountShort()
    ensures PageCount(SAFE + 1) == CeilDiv(SAFE + 1, PAGE) - 1
  {
    PageCountOfDouble(SAFE + 1);
  }

  /** Exactly up to which transaction count the floating-point computation can be relied on. */
  lemma PageCountThreshold(limit: u64)
    ensures (forall n: u64 :: n <= limit ==> PageCount(n) == CeilDiv(n, PAGE)) <==> limit <= SAFE
  {
    if limit <= SAFE {
      forall n: u64 | n <= limit
        ensures PageCount(n) == CeilDiv(n, PAGE)
      {
        PageCountExact(n);
      }
    } else {
      PageCountShort();
    }
  }

  // ----- the pages of a list -----

  /** Page p (counted from 1) of a list, in pages of 100; a page past the end holds nothing. */
  function PageOf<T>(all: seq<T>, p: nat): seq<T>
    requires p >= 1
  {
    var lo := PAGE * (p - 1);
    if lo >= |all| then [] else if lo + PAGE <= |all| then all[lo..lo + PAGE] else all[lo..]
  }

  /** Pages 1..k one after the other. */
  function FirstPages<T>(all: seq<T>, k: nat): seq<T> {
    if k == 0 then [] else FirstPages(all, k - 1) + PageOf(all, k)
  }

  lemma {:induction false} FirstPagesArePrefix<T>(all: seq<T>, k: nat)
    ensures FirstPages(all, k) == if PAGE * k <= |all| then all[..PAGE * k] else all
  {
    if k > 0 {
      FirstPagesArePrefix(all, k - 1);
    }
  }

  /** Whatever count n the pages were computed from, they hold the whole list, in order and without overlap, if and only
      if they reach its end. */
  lemma PagesReach<T>(all: seq<T>, n: u64)
    ensures FirstPages(all, PageCount(n)) == all <==> |all| <= PAGE * PageCount(n)
  {
    FirstPagesArePrefix(all, PageCount(n));
  }

  /** The right count reaches far enough. */
  lemma RightCountReaches(n: u64)
    requires n <= SAFE
    ensures n <= PAGE * PageCount(n)
  {
    PageCountExact(n);
  }

  /** The pages asked for by the right count hold the whole list. */
  lemma PagesCover<T>(all: seq<T>)
    requires |all| <= SAFE
    ensures FirstPages(all, PageCount(|all|)) == all
  {
    RightCountReaches(|all|);
    PagesReach(all, |all|);
  }
}
