/** The two decimal readers of the repository, `gettIntAndExp` for delegations and `getCoin` for log amounts, and when
    they agree. */
module Decimals {
  import opened Coins
  import opened Digits
  import opened Options
  import Strings

  /** `gettIntAndExp`: mantissa and exponent, or an error. */
  function IntAndExp(s: string): Option<(int, int)> {
    if s == "" then None
    else
      var parts := Strings.Split(s, '.');
      var intgr := SetString(parts[0]);
      if intgr.None? then None
      else if |parts| == 1 then Some((intgr.value, 0))
      else if |parts| > 2 then None
      else
        var dec := SetString(parts[1]);
        if dec.None? then None
        else if dec.value == 0 then Some((intgr.value, 0))
        else
          var exp := ToInt32(|parts[1]|);
          Some((intgr.value * PowTen(exp) + dec.value, exp))
  }

  /** `Exp(10, exp, nil)`; a non-positive exponent gives 1. */
  function PowTen(exp: int): nat {
    if exp <= 0 then 1 else Pow10(exp)
  }

  /** Exactly which strings gettIntAndExp accepts: a signed integer, or two with a point between. */
  lemma IntAndExpAccepts(s: string)
    ensures IntAndExp(s).Some? <==> SetString(s).Some? || exists k :: 0 <= k < |s| && PointAt(s, k)
  {
    if '.' in s {
      var k := FirstPoint(s);
      var a, b := s[..k], s[k + 1..];
      assert s == a + ['.'] + b;
      Strings.SplitFirst(a, b, '.');
      if '.' in b {
        Strings.SplitCount(b, '.');
        Strings.CountZero(b, '.');
      } else {
        Strings.SplitNone(b, '.');
      }
      forall j | 0 <= j < |s| && s[j] == '.'
        ensures k <= j && (k < j ==> '.' in s[..j])
      {
        assert k < j ==> s[..j][k] == '.';
      }
      forall j | 0 <= j < |s| && PointAt(s, j)
        ensures j == k && '.' !in b
      {
        NoPointInInteger(s[..j]);
        NoPointInInteger(s[j + 1..]);
      }
      assert IntAndExp(s).Some? ==> PointAt(s, k);
    } else {
      Strings.SplitNone(s, '.');
    }
    NoPointInInteger(s);
  }

  predicate PointAt(s: string, k: nat)
    requires k < |s|
  {
    s[k] == '.' && SetString(s[..k]).Some? && SetString(s[k + 1..]).Some?
  }

  lemma NoPointInInteger(s: string)
    ensures SetString(s).Some? ==> '.' !in s
  {
    if '.' in s && s[0] != '.' {
      assert s == [s[0]] + s[1..];
    }
  }

  lemma {:induction false} FirstPoint(s: string) returns (k: nat)
    requires '.' in s
    ensures k < |s| && s[k] == '.' && forall j :: 0 <= j < k ==> s[j] != '.'
  {
    if s[0] == '.' {
      k := 0;
    } else {
      assert s == [s[0]] + s[1..];
      k := FirstPoint(s[1..]);
      k := k + 1;
      assert forall j :: 1 <= j < k ==> s[j] == s[1..][j - 1];
    }
  }

  /** A decimal as it is written: optional minus sign, digits, optional point and digits. */
  datatype Numeral = Numeral(negative: bool, whole: string, frac: Option<string>)

  predicate WellFormed(x: Numeral) {
    && x.whole != "" && AllDigits(x.whole)
    && (x.frac.Some? ==> x.frac.value != "" && AllDigits(x.frac.value) && |x.frac.value| < 0x8000_0000)
  }

  function Fraction(x: Numeral): string {
    if x.frac.Some? then x.frac.value else ""
  }

  function Unsigned(x: Numeral): string {
    if x.frac.Some? then x.whole + ['.'] + x.frac.value else x.whole
  }

  function Print(x: Numeral): string {
    (if x.negative then "-" else "") + Unsigned(x)
  }

  /** The written value is Mantissa(x) / 10^|Fraction(x)|. */
  function Mantissa(x: Numeral): int
    requires WellFormed(x)
  {
    var v := Value(x.whole) * Pow10(|Fraction(x)|) + Value(Fraction(x));
    if x.negative then -v else v
  }

  /** m * 10^-e and the written value are the same number. */
  predicate Denotes(m: int, e: int, x: Numeral)
    requires WellFormed(x)
  {
    e >= 0 && m * Pow10(|Fraction(x)|) == Mantissa(x) * Pow10(e)
  }

  function SignedWhole(x: Numeral): string {
    (if x.negative then "-" else "") + x.whole
  }

  lemma NoPointOrComma(x: Numeral)
    requires WellFormed(x)
    ensures '.' !in SignedWhole(x)
    ensures x.frac.Some? ==> '.' !in x.frac.value
    ensures forall i :: 0 <= i < |Print(x)| ==> Print(x)[i] != ','
  {
  }

  lemma SplitNumeral(x: Numeral)
    requires WellFormed(x)
    ensures Strings.Split(Print(x), '.') == if x.frac.Some? then [SignedWhole(x), x.frac.value] else [SignedWhole(x)]
    ensures Strings.ReplaceAll(Print(x), ',', '.') == Print(x)
  {
    var w := SignedWhole(x);
    NoPointOrComma(x);
    if x.frac.Some? {
      assert Print(x) == w + ['.'] + x.frac.value;
      Strings.SplitFirst(w, x.frac.value, '.');
      Strings.SplitNone(x.frac.value, '.');
    } else {
      assert Print(x) == w;
      Strings.SplitNone(w, '.');
    }
  }

  /** A signed digit string is read as its signed value. */
  lemma SetSigned(negative: bool, digits: string)
    requires digits != "" && AllDigits(digits)
    ensures var s := (if negative then "-" else "") + digits;
            SetString(s) == Some(if negative then -(Value(digits) as int) else Value(digits) as int)
  {
    var s := (if negative then "-" else "") + digits;
    if negative {
      assert s[1..] == digits;
    } else {
      assert s == digits;
      assert IsDigit(s[0]);
    }
  }

  lemma SmallInt32(n: nat)
    requires n < 0x8000_0000
    ensures ToInt32(n) == n
  {
  }

  lemma SetDigits(digits: string)
    requires digits != "" && AllDigits(digits)
    ensures SetString(digits) == Some(Value(digits))
  {
    SetSigned(false, digits);
    assert "" + digits == digits;
  }

  /** All digits of a decimal, without the point. */
  function Joined(x: Numeral): string {
    SignedWhole(x) + Fraction(x)
  }

  lemma JoinedReads(x: Numeral)
    requires WellFormed(x)
    ensures SetString(Joined(x)) == Some(Mantissa(x))
  {
    ValueConcat(x.whole, Fraction(x));
    SetSigned(x.negative, x.whole + Fraction(x));
    assert Joined(x) == (if x.negative then "-" else "") + (x.whole + Fraction(x));
  }

  lemma GetCoinWhole(x: Numeral)
    requires WellFormed(x) && x.frac.None?
    ensures GetCoin(Print(x)) == Decimal(SetString(Joined(x)), 0)
  {
    SplitNumeral(x);
    assert Joined(x) == SignedWhole(x);
  }

  lemma GetCoinFraction(x: Numeral)
    requires WellFormed(x) && x.frac.Some?
    ensures GetCoin(Print(x)) == Decimal(SetString(Joined(x)), |Fraction(x)|)
  {
    SplitNumeral(x);
    SmallInt32(|Fraction(x)|);
  }

  /** getCoin reads every well-formed decimal, of either sign, as the written value. */
  lemma GetCoinExact(x: Numeral)
    requires WellFormed(x)
    ensures GetCoin(Print(x)) == Decimal(Some(Mantissa(x)), |Fraction(x)|)
    ensures Denotes(Mantissa(x), |Fraction(x)|, x)
  {
    JoinedReads(x);
    if x.frac.Some? {
      GetCoinFraction(x);
    } else {
      GetCoinWhole(x);
    }
  }

  /** A written decimal and a denomination, as one entry of an amount list: read as the written value with its
      exponent, and that denomination, exactly when the denomination is clean. */
  lemma DecimalCoinRoundTrip(x: Numeral, d: string)
    requires WellFormed(x)
    ensures ReadAmount(Print(x) + d) == Some(Amount(d, Some(Mantissa(x)), |Fraction(x)|, Print(x) + d))
            <==> CleanDenom(d)
  {
    GetCoinExact(x);
    var w := Print(x);
    assert w[|w| - 1] == if x.frac.Some? then x.frac.value[|x.frac.value| - 1] else x.whole[|x.whole| - 1];
    AmountRoundTrip(w, d);
  }

  function SignedValue(x: Numeral): int
    requires WellFormed(x)
  {
    if x.negative then -(Value(x.whole) as int) else Value(x.whole) as int
  }

  lemma IntAndExpWhole(x: Numeral)
    requires WellFormed(x) && x.frac.None?
    ensures IntAndExp(Print(x)) == Some((SignedValue(x), 0))
  {
    SplitNumeral(x);
    SetSigned(x.negative, x.whole);
  }

  lemma IntAndExpFraction(x: Numeral)
    requires WellFormed(x) && x.frac.Some?
    ensures var f := Value(x.frac.value);
            IntAndExp(Print(x)) == if f == 0 then Some((SignedValue(x), 0))
                                   else Some((SignedValue(x) * Pow10(|x.frac.value|) + f, |x.frac.value|))
  {
    SplitNumeral(x);
    SetSigned(x.negative, x.whole);
    SetDigits(x.frac.value);
    SmallInt32(|x.frac.value|);
  }

  /** What gettIntAndExp reads: the sign goes to the whole part only. */
  lemma IntAndExpReads(x: Numeral)
    requires WellFormed(x)
    ensures var f := Value(Fraction(x));
            IntAndExp(Print(x)) == if f == 0 then Some((SignedValue(x), 0))
                                   else Some((SignedValue(x) * Pow10(|Fraction(x)|) + f, |Fraction(x)|))
  {
    if x.frac.Some? {
      IntAndExpFraction(x);
    } else {
      IntAndExpWhole(x);
    }
  }

  /** Exactly when gettIntAndExp is right: it reads the written value if and only if the decimal is not negative or
      its fraction is zero. */
  lemma IntAndExpExact(x: Numeral)
    requires WellFormed(x)
    ensures IntAndExp(Print(x)).Some?
    ensures var r := IntAndExp(Print(x)).value;
            Denotes(r.0, r.1, x) <==> !x.negative || Value(Fraction(x)) == 0
  {
    IntAndExpReads(x);
    if Value(Fraction(x)) == 0 {
      ZeroFraction(x);
    } else {
      SomeFraction(x);
    }
  }

  lemma ZeroFraction(x: Numeral)
    requires WellFormed(x) && Value(Fraction(x)) == 0
    ensures Denotes(SignedValue(x), 0, x)
  {
    NegateProduct(Value(x.whole), Pow10(|Fraction(x)|));
    assert Pow10(0) == 1;
  }

  lemma SomeFraction(x: Numeral)
    requires WellFormed(x) && Value(Fraction(x)) > 0
    ensures var n := |Fraction(x)|;
            Denotes(SignedValue(x) * Pow10(n) + Value(Fraction(x)), n, x) <==> !x.negative
  {
    var p := Pow10(|Fraction(x)|);
    PowPositive(|Fraction(x)|);
    NegateProduct(Value(x.whole), p);
    CancelPower(SignedValue(x) * p + Value(Fraction(x)), Mantissa(x), p);
  }

  lemma NegateProduct(w: int, p: int)
    ensures (-w) * p == -(w * p)
  {
  }

  lemma CancelPower(a: int, b: int, p: int)
    requires p > 0
    ensures a * p == b * p <==> a == b
  {
    if a < b {
      Strict(a, b, p);
    } else if b < a {
      Strict(b, a, p);
    }
  }

  lemma Strict(a: int, b: int, p: int)
    requires p > 0 && a < b
    ensures a * p < b * p
  {
  }

  /** Two decimal readers agree: m1 * 10^e2 = m2 * 10^e1, exactly for the decimals that are not negative or have a
      zero fraction. */
  lemma ReadersAgree(x: Numeral)
    requires WellFormed(x)
    ensures IntAndExp(Print(x)).Some? && GetCoin(Print(x)).Decimal? && GetCoin(Print(x)).number.Some?
    ensures var a, b := GetCoin(Print(x)), IntAndExp(Print(x)).value;
            && a.exp >= 0 && b.1 >= 0
            && (a.number.value * Pow10(b.1) == b.0 * Pow10(a.exp) <==> !x.negative || Value(Fraction(x)) == 0)
  {
    GetCoinExact(x);
    IntAndExpExact(x);
    IntAndExpReads(x);
  }

  /** The sign is lost on the fraction: "-1.5" is read as -0.5. */
  lemma NegativeFractionMisread()
    ensures IntAndExp("-1.5") == Some((-5, 1))
    ensures GetCoin("-1.5") == Decimal(Some(-15), 1)
  {
    var x := Numeral(true, "1", Some("5"));
    assert Print(x) == "-1.5";
    assert Value("1") == 1 && Value("5") == 5 by {
      assert "1"[..0] == "" && "5"[..0] == "";
    }
    assert Pow10(1) == 10 && Pow10(0) == 1;
    IntAndExpReads(x);
    GetCoinExact(x);
  }
}
