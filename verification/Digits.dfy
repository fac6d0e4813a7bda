/** Decimal digits: printing a natural number, reading a digit string, and what `big.Int.SetString(s, 10)` and
    `strconv.ParseUint(s, 10, 64)` accept. */
module Digits {
  import opened Options
  import opened Ranges

  predicate IsDigit(c: char) {
    '0' <= c <= '9'
  }

  predicate AllDigits(s: string) {
    forall i :: 0 <= i < |s| ==> IsDigit(s[i])
  }

  function DigitValue(c: char): nat
    requires IsDigit(c)
  {
    c as int - '0' as int
  }

  function DigitChar(d: nat): char
    requires d < 10
  {
    "0123456789"[d]
  }

  /** The number a digit string denotes; the empty string denotes 0. */
  function Value(s: string): nat
    requires AllDigits(s)
  {
    if s == "" then 0 else Value(s[..|s| - 1]) * 10 + DigitValue(s[|s| - 1])
  }

  /** The shortest decimal numeral, as `strconv.Itoa` and `big.Int.String` print it. */
  function Show(n: nat): string {
    if n < 10 then [DigitChar(n)] else Show(n / 10) + [DigitChar(n % 10)]
  }

  function Pow10(n: nat): nat {
    if n == 0 then 1 else 10 * Pow10(n - 1)
  }

  lemma {:induction false} ShowReads(n: nat)
    ensures Show(n) != "" && AllDigits(Show(n)) && Value(Show(n)) == n
  {
    if n < 10 {
      assert Show(n)[..0] == "";
    } else {
      var front, d := Show(n / 10), DigitChar(n % 10);
      ShowReads(n / 10);
      assert Show(n) == front + [d];
      assert (front + [d])[..|front|] == front;
      assert DigitValue(d) == n % 10;
    }
  }

  /** Different numbers print differently. */
  lemma ShowInjective(m: nat, n: nat)
    requires Show(m) == Show(n)
    ensures m == n
  {
    ShowReads(m);
    ShowReads(n);
  }

  /** Reading a concatenation: the left part moves up by the length of the right one. */
  lemma {:induction false} ValueConcat(a: string, b: string)
    requires AllDigits(a) && AllDigits(b)
    ensures AllDigits(a + b) && Value(a + b) == Value(a) * Pow10(|b|) + Value(b)
  {
    if b == "" {
      assert a + b == a;
    } else {
      var front := b[..|b| - 1];
      ValueConcat(a, front);
      assert (a + b)[..|a + b| - 1] == a + front;
      Shift(Value(a), Pow10(|front|), Value(front), DigitValue(b[|b| - 1]));
    }
  }

  lemma Shift(a: nat, p: nat, v: nat, d: nat)
    ensures (a * p + v) * 10 + d == a * (10 * p) + (v * 10 + d)
  {
  }

  /** `big.Int.SetString` in base 10: an optional sign and at least one digit, nothing else. */
  function SetString(s: string): Option<int> {
    if s != "" && (s[0] == '-' || s[0] == '+') then
      if s[1..] != "" && AllDigits(s[1..]) then
        Some(if s[0] == '-' then -(Value(s[1..]) as int) else Value(s[1..]) as int)
      else None
    else if s != "" && AllDigits(s) then Some(Value(s))
    else None
  }

  const MAX_U64: u64 := TWO_64 - 1

  /** `strconv.ParseUint(s, 10, 64)` with its error dropped: a syntax error gives 0, an overflow gives the largest
      uint64, whichever the scan meets first. */
  function ParseUint(s: string): u64 {
    if s == "" then 0 else ScanUint(s, 0)
  }

  function ScanUint(rest: string, n: u64): u64 {
    if rest == "" then n
    else if !IsDigit(rest[0]) then 0
    else if n * 10 + DigitValue(rest[0]) > MAX_U64 then MAX_U64
    else ScanUint(rest[1..], n * 10 + DigitValue(rest[0]))
  }

  lemma {:induction false} ScanReads(done: string, rest: string)
    requires AllDigits(done) && AllDigits(rest) && Value(done) <= MAX_U64
    ensures AllDigits(done + rest)
    ensures ScanUint(rest, Value(done)) == if Value(done + rest) > MAX_U64 then MAX_U64 else Value(done + rest)
    decreases |rest|
  {
    if rest == "" {
      assert done + rest == done;
    } else {
      var more := done + [rest[0]];
      assert more[..|more| - 1] == done;
      assert more + rest[1..] == done + rest;
      if Value(more) > MAX_U64 {
        LongerIsLarger(more, rest[1..]);
      } else {
        ScanReads(more, rest[1..]);
      }
    }
  }

  lemma LongerIsLarger(a: string, b: string)
    requires AllDigits(a) && AllDigits(b)
    ensures AllDigits(a + b) && Value(a + b) >= Value(a)
  {
    ValueConcat(a, b);
    PowPositive(|b|);
    GrowsBy(Value(a), Pow10(|b|));
  }

  lemma {:induction false} PowPositive(n: nat)
    ensures Pow10(n) >= 1
  {
    if n > 0 {
      PowPositive(n - 1);
    }
  }

  lemma GrowsBy(a: nat, p: nat)
    requires p >= 1
    ensures a * p >= a
  {
  }

  /** A printed uint64 is read back. */
  lemma ParseUintShow(n: u64)
    ensures ParseUint(Show(n)) == n
  {
    ShowReads(n);
    assert "" + Show(n) == Show(n);
    ScanReads("", Show(n));
  }

  /** How many digits a string starts with. */
  function DigitRun(s: string): (n: nat)
    ensures n <= |s| && AllDigits(s[..n])
    ensures n < |s| ==> !IsDigit(s[n])
  {
    if s != "" && IsDigit(s[0]) then 1 + DigitRun(s[1..]) else 0
  }

  /** What any string stands for as a uint64: its number if it is one, but the largest uint64 once the digits it
      starts with exceed it, whatever follows them, and otherwise 0. */
  predicate ParsedAs(s: string, n: u64) {
    var d := DigitRun(s);
    n == if Value(s[..d]) > MAX_U64 then MAX_U64 else if d == |s| then Value(s) else 0
  }

  lemma ParseUintExact(s: string)
    ensures ParsedAs(s, ParseUint(s))
  {
    var d := DigitRun(s);
    if s != "" {
      assert "" + s[..d] == s[..d] && s == s[..d] + s[d..];
      ScanReads("", s[..d]);
      if d == |s| {
        assert s[..d] == s;
      } else {
        ScanStops("", s[..d], s[d..]);
      }
    }
  }

  /** A character that is not a digit ends the scan with 0, unless the digits before it were too many. */
  lemma {:induction false} ScanStops(done: string, digits: string, rest: string)
    requires AllDigits(done) && AllDigits(digits) && Value(done) <= MAX_U64
    requires rest != "" && !IsDigit(rest[0])
    ensures AllDigits(done + digits)
    ensures ScanUint(digits + rest, Value(done)) == if Value(done + digits) > MAX_U64 then MAX_U64 else 0
    decreases |digits|
  {
    if digits == "" {
      assert done + digits == done && digits + rest == rest;
    } else {
      var more := done + [digits[0]];
      assert more[..|more| - 1] == done;
      assert more + digits[1..] == done + digits;
      assert (digits + rest)[1..] == digits[1..] + rest;
      if Value(more) > MAX_U64 {
        LongerIsLarger(more, digits[1..]);
      } else {
        ScanStops(more, digits[1..], rest);
      }
    }
  }
}
