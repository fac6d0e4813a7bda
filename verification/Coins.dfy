/** Amounts: splitting "2896ukrw,16uluna" into coins, a coin into number and denomination by the currency regex, and
    a number into mantissa and exponent. */
module Coins {
  import opened Digits
  import opened Options
  import opened Strings

  // ----- getCoin -----

  /** A number read by `getCoin`.  None: `SetString` rejected the digits and left the big.Int undetermined. */
  datatype Decimal = Decimal(number: Option<int>, exp: int) | Unparsable

  /** The conversion of a length to int32. */
  function ToInt32(n: nat): int {
    var m := n % 0x1_0000_0000;
    if m < 0x8000_0000 then m else m - 0x1_0000_0000
  }

  function GetCoin(s: string): Decimal {
    var strs := Split(ReplaceAll(s, ',', '.'), '.');
    if |strs| == 1 then Decimal(SetString(strs[0]), 0)
    else if |strs| == 2 then Decimal(SetString(strs[0] + strs[1]), ToInt32(|strs[1]|))
    else Unparsable
  }

  /** No number is read exactly from what has two points or commas or more. */
  lemma GetCoinFails(s: string)
    ensures GetCoin(s).Unparsable? <==> Count(s, '.') + Count(s, ',') >= 2
  {
    ReplacedCount(s);
    SplitCount(ReplaceAll(s, ',', '.'), '.');
  }

  lemma {:induction false} ReplacedCount(s: string)
    ensures Count(ReplaceAll(s, ',', '.'), '.') == Count(s, '.') + Count(s, ',')
  {
    if s != "" {
      ReplacedCount(s[1..]);
      assert ReplaceAll(s, ',', '.')[1..] == ReplaceAll(s[1..], ',', '.');
    }
  }

  /** A comma is read as a point. */
  lemma CommaIsPoint(s: string)
    ensures GetCoin(s) == GetCoin(ReplaceAll(s, ',', '.'))
  {
    assert ReplaceAll(ReplaceAll(s, ',', '.'), ',', '.') == ReplaceAll(s, ',', '.');
  }

  // ----- getCurrency -----

  predicate NumberChar(c: char) {
    IsDigit(c) || c == '.' || c == ',' || c == '-'
  }

  predicate SpaceChar(c: char) {
    c == ' ' || c == '\t' || c == '\n' || c == '\r' || c == '\U{000C}'
  }

  predicate DenomChar(c: char) {
    !IsDigit(c) && !SpaceChar(c)
  }

  predicate AllNumber(s: string) {
    forall i :: 0 <= i < |s| ==> NumberChar(s[i])
  }

  predicate AllDenom(s: string) {
    forall i :: 0 <= i < |s| ==> DenomChar(s[i])
  }

  function SkipSpace(s: string): string {
    if s != "" && SpaceChar(s[0]) then SkipSpace(s[1..]) else s
  }

  /** What may follow the number: spaces, then at least one denomination character, up to the end. */
  predicate Tail(s: string) {
    SkipSpace(s) != "" && AllDenom(SkipSpace(s))
  }

  /** The regex matches at position i with a first group that ends at j. */
  predicate MatchesAt(s: string, i: nat, j: nat) {
    i < j <= |s| && AllNumber(s[i..j]) && Tail(s[j..])
  }

  function NumberRun(s: string): (n: nat)
    ensures n <= |s| && AllNumber(s[..n])
    ensures n < |s| ==> !NumberChar(s[n])
  {
    if s != "" && NumberChar(s[0]) then 1 + NumberRun(s[1..]) else 0
  }

  /** The longest first group of at most j characters, by backtracking; 0 if there is none. */
  function Backtrack(s: string, j: nat): (n: nat)
    requires j <= |s|
    ensures n <= j
  {
    if j == 0 then 0 else if Tail(s[j..]) then j else Backtrack(s, j - 1)
  }

  /** The leftmost match of the currency regex, its groups as long as possible: number and denomination. */
  function GetCurrency(s: string): Option<(string, string)> {
    if s == "" then None
    else
      var n := Backtrack(s, NumberRun(s));
      if n > 0 then Some((s[..n], SkipSpace(s[n..]))) else GetCurrency(s[1..])
  }

  /** Backtracking finds the longest group. */
  lemma {:induction false} BacktrackLongest(s: string, j: nat)
    requires j <= |s| && AllNumber(s[..j])
    ensures var n := Backtrack(s, j);
            && (n > 0 ==> MatchesAt(s, 0, n))
            && forall k :: n < k <= j ==> !MatchesAt(s, 0, k)
  {
    if j > 0 && !Tail(s[j..]) {
      assert s[..j - 1] == s[..j][..j - 1];
      BacktrackLongest(s, j - 1);
    } else if j > 0 {
      assert s[0..j] == s[..j];
    }
  }

  lemma AtStart(s: string)
    ensures var n := Backtrack(s, NumberRun(s));
            && (n > 0 ==> MatchesAt(s, 0, n))
            && forall k: nat :: k > n ==> !MatchesAt(s, 0, k)
  {
    BacktrackLongest(s, NumberRun(s));
    forall k: nat | k > Backtrack(s, NumberRun(s))
      ensures !MatchesAt(s, 0, k)
    {
      if NumberRun(s) < k <= |s| {
        assert s[0..k][NumberRun(s)] == s[NumberRun(s)];
      }
    }
  }

  lemma ShiftMatch(s: string, i: nat, j: nat)
    requires s != ""
    ensures MatchesAt(s, i + 1, j + 1) <==> MatchesAt(s[1..], i, j)
  {
    if i < j < |s| {
      assert s[1..][i..j] == s[i + 1..j + 1];
      assert s[1..][j..] == s[j + 1..];
    }
  }

  ghost predicate NoMatch(s: string) {
    forall i: nat, j: nat :: !MatchesAt(s, i, j)
  }

  /** The match a leftmost-first regex engine reports: no match starts further left, and none of those starting here
      has a longer first group. */
  ghost predicate Leftmost(s: string, i: nat, j: nat) {
    && MatchesAt(s, i, j)
    && (forall k: nat, m: nat :: k < i ==> !MatchesAt(s, k, m))
    && (forall m: nat :: m > j ==> !MatchesAt(s, i, m))
  }

  /** GetCurrency against the regex read declaratively: it finds nothing exactly when nothing matches, and otherwise
      the leftmost match with the longest number group. */
  lemma {:induction false} LeftmostLongest(s: string) returns (i: nat, j: nat)
    ensures GetCurrency(s).None? <==> NoMatch(s)
    ensures GetCurrency(s).Some? ==> Leftmost(s, i, j) && GetCurrency(s) == Some((s[i..j], SkipSpace(s[j..])))
  {
    i, j := 0, 0;
    if s != "" {
      AtStart(s);
      j := Backtrack(s, NumberRun(s));
      if j > 0 {
        assert s[0..j] == s[..j];
      } else {
        i, j := LeftmostLongest(s[1..]);
        FurtherRight(s, i, j);
        i, j := i + 1, j + 1;
      }
    }
  }

  /** When nothing matches at the start, what is found in the rest is what there is. */
  lemma FurtherRight(s: string, i: nat, j: nat)
    requires s != "" && Backtrack(s, NumberRun(s)) == 0 && forall m: nat :: m > 0 ==> !MatchesAt(s, 0, m)
    requires GetCurrency(s[1..]).None? <==> NoMatch(s[1..])
    requires GetCurrency(s[1..]).Some? ==>
               Leftmost(s[1..], i, j) && GetCurrency(s[1..]) == Some((s[1..][i..j], SkipSpace(s[1..][j..])))
    ensures GetCurrency(s).None? <==> NoMatch(s)
    ensures GetCurrency(s).Some? ==>
              && Leftmost(s, i + 1, j + 1)
              && GetCurrency(s) == Some((s[i + 1..j + 1], SkipSpace(s[j + 1..])))
  {
    if GetCurrency(s).Some? {
      LeftmostShifts(s, i, j);
    } else {
      NoMatchShifts(s);
    }
  }

  lemma LeftmostShifts(s: string, i: nat, j: nat)
    requires s != "" && Leftmost(s[1..], i, j) && forall m: nat :: m > 0 ==> !MatchesAt(s, 0, m)
    ensures Leftmost(s, i + 1, j + 1)
    ensures s[1..][i..j] == s[i + 1..j + 1] && s[1..][j..] == s[j + 1..]
  {
    ShiftMatch(s, i, j);
    forall k: nat, m: nat | k < i + 1
      ensures !MatchesAt(s, k, m)
    {
      if k > 0 && m > 0 { ShiftMatch(s, k - 1, m - 1); }
    }
    var next := i + 1;
    forall m: nat | m > j + 1
      ensures !MatchesAt(s, next, m)
    {
      ShiftMatch(s, i, m - 1);
    }
  }

  lemma NoMatchShifts(s: string)
    requires s != "" && NoMatch(s[1..]) && forall m: nat :: m > 0 ==> !MatchesAt(s, 0, m)
    ensures NoMatch(s)
  {
    forall k: nat, m: nat
      ensures !MatchesAt(s, k, m)
    {
      if k > 0 && m > 0 { ShiftMatch(s, k - 1, m - 1); }
    }
  }

  // ----- one amount -----

  /** One entry of an amount list, or the error of `getCoin`. */
  datatype Amount = Amount(currency: string, number: Option<int>, exp: int, text: string)

  function ReadAmount(amt: string): Option<Amount> {
    var sliced := GetCurrency(amt);
    var d := if sliced.Some? then GetCoin(sliced.value.0) else GetCoin(amt);
    if d.Unparsable? then None
    else Some(Amount(if sliced.Some? then sliced.value.1 else "", d.number, d.exp, amt))
  }

  /** A coin as the chain prints it: amount and denomination without a space. */
  function PrintCoin(n: nat, denom: string): string {
    Show(n) + denom
  }

  /** What is expected to be read back. */
  function CoinAmount(n: nat, denom: string): Amount {
    Amount(denom, Some(n), 0, PrintCoin(n, denom))
  }

  /** Denominations that survive: no digits or spaces, and a denomination of two or more characters does not start
      with a character that also continues a number. */
  predicate CleanDenom(d: string) {
    AllDenom(d) && (|d| >= 2 ==> !NumberChar(d[0]))
  }

  lemma DigitsRead(n: nat)
    ensures GetCoin(Show(n)) == Decimal(Some(n), 0)
  {
    ShowReads(n);
    var s := Show(n);
    assert ReplaceAll(s, ',', '.') == s;
    SplitNone(s, '.');
  }

  lemma SkipNone(s: string)
    requires s == "" || !SpaceChar(s[0])
    ensures SkipSpace(s) == s
  {
  }

  /** A number as it is written: number characters, the last of them a digit. */
  predicate NumberText(w: string) {
    w != "" && AllNumber(w) && IsDigit(w[|w| - 1])
  }

  /** The run of number characters in a number and a denomination, and the match at its start. */
  lemma PrintedRun(w: string, d: string)
    requires NumberText(w) && AllDenom(d)
    ensures var s := w + d;
            && |w| <= NumberRun(s)
            && (d == "" || !NumberChar(d[0]) ==> NumberRun(s) == |w|)
            && forall j :: |w| <= j <= |s| ==> SkipSpace(s[j..]) == s[j..] && (Tail(s[j..]) <==> j < |s|)
  {
    var s, k := w + d, |w|;
    assert forall i :: 0 <= i < k ==> s[i] == w[i];
    if k < NumberRun(s) {
      assert s[k] == s[..NumberRun(s)][k] && s[k] == d[0];
    }
    forall j | k <= j <= |s|
      ensures SkipSpace(s[j..]) == s[j..] && (Tail(s[j..]) <==> j < |s|)
    {
      assert s[j..] == d[j - k..];
      assert j < |s| ==> DenomChar(d[j - k]);
      SkipNone(s[j..]);
    }
  }

  /** A clean denomination is found after its number. */
  lemma CleanIsFound(w: string, d: string)
    requires NumberText(w) && CleanDenom(d) && d != ""
    ensures GetCurrency(w + d) == Some((w, d))
  {
    var s, k := w + d, |w|;
    PrintedRun(w, d);
    assert s[..k] == w && s[k..] == d;
    var r := NumberRun(s);
    assert Tail(s[k..]) && SkipSpace(s[k..]) == d;
    if r == k {
      assert Backtrack(s, r) == k;
    } else {
      assert r == k + 1 == |s|;
      assert !Tail(s[r..]);
      assert Backtrack(s, r) == Backtrack(s, k) == k;
    }
  }

  /** A number alone does not match: its last character is no denomination. */
  lemma {:induction false} NumberOnly(s: string)
    requires s == "" || IsDigit(s[|s| - 1])
    ensures GetCurrency(s) == None
  {
    if s != "" {
      AtStart(s);
      var n := Backtrack(s, NumberRun(s));
      if n > 0 {
        NoTailOfDigit(s[n..]);
      }
      NumberOnly(s[1..]);
    }
  }

  lemma {:induction false} NoTailOfDigit(s: string)
    requires s == "" || IsDigit(s[|s| - 1])
    ensures !Tail(s)
  {
    if s != "" {
      if SpaceChar(s[0]) {
        NoTailOfDigit(s[1..]);
      } else {
        assert !DenomChar(s[|s| - 1]);
      }
    }
  }

  /** The denomination read never holds digits or spaces. */
  lemma {:induction false} ReadDenomIsDenom(s: string)
    ensures GetCurrency(s).Some? ==> AllDenom(GetCurrency(s).value.1)
  {
    if s != "" {
      AtStart(s);
      ReadDenomIsDenom(s[1..]);
    }
  }

  /** A denomination that is not clean is not found. */
  lemma UncleanIsNotFound(w: string, d: string)
    requires NumberText(w) && !CleanDenom(d)
    ensures GetCurrency(w + d).Some? ==> GetCurrency(w + d).value.1 != d
  {
    var s, k := w + d, |w|;
    ReadDenomIsDenom(s);
    if AllDenom(d) {
      PrintedRun(w, d);
      assert s[k] == d[0];
      assert NumberRun(s) > k;
      BacktrackAtLeast(s, NumberRun(s), k + 1);
      var m := Backtrack(s, NumberRun(s));
      assert |s[m..]| < |d|;
    }
  }

  lemma {:induction false} BacktrackAtLeast(s: string, j: nat, k: nat)
    requires 0 < k <= j <= |s| && Tail(s[k..])
    ensures Backtrack(s, j) >= k
  {
    if !Tail(s[j..]) {
      BacktrackAtLeast(s, j - 1, k);
    }
  }

  /** Exactly when a number followed by a denomination is read as that number, with its exponent, and that
      denomination. */
  lemma AmountRoundTrip(w: string, d: string)
    requires NumberText(w) && GetCoin(w).Decimal?
    ensures ReadAmount(w + d) == Some(Amount(d, GetCoin(w).number, GetCoin(w).exp, w + d)) <==> CleanDenom(d)
  {
    if d == "" {
      assert w + d == w;
      NumberOnly(w);
    } else if CleanDenom(d) {
      CleanIsFound(w, d);
    } else {
      UncleanIsNotFound(w, d);
    }
  }

  /** Exactly which printed coins are read back with number and denomination. */
  lemma CoinRoundTrip(n: nat, d: string)
    ensures ReadAmount(PrintCoin(n, d)) == Some(CoinAmount(n, d)) <==> CleanDenom(d)
  {
    ShowReads(n);
    DigitsRead(n);
    assert IsDigit(Show(n)[|Show(n)| - 1]);
    AmountRoundTrip(Show(n), d);
  }

  // ----- a list of amounts -----

  datatype Coin = Coin(n: nat, denom: string)

  function PrintEach(coins: seq<Coin>): seq<string> {
    seq(|coins|, i requires 0 <= i < |coins| => PrintCoin(coins[i].n, coins[i].denom))
  }

  /** `sdk.Coins.String`. */
  function PrintCoins(coins: seq<Coin>): string {
    if coins == [] then "" else Join(PrintEach(coins), ',')
  }

  function CoinAmounts(coins: seq<Coin>): seq<Amount> {
    seq(|coins|, i requires 0 <= i < |coins| => CoinAmount(coins[i].n, coins[i].denom))
  }

  /** The amounts of the first n parts, or the first part `getCoin` cannot read. */
  datatype Read = Read(amounts: seq<Amount>) | Unreadable(amt: string)

  function ReadParts(parts: seq<string>): Read {
    if parts == [] then Read([])
    else
      var front := ReadParts(parts[..|parts| - 1]);
      if front.Unreadable? then front
      else
        var last := ReadAmount(parts[|parts| - 1]);
        if last.None? then Unreadable(parts[|parts| - 1]) else Read(front.amounts + [last.value])
  }

  function ReadAmounts(s: string): Read {
    ReadParts(Split(s, ','))
  }

  /** Every part is read as the amount beside it. */
  ghost predicate Each(parts: seq<string>, amounts: seq<Amount>) {
    |parts| == |amounts| && forall k :: 0 <= k < |parts| ==> ReadAmount(parts[k]) == Some(amounts[k])
  }

  lemma EachLast(parts: seq<string>, amounts: seq<Amount>)
    requires parts != [] && amounts != []
    ensures var m, n := |parts| - 1, |amounts| - 1;
            Each(parts, amounts) <==> Each(parts[..m], amounts[..n]) && ReadAmount(parts[m]) == Some(amounts[n])
  {
    var m, n := |parts| - 1, |amounts| - 1;
    assert forall k :: 0 <= k < m ==> parts[..m][k] == parts[k];
    assert forall k :: 0 <= k < n ==> amounts[..n][k] == amounts[k];
  }

  lemma {:induction false} ReadPartsEach(parts: seq<string>, amounts: seq<Amount>)
    ensures ReadParts(parts) == Read(amounts) <==> Each(parts, amounts)
  {
    if parts != [] && amounts != [] {
      ReadPartsEach(parts[..|parts| - 1], amounts[..|amounts| - 1]);
      ReadOneMore(parts, amounts);
    } else if parts != [] {
      ReadPartsLength(parts);
    }
  }

  lemma ReadOneMore(parts: seq<string>, amounts: seq<Amount>)
    requires parts != [] && amounts != []
    requires var front, some := parts[..|parts| - 1], amounts[..|amounts| - 1];
             ReadParts(front) == Read(some) <==> Each(front, some)
    ensures ReadParts(parts) == Read(amounts) <==> Each(parts, amounts)
  {
    var n := |amounts| - 1;
    EachLast(parts, amounts);
    ReadPartsLast(parts, amounts[..n], amounts[n]);
    assert amounts == amounts[..n] + [amounts[n]];
  }

  lemma ReadPartsLast(parts: seq<string>, front: seq<Amount>, last: Amount)
    requires parts != []
    ensures var m := |parts| - 1;
            ReadParts(parts) == Read(front + [last])
            <==> ReadParts(parts[..m]) == Read(front) && ReadAmount(parts[m]) == Some(last)
  {
    var m := |parts| - 1;
    if ReadParts(parts) == Read(front + [last]) {
      var f := ReadParts(parts[..m]).amounts;
      assert (front + [last])[..|f|] == f && (front + [last])[|f|] == ReadAmount(parts[m]).value;
    }
  }

  lemma ReadPartsLength(parts: seq<string>)
    requires parts != []
    ensures ReadParts(parts) != Read([])
  {
  }

  lemma {:induction false} UnreadableStays(parts: seq<string>, i: nat)
    requires i < |parts| && ReadParts(parts[..i]).Read? && ReadAmount(parts[i]).None?
    ensures ReadParts(parts) == Unreadable(parts[i])
    decreases |parts|
  {
    if |parts| == i + 1 {
      assert parts[..|parts| - 1] == parts[..i];
    } else {
      assert parts[..|parts| - 1][..i] == parts[..i];
      UnreadableStays(parts[..|parts| - 1], i);
    }
  }

  lemma {:induction false} UnreadablePlace(parts: seq<string>) returns (i: nat)
    requires ReadParts(parts).Unreadable?
    ensures i < |parts| && FirstUnread(parts, ReadParts(parts).amt, i)
  {
    var n := |parts| - 1;
    if ReadParts(parts[..n]).Unreadable? {
      i := UnreadablePlace(parts[..n]);
      assert parts[..n][..i] == parts[..i];
    } else {
      i := n;
      ReadPartsReads(parts[..n]);
    }
  }

  /** Exactly when a list fails, and with which part: the first that no number can be read from. */
  lemma ReadPartsFails(parts: seq<string>, amt: string)
    ensures ReadParts(parts) == Unreadable(amt) <==> exists i :: 0 <= i < |parts| && FirstUnread(parts, amt, i)
  {
    if ReadParts(parts) == Unreadable(amt) {
      var i := UnreadablePlace(parts);
    } else if i :| 0 <= i < |parts| && FirstUnread(parts, amt, i) {
      ReadPartsReads(parts[..i]);
      UnreadableStays(parts, i);
    }
  }

  predicate FirstUnread(parts: seq<string>, amt: string, i: nat)
    requires i < |parts|
  {
    parts[i] == amt && ReadAmount(amt).None? && AllRead(parts[..i])
  }

  /** Every part can be read. */
  predicate AllRead(parts: seq<string>) {
    forall i :: 0 <= i < |parts| ==> ReadAmount(parts[i]).Some?
  }

  lemma ReadPartsReads(parts: seq<string>)
    ensures ReadParts(parts).Read? <==> AllRead(parts)
  {
    if ReadParts(parts).Read? {
      ReadPartsEach(parts, ReadParts(parts).amounts);
    }
    if AllRead(parts) {
      ReadPartsEach(parts, seq(|parts|, i requires 0 <= i < |parts| => ReadAmount(parts[i]).value));
    }
  }

  predicate ListDenom(d: string) {
    CleanDenom(d) && ',' !in d
  }

  /** Exactly which printed coin lists are read back: the non-empty ones all of whose denominations are clean and
      free of commas. */
  lemma CoinsRoundTrip(coins: seq<Coin>)
    ensures ReadAmounts(PrintCoins(coins)) == Read(CoinAmounts(coins))
            <==> coins != [] && forall k :: 0 <= k < |coins| ==> ListDenom(coins[k].denom)
  {
    if coins == [] {
      assert Split("", ',') == [""];
      ReadPartsEach([""], []);
    } else {
      var parts, s := PrintEach(coins), PrintCoins(coins);
      SplitCount(s, ',');
      JoinCount(parts, ',');
      ReadPartsEach(Split(s, ','), CoinAmounts(coins));
      forall k | 0 <= k < |coins|
        ensures ',' in parts[k] <==> ',' in coins[k].denom
        ensures ReadAmount(parts[k]) == Some(CoinAmounts(coins)[k]) <==> CleanDenom(coins[k].denom)
      {
        ShowReads(coins[k].n);
        CoinRoundTrip(coins[k].n, coins[k].denom);
      }
      if forall k :: 0 <= k < |parts| ==> ',' !in parts[k] {
        SplitJoin(parts, ',');
      }
    }
  }
}
