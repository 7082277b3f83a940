/**
 Decimal numerals as the client reads and prints them: `std::to_string` on the
 way out, the regular expressions `\d+` and `-?\d+` followed by `std::stol` on
 the way in.
 */
module Decimal {

  const INT64_MIN: int := -0x8000_0000_0000_0000
  const INT64_MAX: int := 0x7FFF_FFFF_FFFF_FFFF

  predicate IsDigit(c: char) {
    '0' <= c <= '9'
  }

  /** The text matches `\d*`. */
  predicate AllDigits(s: string) {
    forall k | 0 <= k < |s| :: IsDigit(s[k])
  }

  /** The text matches `\d+`. */
  predicate IsNatural(s: string) {
    s != "" && AllDigits(s)
  }

  /** The text matches `-?\d+`. */
  predicate IsNumeral(s: string) {
    if s != "" && s[0] == '-' then IsNatural(s[1..]) else IsNatural(s)
  }

  function DigitValue(c: char): nat {
    if IsDigit(c) then c as int - '0' as int else 0
  }

  function Digit(d: nat): (c: char)
    requires d < 10
    ensures IsDigit(c) && DigitValue(c) == d
    ensures c == '0' <==> d == 0
  {
    ('0' as int + d) as char
  }

  /** What `std::stol` makes of a digit string, before any range check. */
  function NaturalValue(s: string): nat {
    if s == "" then 0
    else 10 * NaturalValue(s[..|s| - 1]) + DigitValue(s[|s| - 1])
  }

  /** What `std::stol` makes of a signed digit string, before any range check. */
  function NumeralValue(s: string): int {
    if s != "" && s[0] == '-' then -(NaturalValue(s[1..]) as int) else NaturalValue(s)
  }

  /** `std::to_string` of a non-negative integer. */
  function PrintNatural(n: nat): (s: string)
    ensures IsNatural(s)
  {
    if n < 10 then [Digit(n)] else PrintNatural(n / 10) + [Digit(n % 10)]
  }

  lemma {:induction false} SignedNumeral(s: string)
    requires IsNatural(s) && s[0] != '0'
    ensures IsNumeral("-" + s) && "-" + s != "-0"
  {
    assert ("-" + s)[1..] == s;
    assert ("-" + s)[1] == s[0];
  }

  lemma {:induction false} UnsignedNumeral(s: string)
    requires IsNatural(s)
    ensures IsNumeral(s) && s != "-0"
  {
    assert IsDigit(s[0]);
  }

  /** `std::to_string` of a signed integer. */
  function PrintInteger(i: int): (s: string)
    ensures IsNumeral(s) && s != "-0"
  {
    if i < 0 then
      PrintNaturalFirst(-i);
      SignedNumeral(PrintNatural(-i));
      "-" + PrintNatural(-i)
    else
      UnsignedNumeral(PrintNatural(i));
      PrintNatural(i)
  }

  /** No redundant leading zero. */
  predicate MinimalNatural(s: string) {
    s == "0" || (s != "" && s[0] != '0')
  }

  /** No redundant leading zero and no negative zero. */
  predicate MinimalNumeral(s: string) {
    if s != "" && s[0] == '-' then s[1..] != "0" && MinimalNatural(s[1..]) else MinimalNatural(s)
  }

  /** Printed naturals start with a zero only when they are zero. */
  lemma {:induction false} PrintNaturalFirst(n: nat)
    ensures PrintNatural(n)[0] == '0' <==> n == 0
    ensures n == 0 ==> PrintNatural(n) == "0"
    ensures MinimalNatural(PrintNatural(n))
  {
    if n >= 10 {
      PrintNaturalFirst(n / 10);
    }
  }

  /** Reading a printed natural gives it back. */
  lemma {:induction false} NaturalRoundTrip(n: nat)
    ensures NaturalValue(PrintNatural(n)) == n
  {
    var s := PrintNatural(n);
    if n >= 10 {
      NaturalRoundTrip(n / 10);
      assert s[..|s| - 1] == PrintNatural(n / 10);
    } else {
      assert s[..|s| - 1] == "";
    }
  }

  lemma {:induction false} NegativeRoundTrip(n: int)
    requires n > 0
    ensures NumeralValue("-" + PrintNatural(n)) == -n && MinimalNumeral("-" + PrintNatural(n))
  {
    NaturalRoundTrip(n);
    PrintNaturalFirst(n);
    assert ("-" + PrintNatural(n))[1..] == PrintNatural(n);
  }

  /** Reading a printed integer gives it back, whatever its sign. */
  lemma {:induction false} IntegerRoundTrip(i: int)
    ensures NumeralValue(PrintInteger(i)) == i
    ensures MinimalNumeral(PrintInteger(i))
  {
    if i < 0 {
      NegativeRoundTrip(-i);
    } else {
      NaturalRoundTrip(i);
      PrintNaturalFirst(i);
    }
  }

  /** A digit string of non-zero leading digit has a positive value. */
  lemma {:induction false} NaturalPositive(s: string)
    requires IsNatural(s) && s[0] != '0'
    ensures NaturalValue(s) > 0
  {
    if |s| > 1 {
      NaturalPositive(s[..|s| - 1]);
    }
  }

  /** A digit string is worth nothing exactly when it is all zeros. */
  lemma {:induction false} NaturalZero(s: string)
    requires AllDigits(s)
    ensures NaturalValue(s) == 0 <==> forall k | 0 <= k < |s| :: s[k] == '0'
  {
    if s != "" {
      NaturalZero(s[..|s| - 1]);
    }
  }

  /** A minimal numeral is what its value prints as. */
  lemma {:induction false} MinimalPrints(s: string)
    requires IsNatural(s) && MinimalNatural(s)
    ensures PrintNatural(NaturalValue(s)) == s
  {
    if |s| == 1 {
      assert s[..0] == "";
      assert s == [Digit(DigitValue(s[0]))];
    } else {
      var front, d := s[..|s| - 1], s[|s| - 1];
      NaturalPositive(front);
      MinimalPrints(front);
      var n := NaturalValue(s);
      assert n / 10 == NaturalValue(front) && n % 10 == DigitValue(d);
      assert s == front + [d];
    }
  }

  /** Dropping a leading zero does not change the value. */
  lemma {:induction false} LeadingZero(s: string)
    requires IsNatural(s) && s[0] == '0'
    ensures NaturalValue(s) == NaturalValue(s[1..])
  {
    if |s| == 1 {
      assert s[..0] == "" && s[1..] == "";
    } else {
      LeadingZero(s[..|s| - 1]);
      assert s[..|s| - 1][1..] == s[1..][..|s| - 2];
    }
  }

  /** Printing the value of a digit string never lengthens it, and keeps its length only when it is minimal. */
  lemma {:induction false} NaturalNormal(s: string)
    requires IsNatural(s)
    ensures MinimalNatural(s) ==> PrintNatural(NaturalValue(s)) == s
    ensures !MinimalNatural(s) ==> |PrintNatural(NaturalValue(s))| < |s|
  {
    if MinimalNatural(s) {
      MinimalPrints(s);
    } else {
      LeadingZero(s);
      NaturalNormal(s[1..]);
    }
  }

  /** The same for signed numerals; "-0" is excluded because the parser refuses it. */
  lemma {:induction false} NumeralNormal(s: string)
    requires IsNumeral(s) && s != "-0"
    ensures MinimalNumeral(s) ==> PrintInteger(NumeralValue(s)) == s
    ensures !MinimalNumeral(s) ==> |PrintInteger(NumeralValue(s))| < |s|
  {
    if s[0] == '-' {
      var digits := s[1..];
      assert s == "-" + digits;
      NaturalNormal(digits);
      PrintNaturalFirst(NaturalValue(digits));
    } else {
      NaturalNormal(s);
    }
  }

  /** All ten digits, in their places. */
  lemma {:induction false} TenDigits()
    ensures forall d: nat | d < 10 :: Digit(d) == "0123456789"[d]
    ensures NaturalValue("10") == 10 && NaturalValue("12") == 12 && NaturalValue("21") == 21
    ensures NumeralValue("-42") == -42
  {
    Tens("1", '0');
    Tens("1", '2');
    Tens("2", '1');
    Tens("4", '2');
    assert "1"[..0] == "" && "2"[..0] == "" && "4"[..0] == "";
    assert "-42"[1..] == "42";
  }

  lemma {:induction false} Tens(s: string, c: char)
    ensures NaturalValue(s + [c]) == 10 * NaturalValue(s) + DigitValue(c)
  {
    assert (s + [c])[..|s|] == s;
  }
}
