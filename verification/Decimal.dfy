/** Integers as text: std::to_string, and std::stol / std::stoi with their error cases. */
module Decimal {
  import opened Wrappers

  predicate IsDigit(c: char) { '0' <= c <= '9' }

  function Digit(d: nat): (c: char)
    requires d < 10
    ensures IsDigit(c) && DigitValue(c) == d
  {
    "0123456789"[d]
  }

  function DigitValue(c: char): nat
    requires IsDigit(c)
  {
    c as int - '0' as int
  }

  function Digits(n: nat): (s: string)
    ensures s != "" && forall i :: 0 <= i < |s| ==> IsDigit(s[i])
  {
    if n < 10 then [Digit(n)] else Digits(n / 10) + [Digit(n % 10)]
  }

  function ToString(n: int): string {
    if n < 0 then "-" + Digits(-n) else Digits(n)
  }

  predicate IsSpace(c: char) { c == ' ' || '\t' <= c <= '\r' }

  function SkipSpaces(s: string): string {
    if s != "" && IsSpace(s[0]) then SkipSpaces(s[1..]) else s
  }

  /** The value of the leading digits; whatever follows them is ignored. */
  function Leading(s: string, acc: nat): nat {
    if s == "" || !IsDigit(s[0]) then acc else Leading(s[1..], 10 * acc + DigitValue(s[0]))
  }

  /** None stands for std::invalid_argument or std::out_of_range. */
  function ParseInt(text: string, low: int, high: int): Option<int> {
    var s := SkipSpaces(text);
    var negative := s != "" && s[0] == '-';
    var digits := if s != "" && (s[0] == '-' || s[0] == '+') then s[1..] else s;
    if digits == "" || !IsDigit(digits[0]) then None
    else
      var magnitude: int := Leading(digits, 0);
      var value := if negative then -magnitude else magnitude;
      if low <= value <= high then Some(value) else None
  }

  const LONG_MIN := -0x8000_0000_0000_0000
  const LONG_MAX := 0x7FFF_FFFF_FFFF_FFFF
  const INT_MIN := -0x8000_0000
  const INT_MAX := 0x7FFF_FFFF

  function Stol(s: string): Option<int> { ParseInt(s, LONG_MIN, LONG_MAX) }

  function Stoi(s: string): Option<int> { ParseInt(s, INT_MIN, INT_MAX) }

  lemma {:induction false} LeadingConcat(a: string, b: string, acc: nat)
    requires forall i :: 0 <= i < |a| ==> IsDigit(a[i])
    ensures Leading(a + b, acc) == Leading(b, Leading(a, acc))
  {
    if a == "" {
      assert a + b == b;
    } else {
      assert (a + b)[1..] == a[1..] + b;
      LeadingConcat(a[1..], b, 10 * acc + DigitValue(a[0]));
    }
  }

  lemma {:induction false} LeadingDigits(n: nat)
    ensures Leading(Digits(n), 0) == n
  {
    if n < 10 {
      assert Leading([Digit(n)], 0) == Leading([], n);
    } else {
      var last := [Digit(n % 10)];
      LeadingDigits(n / 10);
      LeadingConcat(Digits(n / 10), last, 0);
      assert Leading(last, n / 10) == Leading([], 10 * (n / 10) + n % 10);
    }
  }

  /** Printing and parsing an integer gives it back exactly when it is in range. */
  lemma ParsePrinted(n: int, low: int, high: int)
    ensures ParseInt(ToString(n), low, high) == if low <= n <= high then Some(n) else None
  {
    LeadingDigits(if n < 0 then -n else n);
    var s := ToString(n);
    assert SkipSpaces(s) == s;
    assert n < 0 ==> s[1..] == Digits(-n);
  }

  lemma PrintedHasNoColon(n: int)
    ensures forall i :: 0 <= i < |ToString(n)| ==> ToString(n)[i] != ':'
  {
  }

  // ----- which texts are printed, and which are read -----

  /** Printed numbers have no sign but '-', and no leading zeros. */
  lemma {:induction false} PrintedPlainly(n: nat, m: int)
    requires m + n == 0
    ensures ToString(n) == Digits(n) && (n > 0 ==> '1' <= Digits(n)[0] <= '9') && Digits(0) == "0"
    ensures n > 0 ==> ToString(m) == "-" + Digits(n)
  {
    if n >= 10 {
      PrintedPlainly(n / 10, -(n / 10));
    }
  }

  predicate AllSpaces(s: string) { forall i :: 0 <= i < |s| ==> IsSpace(s[i]) }

  lemma {:induction false} SpacesSkipped(spaces: string, s: string)
    requires AllSpaces(spaces) && (s == "" || !IsSpace(s[0]))
    ensures SkipSpaces(spaces + s) == s
  {
    if spaces == "" {
      assert spaces + s == s;
    } else {
      assert (spaces + s)[1..] == spaces[1..] + s;
      SpacesSkipped(spaces[1..], s);
    }
  }

  /** Behind the spaces, a sign and digits are read, and what follows them is not. */
  lemma ReadsDigits(text: string, sign: string, n: int, rest: string, low: int, high: int)
    requires n >= 0 && sign in {"", "+", "-"} && (rest == "" || !IsDigit(rest[0]))
    requires SkipSpaces(text) == sign + (Digits(n) + rest)
    ensures var value := if sign == "-" then -n else n;
      ParseInt(text, low, high) == if low <= value <= high then Some(value) else None
  {
    var s, digits := SkipSpaces(text), Digits(n) + rest;
    assert IsDigit(digits[0]);
    assert s[|sign|..] == digits && s[0] == if sign == "" then digits[0] else sign[0];
    LeadingConcat(Digits(n), rest, 0);
    LeadingDigits(n);
  }

  lemma SignedStart(sign: string, n: nat, rest: string)
    requires sign in {"", "+", "-"}
    ensures var s := sign + (Digits(n) + rest); s != "" && !IsSpace(s[0])
  {
    var s := sign + (Digits(n) + rest);
    assert s[0] == if sign == "" then Digits(n)[0] else sign[0];
  }

  /** Reading stops behind the digits; spaces and one sign may stand in front of them. */
  lemma ReadsInside(spaces: string, plus: bool, n: int, rest: string, low: int, high: int)
    requires AllSpaces(spaces) && (rest == "" || !IsDigit(rest[0])) && (plus ==> n >= 0)
    ensures ParseInt(spaces + ((if plus then "+" else "") + ToString(n) + rest), low, high)
         == if low <= n <= high then Some(n) else None
  {
    var sign := if plus then "+" else if n < 0 then "-" else "";
    var magnitude := if n < 0 then -n else n;
    SignedStart(sign, magnitude, rest);
    assert (if plus then "+" else "") + ToString(n) + rest == sign + (Digits(magnitude) + rest);
    SpacesSkipped(spaces, sign + (Digits(magnitude) + rest));
    ReadsDigits(spaces + (sign + (Digits(magnitude) + rest)), sign, magnitude, rest, low, high);
  }

  /** Without a digit where one is due there is nothing to read. */
  lemma ReadsNothing(spaces: string, sign: string, rest: string, low: int, high: int)
    requires AllSpaces(spaces) && sign in {"", "+", "-"} && (rest == "" || !IsDigit(rest[0]))
    requires sign == "" && rest != "" ==> !IsSpace(rest[0]) && rest[0] != '+' && rest[0] != '-'
    ensures ParseInt(spaces + (sign + rest), low, high) == None
  {
    SpacesSkipped(spaces, sign + rest);
    assert (sign + rest)[|sign|..] == rest;
  }
}
