/** `std::to_string` and `std::stoi`. */
module Decimal {
  import opened Wrappers

  function Digit(d: nat): char
    requires d < 10
  {
    '0' + d as char
  }

  predicate IsDigit(c: char) {
    '0' <= c <= '9'
  }

  function DigitValue(c: char): nat
    requires IsDigit(c)
  {
    (c - '0') as nat
  }

  function Digits(n: nat): string {
    if n < 10 then [Digit(n)] else Digits(n / 10) + [Digit(n % 10)]
  }

  function ToString(n: int): string {
    if n < 0 then "-" + Digits(-n) else Digits(n)
  }

  // ----- parsing -----

  predicate IsSpace(c: char) {
    c == ' ' || '\t' <= c <= '\r'
  }

  function SkipSpace(s: string): string {
    if s != "" && IsSpace(s[0]) then SkipSpace(s[1..]) else s
  }

  /** How many characters from the front are digits. */
  function LeadingDigits(s: string): (n: nat)
    ensures n <= |s| && forall i :: 0 <= i < n ==> IsDigit(s[i])
  {
    if s != "" && IsDigit(s[0]) then 1 + LeadingDigits(s[1..]) else 0
  }

  function Value(s: string): nat
    requires forall i :: 0 <= i < |s| ==> IsDigit(s[i])
  {
    if s == "" then 0 else 10 * Value(s[..|s| - 1]) + DigitValue(s[|s| - 1])
  }

  predicate FitsInt(n: int) {
    -0x8000_0000 <= n < 0x8000_0000
  }

  /** Leading space, an optional sign, then as many digits as there are; the rest is ignored.
      `None` stands for the exceptions: no digits, or a number that does not fit. */
  function Stoi(s: string): (r: Option<int>)
    ensures r.Some? ==> FitsInt(r.value)
  {
    var t := SkipSpace(s);
    var negative := t != "" && t[0] == '-';
    var u := if t != "" && (t[0] == '-' || t[0] == '+') then t[1..] else t;
    var n := LeadingDigits(u);
    if n == 0 then None
    else
      var v: int := Value(u[..n]);
      var r := if negative then -v else v;
      if FitsInt(r) then Some(r) else None
  }

  // ----- they are inverse -----

  lemma DigitRoundTrip(d: nat)
    requires d < 10
    ensures IsDigit(Digit(d)) && DigitValue(Digit(d)) == d && Digit(d) != '-' && Digit(d) != '+' && !IsSpace(Digit(d))
  {
  }

  lemma {:induction false} DigitsValue(n: nat)
    ensures Digits(n) != "" && (forall i :: 0 <= i < |Digits(n)| ==> IsDigit(Digits(n)[i])) && Value(Digits(n)) == n
  {
    if n < 10 {
      DigitRoundTrip(n);
      var s := [Digit(n)];
      assert s[..|s| - 1] == "" && Value("") == 0;
    } else {
      DigitsValue(n / 10);
      DigitRoundTrip(n % 10);
      assert Digits(n)[..|Digits(n)| - 1] == Digits(n / 10);
    }
  }

  lemma {:induction false} AllDigits(s: string)
    requires forall i :: 0 <= i < |s| ==> IsDigit(s[i])
    ensures LeadingDigits(s) == |s|
  {
    if s != "" {
      AllDigits(s[1..]);
    }
  }

  /** Printing and parsing give the number back exactly if it fits an int; otherwise parsing throws. */
  lemma PrintParse(n: int)
    ensures Stoi(ToString(n)) == if FitsInt(n) then Some(n) else None
  {
    var ds := Digits(if n < 0 then -n else n);
    DigitsValue(if n < 0 then -n else n);
    AllDigits(ds);
    assert IsDigit(ds[0]);
    assert ds[..|ds|] == ds;
    var s := ToString(n);
    assert SkipSpace(s) == s;
    if n < 0 {
      assert s[1..] == ds;
    }
  }

  /** An `int` has 32 bits. */
  lemma IntLimits()
    ensures Stoi(ToString(2147483647)) == Some(2147483647) && Stoi(ToString(2147483648)) == None
    ensures Stoi(ToString(-2147483648)) == Some(-2147483648) && Stoi(ToString(-2147483649)) == None
  {
    hide ToString, Stoi;
    PrintParse(2147483647);
    PrintParse(2147483648);
    PrintParse(-2147483648);
    PrintParse(-2147483649);
  }

  // ----- what is printed and what is read -----

  const DIGITS := "0123456789"

  lemma DigitIs(d: nat)
    requires d < 10
    ensures Digit(d) == DIGITS[d] && forall c :: IsDigit(c) <==> c in DIGITS
  {
    assert DIGITS == ['0', '1', '2', '3', '4', '5', '6', '7', '8', '9'];
    forall c: char
      ensures IsDigit(c) <==> c in DIGITS
    {
      if IsDigit(c) {
        assert DIGITS[c as int - '0' as int] == c;
      }
    }
  }

  /** Zero is "0", any other number is its tens followed by its ones, and a negative number is a minus
      sign followed by its absolute value. */
  lemma PrintsDecimal(n: int)
    requires n >= 0
    ensures ToString(n) == if n < 10 then [DIGITS[n]] else ToString(n / 10) + [DIGITS[n % 10]]
    ensures n > 0 ==> ToString(-n) == "-" + ToString(n)
  {
    DigitIs(n % 10);
  }

  /** So the sign is there exactly for negative numbers, all else are digits, and the first of them is
      not zero unless the number is. */
  lemma PrintedShape(n: int)
    ensures var s := ToString(n);
            && s != "" && (s[0] == '-' <==> n < 0)
            && (forall i :: (if n < 0 then 1 else 0) <= i < |s| ==> s[i] in DIGITS)
            && |s| > (if n < 0 then 1 else 0)
            && (s[if n < 0 then 1 else 0] == '0' <==> n == 0)
  {
    var m := if n < 0 then -n else n;
    DigitsShape(m);
    DigitIs(0);
    var s := ToString(n);
    var at := if n < 0 then 1 else 0;
    assert s[at..] == Digits(m);
    forall i | at <= i < |s|
      ensures s[i] in DIGITS
    {
      assert s[i] == s[at..][i - at];
    }
    assert s[at] == s[at..][0];
  }

  lemma {:induction false} DigitsShape(n: nat)
    ensures Digits(n) != "" && forall i :: 0 <= i < |Digits(n)| ==> IsDigit(Digits(n)[i])
    ensures Digits(n)[0] == '0' <==> n == 0
  {
    DigitRoundTrip(n % 10);
    if n >= 10 {
      DigitsShape(n / 10);
    }
  }

  /** The number a string of digits stands for, whatever zeros it starts with. */
  lemma {:induction false} ValueIs(s: string, c: char)
    requires (forall i :: 0 <= i < |s| ==> IsDigit(s[i])) && IsDigit(c)
    ensures Value([c]) < 10 && DIGITS[Value([c])] == c
    ensures Value(s + [c]) == 10 * Value(s) + Value([c])
  {
    assert [c][..0] == "" && (s + [c])[..|s|] == s;
    DigitIs(DigitValue(c));
  }

  /** What `std::isspace` accepts: tab to carriage return, and the space. */
  predicate Blank(s: string) {
    forall i :: 0 <= i < |s| ==> s[i] as int in {9, 10, 11, 12, 13, 32}
  }

  lemma SpaceIs(c: char)
    ensures IsSpace(c) <==> Blank([c])
  {
    assert [c][0] == c;
    assert '\t' as int == 9 && '\r' as int == 13 && ' ' as int == 32;
  }

  /** A text as the parser sees it. The parts are the longest possible: the digits are not followed by
      one, and where there are neither sign nor digits the rest starts with none of the first three. */
  predicate Parts(space: string, sign: string, digits: string, rest: string) {
    && Blank(space) && (sign == "" || sign == "+" || sign == "-")
    && (forall i :: 0 <= i < |digits| ==> digits[i] in DIGITS)
    && (rest != "" ==> rest[0] !in DIGITS)
    && (rest != "" && sign == "" && digits == "" ==> !Blank(rest[..1]) && rest[0] != '+' && rest[0] != '-')
  }

  /** The number that sign and digits stand for. */
  function Signed(sign: string, digits: string): int
    requires forall i :: 0 <= i < |digits| ==> IsDigit(digits[i])
  {
    var v: int := Value(digits);
    if sign == "-" then -v else v
  }

  /** What is read is the digits under the sign, and nothing exactly if there are none or the number
      does not fit. With `PartsOf` this says it of every text. */
  lemma StoiReads(space: string, sign: string, digits: string, rest: string)
    requires Parts(space, sign, digits, rest)
    ensures forall i :: 0 <= i < |digits| ==> IsDigit(digits[i])
    ensures var n := Signed(sign, digits);
            Stoi(space + sign + digits + rest) == if digits != "" && FitsInt(n) then Some(n) else None
  {
    DigitIs(0);
    hide SkipSpace, LeadingDigits, Value, FitsInt, Blank, IsSpace, IsDigit;
    var u := digits + rest;
    Regroup(space, sign, digits, rest);
    NoSpaceFirst(sign, digits, rest);
    SkipsSpace(space, sign + u);
    SignFirst(sign, u);
    LeadingDigitsAre(digits, rest);
    assert u[..|digits|] == digits;
  }

  lemma SignFirst(sign: string, u: string)
    requires sign == "" || sign == "+" || sign == "-"
    ensures var t := sign + u;
            && (sign == "" ==> t == u)
            && (sign != "" ==> t != "" && t[0] == sign[0] && (t[0] == '-' <==> sign == "-") && t[1..] == u)
  {
  }

  lemma NoSpaceFirst(sign: string, digits: string, rest: string)
    requires Parts("", sign, digits, rest)
    ensures var t := sign + digits + rest;
            && (t != "" ==> !IsSpace(t[0]))
            && (t != "" && (t[0] == '-' || t[0] == '+') ==> sign != "")
  {
    DigitIs(0);
    var t := sign + digits + rest;
    if t != "" {
      SpaceIs(t[0]);
      if sign == "" && digits != "" {
        assert t[0] == digits[0];
      } else if sign == "" {
        assert t == rest && rest[..1] == [t[0]];
      }
    }
  }

  lemma {:induction false} SkipsSpace(space: string, t: string)
    requires Blank(space) && (t != "" ==> !IsSpace(t[0]))
    ensures SkipSpace(space + t) == t
  {
    if space == "" {
      assert space + t == t;
    } else {
      SpaceIs(space[0]);
      assert (space + t)[1..] == space[1..] + t;
      SkipsSpace(space[1..], t);
    }
  }

  lemma {:induction false} LeadingDigitsAre(digits: string, rest: string)
    requires (forall i :: 0 <= i < |digits| ==> IsDigit(digits[i])) && (rest != "" ==> !IsDigit(rest[0]))
    ensures LeadingDigits(digits + rest) == |digits|
  {
    if digits == "" {
      assert digits + rest == rest;
    } else {
      assert (digits + rest)[1..] == digits[1..] + rest;
      LeadingDigitsAre(digits[1..], rest);
    }
  }

  /** Every text has such parts. */
  lemma PartsOf(s: string) returns (space: string, sign: string, digits: string, rest: string)
    ensures s == space + sign + digits + rest && Parts(space, sign, digits, rest)
  {
    hide LeadingDigits, SkipSpace, Blank, IsSpace, IsDigit;
    var t, u: string;
    space, t := SpaceOf(s);
    sign, u := SignOf(t);
    digits, rest := DigitsOf(u);
    Regroup(space, sign, digits, rest);
    if rest != "" && sign == "" && digits == "" {
      NothingBefore(rest);
      SpaceIs(rest[0]);
      assert rest[..1] == [rest[0]];
    }
  }

  lemma NothingBefore(rest: string)
    ensures "" + rest == rest
  {
  }

  lemma Regroup(a: string, b: string, c: string, d: string)
    ensures a + b + c + d == a + (b + (c + d)) && b + c + d == b + (c + d)
  {
  }

  lemma SignOf(t: string) returns (sign: string, u: string)
    ensures t == sign + u && (sign == "" || sign == "+" || sign == "-")
    ensures sign == "" && t != "" ==> t[0] != '+' && t[0] != '-'
  {
    if t != "" && t[0] == '-' {
      sign, u := "-", t[1..];
    } else if t != "" && t[0] == '+' {
      sign, u := "+", t[1..];
    } else {
      sign, u := "", t;
    }
  }

  lemma {:induction false} SpaceOf(s: string) returns (space: string, t: string)
    ensures s == space + t && Blank(space) && (t != "" ==> !IsSpace(t[0]))
  {
    if s == "" || !IsSpace(s[0]) {
      space, t := "", s;
    } else {
      var more: string;
      more, t := SpaceOf(s[1..]);
      space := [s[0]] + more;
      SpaceIs(s[0]);
      assert [s[0]][0] == space[0] && forall i :: 0 < i < |space| ==> space[i] == more[i - 1];
      assert s == [s[0]] + s[1..];
    }
  }

  lemma DigitsOf(u: string) returns (digits: string, rest: string)
    ensures u == digits + rest && (rest != "" ==> rest[0] !in DIGITS)
    ensures forall i :: 0 <= i < |digits| ==> digits[i] in DIGITS
  {
    DigitIs(0);
    var n := LeadingDigits(u);
    LeadingDigitsStop(u);
    digits, rest := u[..n], u[n..];
  }

  lemma {:induction false} LeadingDigitsStop(s: string)
    ensures LeadingDigits(s) < |s| ==> !IsDigit(s[LeadingDigits(s)])
  {
    if s != "" && IsDigit(s[0]) {
      LeadingDigitsStop(s[1..]);
    }
  }
}
