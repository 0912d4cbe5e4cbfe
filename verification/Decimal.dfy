/** std::to_string(int) and std::stoi, the two decimal conversions of the signalling codec. */
module Decimal {
  import opened Wrappers

  const INT_MIN := -0x8000_0000
  const INT_MAX := 0x7FFF_FFFF

  type int32 = n: int | INT_MIN <= n <= INT_MAX

  predicate IsDigit(c: char) { '0' <= c <= '9' }

  predicate IsSpace(c: char) { c == ' ' || '\t' <= c <= '\r' }

  function Digits(n: nat): (s: string)
    ensures |s| > 0 && forall c | c in s :: IsDigit(c)
  {
    var last := ('0' as int + n % 10) as char;
    if n < 10 then [last] else Digits(n / 10) + [last]
  }

  function ToString(n: int): (s: string)
    ensures |s| > 0 && (IsDigit(s[0]) || s[0] == '-') && forall c | c in s :: IsDigit(c) || c == '-'
  {
    if n < 0 then "-" + Digits(-n) else Digits(n)
  }

  function Value(digits: string): int
    requires forall c | c in digits :: IsDigit(c)
  {
    if digits == [] then 0
    else
      var last := digits[|digits| - 1];
      assert last in digits;
      Value(digits[..|digits| - 1]) * 10 + (last as int - '0' as int)
  }

  function SkipSpace(s: string): string {
    if s != [] && IsSpace(s[0]) then SkipSpace(s[1..]) else s
  }

  function LeadingDigits(s: string): (d: string)
    ensures d <= s && forall c | c in d :: IsDigit(c)
    ensures |d| < |s| ==> !IsDigit(s[|d|])
  {
    if s != [] && IsDigit(s[0]) then [s[0]] + LeadingDigits(s[1..]) else []
  }

  /** std::stoi: leading space, an optional sign, then digits up to the first other character;
      None where it throws, for want of a digit or because the value does not fit an int. */
  function Stoi(s: string): (r: Option<int32>) {
    var t := SkipSpace(s);
    var signed := t != [] && (t[0] == '+' || t[0] == '-');
    var digits := LeadingDigits(if signed then t[1..] else t);
    if digits == [] then None
    else
      var n: int := if signed && t[0] == '-' then -Value(digits) else Value(digits);
      if INT_MIN <= n <= INT_MAX then Some(n) else None
  }

  lemma {:induction false} ValueOfDigits(n: nat)
    ensures Value(Digits(n)) == n
  {
    if n >= 10 {
      ValueOfDigits(n / 10);
      var s := Digits(n);
      assert s[..|s| - 1] == Digits(n / 10);
    }
  }

  lemma {:induction false} AllDigitsLead(s: string)
    requires forall c | c in s :: IsDigit(c)
    ensures LeadingDigits(s) == s
  {
    if s != [] {
      assert forall c | c in s[1..] :: c in s;
      AllDigitsLead(s[1..]);
    }
  }

  lemma SignedDigits(n: int)
    ensures var s := ToString(n);
            var unsigned := if n < 0 then s[1..] else s;
            !IsSpace(s[0]) && s[0] != '+' && (s[0] == '-' <==> n < 0) && unsigned == Digits(if n < 0 then -n else n)
  {
    var digits := Digits(if n < 0 then -n else n);
    assert IsDigit(digits[0]) by { assert digits[0] in digits; }
  }

  function Tens(k: nat): nat {
    if k == 0 then 1 else 10 * Tens(k - 1)
  }

  /** The value of a run of digits is positional in base ten. */
  lemma {:induction false} ValueIsPositional(digits: string)
    requires digits != "" && forall c | c in digits :: '0' <= c <= '9'
    ensures forall c | c in digits[1..] :: '0' <= c <= '9'
    ensures Value(digits) == (digits[0] as int - '0' as int) * Tens(|digits| - 1) + Value(digits[1..])
  {
    hide Value;
    var front, tail, last := digits[..|digits| - 1], digits[1..], |digits| - 1;
    assert forall c | c in tail :: c in digits;
    if last > 0 {
      assert forall c | c in front :: c in digits;
      ValueIsPositional(front);
      assert front[1..] == tail[..last - 1] && tail[last - 1] == digits[last] && front[0] == digits[0];
      OneMoreDigit(digits);
      OneMoreDigit(tail);
    } else {
      OneMoreDigit(digits);
      assert front == "" && tail == "";
    }
  }

  lemma OneMoreDigit(digits: string)
    requires digits != "" && forall c | c in digits :: IsDigit(c)
    ensures forall c | c in digits[..|digits| - 1] :: IsDigit(c)
    ensures Value(digits) == Value(digits[..|digits| - 1]) * 10 + (digits[|digits| - 1] as int - '0' as int)
    ensures Value("") == 0
  {
  }

  /** A decimal numeral without a superfluous zero or sign. */
  predicate Canonical(s: string) {
    var digits := if s != "" && s[0] == '-' then s[1..] else s;
    digits != "" && (forall c | c in digits :: '0' <= c <= '9') && (digits[0] == '0' ==> s == "0")
  }

  function NumeralValue(s: string): int
    requires Canonical(s)
  {
    if s[0] == '-' then -Value(s[1..]) else Value(s)
  }

  lemma {:induction false} DigitsAreCanonical(n: nat)
    ensures Digits(n)[0] == '0' <==> n == 0
    ensures n == 0 ==> Digits(n) == "0"
  {
    if n >= 10 {
      DigitsAreCanonical(n / 10);
    }
  }

  lemma {:induction false} DigitsOfValue(digits: string)
    requires digits != "" && (forall c | c in digits :: IsDigit(c)) && (digits[0] == '0' ==> digits == "0")
    ensures Value(digits) >= 0 && Digits(Value(digits)) == digits && (digits != "0" ==> Value(digits) > 0)
  {
    var front, last := digits[..|digits| - 1], digits[|digits| - 1];
    assert last in digits;
    if front != "" {
      assert forall c | c in front :: c in digits;
      assert front[0] == digits[0];
      DigitsOfValue(front);
      assert Value(digits) / 10 == Value(front);
    }
  }

  lemma PrintedIsCanonical(n: int)
    ensures Canonical(ToString(n)) && NumeralValue(ToString(n)) == n
  {
    hide Value, Digits, IsSpace;
    var magnitude: nat := if n < 0 then -n else n;
    DigitsAreCanonical(magnitude);
    ValueOfDigits(magnitude);
    SignedDigits(n);
  }

  lemma CanonicalIsPrinted(s: string)
    requires Canonical(s)
    ensures s == ToString(NumeralValue(s))
  {
    hide Value, Digits;
    DigitsOfValue(if s[0] == '-' then s[1..] else s);
  }

  /** An integer is printed as the one canonical numeral of its value. */
  lemma PrintedExactly(n: int, s: string)
    ensures s == ToString(n) <==> Canonical(s) && NumeralValue(s) == n
  {
    hide Canonical, NumeralValue, ToString;
    PrintedIsCanonical(n);
    if Canonical(s) {
      CanonicalIsPrinted(s);
    }
  }

  /** Reading back a printed integer gives that integer, or throws exactly when it is no int. */
  lemma StoiOfToString(n: int)
    ensures Stoi(ToString(n)) == if INT_MIN <= n <= INT_MAX then Some(n) else None
  {
    SignedDigits(n);
    var magnitude: nat := if n < 0 then -n else n;
    ValueOfDigits(magnitude);
    AllDigitsLead(Digits(magnitude));
    var s := ToString(n);
    assert SkipSpace(s) == s;
    if n < 0 {
      assert s[0] == '-' && s[1..] == Digits(magnitude);
    } else {
      assert s[0] != '-' && s[0] != '+' && s == Digits(magnitude);
    }
  }

  lemma {:induction false} SpaceIsSkipped(space: string, s: string)
    requires (forall c | c in space :: IsSpace(c)) && (s == "" || !IsSpace(s[0]))
    ensures SkipSpace(space + s) == s
  {
    if space == "" {
      assert space + s == s;
    } else {
      assert (space + s)[1..] == space[1..] + s && space[0] in space;
      assert forall c | c in space[1..] :: c in space;
      SpaceIsSkipped(space[1..], s);
    }
  }

  lemma {:induction false} DigitsLead(digits: string, rest: string)
    requires (forall c | c in digits :: IsDigit(c)) && (rest == "" || !IsDigit(rest[0]))
    ensures LeadingDigits(digits + rest) == digits
  {
    if digits == "" {
      assert digits + rest == rest;
    } else {
      assert (digits + rest)[1..] == digits[1..] + rest && digits[0] in digits;
      assert forall c | c in digits[1..] :: c in digits;
      DigitsLead(digits[1..], rest);
    }
  }

  lemma StoiOfParts(space: string, sign: string, digits: string, rest: string)
    requires forall c | c in space :: IsSpace(c)
    requires sign == "" || sign == "+" || sign == "-"
    requires forall c | c in digits :: IsDigit(c)
    requires rest == "" || !IsDigit(rest[0])
    requires sign == "" && digits == "" && rest != "" ==> !IsSpace(rest[0]) && rest[0] != '+' && rest[0] != '-'
    ensures var n := if sign == "-" then -Value(digits) else Value(digits);
            Stoi(space + (sign + digits + rest)) ==
            if digits != "" && INT_MIN <= n <= INT_MAX then Some(n) else None
  {
    hide SkipSpace, LeadingDigits, Value;
    var t := sign + digits + rest;
    if digits != "" { assert digits[0] in digits; }
    if sign == "" {
      assert t == digits + rest;
    } else {
      assert t[0] == sign[0] && t[1..] == digits + rest;
    }
    SpaceIsSkipped(space, t);
    DigitsLead(digits, rest);
  }

  lemma SpaceIs(c: char)
    ensures IsSpace(c) <==> c in " \t\U{000A}\U{000B}\U{000C}\r"
  {
  }

  /** std::stoi on any text: leading space is skipped, one sign is allowed, the digits that follow are read
      whatever comes after them, and it throws exactly when there are none or their value is no int. */
  lemma StoiReads(space: string, sign: string, digits: string, rest: string)
    requires forall c | c in space :: c in " \t\U{000A}\U{000B}\U{000C}\r"
    requires sign == "" || sign == "+" || sign == "-"
    requires forall c | c in digits :: '0' <= c <= '9'
    requires rest == "" || !('0' <= rest[0] <= '9')
    requires sign == "" && digits == "" && rest != "" ==> rest[0] !in " \t\U{000A}\U{000B}\U{000C}\r+-"
    ensures var n := if sign == "-" then -Value(digits) else Value(digits);
            Stoi(space + (sign + digits + rest)) ==
            if digits != "" && -2147483648 <= n <= 2147483647 then Some(n) else None
  {
    hide Stoi, Value, IsSpace;
    forall c | c in space ensures IsSpace(c) { SpaceIs(c); }
    if rest != "" { SpaceIs(rest[0]); }
    StoiOfParts(space, sign, digits, rest);
  }
}
