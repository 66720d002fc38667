/**
 * Decimal text for integers: the `%d` / template-string formatting used for
 * dock names ("Dock 7") and Go's strconv.Atoi used for path parameters.
 */
module Decimal {
  import opened Wrappers

  /** Range of Go's `int` on the 64-bit targets the server runs on. */
  const MinInt64: int := -0x8000_0000_0000_0000
  const MaxInt64: int := 0x7fff_ffff_ffff_ffff

  predicate IsDigit(c: char) { '0' <= c <= '9' }

  predicate AllDigits(s: string) { forall i :: 0 <= i < |s| ==> IsDigit(s[i]) }

  function DigitChar(d: nat): (c: char)
    requires d < 10
    ensures IsDigit(c)
  {
    ('0' as int + d) as char
  }

  function DigitValue(c: char): nat
    requires IsDigit(c)
  {
    c as int - '0' as int
  }

  /** Shortest decimal text of `n`, without sign or leading zeros. */
  function NatToString(n: nat): (s: string)
    ensures |s| >= 1 && AllDigits(s)
    ensures n < 10 <==> |s| == 1
    ensures |s| > 1 ==> s[0] != '0'
  {
    if n < 10 then [DigitChar(n)] else NatToString(n / 10) + [DigitChar(n % 10)]
  }

  /** An integer as Go's `%d` and JavaScript's `${n}` print it. */
  function IntToString(i: int): (s: string)
    ensures |s| >= 1
    ensures s[0] == '-' <==> i < 0
  {
    if i < 0 then "-" + NatToString(-i) else NatToString(i)
  }

  /** The number a string of decimal digits denotes. */
  function DigitsValue(s: string): nat
    requires AllDigits(s)
    decreases |s|
  {
    if s == [] then 0 else DigitsValue(s[..|s| - 1]) * 10 + DigitValue(s[|s| - 1])
  }

  /**
   * strconv.Atoi on a 64-bit target: an optional sign, then at least one
   * decimal digit and nothing else; a value outside the int64 range is an error.
   */
  function Atoi(s: string): (r: Option<int>)
    ensures r.Some? ==> MinInt64 <= r.value <= MaxInt64
    ensures r.Some? ==> s != [] && (IsDigit(s[0]) || ((s[0] == '+' || s[0] == '-') && |s| > 1))
    ensures r.Some? ==> AllDigits(s[1..])
    ensures r.Some? && r.value < 0 ==> s[0] == '-'
  {
    var negative := |s| > 0 && s[0] == '-';
    var body := if |s| > 0 && (s[0] == '+' || s[0] == '-') then s[1..] else s;
    if body == [] || !AllDigits(body) then None
    else
      var v := if negative then -(DigitsValue(body) as int) else DigitsValue(body) as int;
      if MinInt64 <= v <= MaxInt64 then Some(v) else None
  }

  /** Text strconv.Atoi accepts apart from range: a sign or a digit, then digits only, with at least one digit. */
  predicate IntegerText(s: string)
  {
    && |s| > 0
    && (IsDigit(s[0]) || ((s[0] == '+' || s[0] == '-') && |s| > 1))
    && AllDigits(s[1..])
  }

  /** The value of an integer text: "+n" is worth n, "-n" minus n, a bare "n" n. */
  function Denoted(s: string): int
    requires IntegerText(s)
  {
    if IsDigit(s[0]) then DigitValue(s[0]) * Power10(|s| - 1) + DigitsValue(s[1..])
    else if s[0] == '-' then -(DigitsValue(s[1..]) as int)
    else DigitsValue(s[1..])
  }

  function Power10(n: nat): nat
  {
    if n == 0 then 1 else 10 * Power10(n - 1)
  }

  /** The digits after a leading digit add to that digit's place value. */
  lemma {:induction false} DigitsValueFront(s: string)
    requires |s| > 0 && AllDigits(s)
    ensures DigitsValue(s) == DigitValue(s[0]) * Power10(|s| - 1) + DigitsValue(s[1..])
    decreases |s|
  {
    if |s| > 1 {
      var init, tail := s[..|s| - 1], s[1..];
      DigitsValueFront(init);
      assert init[1..] == tail[..|tail| - 1];
      var a := DigitsValue(init[1..]);
      var last := DigitValue(s[|s| - 1]);
      assert DigitsValue(tail) == a * 10 + last;
      PlaceValueStep(DigitValue(s[0]), Power10(|s| - 2), a, last);
    }
  }

  lemma PlaceValueStep(d: int, p: int, a: int, b: int)
    ensures (d * p + a) * 10 + b == d * (10 * p) + (a * 10 + b)
  {
  }

  /**
   * strconv.Atoi succeeds exactly on an integer text whose value fits in
   * int64, and then answers that value: "12x", "-", "+" and "" fail, and
   * "+7" is worth 7.
   */
  lemma AtoiMeaning(s: string)
    ensures Atoi(s) == if IntegerText(s) && MinInt64 <= Denoted(s) <= MaxInt64 then Some(Denoted(s)) else None
  {
    if IntegerText(s) && IsDigit(s[0]) {
      assert AllDigits(s);
      DigitsValueFront(s);
    }
  }

  /** Reading back the digits of NatToString(n) gives n. */
  lemma {:induction false} NatToStringValue(n: nat)
    ensures DigitsValue(NatToString(n)) == n
  {
    if n >= 10 {
      var s := NatToString(n);
      NatToStringValue(n / 10);
      assert s[..|s| - 1] == NatToString(n / 10);
    }
  }

  /** Atoi reads an unsigned string of digits as its value. */
  lemma AtoiDigits(s: string)
    requires s != [] && AllDigits(s) && DigitsValue(s) <= MaxInt64
    ensures Atoi(s) == Some(DigitsValue(s) as int)
  {
    assert IsDigit(s[0]);
  }

  /** Atoi reads a minus sign followed by digits as the negated value. */
  lemma AtoiNegative(s: string)
    requires s != [] && AllDigits(s) && DigitsValue(s) <= -MinInt64
    ensures Atoi("-" + s) == Some(-(DigitsValue(s) as int))
  {
    var t := "-" + s;
    assert t[0] == '-';
    assert t[1..] == s;
  }

  /** Atoi undoes IntToString on every int64 value. */
  lemma AtoiOfIntToString(i: int)
    requires MinInt64 <= i <= MaxInt64
    ensures Atoi(IntToString(i)) == Some(i)
  {
    if i < 0 {
      NatToStringValue(-i);
      AtoiNegative(NatToString(-i));
    } else {
      NatToStringValue(i);
      AtoiDigits(NatToString(i));
    }
  }

  /** Different naturals print differently. */
  lemma NatToStringInjective(a: nat, b: nat)
    requires a != b
    ensures NatToString(a) != NatToString(b)
  {
    NatToStringValue(a);
    NatToStringValue(b);
  }

  /** Different integers print differently, so "Dock 3" and "Dock 4" never clash. */
  lemma IntToStringInjective(i: int, j: int)
    requires i != j
    ensures IntToString(i) != IntToString(j)
  {
    if i < 0 && j < 0 {
      NatToStringInjective(-i, -j);
      var a, b := NatToString(-i), NatToString(-j);
      assert ("-" + a)[1..] == a && ("-" + b)[1..] == b;
    } else if i >= 0 && j >= 0 {
      NatToStringInjective(i, j);
    }
  }
}
