/**
 How a number is spelled in a text: white space, a sign, leading zeros, and what `Show`
 prints.  The lemmas say that trimming and taking digits off a text finds exactly this.
 */
module Numerals {
  import opened Decimal

  /** The white space of the C locale. */
  predicate White(s: string) { forall i :: 0 <= i < |s| ==> s[i] == ' ' || 9 <= s[i] as int <= 13 }

  predicate StartsWithDigit(s: string) { s != "" && '0' <= s[0] <= '9' }

  function Zeros(z: nat): (s: string)
    ensures |s| == z && forall i :: 0 <= i < z ==> s[i] == '0'
  {
    seq(z, _ => '0')
  }

  /** White space, a sign or none, leading zeros, a printed number, and a rest that does not go on with digits. */
  predicate Spells(s: string, white: string, sign: string, z: nat, n: nat, rest: string) {
    && s == white + (sign + (Zeros(z) + Show(n) + rest))
    && White(white) && sign in {"", "+", "-"} && !StartsWithDigit(rest)
  }

  // ----- a spelled number is found -----

  lemma {:induction false} TrimWhite(white: string, t: string)
    requires White(white) && (t == "" || !Space(t[0]))
    ensures Trimmed(white + t) == t
  {
    if white == "" {
      assert white + t == t;
    } else {
      TrimWhite(white[1..], t);
      assert (white + t)[1..] == white[1..] + t;
    }
  }

  lemma {:induction false} ZerosValue(z: nat, digits: string)
    requires AllDigits(digits)
    ensures AllDigits(Zeros(z) + digits) && Value(Zeros(z) + digits) == Value(digits)
  {
    var s := Zeros(z) + digits;
    if s == "" {
    } else if digits == "" {
      ZerosValue(z - 1, "");
      assert s[..|s| - 1] == Zeros(z - 1) + "";
    } else {
      ZerosValue(z, digits[..|digits| - 1]);
      assert s[..|s| - 1] == Zeros(z) + digits[..|digits| - 1];
    }
  }

  /** A sign in front of digits is told from none. */
  lemma {:induction false} SignFound(t: string, sign: string, digits: string, rest: string)
    requires t == sign + (digits + rest) && sign in {"", "+", "-"} && digits != "" && AllDigits(digits)
    ensures t != "" && (t[0] in {'+', '-'} <==> sign != "") && (t[0] == '-' <==> sign == "-")
    ensures (if t[0] in {'+', '-'} then t[1..] else t) == digits + rest
    ensures (digits + rest)[|digits|..] == rest
  {
    assert Digit(digits[0]) && (digits + rest)[0] == digits[0];
    if sign == "" {
      assert t == digits + rest;
    } else {
      assert t[0] == sign[0] && t[1..] == digits + rest;
    }
  }

  // ----- every text is taken apart -----

  lemma {:induction false} LeadingWhite(s: string) returns (white: string)
    ensures s == white + Trimmed(s) && White(white)
  {
    if s != "" && Space(s[0]) {
      var more := LeadingWhite(s[1..]);
      white := [s[0]] + more;
      OneMoreWhite(s[0], more);
      hide White, Space;
      assert s == [s[0]] + (more + Trimmed(s[1..]));
    } else {
      white := "";
    }
  }

  lemma {:induction false} OneMoreWhite(c: char, white: string)
    requires Space(c) && White(white)
    ensures White([c] + white)
  {
  }

  lemma {:induction false} DigitsStop(u: string)
    ensures !StartsWithDigit(u[|Digits(u)|..]) && u == Digits(u) + u[|Digits(u)|..]
  {
    if u != "" && Digit(u[0]) {
      DigitsStop(u[1..]);
      assert Digits(u)[1..] == Digits(u[1..]);
      assert u[|Digits(u)|..] == u[1..][|Digits(u[1..])|..];
    }
  }

  lemma {:induction false} LastDigit(digits: string) returns (front: string, d: nat)
    requires digits != "" && AllDigits(digits)
    ensures d < 10 && digits == front + [(d + '0' as int) as char] && AllDigits(front)
    ensures Value(digits) == 10 * Value(front) + d && Value("") == 0
  {
    front := digits[..|digits| - 1];
    assert Digit(digits[|digits| - 1]);
    d := digits[|digits| - 1] as int - '0' as int;
  }

  lemma {:induction false} ShowNext(v: nat, d: nat)
    requires d < 10
    ensures Show(10 * v + d) == (if v == 0 then "" else Show(v)) + [(d + '0' as int) as char]
    ensures Show(0) == "0"
  {
    var x := 10 * v + d;
    assert x / 10 == v && x % 10 == d;
  }

  /** Any digits are leading zeros and a printed number. */
  lemma {:induction false} DigitsSpell(digits: string) returns (z: nat)
    requires digits != "" && AllDigits(digits)
    ensures digits == Zeros(z) + Show(Value(digits))
    decreases |digits|
  {
    hide Value, Show, AllDigits;
    var front, d := LastDigit(digits);
    ShowNext(Value(front), d);
    if front == "" {
      z := 0;
    } else {
      var y := DigitsSpell(front);
      if Value(front) == 0 {
        z := y + 1;
        assert Zeros(z) == Zeros(y) + "0";
      } else {
        z := y;
      }
    }
  }

  lemma {:induction false} Regroup(s: string, white: string, sign: string, digits: string, rest: string, u: string)
    requires s == white + (sign + u) && u == digits + rest
    ensures s == white + (sign + (digits + rest))
  {
  }
}
