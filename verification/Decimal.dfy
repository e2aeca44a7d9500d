/** Decimal numbers in text: how they are printed, and how much of a text is read as one. */
module Decimal {

  predicate Space(c: char) { c == ' ' || '\t' <= c <= '\r' }

  predicate Digit(c: char) { '0' <= c <= '9' }

  predicate AllDigits(s: string) { forall i :: 0 <= i < |s| ==> Digit(s[i]) }

  /** Leading white space is skipped. */
  function Trimmed(s: string): string { if s != "" && Space(s[0]) then Trimmed(s[1..]) else s }

  /** The digits at the head of the text. */
  function Digits(s: string): (r: string)
    ensures AllDigits(r) && r <= s
  {
    if s != "" && Digit(s[0]) then [s[0]] + Digits(s[1..]) else ""
  }

  function Value(digits: string): nat
    requires AllDigits(digits)
  {
    if digits == "" then 0 else
    var last := digits[|digits| - 1];
    assert Digit(last);
    10 * Value(digits[..|digits| - 1]) + (last as int - '0' as int)
  }

  function Show(n: nat): (s: string)
    ensures s != "" && AllDigits(s)
  {
    (if n < 10 then "" else Show(n / 10)) + [(n % 10 + '0' as int) as char]
  }

  lemma {:induction false} ValueOfShow(n: nat)
    ensures Value(Show(n)) == n
  {
    var s := Show(n);
    var front := s[..|s| - 1];
    if n < 10 {
      assert front == "";
    } else {
      assert front == Show(n / 10);
      ValueOfShow(n / 10);
      assert n == 10 * (n / 10) + n % 10;
    }
  }

  /** Reading stops at the first character that is not a digit. */
  lemma {:induction false} DigitsOfShow(s: string, rest: string)
    requires AllDigits(s) && (rest == "" || !Digit(rest[0]))
    ensures Digits(s + rest) == s
  {
    if s == "" {
      assert s + rest == rest;
    } else {
      DigitsOfShow(s[1..], rest);
      assert (s + rest)[1..] == s[1..] + rest;
    }
  }

  /** A printed number has neither white space nor a sign in front of its digits. */
  lemma {:induction false} ShownHead(n: nat, rest: string)
    requires rest == "" || !Digit(rest[0])
    ensures var s := Show(n) + rest;
            && s != "" && s[0] != '+' && s[0] != '-' && !Space(s[0]) && Trimmed(s) == s
            && Digits(s) == Show(n) && s[|Show(n)|..] == rest && Value(Show(n)) == n
  {
    var shown := Show(n);
    assert (shown + rest)[0] == shown[0] && Digit(shown[0]);
    DigitsOfShow(shown, rest);
    ValueOfShow(n);
    hide Show, Value, Digits;
  }
}
