/** Decimal numerals, as the program prints them into headers and keys and reads them back
    with `Number.parseInt` (section 19.2.5 of ECMA-262). */
module Numerals {
  import opened Basics
  import opened Utf8

  function Decimal(n: nat): (t: Text)
    ensures t != [] && forall i :: 0 <= i < |t| ==> 48 <= t[i] <= 57
  {
    if n < 10 then [48 + n] else Decimal(n / 10) + [48 + n % 10]
  }

  predicate Digit(c: Scalar) { 48 <= c <= 57 }

  function SkipSpace(text: Text): Text {
    if text != [] && WhiteSpace(text[0]) then SkipSpace(text[1..]) else text
  }

  /** The number written by the digits `text` starts with. */
  function ReadDigits(text: Text, value: nat): nat
    decreases |text|
  {
    if text == [] || !Digit(text[0]) then value else ReadDigits(text[1..], 10 * value + text[0] - 48)
  }

  /** `Number.parseInt(text, 10)`, with None for NaN. */
  function ParseInt(text: Text): Option<int> {
    var body := SkipSpace(text);
    var signed := body != [] && (body[0] == 43 || body[0] == 45);
    var digits := if signed then body[1..] else body;
    if digits == [] || !Digit(digits[0]) then None
    else
      var value: int := ReadDigits(digits, 0);
      Some(if signed && body[0] == 45 then -value else value)
  }

  lemma {:induction false} ReadDigitsConcat(text: Text, last: Scalar, value: nat)
    requires (forall i :: 0 <= i < |text| ==> Digit(text[i])) && Digit(last)
    ensures ReadDigits(text + [last], value) == 10 * ReadDigits(text, value) + last - 48
    decreases |text|
  {
    if text == [] {
      assert [] + [last] == [last] && [last][1..] == [];
    } else {
      assert (text + [last])[1..] == text[1..] + [last];
      ReadDigitsConcat(text[1..], last, 10 * value + text[0] - 48);
    }
  }

  lemma {:induction false} DecimalReadsBack(n: nat)
    ensures ReadDigits(Decimal(n), 0) == n
  {
    if n < 10 {
      assert Decimal(n)[1..] == [];
    } else {
      DecimalReadsBack(n / 10);
      ReadDigitsConcat(Decimal(n / 10), 48 + n % 10, 0);
    }
  }

  lemma DecimalInjective(a: nat, b: nat)
    requires Decimal(a) == Decimal(b)
    ensures a == b
  {
    DecimalReadsBack(a);
    DecimalReadsBack(b);
  }
}
