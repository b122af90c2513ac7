/** Decimal text of natural numbers. */
module Decimals {
  import opened Options

  const DIGITS: string := "0123456789"

  function Digit(d: nat): char
    requires d < 10
  {
    DIGITS[d]
  }

  function DigitValue(c: char): Option<nat> {
    if '0' <= c <= '9' then Some(c as nat - '0' as nat) else None
  }

  lemma DigitRoundTrip(d: nat)
    requires d < 10
    ensures DigitValue(Digit(d)) == Some(d)
  {
  }

  function Print(n: nat): (s: string)
    ensures s != []
    decreases n
  {
    if n < 10 then [Digit(n)] else Print(n / 10) + [Digit(n % 10)]
  }

  /** The value of a digit string, however many leading zeros it has; `None` for anything else. */
  function ParseDigits(s: string): Option<nat> {
    if s == [] then Some(0) else
      var init, last := ParseDigits(s[..|s| - 1]), DigitValue(s[|s| - 1]);
      if init.Some? && last.Some? then Some(10 * init.value + last.value) else None
  }

  /** What the standard library accepts as an unsigned number: an optional plus sign, then digits. */
  function Parse(s: string, max: nat): Option<nat> {
    var digits := if s != [] && s[0] == '+' then s[1..] else s;
    if digits == [] then None else
      var n := ParseDigits(digits);
      if n.Some? && n.value <= max then n else None
  }

  lemma {:induction false} DigitsAreRead(s: string)
    ensures ParseDigits(s).Some? <==> forall i :: 0 <= i < |s| ==> '0' <= s[i] <= '9'
  {
    if s != [] {
      DigitsAreRead(s[..|s| - 1]);
    }
  }

  ghost predicate IsNumberOf(s: string, n: nat) {
    s != [] && (forall i :: 0 <= i < |s| ==> '0' <= s[i] <= '9') && ParseDigits(s) == Some(n)
  }

  /** A number is read from digits alone or behind one plus sign, if it fits; everything else is refused. */
  lemma ParseIff(s: string, max: nat, n: nat)
    ensures Parse(s, max) == Some(n) <==>
            n <= max && (IsNumberOf(s, n) || (s != [] && s[0] == '+' && IsNumberOf(s[1..], n)))
  {
    DigitsAreRead(s);
    if s != [] && s[0] == '+' {
      DigitsAreRead(s[1..]);
    }
  }

  lemma {:induction false} PrintRoundTrip(n: nat)
    ensures ParseDigits(Print(n)) == Some(n)
  {
    DigitRoundTrip(n % 10);
    if n < 10 {
      assert Print(n)[..0] == [];
    } else {
      PrintRoundTrip(n / 10);
      assert Print(n)[..|Print(n)| - 1] == Print(n / 10);
    }
  }

  lemma {:induction false} PrintIsDigits(n: nat)
    ensures forall i :: 0 <= i < |Print(n)| ==> '0' <= Print(n)[i] <= '9'
  {
    DigitRoundTrip(n % 10);
    if n >= 10 {
      PrintIsDigits(n / 10);
    }
  }

  /** A printed number reads back as itself, unless it exceeds what the reader can hold. */
  lemma ParsePrint(n: nat, max: nat)
    ensures Parse(Print(n), max) == if n <= max then Some(n) else None
  {
    PrintIsDigits(n);
    PrintRoundTrip(n);
    assert Print(n)[0] != '+';
  }
}
