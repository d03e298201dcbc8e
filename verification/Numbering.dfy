/** Certificate numbers (certificates/numbering.py). */
module Numbering {
  import opened Text

  /** `prefix` falls back to "CERT-" when it is empty or blank. */
  function EffectivePrefix(prefix: string): string {
    var p := Strip(if prefix == "" then "CERT-" else prefix);
    if p == "" then "CERT-" else p
  }

  /** A blank prefix is replaced, any other one only trimmed. */
  lemma PrefixIs(prefix: string)
    ensures EffectivePrefix(prefix) == if AllSpace(prefix) then "CERT-" else Strip(prefix)
  {
    BlankIff(prefix);
    StripIs("", "CERT-", "");
    assert "" + "CERT-" + "" == "CERT-";
  }

  function NumberText(prefix: string, year: nat, value: nat): string {
    prefix + Digits(year) + "-" + ZeroPadded(value, 6)
  }

  /** The sequence value a number ends with. */
  function ValueOf(number: string): nat {
    var tail := number[|number| - DigitTail(number)..];
    if AllDigits(tail) then ParseNat(tail) else 0
  }

  lemma ValueOfNumber(prefix: string, year: nat, value: nat)
    ensures ValueOf(NumberText(prefix, year, value)) == value
  {
    var front, tail := prefix + Digits(year) + "-", ZeroPadded(value, 6);
    DigitTailStops(front, tail);
    assert (front + tail)[|front|..] == tail;
    ParsePadded(value, 6);
  }

  /** Two numbers coincide exactly when the values are equal and prefix and year read as the same text. */
  lemma {:induction false} NumbersCoincide(p: string, year: nat, value: nat, q: string, otherYear: nat, otherValue: nat)
    ensures NumberText(p, year, value) == NumberText(q, otherYear, otherValue)
       <==> value == otherValue && p + Digits(year) == q + Digits(otherYear)
  {
    hide ValueOf, ZeroPadded, Digits;
    ValueOfNumber(p, year, value);
    ValueOfNumber(q, otherYear, otherValue);
    if NumberText(p, year, value) == NumberText(q, otherYear, otherValue) {
      SplitNumber(p, year, value);
      SplitNumber(q, otherYear, otherValue);
      hide NumberText;
      SameFront(p + Digits(year), q + Digits(otherYear), "-" + ZeroPadded(value, 6));
    }
  }

  lemma {:induction false} SplitNumber(prefix: string, year: nat, value: nat)
    ensures NumberText(prefix, year, value) == (prefix + Digits(year)) + ("-" + ZeroPadded(value, 6))
  {
  }

  lemma SameFront(a: string, b: string, tail: string)
    requires a + tail == b + tail
    ensures a == b
  {
    assert a == (a + tail)[..|a|] && b == (b + tail)[..|b|];
  }

  /** Up to year 9999 a number determines year, value and prefix, whatever the prefix is. */
  lemma NumberDetermines(p: string, year: nat, value: nat, q: string, otherYear: nat, otherValue: nat)
    requires 1000 <= year <= 9999 && 1000 <= otherYear <= 9999
    requires NumberText(p, year, value) == NumberText(q, otherYear, otherValue)
    ensures year == otherYear && value == otherValue && p == q
  {
    NumbersCoincide(p, year, value, q, otherYear, otherValue);
    hide NumberText;
    FourDigits(year);
    FourDigits(otherYear);
    var a, b := p + Digits(year), q + Digits(otherYear);
    assert p == a[..|p|] && q == b[..|q|];
    assert Digits(year) == a[|p|..] && Digits(otherYear) == b[|q|..];
    ParseDigits(year);
    ParseDigits(otherYear);
  }

  /** Below year 1000 a prefix that ends in a digit can imitate another year. */
  lemma ShortYearsCollide()
    ensures NumberText("CERT-1", 999, 1) == NumberText("CERT-", 1999, 1)
  {
    NumbersCoincide("CERT-1", 999, 1, "CERT-", 1999, 1);
    hide NumberText;
    assert Digits(199) == Digits(19) + ['9'] == "199";
    assert Digits(1999) == Digits(199) + ['9'] == "1999";
    assert Digits(999) == Digits(99) + ['9'] == "999";
  }
}
