/** Writing a price in cents as JavaScript writes the number `cents / 100`, and reading it back. */
module Prices {
  import opened Wrappers
  import opened Text
  import opened Numbers

  /** The number a price in cents stands for: the cents over a hundred. */
  function Units(cents: int): real
  {
    cents as real / 100.0
  }

  /** The size of an amount of cents, whatever its sign. */
  function Magnitude(cents: int): (m: nat)
    ensures m as int == cents || m as int == -cents
  {
    if cents < 0 then -cents else cents
  }

  /** The sign `toString` writes before a number: a minus for a negative one, nothing otherwise. */
  function SignText(negative: bool): string
  {
    if negative then "-" else ""
  }

  /** What follows the whole units: nothing, or a point and the cents without a trailing zero. */
  function FractionText(frac: nat): (r: string)
    requires frac < 100
    ensures r == [] || r[0] == '.'
  {
    if frac == 0 then ""
    else if frac % 10 == 0 then "." + [DigitChar(frac / 10)]
    else "." + [DigitChar(frac / 10), DigitChar(frac % 10)]
  }

  /** The text of `cents / 100` as JavaScript prints a number: no trailing zeros after the point. */
  function CentsToString(cents: int): (r: string)
    ensures |r| > 0
    ensures r[0] == '-' <==> cents < 0
  {
    var m := Magnitude(cents);
    SignText(cents < 0) + (NatToString(m / 100) + FractionText(m % 100))
  }

  lemma DigitsValueTwo(a: char, b: char)
    requires IsDigit(a) && IsDigit(b)
    ensures DigitsValue([a, b]) == 10 * DigitValue(a) + DigitValue(b)
  {
    assert [a, b][..1] == [a];
    assert [a][..0] == [];
    assert DigitsValue([a]) == DigitValue(a);
  }

  lemma {:induction false} FractionOfOneDigit(d: nat)
    requires d < 10
    ensures FractionValue([DigitChar(d)]) == d as real / 10.0
  {
    var rest := [DigitChar(d)];
    DigitRunAll(rest);
    assert rest[..0] == [];
    assert DigitsValue(rest) == d;
    assert Pow10(1) == 10;
  }

  lemma {:induction false} FractionOfTwoDigits(d: nat)
    requires d < 100
    ensures FractionValue([DigitChar(d / 10), DigitChar(d % 10)]) == d as real / 100.0
  {
    var rest := [DigitChar(d / 10), DigitChar(d % 10)];
    DigitRunAll(rest);
    DigitsValueTwo(rest[0], rest[1]);
    assert DigitsValue(rest) == d;
    assert Pow10(2) == 100;
  }

  /** `parseFloat` of a sign, a digit string and a tail that does not start with a digit, worth `v`. */
  lemma {:induction false} ParseFloatOfParts(negative: bool, sign: string, w: string, tail: string, v: real)
    requires sign == if negative then "-" else ""
    requires AllDigits(w)
    requires tail == [] || !IsDigit(tail[0])
    requires Signed(negative, DigitsValue(w) as real + FractionValue(AfterPoint(tail))) == v
    ensures ParseFloat(sign + (w + tail)) == Some(v)
  {
    UnsignedOfParts(w, tail);
    ParseFloatOfSigned(negative, sign, w + tail, DigitsValue(w) as real + FractionValue(AfterPoint(tail)));
  }

  /** The unsigned decimal of a digit string and a tail that does not start with a digit. */
  lemma {:induction false} UnsignedOfParts(w: string, tail: string)
    requires AllDigits(w)
    requires tail == [] || !IsDigit(tail[0])
    ensures (w + tail) != [] && IsDigit((w + tail)[0])
    ensures ParseUnsignedDecimal(w + tail) == Some(DigitsValue(w) as real + FractionValue(AfterPoint(tail)))
  {
    var body := w + tail;
    DigitRunStops(w, tail);
    assert body[..|w|] == w;
    assert body[|w|..] == tail;
  }

  /** `parseFloat` of an optional minus sign before an unsigned decimal that starts with a digit. */
  lemma ParseFloatOfSigned(negative: bool, sign: string, body: string, v: real)
    requires sign == if negative then "-" else ""
    requires body != [] && IsDigit(body[0])
    requires ParseUnsignedDecimal(body) == Some(v)
    ensures ParseFloat(sign + body) == Some(Signed(negative, v))
  {
    SignedDigitsPrefix(sign, body);
  }

  /** The digits and the fraction `CentsToString` writes stand for the magnitude of the price. */
  lemma {:induction false} MagnitudeText(m: nat)
    ensures DigitsValue(NatToString(m / 100)) as real + FractionValue(AfterPoint(FractionText(m % 100)))
         == m as real / 100.0
  {
    var whole, frac := m / 100, m % 100;
    DigitsValueOfNatToString(whole);
    FractionOfText(frac);
    assert m == 100 * whole + frac;
    assert (100 * whole + frac) as real / 100.0 == whole as real + frac as real / 100.0;
  }

  /**
   * What `CentsToString` is made of, and what its pieces stand for: a sign `parseFloat`
   * accepts, the whole units as digits, a tail that does not start with a digit, and digits
   * and fraction worth the magnitude of the price.
   */
  lemma {:induction false} CentsTextParts(cents: int)
    ensures CentsToString(cents)
         == SignText(cents < 0) + (NatToString(Magnitude(cents) / 100) + FractionText(Magnitude(cents) % 100))
    ensures SignText(cents < 0) == if cents < 0 then "-" else ""
    ensures AllDigits(NatToString(Magnitude(cents) / 100))
    ensures FractionText(Magnitude(cents) % 100) == [] || !IsDigit(FractionText(Magnitude(cents) % 100)[0])
    ensures Signed(cents < 0, DigitsValue(NatToString(Magnitude(cents) / 100)) as real
                              + FractionValue(AfterPoint(FractionText(Magnitude(cents) % 100))))
         == Units(cents)
  {
    MagnitudeText(Magnitude(cents));
  }

  /** `parseFloat` reads back the text of a price: `parseFloat(String(cents / 100)) == cents / 100`. */
  lemma {:induction false} ParseFloatOfCentsToString(cents: int)
    ensures ParseFloat(CentsToString(cents)) == Some(Units(cents))
  {
    CentsTextParts(cents);
    var sign, w, tail := SignText(cents < 0), NatToString(Magnitude(cents) / 100), FractionText(Magnitude(cents) % 100);
    ParseFloatOfParts(cents < 0, sign, w, tail, Units(cents));
  }

  lemma {:induction false} FractionOfText(frac: nat)
    requires frac < 100
    ensures FractionValue(AfterPoint(FractionText(frac))) == frac as real / 100.0
  {
    var rest := AfterPoint(FractionText(frac));
    if frac == 0 {
      assert rest == [];
    } else if frac % 10 == 0 {
      assert rest == [DigitChar(frac / 10)];
      FractionOfOneDigit(frac / 10);
    } else {
      assert rest == [DigitChar(frac / 10), DigitChar(frac % 10)];
      FractionOfTwoDigits(frac);
    }
  }
}
