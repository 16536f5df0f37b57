/**
 * Reading numbers out of text fields the way `parseInt(s)` (radix 10) and `parseFloat(s)` do,
 * and writing a price in cents the way `Number.prototype.toString` writes `cents / 100`.
 * `None` stands for `NaN`. A parsed decimal is kept as an exact `real`.
 */
module Numbers {
  import opened Wrappers
  import opened Text

  /** The value of a digit character (only ever asked of digits; 0 for anything else). */
  function DigitValue(c: char): nat
  {
    if IsDigit(c) then c as int - '0' as int else 0
  }

  /** Length of the longest prefix of `s` made of ASCII digits. */
  function DigitRun(s: string): (n: nat)
    ensures n <= |s|
    ensures n < |s| ==> !IsDigit(s[n])
  {
    if s != [] && IsDigit(s[0]) then 1 + DigitRun(s[1..]) else 0
  }

  /** The value of a string of digits, most significant first. */
  function DigitsValue(s: string): nat
  {
    if s == [] then 0 else DigitsValue(s[..|s| - 1]) * 10 + DigitValue(s[|s| - 1])
  }

  function Pow10(k: nat): (p: nat)
    ensures p >= 1
  {
    if k == 0 then 1 else 10 * Pow10(k - 1)
  }

  /** Whether the text starts with a minus sign. */
  predicate IsNegative(s: string)
  {
    s != [] && s[0] == '-'
  }

  /** The text after an optional leading '+' or '-'. */
  function AfterSign(s: string): (r: string)
    ensures |r| <= |s|
  {
    if s != [] && (s[0] == '-' || s[0] == '+') then s[1..] else s
  }

  function Signed(negative: bool, v: real): real
  {
    if negative then -v else v
  }

  /** `parseInt(s)`: leading whitespace, an optional sign, then the longest run of digits. */
  function ParseInt(s: string): (r: Option<int>)
  {
    var t := TrimStart(s);
    var body := AfterSign(t);
    var n := DigitRun(body);
    if n == 0 then None
    else
      var v: int := DigitsValue(body[..n]);
      Some(if IsNegative(t) then -v else v)
  }

  /** The value of the digits after the point: `0.d1d2...` for the longest digit run of `rest`. */
  function FractionValue(rest: string): real
  {
    var f := DigitRun(rest);
    DigitsValue(rest[..f]) as real / Pow10(f) as real
  }

  /** What follows the point in `tail`, when `tail` starts with one. */
  function AfterPoint(tail: string): string
  {
    if tail != [] && tail[0] == '.' then tail[1..] else []
  }

  /** An unsigned decimal: digits, an optional point and more digits, one digit at least. */
  function ParseUnsignedDecimal(body: string): Option<real>
  {
    var n := DigitRun(body);
    var rest := AfterPoint(body[n..]);
    if n == 0 && DigitRun(rest) == 0 then None
    else Some(DigitsValue(body[..n]) as real + FractionValue(rest))
  }

  /** `parseFloat(s)`: leading whitespace, an optional sign, then an unsigned decimal. */
  function ParseFloat(s: string): (r: Option<real>)
  {
    var t := TrimStart(s);
    match ParseUnsignedDecimal(AfterSign(t))
    case None => None
    case Some(v) => Some(Signed(IsNegative(t), v))
  }

  lemma {:induction false} DigitsValueOfNatToString(n: nat)
    ensures DigitsValue(NatToString(n)) == n
    decreases n
  {
    var s := NatToString(n);
    if n >= 10 {
      DigitsValueOfNatToString(n / 10);
      assert s[..|s| - 1] == NatToString(n / 10);
    }
  }

  /** The digit run of a digit string followed by a non-digit stops at that non-digit. */
  lemma {:induction false} DigitRunStops(a: string, b: string)
    requires forall i :: 0 <= i < |a| ==> IsDigit(a[i])
    requires b == [] || !IsDigit(b[0])
    ensures DigitRun(a + b) == |a|
  {
    if a != [] {
      assert (a + b)[1..] == a[1..] + b;
      DigitRunStops(a[1..], b);
    } else {
      assert a + b == b;
    }
  }

  lemma TrimStartDigitsOrSign(s: string)
    requires s != [] && (IsDigit(s[0]) || s[0] == '-')
    ensures TrimStart(s) == s
  {
  }

  lemma {:induction false} DigitRunAll(s: string)
    requires forall i :: 0 <= i < |s| ==> IsDigit(s[i])
    ensures DigitRun(s) == |s| && s[..DigitRun(s)] == s
  {
    DigitRunStops(s, []);
    assert s + [] == s;
  }

  /** A digit string, with or without a minus sign before it, is left alone by the leading steps. */
  lemma SignedDigitsPrefix(sign: string, d: string)
    requires sign == "" || sign == "-"
    requires d != [] && IsDigit(d[0])
    ensures TrimStart(sign + d) == sign + d
    ensures AfterSign(sign + d) == d
    ensures IsNegative(sign + d) <==> sign == "-"
  {
    var s := sign + d;
    assert s[0] == (if sign == "-" then '-' else d[0]);
    TrimStartDigitsOrSign(s);
  }

  lemma {:induction false} ParseIntOfDigits(sign: string, d: string)
    requires sign == "" || sign == "-"
    requires AllDigits(d)
    ensures ParseInt(sign + d) == Some(if sign == "-" then -(DigitsValue(d) as int) else DigitsValue(d))
  {
    SignedDigitsPrefix(sign, d);
    DigitRunAll(d);
  }

  /** `parseInt` reads back what `toString` wrote: editing an amount and saving it unchanged keeps it. */
  lemma {:induction false} ParseIntOfIntToString(n: int)
    ensures ParseInt(IntToString(n)) == Some(n)
  {
    if n >= 0 {
      assert IntToString(n) == "" + NatToString(n);
      ParseIntOfDigits("", NatToString(n));
      DigitsValueOfNatToString(n);
    } else {
      ParseIntOfDigits("-", NatToString(-n));
      DigitsValueOfNatToString(-n);
    }
  }
}
