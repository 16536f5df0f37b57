/**
 * The handful of JavaScript string operations the app's rules are written with:
 * `\s`, `trim`, `replace(/\s+/g, '')`, `toLowerCase`, `includes`, `/^\d+$/` and the
 * decimal text of a number.
 */
module Text {

  /** JavaScript's WhiteSpace and LineTerminator characters: what `\s` matches and `trim` removes. */
  predicate IsWhitespace(c: char)
  {
    || c == '\t' || c == '\n' || c == '\U{000B}' || c == '\U{000C}' || c == '\r' || c == ' '
    || c == '\U{00A0}' || c == '\U{1680}' || ('\U{2000}' <= c <= '\U{200A}')
    || c == '\U{2028}' || c == '\U{2029}' || c == '\U{202F}' || c == '\U{205F}'
    || c == '\U{3000}' || c == '\U{FEFF}'
  }

  /** What `\d` matches. */
  predicate IsDigit(c: char)
  {
    '0' <= c <= '9'
  }

  predicate NoWhitespace(s: string)
  {
    forall i :: 0 <= i < |s| ==> !IsWhitespace(s[i])
  }

  /** `/^\d+$/.test(s)`: non-empty and only ASCII digits. */
  predicate AllDigits(s: string)
  {
    |s| > 0 && forall i :: 0 <= i < |s| ==> IsDigit(s[i])
  }

  /** `!s.trim()`: nothing but whitespace (the empty string included). */
  predicate IsBlank(s: string)
  {
    forall i :: 0 <= i < |s| ==> IsWhitespace(s[i])
  }

  /** `s.replace(/\s+/g, '')`: every whitespace character removed, the others kept in order. */
  function StripWhitespace(s: string): (r: string)
    ensures |r| <= |s|
    ensures NoWhitespace(r)
    ensures NoWhitespace(s) ==> r == s
    ensures IsBlank(s) <==> r == []
  {
    if s == [] then []
    else (if IsWhitespace(s[0]) then [] else [s[0]]) + StripWhitespace(s[1..])
  }

  /** Stripping twice strips nothing more. */
  lemma StripIdempotent(s: string)
    ensures StripWhitespace(StripWhitespace(s)) == StripWhitespace(s)
  {
  }

  /** Stripping distributes over concatenation. */
  lemma {:induction false} StripAppend(a: string, b: string)
    ensures StripWhitespace(a + b) == StripWhitespace(a) + StripWhitespace(b)
  {
    if a == [] {
      assert a + b == b;
    } else {
      assert (a + b)[0] == a[0];
      assert (a + b)[1..] == a[1..] + b;
      StripAppend(a[1..], b);
    }
  }

  /** A leading space is stripped away. */
  lemma StripSpaceBefore(x: string)
    ensures StripWhitespace(" " + x) == StripWhitespace(x)
  {
    assert (" " + x)[1..] == x;
  }

  /** A prefix without whitespace survives stripping. */
  lemma StripKept(a: string, x: string)
    requires NoWhitespace(a)
    ensures StripWhitespace(a + x) == a + StripWhitespace(x)
  {
    StripAppend(a, x);
  }

  /** Leading whitespace removed. */
  function TrimStart(s: string): (r: string)
    ensures |r| <= |s|
    ensures r == [] || !IsWhitespace(r[0])
  {
    if s != [] && IsWhitespace(s[0]) then TrimStart(s[1..]) else s
  }

  /** Trailing whitespace removed. */
  function TrimEnd(s: string): (r: string)
    ensures |r| <= |s| && r == s[..|r|]
    ensures r == [] || !IsWhitespace(r[|r| - 1])
    ensures forall i :: |r| <= i < |s| ==> IsWhitespace(s[i])
  {
    if s != [] && IsWhitespace(s[|s| - 1]) then TrimEnd(s[..|s| - 1]) else s
  }

  /** `s.trim()`: a contiguous piece of `s` with no whitespace at either end. */
  function Trim(s: string): (r: string)
    ensures |r| <= |s|
    ensures r == [] || (!IsWhitespace(r[0]) && !IsWhitespace(r[|r| - 1]))
    ensures r == [] <==> IsBlank(s)
  {
    var t := TrimStart(s);
    TrimStartSkipsWhitespace(s);
    assert IsBlank(s) ==> t == [];
    TrimEnd(t)
  }

  /** What `TrimStart` drops is a run of whitespace at the front, and it keeps the rest. */
  lemma {:induction false} TrimStartSkipsWhitespace(s: string)
    ensures TrimStart(s) == s[|s| - |TrimStart(s)|..]
    ensures forall i :: 0 <= i < |s| - |TrimStart(s)| ==> IsWhitespace(s[i])
  {
    if s != [] && IsWhitespace(s[0]) {
      TrimStartSkipsWhitespace(s[1..]);
    }
  }

  /** Trimming a trimmed text changes nothing. */
  lemma TrimIdempotent(s: string)
    ensures Trim(Trim(s)) == Trim(s)
  {
    var r := Trim(s);
    assert TrimStart(r) == r;
    assert TrimEnd(r) == r;
  }

  /** JavaScript's `toLowerCase` on one character: ASCII and Latin-1 capitals only. */
  function LowerChar(c: char): char
  {
    if 'A' <= c <= 'Z' || ('\U{00C0}' <= c <= '\U{00DE}' && c != '\U{00D7}')
    then (c as int + 32) as char
    else c
  }

  function ToLower(s: string): (r: string)
    ensures |r| == |s|
    ensures forall i :: 0 <= i < |s| ==> r[i] == LowerChar(s[i])
  {
    seq(|s|, i requires 0 <= i < |s| => LowerChar(s[i]))
  }

  /** `haystack.includes(needle)`: `needle` is a prefix of some suffix of `haystack`. */
  predicate Contains(haystack: string, needle: string)
    decreases |haystack|
  {
    needle <= haystack || (haystack != [] && Contains(haystack[1..], needle))
  }

  function DigitChar(d: nat): char
    requires d < 10
  {
    ('0' as int + d) as char
  }

  /** The decimal text of a natural number, as `Number.prototype.toString` writes it. */
  function NatToString(n: nat): (r: string)
    ensures AllDigits(r)
    ensures |r| > 1 ==> r[0] != '0'
    decreases n
  {
    if n < 10 then [DigitChar(n)] else NatToString(n / 10) + [DigitChar(n % 10)]
  }

  /** The decimal text of an integer: a minus sign before a negative one. */
  function IntToString(n: int): (r: string)
    ensures n >= 0 ==> AllDigits(r)
    ensures n < 0 ==> |r| > 1 && r[0] == '-' && AllDigits(r[1..])
  {
    if n >= 0 then NatToString(n) else "-" + NatToString(-n)
  }
}
