/**
 * Cuban phone numbers as the purchase modal, the favourite-numbers screen and the profile editor
 * check them (eight ASCII digits once whitespace is removed) and as the modal, the favourites
 * list and the order history display them (`+53 XXXX XXXX`).
 */
module Phone {
  import opened Text

  /** `phone.replace(/\s+/g, '')`. */
  function CleanNumber(phone: string): (clean: string)
    ensures NoWhitespace(clean)
    ensures |clean| <= |phone|
  {
    StripWhitespace(phone)
  }

  /** `clean.length === 8 && /^\d+$/.test(clean)`. */
  predicate IsValidNumber(clean: string)
  {
    |clean| == 8 && AllDigits(clean)
  }

  /** A number is accepted exactly when its cleaned form is eight digits. */
  lemma ValidNumberDigits(phone: string)
    ensures IsValidNumber(CleanNumber(phone))
        <==> |CleanNumber(phone)| == 8 && forall i :: 0 <= i < 8 ==> IsDigit(CleanNumber(phone)[i])
  {
  }

  /** Cleaning a cleaned number changes nothing. */
  lemma CleanIdempotent(phone: string)
    ensures CleanNumber(CleanNumber(phone)) == CleanNumber(phone)
  {
  }

  /** `+53 ` and the first four characters, a space, and the rest, for an eight-character text. */
  function FormatPhoneNumber(phone: string): (r: string)
    ensures |phone| == 8 ==>
              |r| == 13 && r[..4] == "+53 " && r[4..8] == phone[..4] && r[8] == ' ' && r[9..] == phone[4..]
    ensures |phone| != 8 ==> r == phone
  {
    if |phone| == 8 then "+53 " + phone[..4] + " " + phone[4..] else phone
  }

  /** Removing the spaces from a displayed valid number gives `+53` followed by the number. */
  lemma {:induction false} FormattedCleansBack(phone: string)
    requires IsValidNumber(phone)
    ensures CleanNumber(FormatPhoneNumber(phone)) == "+53" + phone
  {
    var a, b := phone[..4], phone[4..];
    assert NoWhitespace(a) && NoWhitespace(b) by {
      forall i | 0 <= i < |phone| ensures !IsWhitespace(phone[i]) {
        assert IsDigit(phone[i]);
      }
    }
    assert "+53 " == "+53" + " ";
    StripSpaced("+53", a, b);
    assert "+53" + a + b == "+53" + phone;
  }

  /** The two spaces of the display are all that stripping removes from it. */
  lemma {:induction false} StripSpaced(prefix: string, a: string, b: string)
    requires NoWhitespace(prefix) && NoWhitespace(a) && NoWhitespace(b)
    ensures StripWhitespace(prefix + " " + a + " " + b) == prefix + a + b
  {
    var x1 := prefix + " ";
    var x2 := x1 + a;
    var x3 := x2 + " ";
    assert StripWhitespace(" ") == [];
    StripAppend(prefix, " ");
    assert StripWhitespace(x1) == prefix;
    StripAppend(x1, a);
    assert StripWhitespace(x2) == prefix + a;
    StripAppend(x2, " ");
    assert StripWhitespace(x3) == prefix + a;
    StripAppend(x3, b);
  }

  /** Two eight-character numbers are displayed alike only when they are equal. */
  lemma FormatInjective(a: string, b: string)
    requires |a| == 8 && |b| == 8
    requires FormatPhoneNumber(a) == FormatPhoneNumber(b)
    ensures a == b
  {
    assert a == a[..4] + a[4..];
    assert b == b[..4] + b[4..];
  }

  /**
   * Formatting is idempotent, so every eight-character number is displayed exactly like the
   * different, thirteen-character text of its own display.
   */
  lemma FormatCollision(phone: string)
    requires |phone| == 8
    ensures FormatPhoneNumber(FormatPhoneNumber(phone)) == FormatPhoneNumber(phone)
    ensures FormatPhoneNumber(phone) != phone
  {
  }
}
