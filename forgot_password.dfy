/**
 * The forgotten-password screen: the e-mail is checked (not blank, then the address pattern)
 * before a recovery link is requested, and a flag switches the screen to its confirmation
 * view, from which the request can be sent again.
 */
module ForgotPassword {
  import opened Wrappers
  import opened Text

  /** A character `[^\s@]` matches. */
  predicate Plain(c: char)
  {
    !IsWhitespace(c) && c != '@'
  }

  /** Every character of `s` other than the one at `at` is plain. */
  predicate PlainBesides(s: string, at: int)
  {
    forall k :: 0 <= k < |s| && k != at ==> Plain(s[k])
  }

  /**
   * `/^[^\s@]+@[^\s@]+\.[^\s@]+$/`: one `'@'` with plain characters before it, and after it
   * plain characters among which a `'.'` that has at least one character on each side.
   */
  ghost predicate MatchesEmailPattern(s: string)
  {
    exists at, dot :: 0 < at && at + 1 < dot && dot + 1 < |s| && s[at] == '@' && s[dot] == '.' && PlainBesides(s, at)
  }

  /** The position of the first `c` in `s`, or `|s|` when there is none. */
  function IndexOf(s: string, c: char): (i: nat)
    ensures i <= |s|
    ensures i < |s| ==> s[i] == c
    ensures forall k :: 0 <= k < i ==> s[k] != c
  {
    if s == [] then 0
    else if s[0] == c then 0
    else 1 + IndexOf(s[1..], c)
  }

  predicate AllPlain(s: string)
  {
    forall k :: 0 <= k < |s| ==> Plain(s[k])
  }

  /** The pattern, checked: split at the first `'@'`, and look for the `'.'` inside the domain. */
  predicate IsEmailLike(email: string)
  {
    var at := IndexOf(email, '@');
    0 < at && at + 2 < |email|
    && AllPlain(email[..at]) && AllPlain(email[at + 1..])
    && '.' in email[at + 2..|email| - 1]
  }

  /** The check accepts exactly the strings the pattern matches. */
  lemma {:induction false} EmailCheckMatchesPattern(s: string)
    ensures IsEmailLike(s) <==> MatchesEmailPattern(s)
  {
    var at := IndexOf(s, '@');
    if IsEmailLike(s) {
      var domain := s[at + 2..|s| - 1];
      var j :| 0 <= j < |domain| && domain[j] == '.';
      var dot := at + 2 + j;
      assert s[dot] == '.';
      forall k | 0 <= k < |s| && k != at
        ensures Plain(s[k])
      {
        if k < at {
          assert s[k] == s[..at][k];
        } else {
          assert s[k] == s[at + 1..][k - at - 1];
        }
      }
    }
    if MatchesEmailPattern(s) {
      var at0, dot :| 0 < at0 && at0 + 1 < dot && dot + 1 < |s| && s[at0] == '@' && s[dot] == '.' && PlainBesides(s, at0);
      assert at == at0 by {
        assert at <= at0;
        assert !Plain(s[at0]);
      }
      assert s[at + 2..|s| - 1][dot - at - 2] == '.';
    }
  }

  /** Why `handleSendEmail` stops, or that it sends the recovery request. */
  datatype SendCheck = BlankEmail | MalformedEmail | RequestSent

  /**
   * `handleSendEmail`'s guards: an e-mail that trims to nothing, then one the pattern does not
   * match. The pattern is applied to the e-mail as typed, not to its trimmed form.
   */
  function CheckEmail(email: string): (r: SendCheck)
    ensures r == BlankEmail <==> IsBlank(email)
    ensures r == MalformedEmail <==> !IsBlank(email) && !MatchesEmailPattern(email)
    ensures r == RequestSent <==> MatchesEmailPattern(email)
  {
    EmailCheckMatchesPattern(email);
    assert IsEmailLike(email) ==> !IsBlank(email) by {
      if IsEmailLike(email) {
        assert !IsWhitespace(email[IndexOf(email, '@')]);
      }
    }
    if Trim(email) == [] then BlankEmail
    else if !IsEmailLike(email) then MalformedEmail
    else RequestSent
  }

  /** Whitespace around an otherwise good address is not trimmed away: the address is refused. */
  lemma PaddedEmailRejected(email: string)
    requires |email| > 0 && (IsWhitespace(email[0]) || IsWhitespace(email[|email| - 1]))
    ensures CheckEmail(email) != RequestSent
  {
  }

  /** An address with two `'@'` is refused. */
  lemma {:induction false} TwoAtSignsRejected(email: string, i: nat, j: nat)
    requires i < j < |email| && email[i] == '@' && email[j] == '@'
    ensures CheckEmail(email) == MalformedEmail
  {
    assert !IsBlank(email) by {
      assert !IsWhitespace(email[i]);
    }
  }

  /** A typical address goes through. */
  lemma GoodAddressAccepted()
    ensures CheckEmail("ana@correo.cu") == RequestSent
  {
    var s := "ana@correo.cu";
    assert s[3] == '@' && s[10] == '.';
    assert PlainBesides(s, 3);
  }

  /**
   * `emailSent` after one press: it turns on only when the guards let the request through and
   * the backend answered without an error (`failure` is that error); otherwise it keeps its value.
   */
  function EmailSentAfter(emailSent: bool, email: string, failure: Option<string>): (after: bool)
    ensures emailSent ==> after
    ensures !emailSent && after <==> !emailSent && MatchesEmailPattern(email) && failure.None?
  {
    if CheckEmail(email) == RequestSent && failure.None? then true else emailSent
  }

  /**
   * "Reenviar Email": the flag is cleared, then the request is sent again for the same e-mail.
   * After a first request went through, the confirmation view stays exactly when the second
   * one does too.
   */
  function Resend(email: string, failure: Option<string>): (after: bool)
    ensures after <==> MatchesEmailPattern(email) && failure.None?
  {
    EmailSentAfter(false, email, failure)
  }

  lemma {:induction false} ResendAfterSuccess(email: string, first: Option<string>, second: Option<string>)
    requires EmailSentAfter(false, email, first)
    ensures Resend(email, second) <==> second.None?
  {
  }
}
