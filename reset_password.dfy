/**
 * The password-reset screen: the checks a new password must pass before it is sent, the
 * strength indicator drawn under the fields, and the success flag that switches the screen to
 * its confirmation view.
 */
module ResetPassword {
  import opened Wrappers
  import opened Seqs

  /** The shortest password the screen accepts. */
  const MinLength: nat := 6

  /** The length from which a password shows as strong. */
  const StrongLength: nat := 10

  /** Why `handleResetPassword` stops, or that it sends the update. */
  datatype ResetCheck = MissingField | Mismatch | TooShort | UpdateRequested

  /**
   * `handleResetPassword`'s guards, in their order: a field left empty, then two fields that
   * differ, then a password shorter than six characters.
   */
  function CheckReset(password: string, confirmPassword: string): (r: ResetCheck)
    ensures r == MissingField <==> password == "" || confirmPassword == ""
    ensures r == Mismatch <==> password != "" && confirmPassword != "" && password != confirmPassword
    ensures r == TooShort <==> password != "" && password == confirmPassword && |password| < MinLength
    ensures r == UpdateRequested <==> password == confirmPassword && |password| >= MinLength
  {
    if password == "" || confirmPassword == "" then MissingField
    else if password != confirmPassword then Mismatch
    else if |password| < MinLength then TooShort
    else UpdateRequested
  }

  /** Two different short passwords are reported as a mismatch: the length is checked last. */
  lemma MismatchBeforeLength(password: string, confirmPassword: string)
    requires 0 < |password| < MinLength && 0 < |confirmPassword| < MinLength
    requires password != confirmPassword
    ensures CheckReset(password, confirmPassword) == Mismatch
  {
  }

  /**
   * `resetSuccess` after one press of the button: it turns on only when the guards let the
   * update through and the backend answered without an error (`failure` is that error);
   * otherwise it keeps its value.
   */
  function ResetSuccessAfter(resetSuccess: bool, password: string, confirmPassword: string, failure: Option<string>): (after: bool)
    ensures resetSuccess ==> after
    ensures !resetSuccess && after <==> !resetSuccess && CheckReset(password, confirmPassword) == UpdateRequested && failure.None?
  {
    if CheckReset(password, confirmPassword) == UpdateRequested && failure.None? then true else resetSuccess
  }

  /** The confirmation view is only ever reached with a confirmed password of six or more characters. */
  lemma {:induction false} SuccessNeedsValidPassword(password: string, confirmPassword: string, failure: Option<string>)
    requires ResetSuccessAfter(false, password, confirmPassword, failure)
    ensures password == confirmPassword && |password| >= MinLength && failure.None?
  {
    assert CheckReset(password, confirmPassword) == UpdateRequested;
  }

  /** The three bars of the indicator: lit from one, six and ten characters on. */
  function LitBars(length: nat): (bars: seq<bool>)
    ensures |bars| == 3
    ensures forall i, j :: 0 <= i < j < 3 && bars[j] ==> bars[i]
    ensures bars[0] <==> length > 0
  {
    [length >= 1, length >= MinLength, length >= StrongLength]
  }

  predicate IsLit(bar: bool)
  {
    bar
  }

  /** How many bars are lit. */
  function StrengthBars(length: nat): (n: nat)
    ensures n <= 3
  {
    Count(LitBars(length), IsLit)
  }

  /** The lengths at which a bar lights up. */
  const Thresholds: set<nat> := {1, MinLength, StrongLength}

  /** The thresholds a length has reached. */
  function ThresholdsReached(length: nat): set<nat>
  {
    set t | t in Thresholds && t <= length
  }

  /** The bars lit are the thresholds reached, and they light up from the left. */
  lemma {:induction false} StrengthBarsCountThresholds(length: nat)
    ensures StrengthBars(length) == |ThresholdsReached(length)|
    ensures forall i, j :: 0 <= i < j < 3 && LitBars(length)[j] ==> LitBars(length)[i]
  {
    var bars := LitBars(length);
    assert bars == [bars[0]] + ([bars[1]] + [bars[2]]);
    assert StrengthBars(length) == (if bars[0] then 1 else 0) + (if bars[1] then 1 else 0) + (if bars[2] then 1 else 0) by {
      assert bars[1..] == [bars[1], bars[2]];
      assert bars[1..][1..] == [bars[2]];
    }
    if length < 1 {
      assert ThresholdsReached(length) == {};
    } else if length < MinLength {
      assert ThresholdsReached(length) == {1};
    } else if length < StrongLength {
      assert ThresholdsReached(length) == {1, MinLength};
    } else {
      assert ThresholdsReached(length) == {1, MinLength, StrongLength};
    }
  }

  /** A longer password never lights fewer bars. */
  lemma {:induction false} StrengthBarsMonotone(shorter: nat, longer: nat)
    requires shorter <= longer
    ensures StrengthBars(shorter) <= StrengthBars(longer)
  {
    StrengthBarsCountThresholds(shorter);
    StrengthBarsCountThresholds(longer);
    assert ThresholdsReached(shorter) <= ThresholdsReached(longer);
    SubsetCardinality(ThresholdsReached(shorter), ThresholdsReached(longer));
  }

  lemma SubsetCardinality(a: set<nat>, b: set<nat>)
    requires a <= b
    ensures |a| <= |b|
  {
    assert b == a + (b - a);
  }

  /** The caption under the bars. */
  function StrengthText(length: nat): (text: string)
    ensures text == "Mínimo 6 caracteres" <==> length == 0
    ensures text == "Contraseña media" || text == "Contraseña fuerte ✓" <==> length >= MinLength
  {
    if length == 0 then "Mínimo 6 caracteres"
    else if length < MinLength then "Contraseña débil"
    else if length < StrongLength then "Contraseña media"
    else "Contraseña fuerte ✓"
  }

  /** The caption names the number of bars lit: none, one, two or all three. */
  lemma {:induction false} StrengthTextMatchesBars(length: nat)
    ensures StrengthText(length) == "Mínimo 6 caracteres" <==> StrengthBars(length) == 0
    ensures StrengthText(length) == "Contraseña débil" <==> StrengthBars(length) == 1
    ensures StrengthText(length) == "Contraseña media" <==> StrengthBars(length) == 2
    ensures StrengthText(length) == "Contraseña fuerte ✓" <==> StrengthBars(length) == 3
  {
    StrengthBarsCountThresholds(length);
    if length < 1 {
      assert ThresholdsReached(length) == {};
    } else if length < MinLength {
      assert ThresholdsReached(length) == {1};
    } else if length < StrongLength {
      assert ThresholdsReached(length) == {1, MinLength};
    } else {
      assert ThresholdsReached(length) == {1, MinLength, StrongLength};
    }
  }

  /** A password the guards let through shows at least two bars and is never called weak. */
  lemma {:induction false} AcceptedPasswordNotWeak(password: string, confirmPassword: string)
    requires CheckReset(password, confirmPassword) == UpdateRequested
    ensures StrengthBars(|password|) >= 2
    ensures StrengthText(|password|) in {"Contraseña media", "Contraseña fuerte ✓"}
  {
    StrengthBarsMonotone(MinLength, |password|);
    StrengthTextMatchesBars(MinLength);
  }
}
