/**
 * The purchase modal: the buyer types (or picks from their favourites) the number to top up, and
 * the modal hands the cleaned number to the screen's purchase handler once it is valid.
 */
module PurchaseModal {
  import opened Wrappers
  import opened Text
  import opened Seqs
  import opened Phone
  import opened Favorites

  /** What pressing "confirm" does with the typed number. */
  datatype ConfirmOutcome = MissingNumber | MalformedNumber | Confirmed(clean: string)

  /** The two checks of `handleConfirm`: a number must be typed, and clean to eight digits. */
  function CheckPhone(phone: string): (o: ConfirmOutcome)
    ensures o == MissingNumber <==> phone == ""
    ensures o == MalformedNumber <==> phone != "" && !IsValidNumber(CleanNumber(phone))
    ensures o.Confirmed? <==> phone != "" && IsValidNumber(CleanNumber(phone))
    ensures o.Confirmed? ==> o.clean == CleanNumber(phone)
  {
    if phone == "" then MissingNumber
    else if !IsValidNumber(CleanNumber(phone)) then MalformedNumber
    else Confirmed(CleanNumber(phone))
  }

  /** A number that is already eight digits is confirmed as it is. */
  lemma ValidNumberConfirmed(phone: string)
    requires IsValidNumber(phone)
    ensures CheckPhone(phone) == Confirmed(phone)
  {
    assert NoWhitespace(phone) by {
      forall i | 0 <= i < |phone| ensures !IsWhitespace(phone[i]) {
        assert IsDigit(phone[i]);
      }
    }
  }

  /** The digits of a valid number may be typed in two groups with a space between them. */
  lemma {:induction false} SpacedNumberConfirmed(a: string, b: string)
    requires IsValidNumber(a + b)
    ensures CheckPhone(a + " " + b) == Confirmed(a + b)
  {
    var n := a + b;
    assert NoWhitespace(a) && NoWhitespace(b) by {
      forall i | 0 <= i < |n| ensures !IsWhitespace(n[i]) {
        assert IsDigit(n[i]);
      }
      assert forall i :: 0 <= i < |a| ==> a[i] == n[i];
      assert forall i :: 0 <= i < |b| ==> b[i] == n[|a| + i];
    }
    assert a + " " + b == a + (" " + b);
    StripKept(a, " " + b);
    StripSpaceBefore(b);
  }

  /** A favourite shown in the modal: it has a label and a number. */
  predicate Shown(f: Favorite)
  {
    f.caption != "" && f.number.Some? && f.number.value != ""
  }

  /**
   * The favourites listed under the number field: the profile's strings split at `':'`
   * (`profile?.favorite_numbers || []`), keeping those with a label and a number, in order.
   */
  function ModalFavorites(stored: Option<seq<string>>): (r: seq<Favorite>)
    ensures forall i :: 0 <= i < |r| ==> Shown(r[i])
    ensures stored.Some? ==> forall i :: 0 <= i < |stored.value| && Shown(ParseEntry(stored.value[i]))
                                ==> ParseEntry(stored.value[i]) in r
    ensures stored.None? ==> r == []
    ensures stored.Some? ==> forall i :: 0 <= i < |r| ==> exists j :: 0 <= j < |stored.value| && r[i] == ParseEntry(stored.value[j])
    ensures IsSubsequence(r, Parse(stored))
    ensures forall f :: multiset(r)[f] == if Shown(f) then multiset(Parse(stored))[f] else 0
  {
    var parsed := Parse(stored);
    assert stored.Some? ==> forall i :: 0 <= i < |stored.value| ==> parsed[i] == ParseEntry(stored.value[i]);
    FilterKeepsOrder(parsed, Shown);
    Filter(parsed, Shown)
  }

  /** A string with several `':'` is read as its first two fields. */
  lemma ExtraFieldsIgnored()
    ensures ParseEntry("a:b:c") == Favorite("a", Some("b"))
  {
    assert "a:b:c" == "a" + [':'] + "b:c";
    UpToStops("a", "b:c", ':');
    assert "b:c" == "b" + [':'] + "c";
    UpToStops("b", "c", ':');
  }

  /** A string without `':'` is never shown. */
  lemma NoColonNotShown(item: string)
    requires ':' !in item
    ensures !Shown(ParseEntry(item))
  {
  }

  /**
   * The modal shows exactly the favourites the favourite-numbers screen saved, when each has a
   * label, a `':'`-free caption and a valid number.
   */
  lemma {:induction false} ModalShowsSaved(favorites: seq<Favorite>)
    requires forall i :: 0 <= i < |favorites| ==>
               favorites[i].caption != "" && ':' !in favorites[i].caption
               && favorites[i].number.Some? && IsValidNumber(favorites[i].number.value)
    ensures ModalFavorites(Some(Serialise(favorites))) == favorites
  {
    forall i | 0 <= i < |favorites| ensures RoundTrips(favorites[i]) {
      var n := favorites[i].number.value;
      assert forall k :: 0 <= k < |n| ==> IsDigit(n[k]);
    }
    ListRoundTrip(favorites);
    FilterAll(favorites, Shown);
  }

  /** The modal's state: the number field and the spinner. */
  class PurchaseModal {
    var phoneNumber: string
    var loading: bool

    constructor()
      ensures phoneNumber == "" && !loading
    {
      phoneNumber := "";
      loading := false;
    }

    /**
     * `handleConfirm`: on `Confirmed(clean)` the screen's handler has been called with `clean`
     * (not the typed text) and the field is emptied; otherwise nothing changes.
     */
    method HandleConfirm() returns (outcome: ConfirmOutcome)
      modifies this
      ensures outcome == CheckPhone(old(phoneNumber))
      ensures phoneNumber == if outcome.Confirmed? then "" else old(phoneNumber)
      ensures loading == if outcome.Confirmed? then false else old(loading)
    {
      if phoneNumber == "" {
        return MissingNumber;
      }
      var clean := CleanNumber(phoneNumber);
      if |clean| != 8 || !AllDigits(clean) {
        return MalformedNumber;
      }
      loading := true;
      outcome := Confirmed(clean);
      loading := false;
      phoneNumber := "";
    }

    /** `handleClose`: the field is emptied before the modal goes away. */
    method HandleClose()
      modifies this
      ensures phoneNumber == "" && loading == old(loading)
    {
      phoneNumber := "";
    }

    /** `selectFavoriteNumber`: a tapped favourite's number fills the field. */
    method SelectFavoriteNumber(number: string)
      modifies this
      ensures phoneNumber == number && loading == old(loading)
    {
      phoneNumber := number;
    }
  }
}
