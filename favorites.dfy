/**
 * The favourite-numbers screen. A profile stores its favourites as `"label:number"` strings; the
 * screen splits them into label/number pairs, lets the user add a number (cleaned, validated,
 * labelled, not already present) or remove one, and writes the whole list back.
 */
module Favorites {
  import opened Wrappers
  import opened Text
  import opened Seqs
  import opened Entities
  import opened Phone

  /** One favourite: its label (`caption`) and its number; `number` is `None` where the stored text had no `':'` (JavaScript's `undefined`). */
  datatype Favorite = Favorite(caption: string, number: Option<string>)

  /** The text before the first `c`, or all of `s` when there is none. */
  function UpTo(s: string, c: char): (r: string)
    ensures r <= s
    ensures c !in r
    ensures |r| < |s| ==> s[|r|] == c
  {
    if s == [] || s[0] == c then [] else [s[0]] + UpTo(s[1..], c)
  }

  /** The text after the first `c`, when there is one. */
  function AfterFirst(s: string, c: char): (r: Option<string>)
    ensures r.Some? <==> c in s
    ensures r.Some? ==> s == UpTo(s, c) + [c] + r.value
  {
    var n := |UpTo(s, c)|;
    if n < |s| then
      assert s == s[..n] + [c] + s[n + 1..];
      Some(s[n + 1..])
    else None
  }

  /** `const [label, number] = item.split(':')`: the first two `':'`-separated fields. */
  function ParseEntry(item: string): (f: Favorite)
    ensures ':' !in f.caption
    ensures f.number.Some? ==> ':' !in f.number.value
    ensures f.number.Some? <==> ':' in item
  {
    Favorite(UpTo(item, ':'),
             match AfterFirst(item, ':')
             case None => None
             case Some(rest) => Some(UpTo(rest, ':')))
  }

  /** The favourites a profile holds: none unless `favorite_numbers` is an array. */
  function StoredFavorites(profile: Option<Profile>): Option<seq<string>>
  {
    if profile.Some? then profile.value.favoriteNumbers else None
  }

  /** The load effect: each stored string split into a favourite, in order; a non-array loads as empty. */
  function Parse(stored: Option<seq<string>>): (r: seq<Favorite>)
    ensures stored.None? ==> r == []
    ensures stored.Some? ==> |r| == |stored.value|
    ensures stored.Some? ==> forall i :: 0 <= i < |r| ==> r[i] == ParseEntry(stored.value[i])
  {
    match stored
    case None => []
    case Some(items) => seq(|items|, i requires 0 <= i < |items| => ParseEntry(items[i]))
  }

  /** How a template literal writes a number: `undefined` when there is none. */
  function NumberText(number: Option<string>): string
  {
    number.GetOr("undefined")
  }

  /** `` `${fav.label}:${fav.number}` ``. */
  function SerialiseEntry(f: Favorite): string
  {
    f.caption + ":" + NumberText(f.number)
  }

  /** The list written back to the profile: one string per favourite, in order. */
  function Serialise(favorites: seq<Favorite>): (r: seq<string>)
    ensures |r| == |favorites|
    ensures forall i :: 0 <= i < |r| ==> r[i] == SerialiseEntry(favorites[i])
  {
    seq(|favorites|, i requires 0 <= i < |favorites| => SerialiseEntry(favorites[i]))
  }

  /** A favourite that survives being written and read back. */
  predicate RoundTrips(f: Favorite)
  {
    ':' !in f.caption && f.number.Some? && ':' !in f.number.value
  }

  lemma {:induction false} UpToStops(a: string, b: string, c: char)
    requires c !in a
    ensures UpTo(a + [c] + b, c) == a
  {
    if a != [] {
      assert (a + [c] + b)[1..] == a[1..] + [c] + b;
      UpToStops(a[1..], b, c);
    }
  }

  lemma {:induction false} UpToAbsent(s: string, c: char)
    requires c !in s
    ensures UpTo(s, c) == s
  {
    if s != [] {
      UpToAbsent(s[1..], c);
      assert s == [s[0]] + s[1..];
    }
  }

  /** Reading back a written favourite gives it again, when neither field holds a `':'`. */
  lemma {:induction false} EntryRoundTrip(f: Favorite)
    requires RoundTrips(f)
    ensures ParseEntry(SerialiseEntry(f)) == f
  {
    var s := SerialiseEntry(f);
    var n := f.number.value;
    assert s == f.caption + [':'] + n;
    UpToStops(f.caption, n, ':');
    assert AfterFirst(s, ':') == Some(n);
    UpToAbsent(n, ':');
  }

  /** `parse(serialise(xs)) == xs` for a list of favourites that each round-trip. */
  lemma ListRoundTrip(favorites: seq<Favorite>)
    requires forall i :: 0 <= i < |favorites| ==> RoundTrips(favorites[i])
    ensures Parse(Some(Serialise(favorites))) == favorites
  {
    forall i | 0 <= i < |favorites|
      ensures Parse(Some(Serialise(favorites)))[i] == favorites[i]
    {
      EntryRoundTrip(favorites[i]);
    }
  }

  /** A favourite that reads back as itself is one that round-trips. */
  lemma ReadBackNeedsRoundTrip(f: Favorite)
    requires ParseEntry(SerialiseEntry(f)) == f
    ensures RoundTrips(f)
  {
    assert SerialiseEntry(f)[|f.caption|] == ':';
  }

  /**
   * A save followed by the reload it triggers: the update stores `Serialise(updated)` in the
   * profile, the store takes the returned profile and the `[profile]` effect parses it again.
   * The list then settles at `updated` exactly when every favourite round-trips.
   */
  lemma ReloadAfterSave(profile: Profile, updated: seq<Favorite>)
    ensures var reloaded := Parse(StoredFavorites(Some(profile.(favoriteNumbers := Some(Serialise(updated))))));
            |reloaded| == |updated|
            && (forall i :: 0 <= i < |updated| ==> reloaded[i] == ParseEntry(SerialiseEntry(updated[i])))
            && (reloaded == updated <==> forall i :: 0 <= i < |updated| ==> RoundTrips(updated[i]))
  {
    var reloaded := Parse(Some(Serialise(updated)));
    if forall i :: 0 <= i < |updated| ==> RoundTrips(updated[i]) {
      ListRoundTrip(updated);
    }
    if reloaded == updated {
      forall i | 0 <= i < |updated|
        ensures RoundTrips(updated[i])
      {
        ReadBackNeedsRoundTrip(updated[i]);
      }
    }
  }

  /** A label holding a `':'` is cut at it: the rest of the label is read as the number. */
  lemma {:induction false} ColonInCaption(a: string, b: string, number: string)
    requires ':' !in a && ':' !in b
    ensures ParseEntry(SerialiseEntry(Favorite(a + ":" + b, Some(number)))) == Favorite(a, Some(b))
  {
    var s := SerialiseEntry(Favorite(a + ":" + b, Some(number)));
    var rest := b + [':'] + number;
    assert s == a + [':'] + rest;
    UpToStops(a, rest, ':');
    assert AfterFirst(s, ':') == Some(rest);
    UpToStops(b, number, ':');
  }

  /** The label `Casa:Mamá` of the number 52345678 comes back as the label `Casa` of the number `Mamá`. */
  lemma LabelWithColon()
    ensures ParseEntry(SerialiseEntry(Favorite("Casa:Mamá", Some("52345678"))))
         == Favorite("Casa", Some("Mamá"))
  {
    assert "Casa:Mamá" == "Casa" + ":" + "Mamá";
    ColonInCaption("Casa", "Mamá", "52345678");
  }

  /** A favourite loaded from a string without `':'` is written back with the number `undefined`. */
  lemma {:induction false} MissingNumberWrittenAsUndefined(caption: string)
    requires ':' !in caption
    ensures ParseEntry(caption) == Favorite(caption, None)
    ensures ParseEntry(SerialiseEntry(Favorite(caption, None))) == Favorite(caption, Some("undefined"))
  {
    UpToAbsent(caption, ':');
    var s := SerialiseEntry(Favorite(caption, None));
    assert s == caption + [':'] + "undefined";
    UpToStops(caption, "undefined", ':');
    assert AfterFirst(s, ':') == Some("undefined");
    assert ':' !in "undefined";
    UpToAbsent("undefined", ':');
  }

  /** Why an attempt to add a favourite stops, or the favourite it adds. */
  datatype AddCheck = EmptyNumber | InvalidNumber | EmptyLabel | Duplicate | Accepted(favorite: Favorite)

  /** `favoriteNumbers.some((fav) => fav.number === clean)`. */
  predicate HasNumber(favorites: seq<Favorite>, clean: string)
  {
    exists i :: 0 <= i < |favorites| && favorites[i].number == Some(clean)
  }

  /** The checks of `addFavoriteNumber`, in the order they run; the first that fails decides. */
  function CheckNewFavorite(favorites: seq<Favorite>, newNumber: string, newLabel: string): (c: AddCheck)
    ensures c.Accepted? ==> c.favorite == Favorite(newLabel, Some(CleanNumber(newNumber)))
  {
    if newNumber == "" then EmptyNumber
    else
      var clean := CleanNumber(newNumber);
      if !IsValidNumber(clean) then InvalidNumber
      else if newLabel == "" then EmptyLabel
      else if HasNumber(favorites, clean) then Duplicate
      else Accepted(Favorite(newLabel, Some(clean)))
  }

  /** Each check fails exactly when every check before it passed and its own condition holds. */
  lemma CheckOrder(favorites: seq<Favorite>, newNumber: string, newLabel: string)
    ensures CheckNewFavorite(favorites, newNumber, newLabel) == EmptyNumber <==> newNumber == ""
    ensures CheckNewFavorite(favorites, newNumber, newLabel) == InvalidNumber
        <==> newNumber != "" && !IsValidNumber(CleanNumber(newNumber))
    ensures CheckNewFavorite(favorites, newNumber, newLabel) == EmptyLabel
        <==> newNumber != "" && IsValidNumber(CleanNumber(newNumber)) && newLabel == ""
    ensures CheckNewFavorite(favorites, newNumber, newLabel) == Duplicate
        <==> newNumber != "" && IsValidNumber(CleanNumber(newNumber)) && newLabel != ""
             && HasNumber(favorites, CleanNumber(newNumber))
  {
  }

  /** An accepted favourite has a label, a valid cleaned number, and a number not yet in the list. */
  lemma AcceptedIsNew(favorites: seq<Favorite>, newNumber: string, newLabel: string)
    requires CheckNewFavorite(favorites, newNumber, newLabel).Accepted?
    ensures var f := CheckNewFavorite(favorites, newNumber, newLabel).favorite;
            f.caption != "" && f.number.Some? && IsValidNumber(f.number.value)
            && forall i :: 0 <= i < |favorites| ==> favorites[i].number != f.number
  {
  }

  /** No two entries share a number (entries without one are not compared). */
  predicate DistinctNumbers(favorites: seq<Favorite>)
  {
    forall i, j :: 0 <= i < j < |favorites| && favorites[i].number.Some? ==> favorites[i].number != favorites[j].number
  }

  /** Appending an accepted favourite keeps the numbers distinct. */
  lemma AddKeepsDistinct(favorites: seq<Favorite>, newNumber: string, newLabel: string)
    requires DistinctNumbers(favorites)
    requires CheckNewFavorite(favorites, newNumber, newLabel).Accepted?
    ensures DistinctNumbers(favorites + [CheckNewFavorite(favorites, newNumber, newLabel).favorite])
  {
    AcceptedIsNew(favorites, newNumber, newLabel);
  }

  /** The list without the entries holding `number`. */
  function Without(favorites: seq<Favorite>, number: Option<string>): (r: seq<Favorite>)
    ensures forall i :: 0 <= i < |r| ==> r[i].number != number
    ensures IsSubsequence(r, favorites)
    ensures forall f :: multiset(r)[f] == if f.number != number then multiset(favorites)[f] else 0
  {
    FilterKeepsOrder(favorites, (f: Favorite) => f.number != number);
    Filter(favorites, (f: Favorite) => f.number != number)
  }

  /**
   * Removing keeps every other entry and keeps the numbers distinct; in a list of distinct
   * numbers, removing the number of entry `k` leaves the entries before it and after it, in
   * order.
   */
  lemma {:induction false} RemoveKeepsOthers(favorites: seq<Favorite>, number: Option<string>)
    ensures forall i :: 0 <= i < |favorites| && favorites[i].number != number ==> favorites[i] in Without(favorites, number)
    ensures DistinctNumbers(favorites) ==> DistinctNumbers(Without(favorites, number))
    ensures DistinctNumbers(favorites) && number.Some? ==>
              forall k :: 0 <= k < |favorites| && favorites[k].number == number ==>
                Without(favorites, number) == favorites[..k] + favorites[k + 1..]
  {
    if DistinctNumbers(favorites) {
      FilterKeepsDistinct(favorites, (f: Favorite) => f.number != number);
      if number.Some? {
        forall k | 0 <= k < |favorites| && favorites[k].number == number
          ensures Without(favorites, number) == favorites[..k] + favorites[k + 1..]
        {
          RemoveEntry(favorites, k);
        }
      }
    }
  }

  /** In a list of distinct numbers, only entry `k` holds entry `k`'s number. */
  lemma RemoveEntry(favorites: seq<Favorite>, k: nat)
    requires DistinctNumbers(favorites)
    requires k < |favorites| && favorites[k].number.Some?
    ensures Without(favorites, favorites[k].number) == favorites[..k] + favorites[k + 1..]
  {
    var number := favorites[k].number;
    var before, after := favorites[..k], favorites[k + 1..];
    OthersKept(favorites, k, 0, k);
    OthersKept(favorites, k, k + 1, |favorites|);
    assert favorites == before + [favorites[k]] + after;
    FilterDropsOne(before, favorites[k], after, (f: Favorite) => f.number != number);
  }

  /** The entries of a slice that leaves out entry `k` hold other numbers than entry `k`. */
  lemma OthersKept(favorites: seq<Favorite>, k: nat, lo: nat, hi: nat)
    requires DistinctNumbers(favorites)
    requires k < |favorites| && favorites[k].number.Some?
    requires lo <= hi <= |favorites| && (k < lo || hi <= k)
    ensures forall x :: x in favorites[lo..hi] ==> x.number != favorites[k].number
  {
    forall x | x in favorites[lo..hi] ensures x.number != favorites[k].number {
      var i :| lo <= i < hi && favorites[i] == x;
    }
  }

  lemma {:induction false} FilterKeepsDistinct(favorites: seq<Favorite>, p: Favorite -> bool)
    requires DistinctNumbers(favorites)
    ensures DistinctNumbers(Filter(favorites, p))
  {
    if favorites != [] {
      var x, rest := favorites[0], favorites[1..];
      DistinctTail(favorites);
      FilterKeepsDistinct(rest, p);
      var tail := Filter(rest, p);
      if p(x) {
        forall j | 0 <= j < |tail| && x.number.Some? ensures tail[j].number != x.number {
          var k :| 0 <= k < |rest| && rest[k] == tail[j];
          assert favorites[k + 1] == tail[j];
        }
        DistinctCons(x, tail);
      }
    }
  }

  lemma DistinctTail(favorites: seq<Favorite>)
    requires favorites != [] && DistinctNumbers(favorites)
    ensures DistinctNumbers(favorites[1..])
  {
    var rest := favorites[1..];
    forall i, j | 0 <= i < j < |rest| && rest[i].number.Some?
      ensures rest[i].number != rest[j].number
    {
      assert rest[i] == favorites[i + 1] && rest[j] == favorites[j + 1];
    }
  }

  lemma DistinctCons(x: Favorite, tail: seq<Favorite>)
    requires DistinctNumbers(tail)
    requires x.number.Some? ==> forall j :: 0 <= j < |tail| ==> tail[j].number != x.number
    ensures DistinctNumbers([x] + tail)
  {
    var s := [x] + tail;
    forall i, j | 0 <= i < j < |s| && s[i].number.Some?
      ensures s[i].number != s[j].number
    {
      if i > 0 {
        assert s[i] == tail[i - 1] && s[j] == tail[j - 1];
      } else {
        assert s[j] == tail[j - 1];
      }
    }
  }

  /** The favourite-numbers screen's state. */
  class FavoriteNumbersScreen {
    var favorites: seq<Favorite>
    var newNumber: string
    var newLabel: string
    var loading: bool

    constructor()
      ensures favorites == [] && newNumber == "" && newLabel == "" && !loading
    {
      favorites := [];
      newNumber := "";
      newLabel := "";
      loading := false;
    }

    /** The effect run whenever the profile changes: the list is re-read from it. */
    method LoadFavorites(profile: Option<Profile>)
      modifies this
      ensures favorites == Parse(StoredFavorites(profile))
      ensures newNumber == old(newNumber) && newLabel == old(newLabel) && loading == old(loading)
    {
      favorites := Parse(StoredFavorites(profile));
    }

    /**
     * `addFavoriteNumber`. `updateSucceeds` is what the profile update reports; `request` is the
     * list sent to it, present only when every check passed.
     */
    method AddFavoriteNumber(updateSucceeds: bool) returns (check: AddCheck, request: Option<seq<string>>)
      modifies this
      ensures check == CheckNewFavorite(old(favorites), old(newNumber), old(newLabel))
      ensures request.Some? <==> check.Accepted?
      ensures check.Accepted? ==> request == Some(Serialise(old(favorites) + [check.favorite]))
      ensures favorites == if check.Accepted? && updateSucceeds then old(favorites) + [check.favorite]
                           else old(favorites)
      ensures if check.Accepted? && updateSucceeds then newNumber == "" && newLabel == ""
              else newNumber == old(newNumber) && newLabel == old(newLabel)
      ensures loading == (if check.Accepted? then false else old(loading))
    {
      check := CheckNewFavorite(favorites, newNumber, newLabel);
      if !check.Accepted? {
        request := None;
        return;
      }
      var updated := favorites + [check.favorite];
      request := Some(Serialise(updated));
      loading := true;
      loading := false;
      if updateSucceeds {
        favorites := updated;
        newNumber := "";
        newLabel := "";
      }
    }

    /** The confirmed branch of `removeFavoriteNumber`: every entry holding `number` goes. */
    method RemoveFavoriteNumber(number: Option<string>, updateSucceeds: bool) returns (request: seq<string>)
      modifies this
      ensures request == Serialise(Without(old(favorites), number))
      ensures favorites == if updateSucceeds then Without(old(favorites), number) else old(favorites)
      ensures newNumber == old(newNumber) && newLabel == old(newLabel) && !loading
    {
      var updated := Without(favorites, number);
      request := Serialise(updated);
      loading := true;
      loading := false;
      if updateSucceeds {
        favorites := updated;
      }
    }
  }
}
