/** The administrator's user list: a search box over the fetched profiles, and the admin count. */
module AdminUsers {
  import opened Wrappers
  import opened Text
  import opened Seqs
  import opened Entities

  /**
   * The search: the lower-cased name or e-mail contains the lower-cased query, or the phone
   * (not lower-cased) contains it. An absent field never matches.
   */
  predicate MatchesUserSearch(u: Profile, query: string)
  {
    var q := ToLower(query);
    || (u.name.Some? && Contains(ToLower(u.name.value), q))
    || (u.email.Some? && Contains(ToLower(u.email.value), q))
    || (u.phone.Some? && Contains(u.phone.value, q))
  }

  /** `filterUsers`: all users for a blank query, otherwise those the search finds, in order. */
  function FilterUsers(users: seq<Profile>, searchQuery: string): (r: seq<Profile>)
    ensures IsBlank(searchQuery) ==> r == users
    ensures |r| <= |users|
    ensures forall i :: 0 <= i < |r| ==> r[i] in users
    ensures !IsBlank(searchQuery) ==>
              (forall i :: 0 <= i < |r| ==> MatchesUserSearch(r[i], searchQuery))
              && (forall i :: 0 <= i < |users| && MatchesUserSearch(users[i], searchQuery) ==> users[i] in r)
    ensures IsSubsequence(r, users)
    ensures !IsBlank(searchQuery) ==>
              forall u :: multiset(r)[u] == if MatchesUserSearch(u, searchQuery) then multiset(users)[u] else 0
  {
    if IsBlank(searchQuery) then
      SubsequenceOfSelf(users);
      users
    else
      FilterKeepsOrder(users, (u: Profile) => MatchesUserSearch(u, searchQuery));
      Filter(users, (u: Profile) => MatchesUserSearch(u, searchQuery))
  }

  /** Searching the found users again with the same query finds them all again. */
  lemma FilterUsersIdempotent(users: seq<Profile>, searchQuery: string)
    ensures FilterUsers(FilterUsers(users, searchQuery), searchQuery) == FilterUsers(users, searchQuery)
  {
    if !IsBlank(searchQuery) {
      FilterIdempotent(users, (u: Profile) => MatchesUserSearch(u, searchQuery));
    }
  }

  /** A profile without name, e-mail and phone is found by no search that is not blank. */
  lemma MissingFieldsNeverMatch(u: Profile, query: string)
    requires u.name.None? && u.email.None? && u.phone.None?
    ensures !MatchesUserSearch(u, query)
  {
  }

  predicate IsAdminUser(u: Profile)
  {
    u.role == Some("admin")
  }

  /** The "Admins:" figure: the administrators among the users shown, never more than those shown. */
  function AdminCount(shown: seq<Profile>): (n: nat)
    ensures n <= |shown|
    ensures n == |Filter(shown, IsAdminUser)|
  {
    CountIsFilterLength(shown, IsAdminUser);
    Count(shown, IsAdminUser)
  }
}
