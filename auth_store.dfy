/**
 * The session store every screen reads: the signed-in user, their profile, the session, whether
 * the first lookup is still running, and whether the profile is an administrator's. Each
 * transition overwrites some of these fields with what the backend answered; the answers are
 * parameters of the model.
 */
module AuthStore {
  import opened Wrappers
  import opened Backend
  import opened Entities
  import Favorites

  /** A signed-in session: the user it belongs to and its token. */
  datatype Session = Session(user: string, token: string)

  /** What a sign-up or a sign-in answers: the user and the session, each possibly absent. */
  datatype AuthData = AuthData(user: Option<string>, session: Option<Session>)

  /** What a transition returns to the screen: `{ success: true }` or `{ success: false, error }`. */
  datatype Outcome = Succeeded | Failed(error: string)

  /**
   * The message of the `TypeError` thrown when a missing user's `id` is read; its exact text
   * belongs to the JavaScript engine.
   */
  const MissingUserMessage: string := "TypeError"

  /** The five fields of the store, as one value. */
  datatype StoreState = StoreState(
    user: Option<string>,
    profile: Option<Profile>,
    session: Option<Session>,
    loading: bool,
    isAdmin: bool)

  /**
   * `initialize`'s repair of a fetched profile: a `favorite_numbers` that is not an array
   * becomes the empty array; everything else is kept.
   */
  function NormaliseFavorites(row: Option<Profile>): (r: Option<Profile>)
    ensures r.None? <==> row.None?
    ensures r.Some? ==> r.value.favoriteNumbers.Some?
    ensures r.Some? && row.value.favoriteNumbers.Some? ==> r == row
    ensures r.Some? ==> r.value.(favoriteNumbers := row.value.favoriteNumbers) == row.value
  {
    if row.Some? && row.value.favoriteNumbers.None? then Some(row.value.(favoriteNumbers := Some([]))) else row
  }

  /** The repair never changes whether the profile is an administrator's, and a second repair changes nothing. */
  lemma NormaliseKeepsRole(row: Option<Profile>)
    ensures IsAdminProfile(NormaliseFavorites(row)) == IsAdminProfile(row)
    ensures NormaliseFavorites(NormaliseFavorites(row)) == NormaliseFavorites(row)
  {
  }

  /**
   * After the repair, the favourites screen finds an array for every fetched profile: the
   * stored numbers, or none at all where the column held something else.
   */
  lemma RepairedFavoritesLoad(row: Option<Profile>)
    requires row.Some?
    ensures Favorites.StoredFavorites(NormaliseFavorites(row)) == Some(row.value.favoriteNumbers.GetOr([]))
  {
  }

  class AuthState {
    var user: Option<string>
    var profile: Option<Profile>
    var session: Option<Session>
    var loading: bool
    var isAdmin: bool

    /** The store's invariant: the administrator flag is the profile's role. */
    predicate Valid()
      reads this
    {
      isAdmin == IsAdminProfile(profile)
    }

    function State(): StoreState
      reads this
    {
      StoreState(user, profile, session, loading, isAdmin)
    }

    /** The store as created: nobody signed in, the first lookup pending. */
    constructor ()
      ensures Valid()
      ensures user.None? && profile.None? && session.None? && loading && !isAdmin
    {
      user := None;
      profile := None;
      session := None;
      loading := true;
      isAdmin := false;
    }

    /**
     * `initialize`: the stored session is looked up (`lookup`; an error is a thrown one); with
     * a session, its user, the repaired profile row (`row`) and the session are kept. Whatever
     * happens, the lookup is over afterwards.
     */
    method Initialize(lookup: Response<Option<Session>>, row: Option<Profile>)
      requires Valid()
      modifies this
      ensures Valid()
      ensures !loading
      ensures lookup.Data? && lookup.value.Some? ==>
                user == Some(lookup.value.value.user) && profile == NormaliseFavorites(row)
                && session == lookup.value
      ensures !(lookup.Data? && lookup.value.Some?) ==>
                user == old(user) && profile == old(profile) && session == old(session) && isAdmin == old(isAdmin)
      ensures profile.Some? && profile != old(profile) ==> profile.value.favoriteNumbers.Some?
    {
      if lookup.Error? {
        loading := false;
        return;
      }
      match lookup.value
      case Some(s) =>
        var p := NormaliseFavorites(row);
        user := Some(s.user);
        profile := p;
        session := Some(s);
        isAdmin := IsAdminProfile(p);
        loading := false;
      case None =>
        loading := false;
    }

    /**
     * `signUp`: an error leaves the store alone and is reported; a sign-up that returns a user
     * stores that user, their profile row as fetched (not repaired) and the session. The
     * `loading` flag is not touched.
     */
    method SignUp(answer: Response<AuthData>, row: Option<Profile>) returns (outcome: Outcome)
      requires Valid()
      modifies this
      ensures Valid()
      ensures outcome == Succeeded <==> answer.Data?
      ensures answer.Error? ==> outcome == Failed(answer.message)
      ensures answer.Data? && answer.value.user.Some? ==>
                State() == old(State()).(user := answer.value.user, profile := row,
                                         session := answer.value.session, isAdmin := IsAdminProfile(row))
      ensures !(answer.Data? && answer.value.user.Some?) ==> State() == old(State())
    {
      if answer.Error? {
        return Failed(answer.message);
      }
      if answer.value.user.Some? {
        user := answer.value.user;
        profile := row;
        session := answer.value.session;
        isAdmin := IsAdminProfile(row);
      }
      return Succeeded;
    }

    /**
     * `signIn`: an error leaves the store alone and is reported; so does an answer without a
     * user, whose `id` cannot be read. Otherwise the user, their profile row as fetched and the
     * session are stored; `loading` is not touched.
     */
    method SignIn(answer: Response<AuthData>, row: Option<Profile>) returns (outcome: Outcome)
      requires Valid()
      modifies this
      ensures Valid()
      ensures outcome == Succeeded <==> answer.Data? && answer.value.user.Some?
      ensures answer.Error? ==> outcome == Failed(answer.message)
      ensures outcome == Succeeded ==>
                State() == old(State()).(user := answer.value.user, profile := row,
                                         session := answer.value.session, isAdmin := IsAdminProfile(row))
      ensures outcome != Succeeded ==> State() == old(State())
    {
      if answer.Error? {
        return Failed(answer.message);
      }
      if answer.value.user.None? {
        return Failed(MissingUserMessage);
      }
      user := answer.value.user;
      profile := row;
      session := answer.value.session;
      isAdmin := IsAdminProfile(row);
      return Succeeded;
    }

    /**
     * `signOut`: unless the call throws (`thrown`), the user, profile and session are cleared
     * and the administrator flag is dropped; `loading` is not touched.
     */
    method SignOut(thrown: Option<string>) returns (outcome: Outcome)
      requires Valid()
      modifies this
      ensures Valid()
      ensures outcome == Succeeded <==> thrown.None?
      ensures thrown.Some? ==> outcome == Failed(thrown.value) && State() == old(State())
      ensures thrown.None? ==> State() == StoreState(None, None, None, old(loading), false)
    {
      if thrown.Some? {
        return Failed(thrown.value);
      }
      user := None;
      profile := None;
      session := None;
      isAdmin := false;
      return Succeeded;
    }

    /**
     * `updateProfile`: the update is addressed to the signed-in user, so without one it fails
     * before anything is sent. The row the backend returns (`answer`) replaces the profile and
     * decides the administrator flag; nothing else changes.
     */
    method UpdateProfile(answer: Response<Profile>) returns (outcome: Outcome)
      requires Valid()
      modifies this
      ensures Valid()
      ensures outcome == Succeeded <==> user.Some? && answer.Data?
      ensures old(user).None? ==> outcome == Failed(MissingUserMessage)
      ensures old(user).Some? && answer.Error? ==> outcome == Failed(answer.message)
      ensures outcome == Succeeded ==>
                State() == old(State()).(profile := Some(answer.value), isAdmin := IsAdminProfile(Some(answer.value)))
      ensures outcome != Succeeded ==> State() == old(State())
    {
      if user.None? {
        return Failed(MissingUserMessage);
      }
      if answer.Error? {
        return Failed(answer.message);
      }
      profile := Some(answer.value);
      isAdmin := IsAdminProfile(profile);
      return Succeeded;
    }
  }

  /**
   * A store that signs in and then out is back to nobody signed in, with its administrator
   * flag down, whatever the profile's role was.
   */
  method SignInThenOut(store: AuthState, answer: Response<AuthData>, row: Option<Profile>)
    requires store.Valid()
    modifies store
    ensures store.Valid()
    ensures store.user.None? && store.profile.None? && store.session.None? && !store.isAdmin
    ensures store.loading == old(store.loading)
  {
    var _ := store.SignIn(answer, row);
    var _ := store.SignOut(None);
  }
}
