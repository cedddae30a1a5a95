/**
 * The `useAuth` hook that stands in for a session library on the client,
 * and its `signOut`.
 */
module UseAuth {
  import opened Wrappers
  import opened Session

  const LoginPath := "/auth/login"

  /** The user object the hook builds from the store; name and role may be null. */
  datatype AuthUser = AuthUser(email: string, name: Option<string>, role: Option<string>, isActive: bool)

  /** The user and loading flag the effect leaves, from the store and the user before it ran. */
  function AfterEffect(items: map<string, string>, prior: Option<AuthUser>): (r: (Option<AuthUser>, bool))
    ensures !r.1
    ensures !HasSession(items) ==> r.0 == prior
    ensures HasSession(items) ==>
              r.0 == Some(AuthUser(items[UserEmailKey], GetItem(items, UserNameKey), GetItem(items, UserRoleKey), true))
  {
    if !HasSession(items) then (prior, false)
    else (Some(AuthUser(items[UserEmailKey], GetItem(items, UserNameKey), GetItem(items, UserRoleKey), true)), false)
  }

  /** The status the hook returns, as written: it depends on `loading` alone. */
  function HookStatus(loading: bool): (r: string)
    ensures r == "loading" <==> loading
  {
    if loading then "loading" else "authenticated"
  }

  /** On a store without a session the hook, once its effect has run from the
      initial state, reports "authenticated" with no user. */
  lemma AuthenticatedWithoutUser(items: map<string, string>)
    requires !HasSession(items)
    ensures var (user, loading) := AfterEffect(items, None);
            user.None? && HookStatus(loading) == "authenticated"
  {
  }

  /** The status the hook evidently means, as a session library reports it:
      no user once loading has finished is "unauthenticated". */
  function IntendedStatus(loading: bool, user: Option<AuthUser>): (r: string)
  {
    if loading then "loading" else if user.Some? then "authenticated" else "unauthenticated"
  }

  /** With the intended status, the hook reports "authenticated" after its
      effect exactly when the store held a session (starting with no user). */
  lemma IntendedStatusAfterEffect(items: map<string, string>)
    ensures var (user, loading) := AfterEffect(items, None);
            (IntendedStatus(loading, user) == "authenticated" <==> HasSession(items)) &&
            (IntendedStatus(loading, user) == "unauthenticated" <==> !HasSession(items))
  {
  }

  /** The hook's React state, and where it last sent the browser. */
  class AuthHook {
    var user: Option<AuthUser>
    var loading: bool
    var navigatedTo: Option<string>

    constructor ()
      ensures user == None && loading && navigatedTo == None
    {
      user := None;
      loading := true;
      navigatedTo := None;
    }

    /** The mount effect: read the four keys; without a session go to the
        login page; otherwise build the user; either way stop loading. */
    method RunEffect(store: LocalStorage)
      modifies this
      ensures (user, loading) == AfterEffect(store.items, old(user))
      ensures navigatedTo == if HasSession(store.items) then old(navigatedTo) else Some(LoginPath)
    {
      var isLoggedIn := store.Get(IsLoggedInKey);
      var email := store.Get(UserEmailKey);
      var name := store.Get(UserNameKey);
      var role := store.Get(UserRoleKey);
      if !Truthy(isLoggedIn) || !Truthy(email) {
        navigatedTo := Some(LoginPath);
        loading := false;
        return;
      }
      user := Some(AuthUser(email.value, name, role, true));
      loading := false;
    }

    function Status(): (r: string)
      reads this
      ensures r == "loading" <==> loading
    {
      HookStatus(loading)
    }
  }

  /** `signOut`: remove the four keys and go to the login page (returned as
      the location it assigns). After it the guard always fails. */
  method SignOut(store: LocalStorage) returns (location: string)
    modifies store
    ensures store.items == SignedOut(old(store.items))
    ensures !HasSession(store.items)
    ensures location == LoginPath
  {
    RemoveSession(store);
    SessionStates(old(store.items), "");
    location := LoginPath;
  }
}
