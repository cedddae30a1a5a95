/**
 * The browser's `localStorage` as the client-side session store: the four
 * keys a login writes, the test the guards apply and the sign-out that
 * removes them.
 */
module Session {
  import opened Wrappers

  const IsLoggedInKey := "isLoggedIn"
  const UserEmailKey := "userEmail"
  const UserNameKey := "userName"
  const UserRoleKey := "userRole"

  const SessionKeys: set<string> := {IsLoggedInKey, UserEmailKey, UserNameKey, UserRoleKey}

  const DemoName := "Demo Admin"
  const DemoRole := "ADMIN"

  /** `localStorage.getItem(key)`: the stored text, or null. */
  function GetItem(items: map<string, string>, key: string): (r: Option<string>)
    ensures r.Some? <==> key in items
    ensures r.Some? ==> r.value == items[key]
  {
    if key in items then Some(items[key]) else None
  }

  /** A stored value JavaScript treats as true: present and not the empty string. */
  predicate Truthy(v: Option<string>) {
    v.Some? && v.value != ""
  }

  /** The guards' test `isLoggedIn && userEmail`. */
  predicate HasSession(items: map<string, string>) {
    Truthy(GetItem(items, IsLoggedInKey)) && Truthy(GetItem(items, UserEmailKey))
  }

  /** The four entries a login writes for `email`. */
  function LoginEntries(email: string): (r: map<string, string>)
    ensures r.Keys == SessionKeys
  {
    map[IsLoggedInKey := "true", UserEmailKey := email, UserNameKey := DemoName, UserRoleKey := DemoRole]
  }

  /** The store after the four `setItem` calls of a login. */
  function SignedIn(items: map<string, string>, email: string): (r: map<string, string>)
    ensures r.Keys == items.Keys + SessionKeys
    ensures r[IsLoggedInKey] == "true" && r[UserEmailKey] == email
    ensures r[UserNameKey] == DemoName && r[UserRoleKey] == DemoRole
    ensures forall k :: k in items && k !in SessionKeys ==> r[k] == items[k]
  {
    items + LoginEntries(email)
  }

  /** The store after the four `removeItem` calls of a sign-out. */
  function SignedOut(items: map<string, string>): (r: map<string, string>)
    ensures r.Keys == items.Keys - SessionKeys
    ensures forall k :: k in r ==> r[k] == items[k]
  {
    items - SessionKeys
  }

  /** A login with a non-empty email opens a session, and a sign-out always ends it. */
  lemma SessionStates(items: map<string, string>, email: string)
    ensures HasSession(SignedIn(items, email)) <==> email != ""
    ensures !HasSession(SignedOut(items))
  {
    assert IsLoggedInKey !in SignedOut(items);
  }

  /** Signing out after a login leaves the store as signing out would have
      left it before: the login leaves no trace. */
  lemma SignOutUndoesLogin(items: map<string, string>, email: string)
    ensures SignedOut(SignedIn(items, email)) == SignedOut(items)
  {
  }

  /** Signing out twice is the same as signing out once. */
  lemma SignOutIdempotent(items: map<string, string>)
    ensures SignedOut(SignedOut(items)) == SignedOut(items)
  {
  }

  /** The browser's store for the page's origin. */
  class LocalStorage {
    var items: map<string, string>

    constructor (initial: map<string, string>)
      ensures items == initial
    {
      items := initial;
    }

    method SetItem(key: string, value: string)
      modifies this
      ensures items == old(items)[key := value]
    {
      items := items[key := value];
    }

    method RemoveItem(key: string)
      modifies this
      ensures items == old(items) - {key}
    {
      items := items - {key};
    }

    function Get(key: string): Option<string>
      reads this
    {
      GetItem(items, key)
    }
  }

  /** The four `setItem` calls of a login, in the order the source makes them. */
  method WriteLogin(store: LocalStorage, email: string)
    modifies store
    ensures store.items == SignedIn(old(store.items), email)
  {
    store.SetItem(IsLoggedInKey, "true");
    store.SetItem(UserEmailKey, email);
    store.SetItem(UserNameKey, DemoName);
    store.SetItem(UserRoleKey, DemoRole);
    LoginUpdates(old(store.items), email);
  }

  /** The four single-key updates, one after the other, add the login entries. */
  lemma LoginUpdates(items: map<string, string>, email: string)
    ensures items[IsLoggedInKey := "true"][UserEmailKey := email][UserNameKey := DemoName][UserRoleKey := DemoRole]
            == SignedIn(items, email)
  {
  }

  /** The four `removeItem` calls of a sign-out. */
  method RemoveSession(store: LocalStorage)
    modifies store
    ensures store.items == SignedOut(old(store.items))
  {
    store.RemoveItem(IsLoggedInKey);
    store.RemoveItem(UserEmailKey);
    store.RemoveItem(UserNameKey);
    store.RemoveItem(UserRoleKey);
  }
}
