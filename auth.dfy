/**
 * The admin session (src/contexts/AuthContext.tsx): an in-memory flag and user,
 * mirrored in two local-storage keys so that a reload restores the session.
 * The user is kept as the record the serialiser reads back (its field list);
 * a saved user that does not parse is a corrupt session, which is discarded.
 */
module AuthContext {
  import opened Wrappers
  import opened Json
  import opened BrowserStorage

  const LoggedInKey: string := "admin_logged_in"
  const UserKey: string := "admin_user"

  /** A parsed user value. */
  type UserRecord = seq<string>

  /** What a restore finds in storage. */
  datatype SavedSession = NoSession | Session(user: UserRecord) | Corrupt

  /** The flag reads exactly `'true'`, the saved user is non-empty, and whether it parses. */
  function Saved(items: map<string, string>): (r: SavedSession)
    ensures r.Session? <==>
      (LoggedInKey in items && items[LoggedInKey] == "true" && UserKey in items && items[UserKey] != ""
       && Parse(items[UserKey]).Some?)
    ensures r.Session? ==> Parse(items[UserKey]) == Some(r.user)
    ensures r.Corrupt? <==>
      (LoggedInKey in items && items[LoggedInKey] == "true" && UserKey in items && items[UserKey] != ""
       && Parse(items[UserKey]).None?)
  {
    if LoggedInKey in items && items[LoggedInKey] == "true" && UserKey in items && items[UserKey] != "" then
      match Parse(items[UserKey])
      case Some(u) => Session(u)
      case None => Corrupt
    else NoSession
  }

  /** The storage after a login of `u`: the flag reads `'true'`, the user key holds the
      serialised user, and every other key is as it was. */
  function AfterLogin(items: map<string, string>, u: UserRecord): (r: map<string, string>)
    ensures LoggedInKey in r && r[LoggedInKey] == "true"
    ensures UserKey in r && r[UserKey] == Stringify(u)
    ensures forall k :: k != LoggedInKey && k != UserKey ==> (k in r <==> k in items)
    ensures forall k :: k in r && k != LoggedInKey && k != UserKey ==> r[k] == items[k]
  {
    items[LoggedInKey := "true"][UserKey := Stringify(u)]
  }

  /** The storage after a logout, or after a corrupt session is discarded. */
  function AfterLogout(items: map<string, string>): (r: map<string, string>)
    ensures LoggedInKey !in r && UserKey !in r
    ensures forall k :: k != LoggedInKey && k != UserKey ==> (k in r <==> k in items)
    ensures forall k :: k in r ==> r[k] == items[k]
  {
    items - {LoggedInKey, UserKey}
  }

  /** A reload after a login restores the same user. A user record always has fields
      (`UserFields` in the login page); the requires is there because the stand-in
      serialiser writes an empty field list as the empty text, which reads as no session,
      where `JSON.stringify([])` would give `"[]"`. */
  lemma LoginThenRestore(items: map<string, string>, u: UserRecord)
    requires u != []
    ensures Saved(AfterLogin(items, u)) == Session(u)
  {
    ParseStringify(u);
  }

  /** A reload after a logout finds no session, and a second logout changes nothing. */
  lemma LogoutThenRestore(items: map<string, string>)
    ensures Saved(AfterLogout(items)) == NoSession
    ensures AfterLogout(AfterLogout(items)) == AfterLogout(items)
  {
  }

  class AuthProvider {
    var isAuthenticated: bool
    var adminUser: Option<UserRecord>
    var loading: bool
    const storage: LocalStorage

    constructor (storage: LocalStorage)
      ensures !isAuthenticated && adminUser.None? && loading
      ensures this.storage == storage
    {
      isAuthenticated := false;
      adminUser := None;
      loading := true;
      this.storage := storage;
    }

    /** The in-memory flag agrees with the stored one. */
    predicate Mirrored()
      reads this, storage
    {
      isAuthenticated == (LoggedInKey in storage.items && storage.items[LoggedInKey] == "true")
    }

    /** Children are rendered only once the restore step has finished. */
    predicate RendersChildren()
      reads this
    {
      !loading
    }

    /** The mount effect: adopt a saved session, discard a corrupt one, then stop loading. */
    method Restore()
      modifies this, storage
      ensures RendersChildren()
      ensures Saved(old(storage.items)).Session? ==>
        isAuthenticated && adminUser == Some(Saved(old(storage.items)).user) && storage.items == old(storage.items)
      ensures Saved(old(storage.items)).Corrupt? ==>
        isAuthenticated == old(isAuthenticated) && adminUser == old(adminUser)
        && storage.items == AfterLogout(old(storage.items))
      ensures Saved(old(storage.items)).NoSession? ==>
        isAuthenticated == old(isAuthenticated) && adminUser == old(adminUser) && storage.items == old(storage.items)
    {
      var loggedIn := storage.GetItem(LoggedInKey);
      var savedUser := storage.GetItem(UserKey);
      if loggedIn == Some("true") && savedUser.Some? && savedUser.value != "" {
        var user := Parse(savedUser.value);
        if user.Some? {
          isAuthenticated := true;
          adminUser := user;
        } else {
          storage.RemoveItem(LoggedInKey);
          storage.RemoveItem(UserKey);
        }
      }
      loading := false;
    }

    /** `login(user)` */
    method Login(u: UserRecord)
      modifies this, storage
      ensures isAuthenticated && adminUser == Some(u) && loading == old(loading)
      ensures storage.items == AfterLogin(old(storage.items), u)
      ensures Mirrored()
    {
      isAuthenticated := true;
      adminUser := Some(u);
      storage.SetItem(LoggedInKey, "true");
      storage.SetItem(UserKey, Stringify(u));
    }

    /** `logout()` */
    method Logout()
      modifies this, storage
      ensures !isAuthenticated && adminUser.None? && loading == old(loading)
      ensures storage.items == AfterLogout(old(storage.items))
      ensures Mirrored()
    {
      isAuthenticated := false;
      adminUser := None;
      storage.RemoveItem(LoggedInKey);
      storage.RemoveItem(UserKey);
    }
  }

  /** On a fresh provider, a corrupt saved session leaves the visitor signed out with both
      keys removed, and a valid one signs the saved user in. */
  method Mount(storage: LocalStorage) returns (auth: AuthProvider)
    modifies storage
    ensures auth.storage == storage && auth.RendersChildren()
    ensures Saved(old(storage.items)).Corrupt? ==>
      !auth.isAuthenticated && auth.adminUser.None? && storage.items == AfterLogout(old(storage.items))
    ensures Saved(old(storage.items)).Session? ==> auth.isAuthenticated && auth.Mirrored()
    ensures Saved(old(storage.items)).NoSession? ==> !auth.isAuthenticated && auth.adminUser.None?
  {
    auth := new AuthProvider(storage);
    auth.Restore();
  }
}
