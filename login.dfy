/**
 * The login page (src/pages/Login.tsx): the trimmed credentials are looked up
 * in the `admin_users` table with a single-row select, and the attempt ends in
 * exactly one of: user not found, wrong password, signed in, or a generic
 * failure when the lookup throws. How the query ends is a parameter; the table
 * is a sequence of rows.
 */
module LoginPage {
  import opened Wrappers
  import opened JsString
  import opened StoreContext
  import opened AuthContext

  datatype AdminUserRow = AdminUserRow(id: string, username: string, passwordHash: string)

  /** The user record the session keeps for a row. */
  function UserFields(row: AdminUserRow): (u: UserRecord)
    ensures u != []
  {
    [row.id, row.username, row.passwordHash]
  }

  /** The rows whose `username` equals `name`. */
  function Matching(users: seq<AdminUserRow>, name: string): (r: seq<AdminUserRow>)
    ensures forall i :: 0 <= i < |r| ==> r[i] in users && r[i].username == name
    ensures forall row :: row in users && row.username == name ==> row in r
    ensures forall row {:trigger multiset(r)[row]} :: multiset(r)[row] == if row.username == name then multiset(users)[row] else 0
    decreases |users|
  {
    assert users != [] ==> users == [users[0]] + users[1..];
    if users == [] then []
    else (if users[0].username == name then [users[0]] else []) + Matching(users[1..], name)
  }

  /** `.eq('username', name).single()`: the row when exactly one matches; no row or several
      rows is a query error. */
  function Single(users: seq<AdminUserRow>, name: string): (r: Option<AdminUserRow>)
    ensures r.Some? <==> |Matching(users, name)| == 1
    ensures r.Some? ==> r.value in users && r.value.username == name
  {
    var m := Matching(users, name);
    if |m| == 1 then Some(m[0]) else None
  }

  datatype LoginOutcome = UserNotFound | WrongPassword | LoggedIn(user: AdminUserRow) | Failed

  const NotFoundMessage: string := "Usu\U{E1}rio n\U{E3}o encontrado"
  const WrongPasswordMessage: string := "Senha incorreta"
  const FailedMessage: string := "Erro ao fazer login. Tente novamente."

  /** The error shown after an attempt; empty after a successful one. */
  function Message(o: LoginOutcome): (m: string)
    ensures m == "" <==> o.LoggedIn?
  {
    match o
    case UserNotFound => NotFoundMessage
    case WrongPassword => WrongPasswordMessage
    case LoggedIn(_) => ""
    case Failed => FailedMessage
  }

  /** The row the lookup yields: a returned error reads like a missing row (a thrown query
      never reaches it). */
  function Lookup(users: seq<AdminUserRow>, name: string, query: Outcome): (r: Option<AdminUserRow>)
    ensures r.Some? <==> query == Succeeds && Single(users, name).Some?
    ensures r.Some? ==> r == Single(users, name)
  {
    if query == Succeeds then Single(users, name) else None
  }

  /** The decision of `handleLogin`; `query` is how the select ends. A returned error and a
      missing row both read as an unknown user. */
  function Decide(users: seq<AdminUserRow>, username: string, password: string, query: Outcome): (o: LoginOutcome)
    ensures o.LoggedIn? <==>
      (query == Succeeds && Single(users, Trim(username)).Some?
       && Single(users, Trim(username)).value.passwordHash == Trim(password))
    ensures o.LoggedIn? ==> o.user in users && o.user.username == Trim(username) && o.user.passwordHash == Trim(password)
    ensures o == Failed <==> query == Throws
    ensures o == UserNotFound <==> query == ReturnsError || (query == Succeeds && Single(users, Trim(username)).None?)
  {
    if query == Throws then Failed
    else
      match Lookup(users, Trim(username), query)
      case None => UserNotFound
      case Some(row) => if row.passwordHash != Trim(password) then WrongPassword else LoggedIn(row)
  }

  /** Surrounding white space in either input never changes the outcome. */
  lemma PaddingIgnored(users: seq<AdminUserRow>, username: string, password: string, query: Outcome,
                       lead: string, trail: string)
    requires AllWhiteSpace(lead) && AllWhiteSpace(trail)
    ensures Decide(users, lead + username + trail, password, query) == Decide(users, username, password, query)
    ensures Decide(users, username, lead + password + trail, query) == Decide(users, username, password, query)
  {
    TrimIgnoresPadding(lead, username, trail);
    TrimIgnoresPadding(lead, password, trail);
  }

  /** Two rows with the trimmed user name make the single-row select fail, so the attempt
      reads as an unknown user whatever the password. */
  lemma DuplicateNameNotFound(users: seq<AdminUserRow>, username: string, password: string, a: nat, b: nat)
    requires a < b < |users| && users[a].username == Trim(username) && users[b].username == Trim(username)
    ensures Decide(users, username, password, Succeeds) == UserNotFound
  {
    MatchingCountsRepeats(users, a, b, Trim(username));
  }

  lemma {:induction false} MatchingCountsRepeats(users: seq<AdminUserRow>, a: nat, b: nat, name: string)
    requires a < b < |users| && users[a].username == name && users[b].username == name
    ensures |Matching(users, name)| >= 2
    decreases |users|
  {
    if a == 0 {
      MatchingHas(users[1..], b - 1, name);
    } else {
      MatchingCountsRepeats(users[1..], a - 1, b - 1, name);
    }
  }

  lemma {:induction false} MatchingHas(users: seq<AdminUserRow>, k: nat, name: string)
    requires k < |users| && users[k].username == name
    ensures |Matching(users, name)| >= 1
  {
    assert users[k] in Matching(users, name);
  }

  class LoginForm {
    var loading: bool
    var error: string
    var navigations: seq<string>

    constructor ()
      ensures !loading && error == "" && navigations == []
    {
      loading := false;
      error := "";
      navigations := [];
    }

    /** The redirect effect: an authenticated visitor is sent to the admin panel. */
    method RedirectIfAuthenticated(auth: AuthProvider)
      modifies this
      ensures navigations == old(navigations) + if auth.isAuthenticated then ["/admin"] else []
      ensures loading == old(loading) && error == old(error)
    {
      if auth.isAuthenticated {
        navigations := navigations + ["/admin"];
      }
    }

    /** `handleLogin`: the session is opened, and the admin panel shown, only for a matching
        password; every other outcome leaves the session as it was and shows its message.
        `loading` is false again on every path. */
    method HandleLogin(auth: AuthProvider, users: seq<AdminUserRow>, username: string, password: string,
                       query: Outcome)
      returns (outcome: LoginOutcome)
      modifies this, auth, auth.storage
      ensures outcome == Decide(users, username, password, query)
      ensures !loading && error == Message(outcome)
      ensures outcome.LoggedIn? ==>
        auth.isAuthenticated && auth.adminUser == Some(UserFields(outcome.user))
        && auth.storage.items == AfterLogin(old(auth.storage.items), UserFields(outcome.user))
        && navigations == old(navigations) + ["/admin"]
      ensures !outcome.LoggedIn? ==>
        auth.isAuthenticated == old(auth.isAuthenticated) && auth.adminUser == old(auth.adminUser)
        && auth.storage.items == old(auth.storage.items) && navigations == old(navigations)
      ensures auth.loading == old(auth.loading)
    {
      loading := true;
      error := "";
      if query == Throws {
        outcome := Failed;
        error := FailedMessage;
      } else {
        var adminUser := Lookup(users, Trim(username), query);
        match adminUser {
          case None =>
            outcome := UserNotFound;
            error := NotFoundMessage;
          case Some(row) =>
            if row.passwordHash != Trim(password) {
              outcome := WrongPassword;
              error := WrongPasswordMessage;
            } else {
              outcome := LoggedIn(row);
              auth.Login(UserFields(row));
              navigations := navigations + ["/admin"];
            }
        }
      }
      loading := false;
    }
  }

  /** A successful sign-in survives a reload: the restored session holds the same user. */
  lemma SignedInSurvivesReload(items: map<string, string>, row: AdminUserRow)
    ensures Saved(AfterLogin(items, UserFields(row))) == Session(UserFields(row))
  {
    LoginThenRestore(items, UserFields(row));
  }
}
