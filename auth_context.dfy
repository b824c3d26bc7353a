/**
 * The React authentication context: the signed-in `user`, the `loading` and
 * `error` flags, and the token kept in `localStorage`. The results of the two
 * server calls it makes (`adminLogin`, `verifyAdmin`) are parameters.
 */
module AuthContext {
  import opened Wrappers
  import opened Text
  import opened Http
  import opened ApiClient

  /** What `adminLogin` resolved to: the response data, or the rejection with
      its `response.data.detail`, if any. */
  datatype LoginOutcome =
    | LoggedIn(accessToken: string, username: string, role: string)
    | LoginRejected(detail: Option<string>)

  /** What `verifyAdmin` resolved to: `response.data.user`, or a rejection. */
  datatype VerifyOutcome = Verified(user: Identity) | VerifyRejected

  /** The object `login` returns. */
  datatype LoginResult = LoginResult(success: bool, error: Option<string>)

  const LoginFailedMessage := "Login failed"

  /** `err.response?.data?.detail || 'Login failed'`: a missing or empty
      detail falls back to the generic message. */
  function LoginError(detail: Option<string>): (msg: string)
    ensures msg != ""
    ensures detail.Some? && detail.value != "" ==> msg == detail.value
    ensures detail.None? || detail.value == "" ==> msg == LoginFailedMessage
  {
    OrDefault(detail, LoginFailedMessage)
  }

  class AuthState {
    var user: Option<Identity>
    var loading: bool
    var error: Option<string>
    const storage: LocalStorage

    /** The provider's initial state, before `checkAuth` has run. */
    constructor (storage: LocalStorage)
      ensures user.None? && loading && error.None? && this.storage == storage
    {
      user := None;
      loading := true;
      error := None;
      this.storage := storage;
    }

    /** `isAuthenticated: !!user` */
    predicate IsAuthenticated()
      reads this`user
    {
      user.Some?
    }

    /** The context never shows a signed-in user without a stored token (as
        long as nothing else writes the key). */
    predicate Consistent()
      reads this`user, storage`items
    {
      user.Some? ==> TokenKey in storage.items
    }

    /** `checkAuth`: with a truthy stored token, the user the server reports,
        or, when verification fails, no user and no token; with none,
        nothing changes. Loading ends on every path. */
    method CheckAuth(verify: VerifyOutcome)
      modifies this`user, this`loading, storage`items
      ensures !loading && error == old(error)
      ensures var token := old(storage.GetItem(TokenKey));
        if !Truthy(token) then
          user == old(user) && storage.items == old(storage.items)
        else if verify.Verified? then
          user == Some(verify.user) && storage.items == old(storage.items)
        else
          user.None? && storage.items == old(storage.items) - {TokenKey}
      ensures old(Consistent()) ==> Consistent()
    {
      var token := storage.GetItem(TokenKey);
      if Truthy(token) {
        match verify
        case Verified(u) =>
          user := Some(u);
        case VerifyRejected =>
          storage.RemoveItem(TokenKey);
          user := None;
      }
      loading := false;
    }

    /** `login`: on success the token is stored and the user is
        `{username, role}` from the response; on failure neither is touched
        and the error is the server's detail or `Login failed`. */
    method Login(outcome: LoginOutcome) returns (r: LoginResult)
      modifies this`user, this`error, storage`items
      ensures loading == old(loading)
      ensures outcome.LoggedIn? ==>
        && r == LoginResult(true, None) && error.None?
        && user == Some(Identity(outcome.username, outcome.role))
        && storage.items == old(storage.items)[TokenKey := outcome.accessToken]
      ensures outcome.LoginRejected? ==>
        && r == LoginResult(false, Some(LoginError(outcome.detail)))
        && error == Some(LoginError(outcome.detail))
        && user == old(user) && storage.items == old(storage.items)
      ensures old(Consistent()) ==> Consistent()
    {
      error := None;
      match outcome
      case LoggedIn(accessToken, username, role) =>
        storage.SetItem(TokenKey, accessToken);
        user := Some(Identity(username, role));
        return LoginResult(true, None);
      case LoginRejected(detail) =>
        var msg := LoginError(detail);
        error := Some(msg);
        return LoginResult(false, Some(msg));
    }

    /** `logout`: the token is removed and the user cleared. */
    method Logout()
      modifies this`user, storage`items
      ensures user.None? && !IsAuthenticated()
      ensures storage.items == old(storage.items) - {TokenKey}
      ensures Consistent()
    {
      storage.RemoveItem(TokenKey);
      user := None;
    }
  }
}
