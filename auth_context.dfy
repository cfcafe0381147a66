/**
 * The session store (AuthContext.js): the signed-in user, the loading and
 * authenticated flags, and the two local-storage keys that persist them.
 */
module AuthContext {
  import opened Wrappers
  import opened Api

  /** A user object, represented by its `JSON.stringify` text. */
  datatype User = User(json: string)

  /** The `verify.php` reply: `success` with the server's user, a falsy `success`, or a thrown call. */
  datatype VerifyReply = VerifyOk(user: User) | VerifyDenied | VerifyThrew

  /**
   * The `login.php` reply: `success` with a token and a user, a falsy
   * `success` with the server's message, or a thrown call with the message of
   * the error response's body, if any.
   */
  datatype LoginReply =
    | LoginOk(token: string, user: User)
    | LoginDenied(message: Option<string>)
    | LoginThrew(responseMessage: Option<string>)

  /** What `login` resolves to. */
  datatype LoginResult = LoginResult(success: bool, user: Option<User>, message: Option<string>)

  const LoginFailed := "Login failed"

  /** The result `login` resolves to for a reply. */
  function LoginResultFor(reply: LoginReply): (r: LoginResult)
    ensures r.success <==> reply.LoginOk?
    ensures r.success ==> r.user == Some(reply.user) && r.message == None
    ensures reply.LoginDenied? ==> r.message == reply.message && r.user == None
    ensures reply.LoginThrew? && Truthy(reply.responseMessage) ==> r.message == reply.responseMessage
    ensures reply.LoginThrew? && !Truthy(reply.responseMessage) ==> r.message == Some(LoginFailed)
    ensures !r.success ==> r.user == None
  {
    match reply
    case LoginOk(_, u) => LoginResult(true, Some(u), None)
    case LoginDenied(m) => LoginResult(false, None, m)
    case LoginThrew(m) => LoginResult(false, None, Some(if Truthy(m) then m.value else LoginFailed))
  }

  /** A failed login always carries a message when the call threw. */
  lemma ThrownLoginHasMessage(m: Option<string>)
    ensures LoginResultFor(LoginThrew(m)).message.Some?
    ensures LoginResultFor(LoginThrew(m)).message.value != ""
  {
  }

  /** Storage with both session keys removed and everything else kept. */
  function Cleared(storage: map<string, string>): (s: map<string, string>)
    ensures TokenKey !in s && UserKey !in s
    ensures forall k :: k in storage && k != TokenKey && k != UserKey ==> k in s && s[k] == storage[k]
    ensures forall k :: k in s ==> k in storage
  {
    storage - {TokenKey, UserKey}
  }

  /** `localStorage.getItem('user')`. */
  function StoredUser(storage: map<string, string>): (u: Option<string>)
    ensures u.Some? <==> UserKey in storage
    ensures u.Some? ==> u.value == storage[UserKey]
  {
    if UserKey in storage then Some(storage[UserKey]) else None
  }

  class AuthProvider {
    var user: Option<User>
    var loading: bool
    var isAuthenticated: bool
    /** `localStorage`. */
    var storage: map<string, string>

    /**
     * The in-memory user always mirrors the stored one, and the session is
     * authenticated only with a user.
     */
    predicate Valid()
      reads this
    {
      && (user.Some? ==> UserKey in storage && storage[UserKey] == user.value.json)
      && (isAuthenticated ==> user.Some?)
    }

    /** The initial state over whatever the browser has stored. */
    constructor (stored: map<string, string>)
      ensures user == None && loading && !isAuthenticated && storage == stored
      ensures Valid()
    {
      user := None;
      loading := true;
      isAuthenticated := false;
      storage := stored;
    }

    /** `clearAuthData`: signed out, with both keys removed. */
    method ClearAuthData()
      modifies this
      ensures user == None && !isAuthenticated && storage == Cleared(old(storage))
      ensures loading == old(loading)
      ensures Valid()
    {
      user := None;
      isAuthenticated := false;
      storage := storage - {TokenKey};
      storage := storage - {UserKey};
    }

    /**
     * `checkAuthStatus` up to its `await`: a truthy stored user is parsed and
     * shown at once; a missing or empty one is not parsed at all.
     * `storedUserParses` says whether `JSON.parse` accepts a truthy one; when
     * it throws, the session is cleared, loading ends and no verification is
     * sent.
     */
    method BeginCheck(storedUserParses: bool) returns (verifying: bool)
      requires Valid()
      modifies this
      ensures Valid()
      ensures verifying <==> !Truthy(StoredUser(old(storage))) || storedUserParses
      ensures verifying ==> loading && isAuthenticated == old(isAuthenticated) && storage == old(storage)
      ensures verifying && Truthy(StoredUser(old(storage))) ==> user == Some(User(old(storage)[UserKey]))
      ensures verifying && !Truthy(StoredUser(old(storage))) ==> user == old(user)
      ensures !verifying ==> !loading && user == None && !isAuthenticated && storage == Cleared(old(storage))
    {
      loading := true;
      verifying := true;
      var stored := StoredUser(storage);
      if stored.Some? && stored.value != "" {
        if storedUserParses {
          user := Some(User(stored.value));
        } else {
          ClearAuthData();
          loading := false;
          verifying := false;
        }
      }
    }

    /**
     * `checkAuthStatus` after its `await`: a verified user becomes the
     * authenticated user and is written back to storage; a denial or a thrown
     * call clears the session. Loading ends false either way.
     */
    method EndCheck(reply: VerifyReply)
      requires Valid()
      modifies this
      ensures Valid() && !loading
      ensures reply.VerifyOk? ==>
        user == Some(reply.user) && isAuthenticated && storage == old(storage)[UserKey := reply.user.json]
      ensures !reply.VerifyOk? ==> user == None && !isAuthenticated && storage == Cleared(old(storage))
    {
      if reply.VerifyOk? {
        user := Some(reply.user);
        isAuthenticated := true;
        storage := storage[UserKey := reply.user.json];
      } else {
        ClearAuthData();
      }
      loading := false;
    }

    /** The whole of `checkAuthStatus` when nothing interleaves with it: loading always ends false. */
    method CheckAuthStatus(storedUserParses: bool, reply: VerifyReply)
      requires Valid()
      modifies this
      ensures Valid() && !loading
      ensures isAuthenticated <==> (!Truthy(StoredUser(old(storage))) || storedUserParses) && reply.VerifyOk?
      ensures isAuthenticated ==> user == Some(reply.user) && storage == old(storage)[UserKey := reply.user.json]
      ensures !isAuthenticated ==> user == None && storage == Cleared(old(storage))
    {
      var verifying := BeginCheck(storedUserParses);
      if verifying {
        EndCheck(reply);
      }
    }

    /**
     * `login`: on success both keys are written, the user is signed in and
     * the result carries the user; otherwise the result carries the message
     * and nothing changes.
     */
    method Login(reply: LoginReply) returns (r: LoginResult)
      requires Valid()
      modifies this
      ensures Valid()
      ensures r == LoginResultFor(reply)
      ensures reply.LoginOk? ==>
        storage == old(storage)[TokenKey := reply.token][UserKey := reply.user.json]
        && user == Some(reply.user) && isAuthenticated
      ensures !reply.LoginOk? ==>
        storage == old(storage) && user == old(user) && isAuthenticated == old(isAuthenticated)
      ensures loading == old(loading)
    {
      match reply {
        case LoginOk(token, u) =>
          storage := storage[TokenKey := token];
          storage := storage[UserKey := u.json];
          user := Some(u);
          isAuthenticated := true;
          r := LoginResult(true, Some(u), None);
        case LoginDenied(m) =>
          r := LoginResult(false, None, m);
        case LoginThrew(m) =>
          r := LoginResult(false, None, Some(if m.Some? && m.value != "" then m.value else LoginFailed));
      }
    }

    /** `logout`: whether or not the backend call fails, the session is cleared. */
    method Logout(outcome: CallOutcome)
      requires Valid()
      modifies this
      ensures Valid()
      ensures user == None && !isAuthenticated && storage == Cleared(old(storage))
      ensures loading == old(loading)
    {
      ClearAuthData();
    }
  }

  /** A successful login leaves the stored token ready for the request interceptor to send. */
  lemma LoginStoresToken(storage: map<string, string>, token: string, u: User)
    ensures StoredToken(storage[TokenKey := token][UserKey := u.json]) == Some(token)
  {
  }

  /** After a session is cleared the interceptor finds no token. */
  lemma ClearedHasNoToken(storage: map<string, string>)
    ensures StoredToken(Cleared(storage)) == None
  {
  }
}
