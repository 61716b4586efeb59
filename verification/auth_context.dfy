/**
 * The session context: a token held in state (seeded from storage), an effect
 * that turns the token into an identity whenever it changes, and the login and
 * logout actions.  The JWT decoder is an uninterpreted parameter.
 */
module AuthContext {
  import opened Wrappers
  import opened Text
  import opened Access
  import Browser

  /** One claim of the decoded payload: absent, a string, or some other JSON value. */
  datatype Claim = Absent | Str(text: string) | NotAString

  /** What `jwtDecode(token)` gives: it throws, returns a falsy value, or returns a payload. */
  datatype Decoded = Threw | Falsy | Payload(user_id: Claim, username: Claim, role: Claim)

  /** `typeof c === 'string' && c.trim() !== ''`. */
  predicate Filled(c: Claim)
  {
    c.Str? && !Blank(c.text)
  }

  /** The identity a decoded token yields, if its claims are acceptable. */
  function IdentityOf(d: Decoded): (r: Option<User>)
    ensures r.Some? <==> d.Payload? && Filled(d.user_id) && Filled(d.username) && Filled(d.role)
    ensures r.Some? ==> r.value.userId == d.user_id.text && r.value.username == d.username.text
                        && r.value.role == d.role.text
  {
    if d.Payload? && Filled(d.user_id) && Filled(d.username) && Filled(d.role)
    then Some(User(d.user_id.text, d.username.text, d.role.text))
    else None
  }

  /** `if (token)`: present and not the empty string. */
  predicate Truthy(t: Option<string>)
  {
    t.Some? && t.value != []
  }

  datatype SessionState = SessionState(
    user: Option<User>,
    token: Option<string>,
    isAuthenticated: bool,
    isLoading: bool,
    storage: Browser.Storage)

  /** The state after the token effect has run once. */
  function Recomputed(s: SessionState, decode: string -> Decoded): (r: SessionState)
    ensures !r.isLoading
    ensures r.isAuthenticated <==> r.user.Some?
    ensures r.user.Some? <==> Truthy(s.token) && IdentityOf(decode(s.token.value)).Some?
    ensures r.user.Some? ==>
              r.user == IdentityOf(decode(s.token.value)) && r.token == s.token
              && r.storage == s.storage[Browser.TokenKey := s.token.value]
    ensures r.user.None? ==> r.storage == Browser.Purged(s.storage)
    ensures r.token == (if Truthy(s.token) && decode(s.token.value).Threw? then None else s.token)
  {
    if Truthy(s.token) then
      var d := decode(s.token.value);
      if d.Threw? then
        SessionState(None, None, false, false, Browser.Purged(s.storage))
      else
        var id := IdentityOf(d);
        if id.Some? then
          SessionState(id, s.token, true, false, s.storage[Browser.TokenKey := s.token.value])
        else
          SessionState(None, s.token, false, false, Browser.Purged(s.storage))
    else
      SessionState(None, s.token, false, false, Browser.Purged(s.storage))
  }

  /**
   * Running the effect again on its own result changes nothing; in particular
   * the re-run that `setToken(null)` triggers after a decoding failure is inert.
   */
  lemma RecomputeSettles(s: SessionState, decode: string -> Decoded)
    ensures Recomputed(Recomputed(s, decode), decode) == Recomputed(s, decode)
  {
    var r := Recomputed(s, decode);
    if r.user.None? {
      Browser.PurgeIdempotent(s.storage);
    } else {
      assert r.storage[Browser.TokenKey := s.token.value] == r.storage;
    }
  }

  class AuthProvider {
    var user: Option<User>
    var token: Option<string>
    var isAuthenticated: bool
    var isLoading: bool
    const window: Browser.Window

    function State(): SessionState
      reads this, window
    {
      SessionState(user, token, isAuthenticated, isLoading, window.storage)
    }

    /** Initial state: the token read from storage, no user, loading. */
    constructor (w: Browser.Window)
      ensures window == w
      ensures token == Browser.GetItem(w.storage, Browser.TokenKey)
      ensures user == None && !isAuthenticated && isLoading
    {
      window := w;
      token := Browser.GetItem(w.storage, Browser.TokenKey);
      user := None;
      isAuthenticated := false;
      isLoading := true;
    }

    /** The effect that runs whenever the token changes. */
    method Recompute(decode: string -> Decoded)
      modifies this, window
      ensures State() == Recomputed(old(State()), decode)
      ensures window.pathname == old(window.pathname) && window.assignedHref == old(window.assignedHref)
    {
      isLoading := true;
      var newIsAuthenticated := false;
      var newUser: Option<User> := None;
      if Truthy(token) {
        var decoded := decode(token.value);
        if decoded.Threw? {
          window.storage := Browser.Purged(window.storage);
          token := None;
        } else {
          var identity := IdentityOf(decoded);
          if identity.Some? {
            newUser := identity;
            newIsAuthenticated := true;
            window.storage := window.storage[Browser.TokenKey := token.value];
          } else {
            window.storage := Browser.Purged(window.storage);
          }
        }
      } else {
        window.storage := Browser.Purged(window.storage);
      }
      user := newUser;
      isAuthenticated := newIsAuthenticated;
      isLoading := false;
    }

    /** `loginUser`: only the token changes; the identity comes from the next recompute. */
    method LoginUser(newToken: string)
      modifies this`token
      ensures token == Some(newToken)
    {
      token := Some(newToken);
    }

    /** `logoutUser`: clears the session and storage and sends the browser to the login page. */
    method LogoutUser()
      modifies this, window
      ensures token == None && user == None && !isAuthenticated && isLoading == old(isLoading)
      ensures window.storage == Browser.Purged(old(window.storage))
      ensures window.assignedHref == Some(Browser.LoginPath) && window.pathname == old(window.pathname)
    {
      token := None;
      user := None;
      isAuthenticated := false;
      window.storage := Browser.Purged(window.storage);
      window.assignedHref := Some(Browser.LoginPath);
    }
  }
}
