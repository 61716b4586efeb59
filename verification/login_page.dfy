/** The login screen: schema, submit handler and the redirect back to the requested page. */
module LoginPage {
  import opened Wrappers
  import Browser
  import Router
  import AuthContext

  const DefaultError: string := "Credenciais inválidas ou erro no servidor."

  /** The form schema: user and password of at least three characters each. */
  predicate SchemaAccepts(user: string, passw: string)
  {
    |user| >= 3 && |passw| >= 3
  }

  /** `location.state?.from?.pathname || "/dashboard"`. */
  function RedirectTarget(state: Option<Router.NavState>): (r: string)
    ensures state.Some? && state.value.from.Some? && state.value.from.value != [] ==> r == state.value.from.value
    ensures !(state.Some? && state.value.from.Some? && state.value.from.value != []) ==> r == Router.DashboardPath
  {
    if state.Some? && state.value.from.Some? && state.value.from.value != [] then state.value.from.value
    else Router.DashboardPath
  }

  /** The guard's login redirect and the login page's redirect-back compose to the requested page. */
  lemma RedirectBackToRequestedPage(user: Option<AuthContext.Access.User>, allowedRoles: seq<string>, location: string)
    requires location != []
    ensures var d := Router.Guard(false, false, user, allowedRoles, location);
            d.Redirect? && d.to == Router.LoginPath && RedirectTarget(Some(d.state)) == location
  {
  }

  /** The effect that sends an already signed-in visitor to the dashboard. */
  function AuthenticatedRedirect(isAuthenticated: bool): (r: Option<string>)
    ensures r.Some? <==> isAuthenticated
    ensures r.Some? ==> r.value == Router.DashboardPath
  {
    if isAuthenticated then Some(Router.DashboardPath) else None
  }

  /** The backend's answer to the login call. */
  datatype LoginOutcome = Accepted(token: string, studentId: Option<string>) | Rejected(detail: Option<string>)

  /** The side effects of a successful submit, in the order the handler performs them. */
  datatype Step = HandToLoginUser(token: string) | StoreStudentId(id: string) | NavigateTo(path: string)

  /** The message shown on failure: the backend's `detail`, else the fixed default. */
  function ErrorMessage(detail: Option<string>): (r: string)
    ensures detail.Some? && detail.value != [] ==> r == detail.value
    ensures !(detail.Some? && detail.value != []) ==> r == DefaultError
  {
    if detail.Some? && detail.value != [] then detail.value else DefaultError
  }

  class LoginForm {
    var user: string
    var passw: string
    var errorMsg: Option<string>
    var isLoading: bool

    constructor ()
      ensures user == [] && passw == [] && errorMsg == None && !isLoading
    {
      user := [];
      passw := [];
      errorMsg := None;
      isLoading := false;
    }

    /**
     * `onSubmit`, called by the form library only with schema-valid fields.
     * `steps` lists the success path's effects in order.
     */
    method OnSubmit(outcome: LoginOutcome, state: Option<Router.NavState>, auth: AuthContext.AuthProvider)
      returns (steps: seq<Step>)
      requires SchemaAccepts(user, passw)
      modifies this, auth`token, auth.window
      ensures !isLoading
      ensures outcome.Accepted? ==>
                && auth.token == Some(outcome.token)
                && errorMsg == None && user == old(user) && passw == old(passw)
                && auth.window.storage ==
                     (if outcome.studentId.Some? && outcome.studentId.value != []
                      then old(auth.window.storage)[Browser.StudentIdKey := outcome.studentId.value]
                      else old(auth.window.storage))
                && steps == SuccessSteps(outcome.token, outcome.studentId, state)
      ensures outcome.Rejected? ==>
                && errorMsg == Some(ErrorMessage(outcome.detail))
                && user == [] && passw == []
                && auth.token == old(auth.token) && auth.window.storage == old(auth.window.storage)
                && steps == []
      ensures auth.window.pathname == old(auth.window.pathname)
      ensures auth.window.assignedHref == old(auth.window.assignedHref)
    {
      errorMsg := None;
      isLoading := true;
      steps := [];
      match outcome {
        case Accepted(token, studentId) =>
          auth.LoginUser(token);
          steps := steps + [HandToLoginUser(token)];
          if studentId.Some? && studentId.value != [] {
            auth.window.storage := auth.window.storage[Browser.StudentIdKey := studentId.value];
            steps := steps + [StoreStudentId(studentId.value)];
          }
          steps := steps + [NavigateTo(RedirectTarget(state))];
        case Rejected(detail) =>
          errorMsg := Some(ErrorMessage(detail));
          user := [];
          passw := [];
      }
      isLoading := false;
    }
  }

  /** The effects of a successful submit: hand over the token, store the student id if one came back, navigate. */
  function SuccessSteps(token: string, studentId: Option<string>, state: Option<Router.NavState>): (steps: seq<Step>)
  {
    [HandToLoginUser(token)]
    + (if studentId.Some? && studentId.value != [] then [StoreStudentId(studentId.value)] else [])
    + [NavigateTo(RedirectTarget(state))]
  }

  /**
   * The token reaches `loginUser` before anything else, navigation comes last
   * and only once, and the student id is stored exactly when the response has one.
   */
  lemma LoginBeforeNavigation(token: string, studentId: Option<string>, state: Option<Router.NavState>)
    ensures var steps := SuccessSteps(token, studentId, state);
            && steps[0] == HandToLoginUser(token)
            && steps[|steps| - 1] == NavigateTo(RedirectTarget(state))
            && (forall i :: 0 <= i < |steps| - 1 ==> !steps[i].NavigateTo?)
            && ((exists i :: 0 <= i < |steps| && steps[i].StoreStudentId?) <==> studentId.Some? && studentId.value != [])
  {
    var steps := SuccessSteps(token, studentId, state);
    if studentId.Some? && studentId.value != [] {
      assert steps[1].StoreStudentId?;
    }
  }
}
