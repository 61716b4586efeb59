/** The protected-route guard and the application's route table. */
module Router {
  import opened Wrappers
  import opened Access

  /** The `state` carried by a `<Navigate>`: where the visitor came from and a message. */
  datatype NavState = NavState(from: Option<string>, message: Option<string>)

  /** What `ProtectedRoute` renders. */
  datatype Decision = Waiting | Redirect(to: string, state: NavState) | RenderView

  const LoginPath: string := "/login"
  const DashboardPath: string := "/dashboard"
  const AuthErrorMessage: string := "Erro de autenticação."
  const ForbiddenMessage: string := "Acesso não autorizado"

  /** `ProtectedRoute`: guarded returns checked in source order. */
  function Guard(isLoading: bool, isAuthenticated: bool, user: Option<User>,
                 allowedRoles: seq<string>, location: string): (d: Decision)
    ensures isLoading ==> d == Waiting
    ensures !isLoading && !isAuthenticated ==> d == Redirect(LoginPath, NavState(Some(location), None))
    ensures !isLoading && isAuthenticated && (user.None? || user.value.role == []) ==>
              d == Redirect(LoginPath, NavState(Some(location), Some(AuthErrorMessage)))
    ensures !isLoading && isAuthenticated && user.Some? && user.value.role != [] ==>
              (d == RenderView <==> user.value.role in allowedRoles)
    ensures d.Redirect? && d.to == DashboardPath ==> d.state == NavState(None, Some(ForbiddenMessage))
  {
    if isLoading then Waiting
    else if !isAuthenticated then Redirect(LoginPath, NavState(Some(location), None))
    else if user.None? || user.value.role == [] then
      Redirect(LoginPath, NavState(Some(location), Some(AuthErrorMessage)))
    else if user.value.role !in allowedRoles then
      Redirect(DashboardPath, NavState(None, Some(ForbiddenMessage)))
    else RenderView
  }

  /** While loading, no redirect is produced, whatever else holds. */
  lemma NoRedirectWhileLoading(isAuthenticated: bool, user: Option<User>, allowedRoles: seq<string>, location: string)
    ensures !Guard(true, isAuthenticated, user, allowedRoles, location).Redirect?
  {
  }

  /** A signed-in user whose role is allowed always gets the view. */
  lemma AllowedUserGetsView(user: User, allowedRoles: seq<string>, location: string)
    requires user.role in allowedRoles && user.role != []
    ensures Guard(false, true, Some(user), allowedRoles, location) == RenderView
  {
  }

  /** What a path of the route table renders. */
  datatype Element =
    | Unguarded(page: string)
    | Protected(allowedRoles: seq<string>, page: string)
    | RedirectTo(target: string)
    | NotFound

  datatype Route = Route(path: string, element: Element)

  const AllRoles: seq<string> := [AdminName, EditorName, VisitanteName]
  const Writers: seq<string> := [AdminName, EditorName]
  const AdminOnly: seq<string> := [AdminName]

  /** The `<Routes>` table in declaration order. */
  const Routes: seq<Route> := [
    Route("/login", Unguarded("LoginPage")),
    Route("/dashboard", Protected(AllRoles, "DashboardPage")),
    Route("/alunos", Protected(AllRoles, "AlunoListPage")),
    Route("/alunos/novo", Protected(Writers, "AlunoFormPage")),
    Route("/alunos/:id/edit", Protected(Writers, "AlunoFormPage")),
    Route("/alunos/:id/summary", Protected(AllRoles, "AlunoSummaryPage")),
    Route("/alunos/:id/*", Protected(AllRoles, "AlunoDetailPage")),
    Route("/contraturno", Protected(AllRoles, "ContraturnoProjetos")),
    Route("/contraturno/novo", Protected(Writers, "ContraturnoFormPage")),
    Route("/contraturno/:id", Protected(AllRoles, "ContraturnoDetailPage")),
    Route("/contraturno/:id/edit", Protected(Writers, "ContraturnoFormPage")),
    Route("/colaboradores", Protected(AllRoles, "ColaboradoresPage")),
    Route("/auditoria", Protected(AdminOnly, "AuditoriaPage")),
    Route("/usuarios", Protected(AdminOnly, "UsuariosPage")),
    Route("/sobre-nos", Protected(AllRoles, "SobreNos")),
    Route("/comunicado", Protected(Writers, "Comunicado")),
    Route("/", RedirectTo(DashboardPath)),
    Route("*", NotFound)
  ]

  /** The element declared for a route pattern; patterns not in the table fall to the catch-all. */
  function ElementFor(path: string): (e: Element)
  {
    ElementIn(Routes, path)
  }

  function ElementIn(routes: seq<Route>, path: string): (e: Element)
    ensures e != NotFound ==> exists i :: 0 <= i < |routes| && routes[i].path == path && routes[i].element == e
  {
    if routes == [] then NotFound
    else if routes[0].path == path then routes[0].element
    else ElementIn(routes[1..], path)
  }

  /** The capability each protected route stands for. */
  function RouteCapability(path: string): Capability
  {
    if path in {"/alunos/novo", "/alunos/:id/edit", "/contraturno/novo", "/contraturno/:id/edit", "/comunicado"}
    then CreateEdit
    else if path == "/auditoria" then Audit
    else if path == "/usuarios" then ManageUsers
    else View
  }

  /** Every protected route admits exactly the roles the privilege table gives its capability. */
  lemma RoutesAgreeWithCan(i: nat, role: string)
    requires i < |Routes| && Routes[i].element.Protected?
    ensures role in Routes[i].element.allowedRoles <==> Can(RoleOf(role), RouteCapability(Routes[i].path))
  {
    if i < 9 {
      RoutesAgreeBelow(i, role);
    } else {
      RoutesAgreeFrom(i, role);
    }
  }

  lemma RoutesAgreeBelow(i: nat, role: string)
    requires i < 9 && Routes[i].element.Protected?
    ensures role in Routes[i].element.allowedRoles <==> Can(RoleOf(role), RouteCapability(Routes[i].path))
  {
  }

  lemma RoutesAgreeFrom(i: nat, role: string)
    requires 9 <= i < |Routes| && Routes[i].element.Protected?
    ensures role in Routes[i].element.allowedRoles <==> Can(RoleOf(role), RouteCapability(Routes[i].path))
  {
  }

  /**
   * The route table is monotone in privilege: a route that admits a role
   * admits every higher role.
   */
  lemma RoutesMonotone(i: nat, lower: Role, higher: Role)
    requires i < |Routes| && Routes[i].element.Protected?
    requires lower != Unrecognised && Rank(lower) <= Rank(higher)
    requires RoleName(lower) in Routes[i].element.allowedRoles
    ensures RoleName(higher) in Routes[i].element.allowedRoles
  {
    RoutesAgreeWithCan(i, RoleName(lower));
    CanMonotone(lower, higher, RouteCapability(Routes[i].path));
    RoutesAgreeWithCan(i, RoleName(higher));
  }

  /** The spelling of a recognised role. */
  function RoleName(r: Role): (s: string)
    requires r != Unrecognised
    ensures RoleOf(s) == r
  {
    match r
    case Admin => AdminName
    case Editor => EditorName
    case Visitante => VisitanteName
  }

  /** The lookup finds the first route declared with the pattern. */
  lemma {:induction false} FirstMatch(routes: seq<Route>, i: nat, path: string)
    requires i < |routes| && routes[i].path == path
    requires forall j :: 0 <= j < i ==> routes[j].path != path
    ensures ElementIn(routes, path) == routes[i].element
  {
    if i > 0 {
      FirstMatch(routes[1..], i - 1, path);
    }
  }

  /** No pattern is declared twice, so every route's element is what its pattern resolves to. */
  lemma TableLookup(i: nat)
    requires i < |Routes|
    ensures ElementFor(Routes[i].path) == Routes[i].element
  {
    assert forall j, k :: 0 <= j < k < |Routes| ==> Routes[j].path != Routes[k].path;
    FirstMatch(Routes, i, Routes[i].path);
  }

  /** The audit and user-management screens admit only ADMIN. */
  lemma AdminOnlyRoutes()
    ensures ElementFor("/auditoria") == Protected([AdminName], "AuditoriaPage")
    ensures ElementFor("/usuarios") == Protected([AdminName], "UsuariosPage")
  {
    TableLookup(12);
    assert Routes[12].path == "/auditoria";
    TableLookup(13);
    assert Routes[13].path == "/usuarios";
  }

  /** The create and edit screens and the guardian-message screen admit only ADMIN and EDITOR. */
  lemma WriterRoutes(p: string)
    requires p in ["/alunos/novo", "/alunos/:id/edit", "/contraturno/novo", "/contraturno/:id/edit", "/comunicado"]
    ensures ElementFor(p).Protected? && ElementFor(p).allowedRoles == [AdminName, EditorName]
  {
    var i := if p == "/alunos/novo" then 3 else if p == "/alunos/:id/edit" then 4
             else if p == "/contraturno/novo" then 8 else if p == "/contraturno/:id/edit" then 10 else 15;
    assert Routes[i].path == p;
    TableLookup(i);
  }

  /** The root redirects to the dashboard unguarded; unknown patterns render the not-found page. */
  lemma RootAndFallback(path: string)
    requires forall i :: 0 <= i < |Routes| ==> Routes[i].path != path
    ensures ElementFor("/") == RedirectTo(DashboardPath)
    ensures ElementFor(path) == NotFound
  {
    TableLookup(16);
    NotInTable(Routes, path);
  }

  lemma {:induction false} NotInTable(routes: seq<Route>, path: string)
    requires forall i :: 0 <= i < |routes| ==> routes[i].path != path
    ensures ElementIn(routes, path) == NotFound
  {
    if routes != [] {
      NotInTable(routes[1..], path);
    }
  }
}
