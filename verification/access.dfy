/**
 * The session's identity and the one privilege table that every screen's
 * inline role check is measured against.
 */
module Access {
  import opened Wrappers

  /** The identity the session context exposes (`{userId, username, role}`). */
  datatype User = User(userId: string, username: string, role: string)

  /** Role strings as the router's `ROLES` object spells them; anything else is unrecognised. */
  datatype Role = Admin | Editor | Visitante | Unrecognised

  const AdminName: string := "ADMIN"
  const EditorName: string := "EDITOR"
  const VisitanteName: string := "VISITANTE"

  function RoleOf(s: string): (r: Role)
    ensures r == Admin <==> s == AdminName
    ensures r == Editor <==> s == EditorName
    ensures r == Visitante <==> s == VisitanteName
  {
    if s == AdminName then Admin
    else if s == EditorName then Editor
    else if s == VisitanteName then Visitante
    else Unrecognised
  }

  /** What a screen or route may let a user do. */
  datatype Capability = View | CreateEdit | Delete | Configure | Audit | ManageUsers

  /** The privilege table: viewing for the three roles, writing for ADMIN and EDITOR, the rest for ADMIN. */
  predicate Can(r: Role, c: Capability)
  {
    match c
    case View => r != Unrecognised
    case CreateEdit => r == Admin || r == Editor
    case Delete => r == Admin
    case Configure => r == Admin
    case Audit => r == Admin
    case ManageUsers => r == Admin
  }

  /** Privilege order: VISITANTE below EDITOR below ADMIN. */
  function Rank(r: Role): nat
  {
    match r
    case Unrecognised => 0
    case Visitante => 1
    case Editor => 2
    case Admin => 3
  }

  lemma CanMonotone(r1: Role, r2: Role, c: Capability)
    requires Rank(r1) <= Rank(r2) && Can(r1, c)
    ensures Can(r2, c)
  {
  }

  /** The signed-in user, if any, holds the capability. */
  predicate Allows(u: Option<User>, c: Capability)
  {
    u.Some? && Can(RoleOf(u.value.role), c)
  }

  /** `user?.role === name`. */
  predicate RoleIs(u: Option<User>, name: string)
  {
    u.Some? && u.value.role == name
  }

  /** The allow-list shape `user?.role === "ADMIN" || user?.role === "EDITOR"` is the write capability. */
  lemma AdminOrEditorIsCreateEdit(u: Option<User>)
    ensures (RoleIs(u, AdminName) || RoleIs(u, EditorName)) == Allows(u, CreateEdit)
  {
  }

  /** The shape `user?.role === "ADMIN"` is the delete capability (and every ADMIN-only one). */
  lemma AdminIsDelete(u: Option<User>)
    ensures RoleIs(u, AdminName) == Allows(u, Delete)
    ensures RoleIs(u, AdminName) == Allows(u, Configure) == Allows(u, Audit) == Allows(u, ManageUsers)
  {
  }
}
