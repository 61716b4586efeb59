/** The ADMIN-only user-management screen. */
module Usuarios {
  import opened Wrappers
  import opened Access

  /** `getRoleLabel(role).text`. */
  function RoleLabel(role: string): (r: string)
    ensures RoleOf(role) == Unrecognised ==> r == role
    ensures RoleOf(role) != Unrecognised ==> r in ["Administrador", "Editor", "Visitante"]
  {
    if role == AdminName then "Administrador"
    else if role == EditorName then "Editor"
    else if role == VisitanteName then "Visitante"
    else role
  }

  /** Distinct recognised roles get distinct labels. */
  lemma RoleLabelsDistinct(a: string, b: string)
    requires RoleOf(a) != Unrecognised && RoleOf(b) != Unrecognised && a != b
    ensures RoleLabel(a) != RoleLabel(b)
  {
  }

  /** A row of the user list. */
  datatype Usuario = Usuario(id: string, username: string, role: string)

  /** Reading a property of the session's user object: `None` is `undefined`. */
  function SessionProperty(user: User, name: string): (r: Option<string>)
    ensures name !in ["userId", "username", "role"] ==> r == None
  {
    if name == "userId" then Some(user.userId)
    else if name == "username" then Some(user.username)
    else if name == "role" then Some(user.role)
    else None
  }

  /** The delete button as written: `user.role === 'ADMIN' && usuario._id !== user.user_id`. */
  predicate DeleteButtonAsWritten(user: User, usuario: Usuario)
  {
    user.role == AdminName && Some(usuario.id) != SessionProperty(user, "user_id")
  }

  /** As written, the self-delete guard compares with an absent property and never holds anyone back. */
  lemma AdminCanDeleteSelfAsWritten(user: User)
    requires user.role == AdminName
    ensures DeleteButtonAsWritten(user, Usuario(user.userId, user.username, user.role))
    ensures forall u: Usuario :: DeleteButtonAsWritten(user, u)
  {
  }

  /** The intended delete button: ADMIN, and not the signed-in user's own row. */
  predicate DeleteButtonShown(user: User, usuario: Usuario)
  {
    user.role == AdminName && Some(usuario.id) != SessionProperty(user, "userId")
  }

  lemma DeleteButtonNeverForSelf(user: User, usuario: Usuario)
    ensures DeleteButtonShown(user, usuario) <==>
              Allows(Some(user), ManageUsers) && usuario.id != user.userId
  {
  }

  /** `['ADMIN', 'EDITOR'].includes(user.role)`, the edit button. */
  predicate EditButtonShown(user: User)
  {
    user.role in [AdminName, EditorName]
  }

  /** `user?.role !== "ADMIN"` sends the visitor to the dashboard. */
  predicate RedirectsToDashboard(user: Option<User>)
  {
    !RoleIs(user, AdminName)
  }

  lemma GatesAgree(user: User)
    ensures EditButtonShown(user) == Allows(Some(user), CreateEdit)
    ensures RedirectsToDashboard(Some(user)) == !Allows(Some(user), ManageUsers)
    ensures RedirectsToDashboard(None)
  {
  }

  /** The new-user form as an object keyed by input name. */
  type Form = map<string, string>

  const BlankForm: Form := map["username" := "", "password" := "", "role" := VisitanteName]

  class UsuariosPage {
    var showModal: bool
    var formData: Form

    constructor ()
      ensures !showModal && formData == BlankForm && formData["role"] == VisitanteName
    {
      showModal := false;
      formData := BlankForm;
    }

    /** "Novo Usuário". */
    method OpenModal()
      modifies this
      ensures showModal && formData == old(formData)
    {
      showModal := true;
    }

    /** `handleInputChange`: `{...prev, [name]: value}`. */
    method HandleInputChange(name: string, value: string)
      modifies this
      ensures formData == old(formData)[name := value] && showModal == old(showModal)
    {
      formData := formData[name := value];
    }

    /** `handleSubmit`: the form is sent as it stands. */
    method HandleSubmit() returns (sent: Form)
      ensures sent == formData
    {
      sent := formData;
    }

    /** A successful create closes the modal and resets the form to role VISITANTE. */
    method OnCreateSuccess()
      modifies this
      ensures !showModal && formData == BlankForm
    {
      showModal := false;
      formData := BlankForm;
    }

    /** `closeModal`. */
    method CloseModal()
      modifies this
      ensures !showModal && formData == BlankForm
    {
      showModal := false;
      formData := BlankForm;
    }

    /** `handleExcluirUsuario`: the id to delete, only after confirmation. */
    method HandleExcluirUsuario(userId: string, confirmed: bool) returns (deleted: Option<string>)
      ensures deleted == if confirmed then Some(userId) else None
    {
      deleted := if confirmed then Some(userId) else None;
    }
  }
}
