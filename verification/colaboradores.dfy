/**
 * The staff page: the search filter, the create/edit modal with the phone
 * mask on every keystroke, the "EXCLUIR" delete confirmation and the role
 * gates, one of which is a deny-list.
 */
module Colaboradores {
  import opened Wrappers
  import opened Access
  import Text
  import Seqs
  import Telefone
  import Router

  datatype Colaborador = Colaborador(id: Option<string>, nome: string, cargoFuncao: string, email: string, celular: string)

  /** The modal's form. */
  datatype Form = Form(nome: string, cargoFuncao: string, email: string, celular: string)

  const BlankForm := Form("", "", "", "")
  const ConfirmWord := "EXCLUIR"

  /** The search test: name, role or e-mail contains the term, ignoring case. */
  predicate Matches(c: Colaborador, term: string)
  {
    Text.ContainsIgnoringCase(c.nome, term) || Text.ContainsIgnoringCase(c.cargoFuncao, term)
    || Text.ContainsIgnoringCase(c.email, term)
  }

  /** `filtered`. */
  function Filtered(cs: seq<Colaborador>, term: string): (r: seq<Colaborador>)
    ensures forall i :: 0 <= i < |r| ==> Matches(r[i], term) && r[i] in cs
    ensures forall i :: 0 <= i < |cs| && Matches(cs[i], term) ==> cs[i] in r
  {
    Seqs.Filter(cs, (c: Colaborador) => Matches(c, term))
  }

  /** An empty search lists every collaborator in order; any search keeps the order. */
  lemma EmptySearchKeepsAll(cs: seq<Colaborador>, term: string)
    ensures Filtered(cs, "") == cs
    ensures Seqs.Subsequence(Filtered(cs, term), cs)
  {
    forall i | 0 <= i < |cs|
      ensures Matches(cs[i], "")
    {
      Text.ContainsIgnoringCaseEmpty(cs[i].nome);
    }
    Seqs.FilterKeepsAll(cs, (c: Colaborador) => Matches(c, ""));
    Seqs.FilterIsSubsequence(cs, (c: Colaborador) => Matches(c, term));
  }

  /** The request a submit sends. */
  datatype SaveRequest = Create(form: Form) | Update(id: Option<string>, updates: Form)

  class ColaboradoresPage {
    var isModalOpen: bool
    var editing: Option<Colaborador>
    var formData: Form
    var colabToDelete: Option<Colaborador>
    var deleteConfirmationText: string

    constructor ()
      ensures !isModalOpen && editing == None && formData == BlankForm
      ensures colabToDelete == None && deleteConfirmationText == ""
    {
      isModalOpen := false;
      editing := None;
      formData := BlankForm;
      colabToDelete := None;
      deleteConfirmationText := "";
    }

    /** `openNew`: nothing being edited, a blank form, the modal open. */
    method OpenNew()
      modifies this
      ensures isModalOpen && editing == None && formData == BlankForm
      ensures colabToDelete == old(colabToDelete) && deleteConfirmationText == old(deleteConfirmationText)
    {
      editing := None;
      formData := BlankForm;
      isModalOpen := true;
    }

    /** `openEdit(col)`: the form holds the collaborator's fields. */
    method OpenEdit(col: Colaborador)
      modifies this
      ensures isModalOpen && editing == Some(col)
      ensures formData == Form(col.nome, col.cargoFuncao, col.email, col.celular)
      ensures colabToDelete == old(colabToDelete) && deleteConfirmationText == old(deleteConfirmationText)
    {
      editing := Some(col);
      formData := Form(col.nome, col.cargoFuncao, col.email, col.celular);
      isModalOpen := true;
    }

    /** The phone field: every keystroke stores the masked value. */
    method OnCelularChange(value: string)
      modifies this
      ensures formData == old(formData).(celular := Telefone.Formatar(Some(value)))
      ensures Telefone.Formatar(Some(formData.celular)) == formData.celular
      ensures isModalOpen == old(isModalOpen) && editing == old(editing)
      ensures colabToDelete == old(colabToDelete) && deleteConfirmationText == old(deleteConfirmationText)
    {
      Telefone.FormatarIdempotent(Some(value));
      formData := formData.(celular := Telefone.Formatar(Some(value)));
    }

    /** `handleSubmit`: an update of the edited id with the form, otherwise a create. */
    method HandleSubmit() returns (request: SaveRequest)
      ensures editing.Some? ==> request == Update(editing.value.id, formData)
      ensures editing.None? ==> request == Create(formData)
    {
      if editing.Some? {
        request := Update(editing.value.id, formData);
      } else {
        request := Create(formData);
      }
    }

    /** A successful create closes the modal; a successful update also forgets the edited row. */
    method OnSaveSuccess(wasUpdate: bool)
      modifies this
      ensures !isModalOpen
      ensures wasUpdate ==> editing == None
      ensures !wasUpdate ==> editing == old(editing)
      ensures formData == old(formData) && colabToDelete == old(colabToDelete)
      ensures deleteConfirmationText == old(deleteConfirmationText)
    {
      isModalOpen := false;
      if wasUpdate {
        editing := None;
      }
    }

    /** `handleDelete(col)`: a missing row chooses nothing. */
    method HandleDelete(col: Option<Colaborador>)
      modifies this
      ensures col.Some? ==> colabToDelete == col
      ensures col.None? ==> colabToDelete == old(colabToDelete)
      ensures deleteConfirmationText == old(deleteConfirmationText) && formData == old(formData)
      ensures isModalOpen == old(isModalOpen) && editing == old(editing)
    {
      if col.Some? {
        colabToDelete := col;
      }
    }

    method TypeConfirmation(text: string)
      modifies this
      ensures deleteConfirmationText == text && colabToDelete == old(colabToDelete)
      ensures formData == old(formData) && isModalOpen == old(isModalOpen) && editing == old(editing)
    {
      deleteConfirmationText := text;
    }

    /** Cancel, and a successful delete, both clear the target and the text. */
    method CloseDelete()
      modifies this
      ensures colabToDelete == None && deleteConfirmationText == ""
      ensures formData == old(formData) && isModalOpen == old(isModalOpen) && editing == old(editing)
    {
      colabToDelete := None;
      deleteConfirmationText := "";
    }

    /** The delete button sends the id exactly when "EXCLUIR" has been typed. */
    method ConfirmDelete() returns (sent: Option<Option<string>>)
      requires colabToDelete.Some?
      ensures sent.Some? <==> deleteConfirmationText == ConfirmWord
      ensures sent.Some? ==> sent.value == colabToDelete.value.id
    {
      if deleteConfirmationText == ConfirmWord {
        sent := Some(colabToDelete.value.id);
      } else {
        sent := None;
      }
    }
  }

  /** `user.role !== 'VISITANTE'`: the "new" button is hidden only from visitors. */
  predicate NewButtonShown(user: User)
  {
    user.role != VisitanteName
  }

  /** `['ADMIN', 'EDITOR'].includes(user.role)`. */
  predicate EditShown(user: User)
  {
    user.role in [AdminName, EditorName]
  }

  /** `user.role === 'ADMIN'`. */
  predicate DeleteShown(user: User)
  {
    user.role == AdminName
  }

  /**
   * The page's route admits the three known roles, and for those the
   * deny-list agrees with the create/edit capability; the allow-list gates
   * agree with it for every role.
   */
  lemma GatesAgree(user: User)
    ensures Router.Routes[11] == Router.Route("/colaboradores", Router.Protected(Router.AllRoles, "ColaboradoresPage"))
    ensures user.role in Router.AllRoles ==> (NewButtonShown(user) <==> Can(RoleOf(user.role), CreateEdit))
    ensures EditShown(user) <==> Can(RoleOf(user.role), CreateEdit)
    ensures DeleteShown(user) <==> Can(RoleOf(user.role), Delete)
  {
  }

  /** Only for a role the router never admits do the two gates part: it would see the "new" button. */
  lemma DenyListPartsOnlyForUnknownRoles(user: User)
    requires RoleOf(user.role) == Unrecognised
    ensures NewButtonShown(user) && !Can(RoleOf(user.role), CreateEdit)
    ensures user.role !in Router.AllRoles
  {
  }
}
