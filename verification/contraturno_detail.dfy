/**
 * One after-school project's page: the teacher's name, the enrolled
 * students' labels, the category style with its fallback, the
 * title-typed delete confirmation and the role gates.
 */
module ContraturnoDetail {
  import opened Wrappers
  import opened Access
  import Seqs
  import Colaboradores
  import AlunoList
  import ContraturnoProjetos

  type Projeto = ContraturnoProjetos.Projeto

  const NaoInformado := "Não informado"
  const ProfessorNaoEncontrado := "Professor não encontrado"
  const AlunoNaoEncontrado := "Aluno não encontrado"

  /** `getProfessorNome`: the first collaborator with the id, by name. */
  function ProfessorNome(colaboradores: seq<Colaboradores.Colaborador>, professorId: Option<string>): (r: string)
    ensures professorId.None? || professorId.value == [] ==> r == NaoInformado
    ensures professorId.Some? && professorId.value != [] ==>
              ((exists i :: 0 <= i < |colaboradores| && colaboradores[i].id == professorId
                  && r == colaboradores[i].nome && forall j :: 0 <= j < i ==> colaboradores[j].id != professorId)
               || (r == ProfessorNaoEncontrado && forall i :: 0 <= i < |colaboradores| ==> colaboradores[i].id != professorId))
  {
    if professorId.None? || professorId.value == [] then NaoInformado
    else
      var found := Seqs.Find(colaboradores, (c: Colaboradores.Colaborador) => c.id == professorId);
      if found.Some? then found.value.nome else ProfessorNaoEncontrado
  }

  /** A teacher id that some collaborator carries always resolves to a name of one of them. */
  lemma KnownTeacherIsNamed(colaboradores: seq<Colaboradores.Colaborador>, k: nat)
    requires k < |colaboradores| && colaboradores[k].id.Some? && colaboradores[k].id.value != []
    ensures exists i :: 0 <= i <= k && ProfessorNome(colaboradores, colaboradores[k].id) == colaboradores[i].nome
  {
    var id := colaboradores[k].id;
    var r := ProfessorNome(colaboradores, id);
    var i :| 0 <= i < |colaboradores| && colaboradores[i].id == id && r == colaboradores[i].nome
             && forall j :: 0 <= j < i ==> colaboradores[j].id != id;
    assert i <= k;
  }

  /** The label of one enrolled id: the first student with that id, or the not-found text. */
  function AlunoLabel(alunos: seq<AlunoList.Aluno>, alunoId: string): (r: string)
    ensures (exists i :: 0 <= i < |alunos| && alunos[i].id == alunoId
               && r == AlunoList.FullName(alunos[i]) && forall j :: 0 <= j < i ==> alunos[j].id != alunoId)
            || (r == AlunoNaoEncontrado && forall i :: 0 <= i < |alunos| ==> alunos[i].id != alunoId)
  {
    var found := Seqs.Find(alunos, (a: AlunoList.Aluno) => a.id == alunoId);
    if found.Some? then AlunoList.FullName(found.value) else AlunoNaoEncontrado
  }

  /** The enrolled list: one label per enrolled id, in the project's order. */
  function InscritosLabels(alunos: seq<AlunoList.Aluno>, p: Projeto): (r: seq<string>)
    ensures |r| == |p.alunosInscritos|
    ensures forall k :: 0 <= k < |r| ==> r[k] == AlunoLabel(alunos, p.alunosInscritos[k])
  {
    seq(|p.alunosInscritos|, k requires 0 <= k < |p.alunosInscritos| => AlunoLabel(alunos, p.alunosInscritos[k]))
  }

  /** The categories with their own icon and colour. */
  const Categorias: map<string, (string, string)> := map[
    "Arte" := ("Palette", "text-purple-600"),
    "Literatura" := ("BookOpen", "text-blue-600"),
    "Música" := ("Music", "text-pink-600"),
    "Exatas" := ("Calculator", "text-green-600"),
    "Sustentabilidade" := ("Leaf", "text-emerald-600"),
    "Cultura" := ("Film", "text-orange-600"),
    "Estratégia" := ("Crown", "text-yellow-600")
  ]

  const DefaultStyle := ("Target", "text-gray-600")

  /** `CATEGORIAS[categoria] || {}` with the destructuring defaults. */
  function CategoriaStyle(categoria: string): (r: (string, string))
    ensures categoria in Categorias ==> r == Categorias[categoria]
    ensures categoria !in Categorias ==> r == DefaultStyle
  {
    if categoria in Categorias then Categorias[categoria] else DefaultStyle
  }

  /** No category of the table uses the fallback style, so the fallback marks exactly the unknown ones. */
  lemma FallbackOnlyForUnknown(categoria: string)
    ensures CategoriaStyle(categoria) == DefaultStyle <==> categoria !in Categorias
  {
  }

  /** What the page shows. */
  datatype Screen = BackToList | Loading | Details(p: Projeto)

  /** A missing id sends the visitor back to the list; no project yet shows the loading text. */
  function ScreenFor(id: Option<string>, isLoading: bool, projeto: Option<Projeto>): (s: Screen)
    ensures id.None? || id.value == [] ==> s == BackToList
    ensures s.Details? <==> id.Some? && id.value != [] && !isLoading && projeto.Some?
    ensures s.Details? ==> s.p == projeto.value
  {
    if id.None? || id.value == [] then BackToList
    else if isLoading || projeto.None? then Loading
    else Details(projeto.value)
  }

  /** `user?.role === 'ADMIN' || user?.role === 'EDITOR'`. */
  predicate EditShown(user: Option<User>)
  {
    RoleIs(user, AdminName) || RoleIs(user, EditorName)
  }

  /** `user?.role === 'ADMIN'`, for the button and again for the modal. */
  predicate DeleteShown(user: Option<User>)
  {
    RoleIs(user, AdminName)
  }

  lemma GatesAgree(user: Option<User>)
    ensures EditShown(user) == Allows(user, CreateEdit)
    ensures DeleteShown(user) == Allows(user, Delete)
  {
  }

  const ListPath := "/contraturno"

  class DetailPage {
    var toDelete: Option<Projeto>
    var confirmText: string

    constructor ()
      ensures toDelete == None && confirmText == ""
    {
      toDelete := None;
      confirmText := "";
    }

    method ChooseDelete(p: Projeto)
      modifies this
      ensures toDelete == Some(p) && confirmText == old(confirmText)
    {
      toDelete := Some(p);
    }

    method TypeConfirmation(text: string)
      modifies this
      ensures confirmText == text && toDelete == old(toDelete)
    {
      confirmText := text;
    }

    method CancelDelete()
      modifies this
      ensures toDelete == None && confirmText == ""
    {
      toDelete := None;
      confirmText := "";
    }

    /** The confirmation modal is on screen only for ADMIN with a target chosen. */
    predicate ModalShown(user: Option<User>)
      reads this
    {
      toDelete.Some? && DeleteShown(user)
    }

    /** The delete button sends the id exactly when the typed text is the title. */
    method ConfirmDelete(user: Option<User>) returns (sent: Option<Option<string>>)
      requires ModalShown(user)
      ensures sent.Some? <==> confirmText == toDelete.value.titulo
      ensures sent.Some? ==> sent.value == toDelete.value.id
    {
      if confirmText == toDelete.value.titulo {
        sent := Some(toDelete.value.id);
      } else {
        sent := None;
      }
    }

    /** A successful delete leaves the page for the project list. */
    method OnDeleteSuccess() returns (navigateTo: string)
      ensures navigateTo == ListPath
    {
      navigateTo := ListPath;
    }
  }
}
