/**
 * The after-school project list: the search and active-only filter, the
 * aggregate counters, the title-typed delete confirmation, navigation to a
 * project and the role gates.
 */
module ContraturnoProjetos {
  import opened Wrappers
  import opened Access
  import Text
  import Seqs
  import Router

  /** A project as the list reads it: only the description may be absent. */
  datatype Projeto = Projeto(id: Option<string>, titulo: string, descricao: Option<string>,
                             professor: string, categoria: string, status: string,
                             alunosInscritos: seq<string>, vagas: int)

  const Ativo := "Ativo"

  /** The search term against title, description (when present), teacher and category. */
  predicate MatchesSearch(p: Projeto, term: string)
  {
    Text.ContainsIgnoringCase(p.titulo, term)
    || (p.descricao.Some? && Text.ContainsIgnoringCase(p.descricao.value, term))
    || Text.ContainsIgnoringCase(p.professor, term)
    || Text.ContainsIgnoringCase(p.categoria, term)
  }

  predicate Kept(p: Projeto, term: string, apenasAtivos: bool)
  {
    MatchesSearch(p, term) && (!apenasAtivos || p.status == Ativo)
  }

  /** `filteredProjetos`. */
  function Filtered(ps: seq<Projeto>, term: string, apenasAtivos: bool): (r: seq<Projeto>)
    ensures forall i :: 0 <= i < |r| ==> Kept(r[i], term, apenasAtivos)
    ensures forall i :: 0 <= i < |ps| && Kept(ps[i], term, apenasAtivos) ==> ps[i] in r
    ensures Seqs.Subsequence(r, ps)
  {
    Seqs.FilterIsSubsequence(ps, (p: Projeto) => Kept(p, term, apenasAtivos));
    Seqs.Filter(ps, (p: Projeto) => Kept(p, term, apenasAtivos))
  }

  /** An empty search with the active-only box unticked lists every project in order. */
  lemma EmptySearchKeepsAll(ps: seq<Projeto>)
    ensures Filtered(ps, "", false) == ps
  {
    forall i | 0 <= i < |ps|
      ensures Kept(ps[i], "", false)
    {
      Text.ContainsIgnoringCaseEmpty(ps[i].titulo);
    }
    Seqs.FilterKeepsAll(ps, (p: Projeto) => Kept(p, "", false));
  }

  /** With the box ticked, the list is exactly the active projects the search matches. */
  lemma ActiveOnlyListsActive(ps: seq<Projeto>, term: string, i: nat)
    requires i < |ps| && MatchesSearch(ps[i], term)
    ensures ps[i] in Filtered(ps, term, true) <==> ps[i].status == Ativo
  {
    if ps[i] in Filtered(ps, term, true) {
      var r := Filtered(ps, term, true);
      var k :| 0 <= k < |r| && r[k] == ps[i];
      assert Kept(r[k], term, true);
    }
  }

  /** `totalInscritos`: the reduce over the list, left to right. */
  function TotalInscritos(ps: seq<Projeto>): (n: nat)
    ensures ps == [] ==> n == 0
  {
    if ps == [] then 0 else TotalInscritos(ps[..|ps| - 1]) + |ps[|ps| - 1].alunosInscritos|
  }

  /** `totalVagas`. */
  function TotalVagas(ps: seq<Projeto>): (n: int)
    ensures ps == [] ==> n == 0
  {
    if ps == [] then 0 else TotalVagas(ps[..|ps| - 1]) + ps[|ps| - 1].vagas
  }

  /** `projetosAtivos`. */
  function ProjetosAtivos(ps: seq<Projeto>): (n: nat)
    ensures n <= |ps|
  {
    |Seqs.Filter(ps, (p: Projeto) => p.status == Ativo)|
  }

  /** The counters add up over two halves of the list. */
  lemma {:induction false} TotalsAppend(a: seq<Projeto>, b: seq<Projeto>)
    ensures TotalInscritos(a + b) == TotalInscritos(a) + TotalInscritos(b)
    ensures TotalVagas(a + b) == TotalVagas(a) + TotalVagas(b)
    decreases |b|
  {
    if b == [] {
      assert a + b == a;
    } else {
      var b' := b[..|b| - 1];
      assert (a + b)[..|a + b| - 1] == a + b';
      assert (a + b)[|a + b| - 1] == b[|b| - 1];
      TotalsAppend(a, b');
    }
  }

  /** Every enrolment counts once: the total is the number of enrolment entries of all projects. */
  lemma TotalInscritosOfOne(p: Projeto)
    ensures TotalInscritos([p]) == |p.alunosInscritos|
    ensures TotalVagas([p]) == p.vagas
  {
    assert [p][..0] == [];
  }

  /** The active counter equals the number of projects exactly when every project is active. */
  lemma AllActiveIffCountsMatch(ps: seq<Projeto>)
    ensures ProjetosAtivos(ps) == |ps| <==> forall i :: 0 <= i < |ps| ==> ps[i].status == Ativo
  {
    Seqs.FilterLengthAll(ps, (p: Projeto) => p.status == Ativo);
  }

  /** `handleViewProject`: a path only for a project with an id. */
  function ViewPath(p: Projeto): (r: Option<string>)
    ensures r.Some? <==> p.id.Some? && p.id.value != []
    ensures r.Some? ==> r.value == "/contraturno/" + p.id.value
  {
    if p.id.Some? && p.id.value != [] then Some("/contraturno/" + p.id.value) else None
  }

  class ProjetosPage {
    var searchTerm: string
    var filtroApenasAtivos: bool
    var projetoToDelete: Option<Projeto>
    var deleteConfirmationText: string

    constructor ()
      ensures searchTerm == "" && !filtroApenasAtivos
      ensures projetoToDelete == None && deleteConfirmationText == ""
    {
      searchTerm := "";
      filtroApenasAtivos := false;
      projetoToDelete := None;
      deleteConfirmationText := "";
    }

    method SetSearch(term: string)
      modifies this
      ensures searchTerm == term && filtroApenasAtivos == old(filtroApenasAtivos)
      ensures projetoToDelete == old(projetoToDelete) && deleteConfirmationText == old(deleteConfirmationText)
    {
      searchTerm := term;
    }

    method SetApenasAtivos(checked: bool)
      modifies this
      ensures filtroApenasAtivos == checked && searchTerm == old(searchTerm)
      ensures projetoToDelete == old(projetoToDelete) && deleteConfirmationText == old(deleteConfirmationText)
    {
      filtroApenasAtivos := checked;
    }

    /** The trash button chooses the project to delete. */
    method ChooseDelete(p: Projeto)
      modifies this
      ensures projetoToDelete == Some(p) && deleteConfirmationText == old(deleteConfirmationText)
      ensures searchTerm == old(searchTerm) && filtroApenasAtivos == old(filtroApenasAtivos)
    {
      projetoToDelete := Some(p);
    }

    method TypeConfirmation(text: string)
      modifies this
      ensures deleteConfirmationText == text && projetoToDelete == old(projetoToDelete)
      ensures searchTerm == old(searchTerm) && filtroApenasAtivos == old(filtroApenasAtivos)
    {
      deleteConfirmationText := text;
    }

    /** Cancel, and a successful delete, both clear the target and the text. */
    method CloseDelete()
      modifies this
      ensures projetoToDelete == None && deleteConfirmationText == ""
      ensures searchTerm == old(searchTerm) && filtroApenasAtivos == old(filtroApenasAtivos)
    {
      projetoToDelete := None;
      deleteConfirmationText := "";
    }

    /** The delete button sends the id exactly when the typed text is the project's title. */
    method ConfirmDelete() returns (sent: Option<Option<string>>)
      requires projetoToDelete.Some?
      ensures sent.Some? <==> deleteConfirmationText == projetoToDelete.value.titulo
      ensures sent.Some? ==> sent.value == projetoToDelete.value.id
    {
      if deleteConfirmationText == projetoToDelete.value.titulo {
        sent := Some(projetoToDelete.value.id);
      } else {
        sent := None;
      }
    }

    /** The rows shown for the current search and box. */
    function Rows(ps: seq<Projeto>): (r: seq<Projeto>)
      reads this
      ensures forall i :: 0 <= i < |r| ==> Kept(r[i], searchTerm, filtroApenasAtivos)
    {
      Filtered(ps, searchTerm, filtroApenasAtivos)
    }
  }

  /** `user.role !== 'VISITANTE'`: the "new project" button is hidden only from visitors. */
  predicate NewButtonShown(user: User)
  {
    user.role != VisitanteName
  }

  /** `['ADMIN', 'EDITOR'].includes(user.role)`. */
  predicate EditShown(user: User)
  {
    user.role in [AdminName, EditorName]
  }

  /** `user.role === 'ADMIN'`. */
  predicate DeleteShown(user: User)
  {
    user.role == AdminName
  }

  /**
   * The list's route admits the three known roles; for those the
   * deny-list agrees with the write capability, and it parts from it only
   * for roles the router turns away.
   */
  lemma GatesAgree(user: User)
    ensures Router.Routes[7] == Router.Route("/contraturno", Router.Protected(Router.AllRoles, "ContraturnoProjetos"))
    ensures user.role in Router.AllRoles ==> (NewButtonShown(user) <==> Can(RoleOf(user.role), CreateEdit))
    ensures RoleOf(user.role) == Unrecognised ==> NewButtonShown(user) && !Can(RoleOf(user.role), CreateEdit)
    ensures EditShown(user) <==> Can(RoleOf(user.role), CreateEdit)
    ensures DeleteShown(user) <==> Can(RoleOf(user.role), Delete)
  {
  }
}
