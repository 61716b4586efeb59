/**
 * The student's after-school tab: which projects the student is enrolled
 * in, which are still open to them, the enrol/remove actions and the
 * role gates.
 */
module ContraturnoTab {
  import opened Wrappers
  import opened Access
  import Seqs

  /** A project as this tab reads it: every field but the title may be absent. */
  datatype Projeto = Projeto(mongoId: Option<string>, id: Option<string>, titulo: string,
                             status: Option<string>, alunosInscritos: Option<seq<string>>,
                             vagas: Option<int>)

  const Ativo := "Ativo"

  /** A route parameter or an id that JavaScript treats as true. */
  predicate Truthy(s: Option<string>)
  {
    s.Some? && s.value != []
  }

  /** `ct.alunosInscritos && ct.alunosInscritos.includes(alunoId)`. */
  predicate Inscrito(p: Projeto, alunoId: string)
  {
    p.alunosInscritos.Some? && alunoId in p.alunosInscritos.value
  }

  /**
   * `!ct.vagas || ct.alunosInscritos?.length < ct.vagas`: no limit (absent
   * or 0), or fewer enrolled than the limit; an absent list compares as
   * `undefined < vagas`, which is false.
   */
  predicate HasRoom(p: Projeto)
  {
    p.vagas.None? || p.vagas.value == 0
    || (p.alunosInscritos.Some? && |p.alunosInscritos.value| < p.vagas.value)
  }

  predicate Disponivel(p: Projeto, alunoId: string)
  {
    p.status == Some(Ativo) && !Inscrito(p, alunoId) && HasRoom(p)
  }

  /** `contraturnosDoAluno`: empty without a student id or projects. */
  function DoAluno(alunoId: Option<string>, ps: seq<Projeto>): (r: seq<Projeto>)
    ensures !Truthy(alunoId) || ps == [] ==> r == []
    ensures Truthy(alunoId) ==> forall i :: 0 <= i < |r| ==> Inscrito(r[i], alunoId.value)
    ensures Truthy(alunoId) ==> forall i :: 0 <= i < |ps| && Inscrito(ps[i], alunoId.value) ==> ps[i] in r
    ensures Seqs.Subsequence(r, ps)
  {
    if !Truthy(alunoId) || ps == [] then []
    else
      var a := alunoId.value;
      Seqs.FilterIsSubsequence(ps, (p: Projeto) => Inscrito(p, a));
      Seqs.Filter(ps, (p: Projeto) => Inscrito(p, a))
  }

  /** `contraturnosDisponiveis`. */
  function Disponiveis(alunoId: Option<string>, ps: seq<Projeto>): (r: seq<Projeto>)
    ensures !Truthy(alunoId) || ps == [] ==> r == []
    ensures Truthy(alunoId) ==> forall i :: 0 <= i < |r| ==> Disponivel(r[i], alunoId.value)
    ensures Truthy(alunoId) ==> forall i :: 0 <= i < |ps| && Disponivel(ps[i], alunoId.value) ==> ps[i] in r
    ensures Seqs.Subsequence(r, ps)
  {
    if !Truthy(alunoId) || ps == [] then []
    else
      var a := alunoId.value;
      Seqs.FilterIsSubsequence(ps, (p: Projeto) => Disponivel(p, a));
      Seqs.Filter(ps, (p: Projeto) => Disponivel(p, a))
  }

  /** No project is listed both as the student's and as available to them. */
  lemma EnrolledAndAvailableDisjoint(alunoId: Option<string>, ps: seq<Projeto>)
    ensures forall i, j :: 0 <= i < |DoAluno(alunoId, ps)| && 0 <= j < |Disponiveis(alunoId, ps)| ==>
              DoAluno(alunoId, ps)[i] != Disponiveis(alunoId, ps)[j]
  {
  }

  /**
   * A project with a positive limit but no enrolment list is never offered,
   * and neither is one whose enrolment has reached its limit.
   */
  lemma FullOrUnlistedNeverAvailable(alunoId: Option<string>, ps: seq<Projeto>, p: Projeto)
    requires p.vagas.Some? && p.vagas.value > 0
    requires p.alunosInscritos.None? || |p.alunosInscritos.value| >= p.vagas.value
    ensures p !in Disponiveis(alunoId, ps)
  {
  }

  /** Every active project the student is not in, with no limit, is offered. */
  lemma UnlimitedActiveIsAvailable(alunoId: string, ps: seq<Projeto>, i: nat)
    requires alunoId != [] && i < |ps|
    requires ps[i].status == Some(Ativo) && !Inscrito(ps[i], alunoId)
    requires ps[i].vagas.None? || ps[i].vagas == Some(0)
    ensures ps[i] in Disponiveis(Some(alunoId), ps)
  {
  }

  /** `contraturno._id || contraturno.id`: the id the enrolment calls use. */
  function TargetId(p: Projeto): (r: Option<string>)
    ensures Truthy(p.mongoId) ==> r == p.mongoId
    ensures !Truthy(p.mongoId) ==> r == p.id
  {
    if Truthy(p.mongoId) then p.mongoId else p.id
  }

  /** What the tab shows, by the early returns in source order. */
  datatype Screen = MissingStudentId | Loading | LoadError | Content

  function ScreenFor(alunoId: Option<string>, isLoading: bool, failed: bool): (s: Screen)
    ensures s == MissingStudentId <==> !Truthy(alunoId)
    ensures s == Content <==> Truthy(alunoId) && !isLoading && !failed
  {
    if !Truthy(alunoId) then MissingStudentId
    else if isLoading then Loading
    else if failed then LoadError
    else Content
  }

  /** `canEdit`. */
  predicate CanEdit(user: Option<User>)
  {
    RoleIs(user, AdminName) || RoleIs(user, EditorName)
  }

  /** `canDelete`. */
  predicate CanRemove(user: Option<User>)
  {
    RoleIs(user, AdminName)
  }

  /** The add button needs the write capability and at least one open project. */
  predicate AddButtonShown(user: Option<User>, alunoId: Option<string>, ps: seq<Projeto>)
  {
    CanEdit(user) && |Disponiveis(alunoId, ps)| > 0
  }

  lemma GatesAgree(user: Option<User>, alunoId: Option<string>, ps: seq<Projeto>)
    ensures CanEdit(user) == Allows(user, CreateEdit)
    ensures CanRemove(user) == Allows(user, Delete)
    ensures AddButtonShown(user, alunoId, ps) ==>
              Allows(user, CreateEdit) && Truthy(alunoId) && exists i :: 0 <= i < |ps| && Disponivel(ps[i], alunoId.value)
  {
    if AddButtonShown(user, alunoId, ps) {
      var r := Disponiveis(alunoId, ps);
      assert Truthy(alunoId);
      assert r[0] in ps && Disponivel(r[0], alunoId.value);
    }
  }

  /** The enrolment call a click asks for. */
  datatype Request = Inscrever(contraturnoId: Option<string>) | CancelarInscricao(contraturnoId: Option<string>)

  class ContraturnoTabState {
    var showAdicionarModal: bool

    constructor ()
      ensures !showAdicionarModal
    {
      showAdicionarModal := false;
    }

    method OpenAdicionar()
      modifies this
      ensures showAdicionarModal
    {
      showAdicionarModal := true;
    }

    /** `handleAdicionarInscricao`: enrols in the project's target id. */
    method HandleAdicionar(p: Projeto) returns (request: Request)
      ensures request == Inscrever(TargetId(p))
    {
      request := Inscrever(TargetId(p));
    }

    /** A successful enrolment closes the modal; a failure only alerts. */
    method OnAdicionarDone(succeeded: bool)
      modifies this
      ensures succeeded ==> !showAdicionarModal
      ensures !succeeded ==> showAdicionarModal == old(showAdicionarModal)
    {
      if succeeded {
        showAdicionarModal := false;
      }
    }

    /** `handleRemoverInscricao`: a removal is requested only after confirmation. */
    method HandleRemover(p: Projeto, confirmed: bool) returns (request: Option<Request>)
      ensures request.Some? <==> confirmed
      ensures confirmed ==> request == Some(CancelarInscricao(TargetId(p)))
    {
      if confirmed {
        request := Some(CancelarInscricao(TargetId(p)));
      } else {
        request := None;
      }
    }
  }
}
