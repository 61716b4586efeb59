/**
 * The health-condition list editor: the condition form with its defaults
 * and blank-name guard, add at the end, edit one entry, remove one entry
 * and the role gates.  The list belongs to the health record and is
 * modelled as the `condicoes` field.
 */
module Condicoes {
  import opened Wrappers
  import opened Access
  import Text
  import Seqs

  /** A stored condition; the diagnosis date is a timestamp or `null`. */
  datatype Condicao = Condicao(nome: string, status: string, descricao: string,
                               dataDiagnostico: Option<string>, profissionalSaude: string, crm: string)

  /** What the condition form edits; the date is the `yyyy-mm-dd` input text. */
  datatype Form = Form(nome: string, status: string, descricao: string,
                       dataDiagnostico: string, profissionalSaude: string, crm: string)

  const Ativo := "Ativo"

  /** The form for a new condition: everything empty, status 'Ativo'. */
  const BlankForm := Form("", Ativo, "", "", "", "")

  /** `x || ''` and `x || 'Ativo'` on a text field. */
  function OrDefault(s: string, default: string): (r: string)
    ensures s != [] ==> r == s
    ensures s == [] ==> r == default
  {
    if s != [] then s else default
  }

  /** The date part of a stored timestamp (the text before 'T'). */
  function DatePart(timestamp: string): string
  {
    Text.Split(timestamp, 'T')[0]
  }

  /** The form opened on an existing condition. */
  function FormFor(c: Condicao): (f: Form)
    ensures f.status != []
    ensures c.dataDiagnostico.None? || c.dataDiagnostico.value == [] ==> f.dataDiagnostico == ""
  {
    Form(c.nome, OrDefault(c.status, Ativo), c.descricao,
         if c.dataDiagnostico.Some? && c.dataDiagnostico.value != [] then DatePart(c.dataDiagnostico.value) else "",
         c.profissionalSaude, c.crm)
  }

  /** The form's submit guard: a blank name is ignored. */
  predicate Submittable(f: Form)
  {
    !Text.Blank(f.nome)
  }

  /**
   * The time part `toISOString` gives a date-only `yyyy-mm-dd` input: such a
   * date is read as midnight UTC.
   */
  const MidnightUtc: string := "T00:00:00.000Z"

  /**
   * The stored condition for a submitted form: an empty date becomes `null`,
   * a filled one the ISO timestamp of its midnight.
   */
  function Stored(f: Form): (c: Condicao)
    ensures f.dataDiagnostico == [] ==> c.dataDiagnostico == None
    ensures f.dataDiagnostico != [] ==> c.dataDiagnostico == Some(f.dataDiagnostico + MidnightUtc)
    ensures c.nome == f.nome && c.status == f.status
  {
    Condicao(f.nome, f.status, f.descricao,
             if f.dataDiagnostico != [] then Some(f.dataDiagnostico + MidnightUtc) else None,
             f.profissionalSaude, f.crm)
  }

  /** A saved date opens again as the date that was typed. */
  lemma SaveThenOpenDate(f: Form)
    requires 'T' !in f.dataDiagnostico
    ensures FormFor(Stored(f)).dataDiagnostico == f.dataDiagnostico
  {
    if f.dataDiagnostico != [] {
      Text.SplitAtFirst(f.dataDiagnostico, 'T', MidnightUtc[1..]);
      assert f.dataDiagnostico + ['T'] + MidnightUtc[1..] == f.dataDiagnostico + MidnightUtc;
    }
  }

  /**
   * Opening a condition and saving it untouched gives it back with its
   * diagnosis date moved to that day's midnight; a condition saved by this
   * editor comes back exactly.
   */
  lemma OpenThenSave(c: Condicao, date: string, time: string)
    requires c.status != []
    requires c.dataDiagnostico.None? || (c.dataDiagnostico == Some(date + ['T'] + time) && date != [] && 'T' !in date)
    ensures c.dataDiagnostico.None? ==> Stored(FormFor(c)) == c
    ensures c.dataDiagnostico.Some? ==> Stored(FormFor(c)) == c.(dataDiagnostico := Some(date + MidnightUtc))
    ensures c.dataDiagnostico.Some? && ['T'] + time == MidnightUtc ==> Stored(FormFor(c)) == c
  {
    if c.dataDiagnostico.Some? {
      Text.SplitAtFirst(date, 'T', time);
      assert date + ['T'] + time == date + (['T'] + time);
    }
  }

  /** The list after submitting the new-condition form. */
  function AfterAdd(condicoes: seq<Condicao>, f: Form): (r: seq<Condicao>)
    ensures !Submittable(f) ==> r == condicoes
    ensures Submittable(f) ==> r == condicoes + [Stored(f)]
  {
    if Submittable(f) then Seqs.Append(condicoes, Stored(f)) else condicoes
  }

  /** The list after submitting the edit form of entry `index`. */
  function AfterEdit(condicoes: seq<Condicao>, index: nat, f: Form): (r: seq<Condicao>)
    requires index < |condicoes|
    ensures !Submittable(f) ==> r == condicoes
    ensures |r| == |condicoes| && (Submittable(f) ==> r[index] == Stored(f))
    ensures forall j :: 0 <= j < |condicoes| && j != index ==> r[j] == condicoes[j]
  {
    if Submittable(f) then Seqs.ReplaceAt(condicoes, index, Stored(f)) else condicoes
  }

  /** A condition added from the blank form with only a name filled in is active and undated. */
  lemma NewConditionDefaults(condicoes: seq<Condicao>, nome: string)
    requires !Text.Blank(nome)
    ensures AfterAdd(condicoes, BlankForm.(nome := nome))[|condicoes|] == Condicao(nome, Ativo, "", None, "", "")
  {
  }

  /** Adding and then removing the new last entry gives the list back. */
  lemma AddThenRemove(condicoes: seq<Condicao>, f: Form)
    requires Submittable(f)
    ensures Seqs.RemoveAt(AfterAdd(condicoes, f), |condicoes|) == condicoes
  {
    Seqs.RemoveAppended(condicoes, Stored(f));
  }

  /** `podeEditar`. */
  predicate PodeEditar(user: Option<User>)
  {
    RoleIs(user, AdminName) || RoleIs(user, EditorName)
  }

  predicate RemoveShown(user: Option<User>)
  {
    RoleIs(user, AdminName)
  }

  lemma GatesAgree(user: Option<User>)
    ensures PodeEditar(user) == Allows(user, CreateEdit)
    ensures RemoveShown(user) == Allows(user, Delete)
  {
  }

  class CondicoesManager {
    var condicoes: seq<Condicao>
    var editandoIndex: Option<nat>
    var novaCondicao: Form
    var mostrarFormulario: bool

    constructor (condicoes: seq<Condicao>)
      ensures this.condicoes == condicoes && editandoIndex == None
      ensures novaCondicao == BlankForm && !mostrarFormulario
    {
      this.condicoes := condicoes;
      editandoIndex := None;
      novaCondicao := BlankForm;
      mostrarFormulario := false;
    }

    method OpenForm()
      modifies this
      ensures mostrarFormulario
      ensures condicoes == old(condicoes) && editandoIndex == old(editandoIndex) && novaCondicao == old(novaCondicao)
    {
      mostrarFormulario := true;
    }

    /**
     * The new-condition form submitted with `f`: a blank name is ignored;
     * otherwise the condition goes at the end and the form closes, reset.
     */
    method HandleAdicionar(f: Form)
      modifies this
      ensures condicoes == AfterAdd(old(condicoes), f)
      ensures Submittable(f) ==> novaCondicao == BlankForm && !mostrarFormulario
      ensures !Submittable(f) ==> novaCondicao == old(novaCondicao) && mostrarFormulario == old(mostrarFormulario)
      ensures editandoIndex == old(editandoIndex)
    {
      if !Submittable(f) {
        return;
      }
      condicoes := AfterAdd(condicoes, f);
      novaCondicao := BlankForm;
      mostrarFormulario := false;
    }

    /** The new-condition form's cancel button. */
    method CancelForm()
      modifies this
      ensures !mostrarFormulario && novaCondicao == BlankForm
      ensures condicoes == old(condicoes) && editandoIndex == old(editandoIndex)
    {
      mostrarFormulario := false;
      novaCondicao := BlankForm;
    }

    /** `onEdit`: only a writer opens the edit form. */
    method StartEdit(user: Option<User>, index: nat)
      modifies this
      ensures PodeEditar(user) ==> editandoIndex == Some(index)
      ensures !PodeEditar(user) ==> editandoIndex == old(editandoIndex)
      ensures condicoes == old(condicoes) && novaCondicao == old(novaCondicao)
      ensures mostrarFormulario == old(mostrarFormulario)
    {
      if PodeEditar(user) {
        editandoIndex := Some(index);
      }
    }

    /** The edit form of entry `index` submitted with `f`; only that entry changes. */
    method HandleEditar(index: nat, f: Form)
      requires index < |condicoes|
      modifies this
      ensures condicoes == AfterEdit(old(condicoes), index, f)
      ensures Submittable(f) ==> editandoIndex == None
      ensures !Submittable(f) ==> editandoIndex == old(editandoIndex)
      ensures novaCondicao == old(novaCondicao) && mostrarFormulario == old(mostrarFormulario)
    {
      if !Submittable(f) {
        return;
      }
      condicoes := AfterEdit(condicoes, index, f);
      editandoIndex := None;
    }

    method CancelEdit()
      modifies this
      ensures editandoIndex == None
      ensures condicoes == old(condicoes) && novaCondicao == old(novaCondicao)
      ensures mostrarFormulario == old(mostrarFormulario)
    {
      editandoIndex := None;
    }

    /** `handleRemoverCondicao`: after confirmation exactly that entry goes. */
    method HandleRemover(index: nat, confirmed: bool)
      modifies this
      ensures confirmed ==> condicoes == Seqs.RemoveAt(old(condicoes), index)
      ensures !confirmed ==> condicoes == old(condicoes)
      ensures editandoIndex == old(editandoIndex) && novaCondicao == old(novaCondicao)
      ensures mostrarFormulario == old(mostrarFormulario)
    {
      if confirmed {
        condicoes := Seqs.RemoveAt(condicoes, index);
      }
    }
  }
}
