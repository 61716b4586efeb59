/**
 * The medication list editor: the medication form with its defaults and
 * blank-name guard, add at the end, edit one entry, remove one entry and
 * the role gates.  The list belongs to the health record and is modelled
 * as the `medicacoes` field.
 */
module Medicacoes {
  import opened Wrappers
  import opened Access
  import Text
  import Seqs

  /** A medication as stored and as the form edits it. */
  datatype Medicacao = Medicacao(nome: string, dosagem: string, frequencia: string,
                                 observacoes: string, autorizadoPor: string)

  const BlankForm := Medicacao("", "", "", "", "")

  /** The form's submit guard: a blank name is ignored. */
  predicate Submittable(m: Medicacao)
  {
    !Text.Blank(m.nome)
  }

  /** The list after submitting the new-medication form: the form itself goes at the end. */
  function AfterAdd(medicacoes: seq<Medicacao>, m: Medicacao): (r: seq<Medicacao>)
    ensures !Submittable(m) ==> r == medicacoes
    ensures Submittable(m) ==> |r| == |medicacoes| + 1 && r[..|medicacoes|] == medicacoes && r[|medicacoes|] == m
  {
    if Submittable(m) then Seqs.Append(medicacoes, m) else medicacoes
  }

  /** The list after submitting the edit form of entry `index`. */
  function AfterEdit(medicacoes: seq<Medicacao>, index: nat, m: Medicacao): (r: seq<Medicacao>)
    requires index < |medicacoes|
    ensures !Submittable(m) ==> r == medicacoes
    ensures |r| == |medicacoes| && (Submittable(m) ==> r[index] == m)
    ensures forall j :: 0 <= j < |medicacoes| && j != index ==> r[j] == medicacoes[j]
  {
    if Submittable(m) then Seqs.ReplaceAt(medicacoes, index, m) else medicacoes
  }

  /** Every entry of a list the editor built has a name: the guard keeps blank names out. */
  lemma ChangesKeepNamed(medicacoes: seq<Medicacao>, m: Medicacao, index: nat)
    requires forall j :: 0 <= j < |medicacoes| ==> Submittable(medicacoes[j])
    ensures forall j :: 0 <= j < |AfterAdd(medicacoes, m)| ==> Submittable(AfterAdd(medicacoes, m)[j])
    ensures index < |medicacoes| ==>
              forall j :: 0 <= j < |AfterEdit(medicacoes, index, m)| ==> Submittable(AfterEdit(medicacoes, index, m)[j])
    ensures forall j :: 0 <= j < |Seqs.RemoveAt(medicacoes, index)| ==> Submittable(Seqs.RemoveAt(medicacoes, index)[j])
  {
    Seqs.ChangesKeep(medicacoes, m, index, Submittable);
  }

  /** Re-saving an entry unchanged leaves the list as it was. */
  lemma EditWithSameValue(medicacoes: seq<Medicacao>, index: nat)
    requires index < |medicacoes|
    ensures AfterEdit(medicacoes, index, medicacoes[index]) == medicacoes
  {
    Seqs.ReplaceWithSame(medicacoes, index);
  }

  predicate PodeEditar(user: Option<User>)
  {
    RoleIs(user, AdminName) || RoleIs(user, EditorName)
  }

  predicate RemoveShown(user: Option<User>)
  {
    RoleIs(user, AdminName)
  }

  lemma GatesAgree(user: Option<User>)
    ensures PodeEditar(user) == Allows(user, CreateEdit)
    ensures RemoveShown(user) == Allows(user, Delete)
  {
  }

  class MedicacoesManager {
    var medicacoes: seq<Medicacao>
    var editandoIndex: Option<nat>
    var novaMedicacao: Medicacao
    var mostrarFormulario: bool

    constructor (medicacoes: seq<Medicacao>)
      ensures this.medicacoes == medicacoes && editandoIndex == None
      ensures novaMedicacao == BlankForm && !mostrarFormulario
    {
      this.medicacoes := medicacoes;
      editandoIndex := None;
      novaMedicacao := BlankForm;
      mostrarFormulario := false;
    }

    method OpenForm()
      modifies this
      ensures mostrarFormulario
      ensures medicacoes == old(medicacoes) && editandoIndex == old(editandoIndex)
      ensures novaMedicacao == old(novaMedicacao)
    {
      mostrarFormulario := true;
    }

    /** The new-medication form submitted with `m`. */
    method HandleAdicionar(m: Medicacao)
      modifies this
      ensures medicacoes == AfterAdd(old(medicacoes), m)
      ensures Submittable(m) ==> novaMedicacao == BlankForm && !mostrarFormulario
      ensures !Submittable(m) ==> novaMedicacao == old(novaMedicacao) && mostrarFormulario == old(mostrarFormulario)
      ensures editandoIndex == old(editandoIndex)
    {
      if !Submittable(m) {
        return;
      }
      medicacoes := AfterAdd(medicacoes, m);
      novaMedicacao := BlankForm;
      mostrarFormulario := false;
    }

    method CancelForm()
      modifies this
      ensures !mostrarFormulario && novaMedicacao == BlankForm
      ensures medicacoes == old(medicacoes) && editandoIndex == old(editandoIndex)
    {
      mostrarFormulario := false;
      novaMedicacao := BlankForm;
    }

    /** `onEdit`: only a writer opens the edit form. */
    method StartEdit(user: Option<User>, index: nat)
      modifies this
      ensures PodeEditar(user) ==> editandoIndex == Some(index)
      ensures !PodeEditar(user) ==> editandoIndex == old(editandoIndex)
      ensures medicacoes == old(medicacoes) && novaMedicacao == old(novaMedicacao)
      ensures mostrarFormulario == old(mostrarFormulario)
    {
      if PodeEditar(user) {
        editandoIndex := Some(index);
      }
    }

    /** The edit form of entry `index` submitted with `m`; only that entry changes. */
    method HandleEditar(index: nat, m: Medicacao)
      requires index < |medicacoes|
      modifies this
      ensures medicacoes == AfterEdit(old(medicacoes), index, m)
      ensures Submittable(m) ==> editandoIndex == None
      ensures !Submittable(m) ==> editandoIndex == old(editandoIndex)
      ensures novaMedicacao == old(novaMedicacao) && mostrarFormulario == old(mostrarFormulario)
    {
      if !Submittable(m) {
        return;
      }
      medicacoes := AfterEdit(medicacoes, index, m);
      editandoIndex := None;
    }

    method CancelEdit()
      modifies this
      ensures editandoIndex == None
      ensures medicacoes == old(medicacoes) && novaMedicacao == old(novaMedicacao)
      ensures mostrarFormulario == old(mostrarFormulario)
    {
      editandoIndex := None;
    }

    /** `handleRemoverMedicacao`: after confirmation exactly that entry goes. */
    method HandleRemover(index: nat, confirmed: bool)
      modifies this
      ensures confirmed ==> medicacoes == Seqs.RemoveAt(old(medicacoes), index)
      ensures !confirmed ==> medicacoes == old(medicacoes)
      ensures editandoIndex == old(editandoIndex) && novaMedicacao == old(novaMedicacao)
      ensures mostrarFormulario == old(mostrarFormulario)
    {
      if confirmed {
        medicacoes := Seqs.RemoveAt(medicacoes, index);
      }
    }
  }
}
