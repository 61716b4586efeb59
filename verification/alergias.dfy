/**
 * The allergy list editor: add a trimmed name, edit one entry in place,
 * remove one entry, cancel, the Enter/Escape keys and the role gates.
 * The list belongs to the health record; each change hands the whole new
 * list to the record, modelled here as the `alergias` field.
 */
module Alergias {
  import opened Wrappers
  import opened Access
  import Text
  import Seqs

  /** An entry the editor itself would write: trimmed and not blank. */
  predicate Clean(a: string)
  {
    Text.Trimmed(a) && a != []
  }

  /** The list after `handleAdicionarAlergia` with the typed value. */
  function AfterAdd(alergias: seq<string>, typed: string): (r: seq<string>)
    ensures Text.Blank(typed) ==> r == alergias
    ensures !Text.Blank(typed) ==> |r| == |alergias| + 1 && r[..|alergias|] == alergias
                                   && r[|alergias|] == Text.Trim(typed) && Clean(r[|alergias|])
  {
    Text.TrimIsTrimmed(typed);
    if Text.Blank(typed) then alergias else Seqs.Append(alergias, Text.Trim(typed))
  }

  /** The list after `handleSalvarEdicao(index)` with the edited value. */
  function AfterEdit(alergias: seq<string>, index: nat, typed: string): (r: seq<string>)
    requires index < |alergias|
    ensures Text.Blank(typed) ==> r == alergias
    ensures !Text.Blank(typed) ==> |r| == |alergias| && r[index] == Text.Trim(typed) && Clean(r[index])
    ensures forall j :: 0 <= j < |alergias| && j != index ==> r[j] == alergias[j]
  {
    Text.TrimIsTrimmed(typed);
    if Text.Blank(typed) then alergias else Seqs.ReplaceAt(alergias, index, Text.Trim(typed))
  }

  /** Adding and then removing the new last entry gives the list back. */
  lemma AddThenRemove(alergias: seq<string>, typed: string)
    requires !Text.Blank(typed)
    ensures Seqs.RemoveAt(AfterAdd(alergias, typed), |alergias|) == alergias
  {
    Seqs.RemoveAppended(alergias, Text.Trim(typed));
  }

  /** Saving an entry unchanged, or a padded copy of it, leaves the list as it was. */
  lemma EditWithSameValue(alergias: seq<string>, index: nat)
    requires index < |alergias| && Clean(alergias[index])
    ensures AfterEdit(alergias, index, alergias[index]) == alergias
    ensures AfterEdit(alergias, index, [' '] + alergias[index]) == alergias
  {
    Text.TrimOfTrimmed(alergias[index]);
    Text.TrimAfterSpace(alergias[index]);
    Seqs.ReplaceWithSame(alergias, index);
  }

  /** A list of clean entries stays clean under every change the editor makes. */
  lemma ChangesKeepClean(alergias: seq<string>, typed: string, index: nat)
    requires forall j :: 0 <= j < |alergias| ==> Clean(alergias[j])
    ensures forall j :: 0 <= j < |AfterAdd(alergias, typed)| ==> Clean(AfterAdd(alergias, typed)[j])
    ensures index < |alergias| ==>
              forall j :: 0 <= j < |AfterEdit(alergias, index, typed)| ==> Clean(AfterEdit(alergias, index, typed)[j])
    ensures forall j :: 0 <= j < |Seqs.RemoveAt(alergias, index)| ==> Clean(Seqs.RemoveAt(alergias, index)[j])
  {
    if !Text.Blank(typed) {
      assert Clean(AfterAdd(alergias, typed)[|alergias|]);
    }
    Seqs.ChangesKeep(alergias, Text.Trim(typed), index, Clean);
  }

  /** `podeEditar`. */
  predicate PodeEditar(user: Option<User>)
  {
    RoleIs(user, AdminName) || RoleIs(user, EditorName)
  }

  /** The remove button. */
  predicate RemoveShown(user: Option<User>)
  {
    RoleIs(user, AdminName)
  }

  lemma GatesAgree(user: Option<User>)
    ensures PodeEditar(user) == Allows(user, CreateEdit)
    ensures RemoveShown(user) == Allows(user, Delete)
  {
  }

  /** A key pressed in one of the inputs. */
  datatype Key = Enter | Escape | OtherKey

  class AlergiasManager {
    var alergias: seq<string>
    var novaAlergia: string
    var mostrarFormulario: bool
    var editandoIndex: Option<nat>
    var valorEdicao: string

    constructor (alergias: seq<string>)
      ensures this.alergias == alergias && novaAlergia == "" && !mostrarFormulario
      ensures editandoIndex == None && valorEdicao == ""
    {
      this.alergias := alergias;
      novaAlergia := "";
      mostrarFormulario := false;
      editandoIndex := None;
      valorEdicao := "";
    }

    /** The add button: for writers, with the form closed and no edit in progress. */
    predicate AddButtonShown(user: Option<User>)
      reads this
    {
      PodeEditar(user) && !mostrarFormulario && editandoIndex.None?
    }

    method OpenForm()
      modifies this
      ensures mostrarFormulario
      ensures alergias == old(alergias) && novaAlergia == old(novaAlergia)
      ensures editandoIndex == old(editandoIndex) && valorEdicao == old(valorEdicao)
    {
      mostrarFormulario := true;
    }

    method TypeNova(value: string)
      modifies this
      ensures novaAlergia == value
      ensures alergias == old(alergias) && mostrarFormulario == old(mostrarFormulario)
      ensures editandoIndex == old(editandoIndex) && valorEdicao == old(valorEdicao)
    {
      novaAlergia := value;
    }

    /**
     * `handleAdicionarAlergia`: a blank value changes nothing; otherwise the
     * trimmed value goes at the end and the form closes empty.
     */
    method HandleAdicionar()
      modifies this
      ensures alergias == AfterAdd(old(alergias), old(novaAlergia))
      ensures Text.Blank(old(novaAlergia)) ==>
                novaAlergia == old(novaAlergia) && mostrarFormulario == old(mostrarFormulario)
      ensures !Text.Blank(old(novaAlergia)) ==> novaAlergia == "" && !mostrarFormulario
      ensures editandoIndex == old(editandoIndex) && valorEdicao == old(valorEdicao)
    {
      if Text.Blank(novaAlergia) {
        return;
      }
      alergias := AfterAdd(alergias, novaAlergia);
      novaAlergia := "";
      mostrarFormulario := false;
    }

    /** The form's cancel button. */
    method CancelForm()
      modifies this
      ensures !mostrarFormulario && novaAlergia == ""
      ensures alergias == old(alergias) && editandoIndex == old(editandoIndex) && valorEdicao == old(valorEdicao)
    {
      mostrarFormulario := false;
      novaAlergia := "";
    }

    /** `handleRemoverAlergia`: after confirmation exactly that entry goes. */
    method HandleRemover(index: nat, confirmed: bool)
      modifies this
      ensures confirmed ==> alergias == Seqs.RemoveAt(old(alergias), index)
      ensures !confirmed ==> alergias == old(alergias)
      ensures novaAlergia == old(novaAlergia) && mostrarFormulario == old(mostrarFormulario)
      ensures editandoIndex == old(editandoIndex) && valorEdicao == old(valorEdicao)
    {
      if confirmed {
        alergias := Seqs.RemoveAt(alergias, index);
      }
    }

    /** `handleIniciarEdicao`: the entry's text goes into the edit box. */
    method HandleIniciarEdicao(index: nat)
      requires index < |alergias|
      modifies this
      ensures alergias == old(alergias) && novaAlergia == old(novaAlergia)
      ensures editandoIndex == Some(index) && valorEdicao == alergias[index]
      ensures mostrarFormulario == old(mostrarFormulario)
    {
      editandoIndex := Some(index);
      valorEdicao := alergias[index];
    }

    method TypeEdicao(value: string)
      modifies this
      ensures valorEdicao == value
      ensures alergias == old(alergias) && novaAlergia == old(novaAlergia)
      ensures mostrarFormulario == old(mostrarFormulario) && editandoIndex == old(editandoIndex)
    {
      valorEdicao := value;
    }

    /**
     * `handleSalvarEdicao(index)`: a blank value changes nothing; otherwise
     * only that entry is replaced by the trimmed value and editing ends.
     */
    method HandleSalvarEdicao(index: nat)
      requires index < |alergias|
      modifies this
      ensures alergias == AfterEdit(old(alergias), index, old(valorEdicao))
      ensures Text.Blank(old(valorEdicao)) ==>
                editandoIndex == old(editandoIndex) && valorEdicao == old(valorEdicao)
      ensures !Text.Blank(old(valorEdicao)) ==> editandoIndex == None && valorEdicao == ""
      ensures novaAlergia == old(novaAlergia) && mostrarFormulario == old(mostrarFormulario)
    {
      if Text.Blank(valorEdicao) {
        return;
      }
      alergias := AfterEdit(alergias, index, valorEdicao);
      editandoIndex := None;
      valorEdicao := "";
    }

    /** `handleCancelarEdicao`: editing ends, the list is untouched. */
    method HandleCancelarEdicao()
      modifies this
      ensures editandoIndex == None && valorEdicao == ""
      ensures alergias == old(alergias) && novaAlergia == old(novaAlergia)
      ensures mostrarFormulario == old(mostrarFormulario)
    {
      editandoIndex := None;
      valorEdicao := "";
    }

    /** `handleKeyPress` on the new-allergy box: Enter adds. */
    method HandleKeyPress(key: Key)
      modifies this
      ensures key == Enter ==> alergias == AfterAdd(old(alergias), old(novaAlergia))
      ensures key != Enter ==> alergias == old(alergias) && novaAlergia == old(novaAlergia)
                               && mostrarFormulario == old(mostrarFormulario)
      ensures editandoIndex == old(editandoIndex) && valorEdicao == old(valorEdicao)
    {
      if key == Enter {
        HandleAdicionar();
      }
    }

    /** `handleKeyPressEdicao` on an edit box: Enter saves, Escape cancels. */
    method HandleKeyPressEdicao(key: Key, index: nat)
      requires index < |alergias|
      modifies this
      ensures key == Enter ==> alergias == AfterEdit(old(alergias), index, old(valorEdicao))
      ensures key == Escape ==> alergias == old(alergias) && editandoIndex == None && valorEdicao == ""
      ensures key == OtherKey ==> alergias == old(alergias) && editandoIndex == old(editandoIndex)
                                  && valorEdicao == old(valorEdicao)
      ensures novaAlergia == old(novaAlergia) && mostrarFormulario == old(mostrarFormulario)
    {
      if key == Enter {
        HandleSalvarEdicao(index);
      } else if key == Escape {
        HandleCancelarEdicao();
      }
    }
  }
}
