/**
 * The emergency-contact list editor: the contact form and its guard, add,
 * edit one entry, remove one entry and the role gates.  The list belongs to
 * the health record and is modelled as the `contatos` field.
 *
 * As written, the add handler ignores the submitted form and re-checks the
 * `novoContato` draft instead, which nothing ever fills in, so submitting a
 * new contact never adds it.  `HandleAdicionarAsWritten` models that code;
 * `HandleAdicionar` adds the submitted contact, as the form evidently means.
 */
module ContatosEmergencia {
  import opened Wrappers
  import opened Access
  import Text
  import Seqs

  datatype Contato = Contato(nome: string, telefone: string, relacao: string)

  const BlankContato := Contato("", "", "")

  /** The form's submit guard: name and phone both non-blank. */
  predicate Submittable(c: Contato)
  {
    !Text.Blank(c.nome) && !Text.Blank(c.telefone)
  }

  /** The add handler as written: it appends the draft, whatever was submitted. */
  function AfterAddAsWritten(contatos: seq<Contato>, novoContato: Contato, submitted: Contato): (r: seq<Contato>)
    ensures !Submittable(novoContato) ==> r == contatos
  {
    if !Submittable(novoContato) then contatos else Seqs.Append(contatos, novoContato)
  }

  /** The add handler as intended: the submitted contact goes at the end. */
  function AfterAdd(contatos: seq<Contato>, submitted: Contato): (r: seq<Contato>)
    ensures !Submittable(submitted) ==> r == contatos
    ensures Submittable(submitted) ==> |r| == |contatos| + 1 && r[..|contatos|] == contatos && r[|contatos|] == submitted
  {
    if Submittable(submitted) then Seqs.Append(contatos, submitted) else contatos
  }

  /** With the draft never filled in, no submitted contact is ever added. */
  lemma AsWrittenNeverAdds(contatos: seq<Contato>, submitted: Contato)
    ensures AfterAddAsWritten(contatos, BlankContato, submitted) == contatos
  {
    assert Text.Blank(BlankContato.nome);
  }

  /** A valid contact the as-written handler drops and the intended one keeps. */
  lemma AsWrittenDropsValidContact()
    ensures AfterAddAsWritten([], BlankContato, Contato("Ana", "11999990000", "Mãe")) == []
    ensures AfterAdd([], Contato("Ana", "11999990000", "Mãe")) == [Contato("Ana", "11999990000", "Mãe")]
  {
    AsWrittenNeverAdds([], Contato("Ana", "11999990000", "Mãe"));
    assert !Text.IsSpace('A') && !Text.IsSpace('1');
    assert Text.TrimStart("Ana") == "Ana";
    assert Text.TrimStart("11999990000") == "11999990000";
  }

  /** The list after submitting the edit form of entry `index`. */
  function AfterEdit(contatos: seq<Contato>, index: nat, c: Contato): (r: seq<Contato>)
    requires index < |contatos|
    ensures !Submittable(c) ==> r == contatos
    ensures |r| == |contatos| && (Submittable(c) ==> r[index] == c)
    ensures forall j :: 0 <= j < |contatos| && j != index ==> r[j] == contatos[j]
  {
    if Submittable(c) then Seqs.ReplaceAt(contatos, index, c) else contatos
  }

  /** Every entry of a list the editor built has a name and a phone. */
  lemma ChangesKeepComplete(contatos: seq<Contato>, c: Contato, index: nat)
    requires forall j :: 0 <= j < |contatos| ==> Submittable(contatos[j])
    ensures forall j :: 0 <= j < |AfterAdd(contatos, c)| ==> Submittable(AfterAdd(contatos, c)[j])
    ensures index < |contatos| ==>
              forall j :: 0 <= j < |AfterEdit(contatos, index, c)| ==> Submittable(AfterEdit(contatos, index, c)[j])
    ensures forall j :: 0 <= j < |Seqs.RemoveAt(contatos, index)| ==> Submittable(Seqs.RemoveAt(contatos, index)[j])
  {
    Seqs.ChangesKeep(contatos, c, index, Submittable);
  }

  /** Adding and then removing the new last entry gives the list back. */
  lemma AddThenRemove(contatos: seq<Contato>, c: Contato)
    requires Submittable(c)
    ensures Seqs.RemoveAt(AfterAdd(contatos, c), |contatos|) == contatos
  {
    Seqs.RemoveAppended(contatos, c);
  }

  predicate PodeEditar(user: Option<User>)
  {
    RoleIs(user, AdminName) || RoleIs(user, EditorName)
  }

  predicate RemoveShown(user: Option<User>)
  {
    RoleIs(user, AdminName)
  }

  lemma GatesAgree(user: Option<User>)
    ensures PodeEditar(user) == Allows(user, CreateEdit)
    ensures RemoveShown(user) == Allows(user, Delete)
  {
  }

  class ContatosManager {
    var contatos: seq<Contato>
    var editandoIndex: Option<nat>
    var novoContato: Contato
    var mostrarFormulario: bool

    /** The draft is only ever set back to the blank contact. */
    ghost predicate Valid()
      reads this
    {
      novoContato == BlankContato
    }

    constructor (contatos: seq<Contato>)
      ensures Valid()
      ensures this.contatos == contatos && editandoIndex == None && !mostrarFormulario
    {
      this.contatos := contatos;
      editandoIndex := None;
      novoContato := BlankContato;
      mostrarFormulario := false;
    }

    method OpenForm()
      requires Valid()
      modifies this
      ensures Valid() && mostrarFormulario
      ensures contatos == old(contatos) && editandoIndex == old(editandoIndex)
    {
      mostrarFormulario := true;
    }

    /** `handleAdicionarContato` as written: the submitted form is ignored and the list never grows. */
    method HandleAdicionarAsWritten(submitted: Contato)
      modifies this
      ensures contatos == AfterAddAsWritten(old(contatos), old(novoContato), submitted)
      ensures old(Valid()) ==> Valid() && contatos == old(contatos) && mostrarFormulario == old(mostrarFormulario)
      ensures editandoIndex == old(editandoIndex)
    {
      if !Submittable(novoContato) {
        return;
      }
      contatos := Seqs.Append(contatos, novoContato);
      novoContato := BlankContato;
      mostrarFormulario := false;
    }

    /** The corrected handler: the submitted contact goes at the end and the form closes. */
    method HandleAdicionar(submitted: Contato)
      requires Valid()
      modifies this
      ensures Valid()
      ensures contatos == AfterAdd(old(contatos), submitted)
      ensures Submittable(submitted) ==> !mostrarFormulario
      ensures !Submittable(submitted) ==> mostrarFormulario == old(mostrarFormulario)
      ensures editandoIndex == old(editandoIndex)
    {
      if !Submittable(submitted) {
        return;
      }
      contatos := AfterAdd(contatos, submitted);
      novoContato := BlankContato;
      mostrarFormulario := false;
    }

    method CancelForm()
      requires Valid()
      modifies this
      ensures Valid() && !mostrarFormulario
      ensures contatos == old(contatos) && editandoIndex == old(editandoIndex)
    {
      mostrarFormulario := false;
      novoContato := BlankContato;
    }

    /** `onEdit`: only a writer opens the edit form. */
    method StartEdit(user: Option<User>, index: nat)
      requires Valid()
      modifies this
      ensures Valid()
      ensures PodeEditar(user) ==> editandoIndex == Some(index)
      ensures !PodeEditar(user) ==> editandoIndex == old(editandoIndex)
      ensures contatos == old(contatos) && mostrarFormulario == old(mostrarFormulario)
    {
      if PodeEditar(user) {
        editandoIndex := Some(index);
      }
    }

    /** The edit form of entry `index` submitted with `c`; only that entry changes. */
    method HandleEditar(index: nat, c: Contato)
      requires Valid() && index < |contatos|
      modifies this
      ensures Valid()
      ensures contatos == AfterEdit(old(contatos), index, c)
      ensures Submittable(c) ==> editandoIndex == None
      ensures !Submittable(c) ==> editandoIndex == old(editandoIndex)
      ensures mostrarFormulario == old(mostrarFormulario)
    {
      if !Submittable(c) {
        return;
      }
      contatos := AfterEdit(contatos, index, c);
      editandoIndex := None;
    }

    method CancelEdit()
      requires Valid()
      modifies this
      ensures Valid() && editandoIndex == None
      ensures contatos == old(contatos) && mostrarFormulario == old(mostrarFormulario)
    {
      editandoIndex := None;
    }

    /** `handleRemoverContato`: after confirmation exactly that entry goes. */
    method HandleRemover(index: nat, confirmed: bool)
      requires Valid()
      modifies this
      ensures Valid()
      ensures confirmed ==> contatos == Seqs.RemoveAt(old(contatos), index)
      ensures !confirmed ==> contatos == old(contatos)
      ensures editandoIndex == old(editandoIndex) && mostrarFormulario == old(mostrarFormulario)
    {
      if confirmed {
        contatos := Seqs.RemoveAt(contatos, index);
      }
    }
  }
}
