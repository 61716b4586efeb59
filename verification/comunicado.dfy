/**
 * The guardian-message screen: the guardian picked by name, the WhatsApp
 * number cleaned to its digits, when each send button is enabled and what a
 * click on it does.
 */
module Comunicado {
  import opened Wrappers
  import Text
  import Seqs
  import Telefone

  /** A guardian contact; `fone` and `email` may be missing. */
  datatype Contato = Contato(nome: string, fone: Option<string>, email: Option<string>)

  /** The student prop; the contact list may be missing while it loads. */
  datatype Aluno = Aluno(nome: string, sobrenome: string, contatosResponsaveis: Option<seq<Contato>>)

  /** A JavaScript-truthy optional string: present and non-empty. */
  predicate Truthy(s: Option<string>)
  {
    s.Some? && s.value != []
  }

  /** `r.nome === responsavelSelecionado`. */
  function NamedAs(selecionado: string): Contato -> bool
  {
    (c: Contato) => c.nome == selecionado
  }

  /**
   * The selection effect: no guardian for an empty selection; otherwise the
   * first contact with that name, or none when the student, its list or a
   * match is missing.
   */
  function ResponsavelAtual(aluno: Option<Aluno>, selecionado: string): (r: Option<Contato>)
    ensures selecionado == [] ==> r.None?
    ensures aluno.None? || aluno.value.contatosResponsaveis.None? ==> r.None?
    ensures r.Some? ==> (r.value.nome == selecionado &&
              var cs := aluno.value.contatosResponsaveis.value;
              exists i :: 0 <= i < |cs| && cs[i] == r.value && forall j :: 0 <= j < i ==> cs[j].nome != selecionado)
    ensures selecionado != [] && aluno.Some? && aluno.value.contatosResponsaveis.Some? ==>
              (r.None? <==> forall c :: c in aluno.value.contatosResponsaveis.value ==> c.nome != selecionado)
  {
    if selecionado == [] then None
    else if aluno.None? || aluno.value.contatosResponsaveis.None? then None
    else Seqs.Find(aluno.value.contatosResponsaveis.value, NamedAs(selecionado))
  }

  /** Picking a listed guardian's name selects a contact with that name, the first one listed. */
  lemma ListedNameIsSelected(aluno: Aluno, i: nat)
    requires aluno.contatosResponsaveis.Some? && i < |aluno.contatosResponsaveis.value|
    requires aluno.contatosResponsaveis.value[i].nome != []
    requires forall j :: 0 <= j < i ==> aluno.contatosResponsaveis.value[j].nome != aluno.contatosResponsaveis.value[i].nome
    ensures ResponsavelAtual(Some(aluno), aluno.contatosResponsaveis.value[i].nome) == Some(aluno.contatosResponsaveis.value[i])
  {
    var cs := aluno.contatosResponsaveis.value;
    var r := ResponsavelAtual(Some(aluno), cs[i].nome);
    var k :| 0 <= k < |cs| && cs[k] == r.value && forall j :: 0 <= j < k ==> cs[j].nome != cs[i].nome;
    assert !(k > i);
  }

  /** `fone.replace(/[^0-9]/g, '')`: the number the WhatsApp link is opened with. */
  function NumeroLimpo(fone: string): (r: string)
    ensures Text.AllDigits(r) && |r| <= |fone|
  {
    Text.Digits(fone)
  }

  /** The cleaned number keeps exactly the digits of the phone, in order. */
  lemma {:induction false} NumeroLimpoIsDigitFilter(fone: string)
    ensures NumeroLimpo(fone) == Seqs.Filter(fone, Text.IsDigit)
  {
    if fone != [] {
      NumeroLimpoIsDigitFilter(fone[1..]);
    }
  }

  /** A number that is already digits is sent as it is. */
  lemma CleanNumberUnchanged(fone: string)
    requires Text.AllDigits(fone)
    ensures NumeroLimpo(fone) == fone
  {
    Text.DigitsOfDigits(fone);
  }

  /** A phone stored through the form mask is sent as the first eleven digits typed. */
  lemma MaskedPhoneNumber(typed: string)
    requires typed != []
    ensures NumeroLimpo(Telefone.Formatar(Some(typed))) ==
              Text.Digits(typed)[..Telefone.Min(|Text.Digits(typed)|, 11)]
  {
    Telefone.FormatarKeepsDigits(typed);
  }

  /** The WhatsApp button's `disabled` is false: a guardian with a phone, and a message. */
  predicate WhatsAppEnabled(atual: Option<Contato>, mensagem: string)
  {
    atual.Some? && Truthy(atual.value.fone) && mensagem != []
  }

  /** The e-mail button's `disabled` is false: a guardian with an e-mail, and a message. */
  predicate EmailEnabled(atual: Option<Contato>, mensagem: string)
  {
    atual.Some? && Truthy(atual.value.email) && mensagem != []
  }

  /** The warning that the selected guardian has neither phone nor e-mail. */
  predicate NoContactWarning(atual: Option<Contato>)
  {
    atual.Some? && !Truthy(atual.value.fone) && !Truthy(atual.value.email)
  }

  /** With no contact warning shown and a message typed, some send button is enabled. */
  lemma SomeButtonUnlessWarned(atual: Option<Contato>, mensagem: string)
    requires atual.Some? && !NoContactWarning(atual) && mensagem != []
    ensures WhatsAppEnabled(atual, mensagem) || EmailEnabled(atual, mensagem)
  {
  }

  /** What a send click does: open a link (its URL encoding is not modelled) or alert. */
  datatype Action =
    | OpenWhatsApp(numero: string, texto: string)
    | OpenMail(to: string, assunto: string, corpo: string)
    | Alert(message: string)

  const NoPhoneMessage: string := "Número de WhatsApp não encontrado para este responsável"
  const NoEmailMessage: string := "Email não encontrado para este responsável"
  const SubjectPrefix: string := "Comunicado Escolar - "

  /** `handleEnviarWhatsapp`. */
  function EnviarWhatsapp(atual: Option<Contato>, mensagem: string): (a: Action)
    ensures a.OpenWhatsApp? <==> atual.Some? && Truthy(atual.value.fone)
    ensures a.OpenWhatsApp? ==> Text.AllDigits(a.numero) && a.numero == NumeroLimpo(atual.value.fone.value) && a.texto == mensagem
    ensures a.Alert? ==> a.message == NoPhoneMessage
  {
    if atual.Some? && Truthy(atual.value.fone) then OpenWhatsApp(NumeroLimpo(atual.value.fone.value), mensagem)
    else Alert(NoPhoneMessage)
  }

  /** `handleEnviarEmail`: the subject names the student. */
  function EnviarEmail(aluno: Aluno, atual: Option<Contato>, mensagem: string): (a: Action)
    ensures a.OpenMail? <==> atual.Some? && Truthy(atual.value.email)
    ensures a.OpenMail? ==> (a.to == atual.value.email.value && a.corpo == mensagem &&
              a.assunto == SubjectPrefix + aluno.nome + " " + aluno.sobrenome)
    ensures a.Alert? ==> a.message == NoEmailMessage
  {
    if atual.Some? && Truthy(atual.value.email) then
      OpenMail(atual.value.email.value, SubjectPrefix + aluno.nome + " " + aluno.sobrenome, mensagem)
    else Alert(NoEmailMessage)
  }

  /** An enabled button never alerts. */
  lemma EnabledButtonsOpenLinks(aluno: Aluno, atual: Option<Contato>, mensagem: string)
    ensures WhatsAppEnabled(atual, mensagem) ==> EnviarWhatsapp(atual, mensagem).OpenWhatsApp?
    ensures EmailEnabled(atual, mensagem) ==> EnviarEmail(aluno, atual, mensagem).OpenMail?
  {
  }

  /** What the component renders. */
  datatype Screen = Loading | NoGuardians | Composer(guardians: seq<Contato>)

  function ScreenFor(aluno: Option<Aluno>): (s: Screen)
    ensures s == Loading <==> aluno.None? || aluno.value.contatosResponsaveis.None?
    ensures s == NoGuardians <==> aluno.Some? && aluno.value.contatosResponsaveis == Some([])
    ensures s.Composer? ==> s.guardians != [] && aluno.value.contatosResponsaveis == Some(s.guardians)
  {
    if aluno.None? || aluno.value.contatosResponsaveis.None? then Loading
    else if aluno.value.contatosResponsaveis.value == [] then NoGuardians
    else Composer(aluno.value.contatosResponsaveis.value)
  }

  /** The component's state; `aluno` is its prop. */
  class ComunicadoState {
    var aluno: Option<Aluno>
    var responsavelSelecionado: string
    var mensagem: string
    var responsavelAtual: Option<Contato>

    /** After the selection effect has run, the guardian matches the selection. */
    ghost predicate Valid()
      reads this
    {
      responsavelAtual == ResponsavelAtual(aluno, responsavelSelecionado)
    }

    constructor (aluno: Option<Aluno>)
      ensures Valid()
      ensures this.aluno == aluno && responsavelSelecionado == [] && mensagem == [] && responsavelAtual == None
    {
      this.aluno := aluno;
      responsavelSelecionado := [];
      mensagem := [];
      responsavelAtual := None;
    }

    /** A new `aluno` prop; the effect re-reads the guardian. */
    method SetAluno(a: Option<Aluno>)
      modifies this
      ensures Valid()
      ensures aluno == a && responsavelSelecionado == old(responsavelSelecionado) && mensagem == old(mensagem)
    {
      aluno := a;
      responsavelAtual := ResponsavelAtual(aluno, responsavelSelecionado);
    }

    /** The guardian select; the effect then looks the name up. */
    method Select(nome: string)
      modifies this
      ensures Valid()
      ensures responsavelSelecionado == nome && aluno == old(aluno) && mensagem == old(mensagem)
    {
      responsavelSelecionado := nome;
      responsavelAtual := ResponsavelAtual(aluno, responsavelSelecionado);
    }

    method TypeMensagem(text: string)
      modifies this
      ensures mensagem == text
      ensures aluno == old(aluno) && responsavelSelecionado == old(responsavelSelecionado)
      ensures responsavelAtual == old(responsavelAtual)
    {
      mensagem := text;
    }

    /** Clearing the selection clears the guardian, and both send buttons are disabled. */
    method ClearSelection()
      modifies this
      ensures Valid() && responsavelAtual == None
      ensures !WhatsAppEnabled(responsavelAtual, mensagem) && !EmailEnabled(responsavelAtual, mensagem)
      ensures aluno == old(aluno) && mensagem == old(mensagem) && responsavelSelecionado == []
    {
      Select([]);
    }
  }
}
