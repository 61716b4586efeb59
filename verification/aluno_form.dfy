/**
 * The student create/edit form: the mapping of a loaded student into the
 * form, the payload built on save (tags, guardian contacts, address), the
 * request it goes to, the required-field schema and the contact rows.
 */
module AlunoForm {
  import opened Wrappers
  import Text
  import Seqs

  /** A guardian contact row; an absent field reads as "". */
  datatype Contato = Contato(nome: string, fone: string, email: string)

  const BlankContato := Contato("", "", "")
  const Manha := "Manhã"
  const Periodos: set<string> := {"Manhã", "Tarde", "Noite"}
  const TagSeparator := ", "

  /** A contact the payload keeps: any of its fields filled. */
  predicate Filled(c: Contato)
  {
    c.nome != [] || c.fone != [] || c.email != []
  }

  /** `contatosResponsaveis.filter(c => c.nome || c.fone || c.email)`. */
  function ContatosPayload(cs: seq<Contato>): (r: seq<Contato>)
    ensures forall i :: 0 <= i < |r| ==> Filled(r[i]) && r[i] in cs
    ensures forall i :: 0 <= i < |cs| && Filled(cs[i]) ==> cs[i] in r
  {
    Seqs.Filter(cs, Filled)
  }

  /** Every piece of a split, trimmed. */
  function TrimAll(parts: seq<string>): (r: seq<string>)
    ensures |r| == |parts| && forall i :: 0 <= i < |parts| ==> r[i] == Text.Trim(parts[i])
  {
    seq(|parts|, i requires 0 <= i < |parts| => Text.Trim(parts[i]))
  }

  /** Pieces that are already trimmed are left as they are. */
  lemma TrimAllOfTrimmed(parts: seq<string>)
    requires forall i :: 0 <= i < |parts| ==> Text.Trimmed(parts[i])
    ensures TrimAll(parts) == parts
  {
    forall i | 0 <= i < |parts|
      ensures TrimAll(parts)[i] == parts[i]
    {
      Text.TrimOfTrimmed(parts[i]);
    }
  }

  predicate NonEmpty(t: string)
  {
    t != []
  }

  /** `tagsAtencao ? tagsAtencao.split(",").map(t => t.trim()).filter(t => t) : []`. */
  function SplitTags(tagsAtencao: string): (r: seq<string>)
    ensures tagsAtencao == [] ==> r == []
    ensures forall i :: 0 <= i < |r| ==> r[i] != [] && Text.Trimmed(r[i]) && ',' !in r[i]
  {
    if tagsAtencao == [] then []
    else
      var trimmed := TrimAll(Text.Split(tagsAtencao, ','));
      SplitPiecesHaveNoSeparator(tagsAtencao, ',');
      TrimmedPiecesClean(Text.Split(tagsAtencao, ','), ',');
      Seqs.Filter(trimmed, NonEmpty)
  }

  /** Trimmed pieces without the separator stay trimmed and without it. */
  lemma TrimmedPiecesClean(parts: seq<string>, sep: char)
    requires forall i :: 0 <= i < |parts| ==> sep !in parts[i]
    ensures forall x :: x in TrimAll(parts) ==> Text.Trimmed(x) && sep !in x
  {
    var t := TrimAll(parts);
    forall x | x in t
      ensures Text.Trimmed(x) && sep !in x
    {
      var k :| 0 <= k < |t| && t[k] == x;
      Text.TrimIsTrimmed(parts[k]);
      TrimKeepsAbsent(parts[k], sep);
    }
  }

  /** No piece of a split contains the separator. */
  lemma {:induction false} SplitPiecesHaveNoSeparator(s: string, sep: char)
    ensures forall i :: 0 <= i < |Text.Split(s, sep)| ==> sep !in Text.Split(s, sep)[i]
    decreases |s|
  {
    if s != [] {
      SplitPiecesHaveNoSeparator(s[1..], sep);
    }
  }

  /** Trimming removes characters, never adds them. */
  lemma TrimKeepsAbsent(s: string, c: char)
    requires c !in s
    ensures c !in Text.Trim(s)
  {
    var t := Text.TrimStart(s);
    var r := Text.TrimEnd(t);
    assert forall x :: x in r ==> x in t;
    assert forall x :: x in t ==> x in s;
  }

  /** The tags as the form shows them: `tagsAtencao.join(", ")`. */
  function JoinTags(tags: seq<string>): string
  {
    Text.Join(tags, TagSeparator)
  }

  /** Splitting the joined tags on ',' gives the first tag, then every other tag behind a space. */
  lemma {:induction false} SplitJoined(tags: seq<string>)
    requires |tags| > 0
    requires forall i :: 0 <= i < |tags| ==> ',' !in tags[i]
    ensures Text.Split(JoinTags(tags), ',') == [tags[0]] + seq(|tags| - 1, i requires 0 <= i < |tags| - 1 => [' '] + tags[i + 1])
  {
    if |tags| == 1 {
      Text.SplitWithoutSeparator(tags[0], ',');
    } else {
      var rest := tags[1..];
      var j := JoinTags(rest);
      assert JoinTags(tags) == tags[0] + [','] + ([' '] + j);
      Text.SplitAtFirst(tags[0], ',', [' '] + j);
      SplitJoined(rest);
      var pieces := Text.Split(j, ',');
      assert ([' '] + j)[1..] == j;
      assert Text.Split([' '] + j, ',') == [[' '] + pieces[0]] + pieces[1..];
    }
  }

  /** Each piece of the joined tags trims back to its tag. */
  lemma TrimJoinedPiece(tags: seq<string>, i: nat)
    requires i < |tags|
    requires forall j :: 0 <= j < |tags| ==> Text.Trimmed(tags[j]) && ',' !in tags[j]
    ensures |Text.Split(JoinTags(tags), ',')| == |tags|
    ensures Text.Trim(Text.Split(JoinTags(tags), ',')[i]) == tags[i]
  {
    SplitJoined(tags);
    if i == 0 {
      Text.TrimOfTrimmed(tags[0]);
    } else {
      assert Text.Split(JoinTags(tags), ',')[i] == [' '] + tags[i];
      Text.TrimAfterSpace(tags[i]);
    }
  }

  /** Trimming the pieces of the joined tags gives the tags back. */
  lemma TrimJoinedPieces(tags: seq<string>)
    requires |tags| > 0
    requires forall i :: 0 <= i < |tags| ==> Text.Trimmed(tags[i]) && ',' !in tags[i]
    ensures TrimAll(Text.Split(JoinTags(tags), ',')) == tags
  {
    var parts := Text.Split(JoinTags(tags), ',');
    TrimJoinedPiece(tags, 0);
    forall i | 0 <= i < |tags|
      ensures TrimAll(parts)[i] == tags[i]
    {
      TrimJoinedPiece(tags, i);
    }
  }

  /** Joining tags whose first one is non-empty gives a non-empty string. */
  lemma JoinedNonEmpty(tags: seq<string>)
    requires |tags| > 0 && tags[0] != []
    ensures JoinTags(tags) != []
  {
    if |tags| > 1 {
      assert JoinTags(tags) == tags[0] + TagSeparator + JoinTags(tags[1..]);
    }
  }

  /** Clean tags survive the trip through the form: joined on load, split again on save. */
  lemma TagsRoundTrip(tags: seq<string>)
    requires forall i :: 0 <= i < |tags| ==> tags[i] != [] && Text.Trimmed(tags[i]) && ',' !in tags[i]
    ensures SplitTags(JoinTags(tags)) == tags
  {
    if tags != [] {
      TrimJoinedPieces(tags);
      JoinedNonEmpty(tags);
      Seqs.FilterKeepsAll(tags, NonEmpty);
    }
  }

  /** A student as the server returns it; `None` is an absent field. */
  datatype AlunoDoc = AlunoDoc(
    nome: string, sobrenome: string, anoEscolar: string,
    dataNascimento: Option<string>, periodo: Option<string>,
    tagsAtencao: Option<seq<string>>, enderecoCompleto: Option<string>,
    contatosResponsaveis: Option<seq<Contato>>,
    matricula: Option<string>, ra: Option<string>, cpf: Option<string>)

  /** The form's values. */
  datatype FormValues = FormValues(
    nome: string, sobrenome: string, dataNascimento: string, anoEscolar: string,
    periodo: string, enderecoCompleto: string, contatosResponsaveis: seq<Contato>,
    tagsAtencao: string, matricula: Option<string>, ra: Option<string>, cpf: Option<string>)

  predicate Present(s: Option<string>)
  {
    s.Some? && s.value != []
  }

  /** The form a new student starts with. */
  const NewForm := FormValues("", "", "", "", Manha, "", [BlankContato], "", None, None, None)

  /** The loaded student mapped into the form for editing. */
  function LoadedForm(a: AlunoDoc): (f: FormValues)
    ensures f.dataNascimento == (if Present(a.dataNascimento) then Text.Split(a.dataNascimento.value, 'T')[0] else "")
    ensures f.periodo == (if Present(a.periodo) then a.periodo.value else Manha)
    ensures f.enderecoCompleto == (if Present(a.enderecoCompleto) then a.enderecoCompleto.value else "")
    ensures |f.contatosResponsaveis| >= 1
    ensures a.contatosResponsaveis.Some? && |a.contatosResponsaveis.value| > 0 ==> f.contatosResponsaveis == a.contatosResponsaveis.value
    ensures f.tagsAtencao == (if a.tagsAtencao.Some? then JoinTags(a.tagsAtencao.value) else "")
  {
    FormValues(
      a.nome, a.sobrenome,
      if Present(a.dataNascimento) then Text.Split(a.dataNascimento.value, 'T')[0] else "",
      a.anoEscolar,
      if Present(a.periodo) then a.periodo.value else Manha,
      if Present(a.enderecoCompleto) then a.enderecoCompleto.value else "",
      if a.contatosResponsaveis.Some? && |a.contatosResponsaveis.value| > 0 then a.contatosResponsaveis.value else [BlankContato],
      if a.tagsAtencao.Some? then JoinTags(a.tagsAtencao.value) else "",
      a.matricula, a.ra, a.cpf)
  }

  /** A stored timestamp loads as its date part. */
  lemma LoadedDateIsDatePart(a: AlunoDoc, date: string, time: string)
    requires 'T' !in date
    requires a.dataNascimento == Some(date + ['T'] + time)
    ensures LoadedForm(a).dataNascimento == date
  {
    Text.SplitAtFirst(date, 'T', time);
  }

  /** The body sent on save. */
  datatype Payload = Payload(
    nome: string, sobrenome: string, dataNascimento: string, anoEscolar: string, periodo: string,
    enderecoCompleto: string, contatosResponsaveis: seq<Contato>, tagsAtencao: seq<string>,
    matricula: Option<string>, ra: Option<string>, cpf: Option<string>)

  /** `onSubmit`'s payload: the address under `dadosPessoais`, filled contacts only, split tags. */
  function BuildPayload(d: FormValues): (p: Payload)
    ensures p.enderecoCompleto == d.enderecoCompleto
    ensures p.contatosResponsaveis == ContatosPayload(d.contatosResponsaveis)
    ensures p.tagsAtencao == SplitTags(d.tagsAtencao)
    ensures p.nome == d.nome && p.sobrenome == d.sobrenome && p.dataNascimento == d.dataNascimento
    ensures p.anoEscolar == d.anoEscolar && p.periodo == d.periodo
  {
    Payload(d.nome, d.sobrenome, d.dataNascimento, d.anoEscolar, d.periodo,
            d.enderecoCompleto, ContatosPayload(d.contatosResponsaveis), SplitTags(d.tagsAtencao),
            d.matricula, d.ra, d.cpf)
  }

  /**
   * Loading a student and saving it untouched, once the schema lets the
   * submit through, sends back its address, its clean tags and every one of
   * its contacts.
   */
  lemma LoadThenSave(a: AlunoDoc, isEmail: string -> bool)
    requires a.tagsAtencao.Some? ==> forall i :: 0 <= i < |a.tagsAtencao.value| ==>
               a.tagsAtencao.value[i] != [] && Text.Trimmed(a.tagsAtencao.value[i]) && ',' !in a.tagsAtencao.value[i]
    requires SchemaAccepts(LoadedForm(a), isEmail)
    ensures var p := BuildPayload(LoadedForm(a));
            && p.enderecoCompleto == (if Present(a.enderecoCompleto) then a.enderecoCompleto.value else "")
            && p.tagsAtencao == a.tagsAtencao.GetOr([])
            && a.contatosResponsaveis.Some?
            && p.contatosResponsaveis == a.contatosResponsaveis.value
  {
    if a.tagsAtencao.Some? {
      TagsRoundTrip(a.tagsAtencao.value);
    }
    NoContactsRejected(a, isEmail);
    ValidatedContactsAllKept(LoadedForm(a), isEmail);
  }

  /**
   * A student loaded without contacts gets one blank row, and the schema
   * refuses a row without a name: such a student cannot be saved untouched.
   */
  lemma NoContactsRejected(a: AlunoDoc, isEmail: string -> bool)
    ensures a.contatosResponsaveis.None? || a.contatosResponsaveis.value == [] ==>
              !SchemaAccepts(LoadedForm(a), isEmail)
  {
    if a.contatosResponsaveis.None? || a.contatosResponsaveis.value == [] {
      assert LoadedForm(a).contatosResponsaveis[0] == BlankContato;
    }
  }

  /** The request `onSubmit` makes: PUT to the student in edit mode, POST otherwise. */
  datatype Request = Put(path: string, body: Payload) | Post(path: string, body: Payload)

  function SaveRequest(alunoId: Option<string>, d: FormValues): (r: Request)
    ensures Present(alunoId) <==> r.Put?
    ensures Present(alunoId) ==> r.path == "/alunos/" + alunoId.value
    ensures !Present(alunoId) ==> r.path == "/alunos"
    ensures r.body == BuildPayload(d)
  {
    if Present(alunoId) then Put("/alunos/" + alunoId.value, BuildPayload(d))
    else Post("/alunos", BuildPayload(d))
  }

  /** The form's validation schema; the e-mail check is the library's and is a parameter. */
  predicate SchemaAccepts(d: FormValues, isEmail: string -> bool)
  {
    && d.nome != [] && d.sobrenome != [] && d.dataNascimento != [] && d.anoEscolar != []
    && d.periodo in Periodos
    && forall i :: 0 <= i < |d.contatosResponsaveis| ==>
         var c := d.contatosResponsaveis[i];
         c.nome != [] && c.fone != [] && (c.email == [] || isEmail(c.email))
  }

  /** Once the schema accepts the form, the contact filter keeps every row. */
  lemma ValidatedContactsAllKept(d: FormValues, isEmail: string -> bool)
    requires SchemaAccepts(d, isEmail)
    ensures BuildPayload(d).contatosResponsaveis == d.contatosResponsaveis
  {
    Seqs.FilterKeepsAll(d.contatosResponsaveis, Filled);
  }

  /** "Remover Contato" is offered only when more than one row exists. */
  predicate RemoveOffered(contatos: seq<Contato>)
  {
    |contatos| > 1
  }

  /** The contact rows of the form. */
  class ContactRows {
    var fields: seq<Contato>

    /** The form always keeps at least one row. */
    ghost predicate Valid()
      reads this
    {
      |fields| >= 1
    }

    constructor ()
      ensures Valid() && fields == [BlankContato]
    {
      fields := [BlankContato];
    }

    /** `reset` with the loaded form. */
    method Reset(form: FormValues)
      requires |form.contatosResponsaveis| >= 1
      modifies this
      ensures Valid() && fields == form.contatosResponsaveis
    {
      fields := form.contatosResponsaveis;
    }

    /** "+ Adicionar Contato": a blank row at the end. */
    method Append()
      requires Valid()
      modifies this
      ensures Valid() && fields == old(fields) + [BlankContato]
    {
      fields := fields + [BlankContato];
    }

    /** "Remover Contato" on row `index`, a button that exists only while more than one row does. */
    method Remove(index: nat)
      requires Valid() && RemoveOffered(fields) && index < |fields|
      modifies this
      ensures Valid() && fields == Seqs.RemoveAt(old(fields), index)
    {
      fields := Seqs.RemoveAt(fields, index);
    }
  }

  /** Loading any student leaves the form with at least one contact row. */
  lemma LoadedFormHasARow(a: AlunoDoc)
    ensures |LoadedForm(a).contatosResponsaveis| >= 1
  {
  }
}
