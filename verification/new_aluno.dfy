/**
 * The older create-student page: its payload splits the tags without
 * dropping empty pieces, defaults the address to "" and passes the
 * guardian contacts through; its schema names the required fields.
 */
module NewAluno {
  import opened Wrappers
  import Text
  import Seqs
  import AlunoForm

  /** `tagsAtencao ? tagsAtencao.split(",").map(t => t.trim()) : []`. */
  function Tags(tagsAtencao: Option<string>): (r: seq<string>)
    ensures tagsAtencao.None? || tagsAtencao.value == [] ==> r == []
    ensures tagsAtencao.Some? && tagsAtencao.value != [] ==> r == AlunoForm.TrimAll(Text.Split(tagsAtencao.value, ','))
  {
    if tagsAtencao.None? || tagsAtencao.value == [] then []
    else AlunoForm.TrimAll(Text.Split(tagsAtencao.value, ','))
  }

  /** The edit form's tags are these tags with the empty pieces dropped. */
  lemma EditFormDropsEmptyTags(tagsAtencao: string)
    ensures AlunoForm.SplitTags(tagsAtencao) == Seqs.Filter(Tags(Some(tagsAtencao)), AlunoForm.NonEmpty)
  {
    if tagsAtencao == [] {
      assert Seqs.Filter([], AlunoForm.NonEmpty) == [];
    }
  }

  lemma SplitDoubleComma()
    ensures Text.Split("a,,b", ',') == ["a", "", "b"]
  {
    Text.SplitWithoutSeparator("b", ',');
    Text.SplitAtFirst("", ',', "b");
    assert "" + [','] + "b" == ",b";
    Text.SplitAtFirst("a", ',', ",b");
    assert "a" + [','] + ",b" == "a,,b";
  }

  lemma TrimLetters()
    ensures AlunoForm.TrimAll(["a", "", "b"]) == ["a", "", "b"]
  {
    var t := ["a", "", "b"];
    assert Text.Trimmed(t[0]) && Text.Trimmed(t[1]) && Text.Trimmed(t[2]);
    AlunoForm.TrimAllOfTrimmed(t);
  }

  lemma DropEmpty()
    ensures Seqs.Filter(["a", "", "b"], AlunoForm.NonEmpty) == ["a", "b"]
  {
    var t := ["a", "", "b"];
    assert t[1..] == ["", "b"] && t[1..][1..] == ["b"] && t[1..][1..][1..] == [];
    assert Seqs.Filter(t[1..][1..], AlunoForm.NonEmpty) == ["b"];
    assert Seqs.Filter(t[1..], AlunoForm.NonEmpty) == ["b"];
  }

  /** A doubled comma leaves an empty tag here, where the edit form drops it. */
  lemma DoubleCommaKeepsEmptyTag()
    ensures Tags(Some("a,,b")) == ["a", "", "b"]
    ensures AlunoForm.SplitTags("a,,b") == ["a", "b"]
  {
    SplitDoubleComma();
    TrimLetters();
    DropEmpty();
    EditFormDropsEmptyTags("a,,b");
  }

  /** A guardian contact of this page; the e-mail is optional. */
  datatype Contato = Contato(nome: string, fone: string, email: Option<string>)

  datatype FormValues = FormValues(
    nome: string, sobrenome: string, dataNascimento: string, anoEscolar: string,
    endereco: Option<string>, contatosResponsaveis: seq<Contato>, tagsAtencao: Option<string>,
    matricula: Option<string>, ra: Option<string>, cpf: Option<string>)

  datatype Payload = Payload(
    nome: string, sobrenome: string, dataNascimento: string, anoEscolar: string,
    endereco: string, contatosResponsaveis: seq<Contato>, tagsAtencao: seq<string>,
    matricula: Option<string>, ra: Option<string>, cpf: Option<string>)

  /** The payload; `isoDate` is the birth date after `new Date(...).toISOString()`. */
  function BuildPayload(d: FormValues, isoDate: string): (p: Payload)
    ensures p.endereco == (if d.endereco.Some? then d.endereco.value else "")
    ensures p.contatosResponsaveis == d.contatosResponsaveis
    ensures p.tagsAtencao == Tags(d.tagsAtencao)
    ensures p.dataNascimento == isoDate
    ensures p.nome == d.nome && p.sobrenome == d.sobrenome && p.anoEscolar == d.anoEscolar
  {
    Payload(d.nome, d.sobrenome, isoDate, d.anoEscolar,
            if d.endereco.Some? && d.endereco.value != [] then d.endereco.value else "",
            d.contatosResponsaveis, Tags(d.tagsAtencao), d.matricula, d.ra, d.cpf)
  }

  /** The schema: four required fields, and every contact with a name and a phone. */
  predicate SchemaAccepts(d: FormValues, isEmail: string -> bool)
  {
    && d.nome != [] && d.sobrenome != [] && d.dataNascimento != [] && d.anoEscolar != []
    && forall i :: 0 <= i < |d.contatosResponsaveis| ==>
         var c := d.contatosResponsaveis[i];
         c.nome != [] && c.fone != [] && (c.email.Some? ==> isEmail(c.email.value))
  }

  /** The payload of an accepted form has its required fields and complete contacts. */
  lemma AcceptedPayloadIsComplete(d: FormValues, isEmail: string -> bool, isoDate: string)
    requires SchemaAccepts(d, isEmail)
    ensures var p := BuildPayload(d, isoDate);
            && p.nome != [] && p.sobrenome != [] && p.anoEscolar != []
            && forall i :: 0 <= i < |p.contatosResponsaveis| ==>
                 p.contatosResponsaveis[i].nome != [] && p.contatosResponsaveis[i].fone != []
  {
  }
}
