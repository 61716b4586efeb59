/**
 * The student's health tab: the loaded health record with its list fields
 * defaulted, the one-field update, the create-or-update save, the health
 * documents and the role gates.
 */
module Saude {
  import opened Wrappers
  import opened Access
  import opened JsonValue
  import Documentos

  /** A health record is a JSON object: its fields by name. */
  type Record = map<string, Json>

  const IdField := "_id"
  const ListFields: seq<string> := ["condicoesSaude", "medicacoes", "alergias", "contatosEmergencia", "documentosIds"]

  /** The empty lists every record starts from. */
  const Defaults: Record := map[
    "condicoesSaude" := JArr([]),
    "medicacoes" := JArr([]),
    "alergias" := JArr([]),
    "contatosEmergencia" := JArr([]),
    "documentosIds" := JArr([])
  ]

  /**
   * `{condicoesSaude: [], ..., ...data}`: the defaults overridden field by
   * field by the server's record; a missing record (`null`) spreads nothing.
   */
  function Normalised(data: Option<Record>): (r: Record)
    ensures forall k :: k in ListFields ==> k in r
    ensures data.Some? ==> forall k :: k in data.value ==> k in r && r[k] == data.value[k]
    ensures forall k :: k in r && (data.None? || k !in data.value) ==> k in Defaults && r[k] == JArr([])
  {
    if data.None? then Defaults else Defaults + data.value
  }

  /** A 404 (no record yet) gives exactly the defaults; a record with all its lists keeps them. */
  lemma NormalisedCases(data: Record)
    ensures Normalised(None) == Defaults
    ensures (forall k :: k in ListFields ==> k in data) ==> Normalised(Some(data)) == data
  {
    if forall k :: k in ListFields ==> k in data {
      var r := Normalised(Some(data));
      assert forall k :: k in Defaults ==> k in ListFields;
      assert r.Keys == data.Keys;
    }
  }

  /** JavaScript truthiness of a JSON value. */
  predicate JsonTruthy(v: Json)
  {
    match v
    case JNull => false
    case JBool(b) => b
    case JNum(n) => n != 0.0
    case JStr(s) => s != []
    case _ => true
  }

  /** The record has been stored before: `dadosSaude._id` is set. */
  predicate Stored(d: Record)
  {
    IdField in d && JsonTruthy(d[IdField])
  }

  /** The call a save makes. */
  datatype SaveRequest = Update(alunoId: string, body: Record) | Create(alunoId: string, body: Record)

  /** What the health-record request returned: the record (`null` when there is none) or an error. */
  datatype Fetched = Loaded(data: Option<Record>) | FetchFailed(message: string)

  const LoadErrorPrefix := "Não foi possível carregar os dados de saúde: "

  /** `podeEditar`. */
  predicate PodeEditar(user: Option<User>)
  {
    RoleIs(user, AdminName) || RoleIs(user, EditorName)
  }

  /** The remove button on a health document. */
  predicate RemoveDocumentShown(user: Option<User>)
  {
    RoleIs(user, AdminName)
  }

  lemma GatesAgree(user: Option<User>)
    ensures PodeEditar(user) == Allows(user, CreateEdit)
    ensures RemoveDocumentShown(user) == Allows(user, Delete)
  {
  }

  class SaudeTab {
    const alunoId: string
    var dadosSaude: Option<Record>
    var carregandoSaude: bool
    var erroSaude: Option<string>
    var salvandoSaude: bool
    const docs: Documentos.DocumentList

    constructor (alunoId: string)
      ensures this.alunoId == alunoId && dadosSaude == None && carregandoSaude
      ensures erroSaude == None && !salvandoSaude && fresh(docs) && docs.documentos == []
    {
      this.alunoId := alunoId;
      dadosSaude := None;
      carregandoSaude := true;
      erroSaude := None;
      salvandoSaude := false;
      docs := new Documentos.DocumentList();
    }

    /**
     * `carregarDadosSaude`: with the digital health record switched off
     * nothing is fetched and loading ends; otherwise the normalised record
     * replaces the current one, or the error message is set.  Loading is
     * over either way.
     */
    method CarregarDadosSaude(habilitado: bool, fetched: Fetched) returns (requested: bool)
      modifies this
      ensures requested == habilitado && !carregandoSaude
      ensures !habilitado ==> dadosSaude == old(dadosSaude) && erroSaude == old(erroSaude)
      ensures habilitado && fetched.Loaded? ==> dadosSaude == Some(Normalised(fetched.data)) && erroSaude == None
      ensures habilitado && fetched.FetchFailed? ==>
                dadosSaude == old(dadosSaude) && erroSaude == Some(LoadErrorPrefix + fetched.message)
      ensures salvandoSaude == old(salvandoSaude)
    {
      if !habilitado {
        carregandoSaude := false;
        return false;
      }
      requested := true;
      carregandoSaude := true;
      erroSaude := None;
      if fetched.Loaded? {
        dadosSaude := Some(Normalised(fetched.data));
      } else {
        erroSaude := Some(LoadErrorPrefix + fetched.message);
      }
      carregandoSaude := false;
    }

    /** `handleUpdateDadosSaude(campo, valor)`: the one field is set, every other field is kept. */
    method HandleUpdateDadosSaude(campo: string, valor: Json)
      modifies this
      ensures dadosSaude.Some? && campo in dadosSaude.value && dadosSaude.value[campo] == valor
      ensures old(dadosSaude).Some? ==> dadosSaude.value == old(dadosSaude).value[campo := valor]
      ensures old(dadosSaude).None? ==> dadosSaude.value == map[campo := valor]
      ensures carregandoSaude == old(carregandoSaude) && erroSaude == old(erroSaude)
      ensures salvandoSaude == old(salvandoSaude)
    {
      var prev := if dadosSaude.Some? then dadosSaude.value else map[];
      dadosSaude := Some(prev[campo := valor]);
    }

    /**
     * `handleSalvarDadosSaude`: nothing without a record; an update when it
     * has been stored before, a create otherwise; the returned record
     * replaces the local one, a failed call (`saved == None`) keeps it.
     */
    method HandleSalvarDadosSaude(saved: Option<Record>) returns (request: Option<SaveRequest>)
      modifies this
      ensures old(dadosSaude).None? ==> request == None && dadosSaude == None
      ensures old(dadosSaude).Some? && Stored(old(dadosSaude).value) ==>
                request == Some(Update(alunoId, old(dadosSaude).value))
      ensures old(dadosSaude).Some? && !Stored(old(dadosSaude).value) ==>
                request == Some(Create(alunoId, old(dadosSaude).value))
      ensures old(dadosSaude).Some? && saved.Some? ==> dadosSaude == saved
      ensures saved.None? ==> dadosSaude == old(dadosSaude)
      ensures !salvandoSaude || (old(dadosSaude).None? && salvandoSaude == old(salvandoSaude))
      ensures carregandoSaude == old(carregandoSaude) && erroSaude == old(erroSaude)
    {
      if dadosSaude.None? {
        return None;
      }
      var d := dadosSaude.value;
      salvandoSaude := true;
      if Stored(d) {
        request := Some(Update(alunoId, d));
      } else {
        request := Some(Create(alunoId, d));
      }
      if saved.Some? {
        dadosSaude := saved;
      }
      salvandoSaude := false;
    }

    /** `handleRemoverDocumento`: the shared document list's removal. */
    method HandleRemoverDocumento(documentoId: string, confirmed: bool, deleteSucceeded: bool) returns (requested: bool)
      modifies docs
      ensures requested == confirmed
      ensures confirmed && deleteSucceeded ==> docs.documentos == Documentos.Removed(old(docs.documentos), documentoId)
      ensures !(confirmed && deleteSucceeded) ==> docs.documentos == old(docs.documentos)
    {
      requested := docs.HandleRemover(documentoId, confirmed, deleteSucceeded);
    }
  }

  /** Saving a record the server stored before never creates a second one. */
  lemma StoredRecordUpdates(d: Record, id: string)
    requires IdField in d && d[IdField] == JStr(id) && id != []
    ensures Stored(d)
    ensures Stored(Normalised(Some(d)))
  {
  }
}
