/**
 * The attendance tab of a student: the presence percentage, totals over the
 * yearly records, the save payload and the add/edit modal.  The numeric
 * fields `totalAulas` and `faltas` are what `Number(...)` makes of them,
 * `None` standing for `NaN` (so a `null` field is `Some(0.0)`).  The stored
 * percentage keeps `null` apart, because the badge shows N/D for it.
 */
module FrequenciaTab {
  import opened Wrappers
  import opened Access
  import opened JsonValue
  import Configuracoes

  /** A yearly attendance record as the backend stores it. */
  datatype FreqRecord = FreqRecord(
    id: Option<string>,
    mongoId: Option<string>,
    ano: Option<int>,
    totalAulas: Option<real>,
    faltas: Option<real>,
    percentPresenca: Percent,
    compensacoes: Option<seq<Json>>)

  /** A stored percentage: absent or `NaN`, `null`, or a number. */
  datatype Percent = Missing | Null | Value(v: real)

  /** `p || 0`. */
  function PercentOrZero(p: Percent): (r: real)
    ensures p.Value? ==> r == p.v
    ensures !p.Value? ==> r == 0.0
  {
    if p.Value? && p.v != 0.0 then p.v else 0.0
  }

  /** `p < t` in JavaScript: `null` compares as 0, absent or `NaN` compares false. */
  predicate PercentBelow(p: Percent, t: real)
  {
    match p
    case Missing => false
    case Null => 0.0 < t
    case Value(v) => v < t
  }

  /** `calcularPercentPresenca`: `None` (null) unless both are numbers and the total is positive. */
  function PercentPresenca(totalAulas: Option<real>, faltas: Option<real>): (r: Percent)
    ensures r != Missing
    ensures r == Null <==> totalAulas.None? || faltas.None? || totalAulas.value <= 0.0
    ensures r.Value? ==> r.v * totalAulas.value == (totalAulas.value - faltas.value) * 100.0
  {
    if totalAulas.None? || faltas.None? || totalAulas.value <= 0.0 then Null
    else Value((totalAulas.value - faltas.value) / totalAulas.value * 100.0)
  }

  /** With a positive total and absences between 0 and the total, the percentage lies in [0, 100]. */
  lemma PercentBounds(total: real, faltas: real)
    requires total > 0.0 && 0.0 <= faltas <= total
    ensures var p := PercentPresenca(Some(total), Some(faltas)).v;
            && 0.0 <= p <= 100.0
            && (faltas == 0.0 ==> p == 100.0)
            && (faltas == total ==> p == 0.0)
  {
    var q := (total - faltas) / total;
    QuotientInUnit(total - faltas, total);
    assert PercentPresenca(Some(total), Some(faltas)).v == q * 100.0;
  }

  /** A quotient `a / t` with `0 <= a <= t` lies in [0, 1], with 1 exactly at `a == t` and 0 at `a == 0`. */
  lemma QuotientInUnit(a: real, t: real)
    requires t > 0.0 && 0.0 <= a <= t
    ensures 0.0 <= a / t <= 1.0
    ensures a == t ==> a / t == 1.0
    ensures a == 0.0 ==> a / t == 0.0
  {
    var q := a / t;
    assert q * t == a;
  }

  /** The records after a reload: each one with its percentage recomputed. */
  function Reprocessed(data: seq<FreqRecord>): (r: seq<FreqRecord>)
    ensures |r| == |data|
    ensures forall i :: 0 <= i < |data| ==>
              r[i] == data[i].(percentPresenca := PercentPresenca(data[i].totalAulas, data[i].faltas))
  {
    seq(|data|, i requires 0 <= i < |data| => data[i].(percentPresenca := PercentPresenca(data[i].totalAulas, data[i].faltas)))
  }

  /** `frequencias.reduce((sum, f) => sum + (Number(f.totalAulas) || 0), 0)`. */
  function TotalAulas(rs: seq<FreqRecord>): real
  {
    if rs == [] then 0.0 else TotalAulas(rs[..|rs| - 1]) + NumberOrZero(rs[|rs| - 1].totalAulas)
  }

  /** The same sum over `faltas`. */
  function TotalFaltas(rs: seq<FreqRecord>): real
  {
    if rs == [] then 0.0 else TotalFaltas(rs[..|rs| - 1]) + NumberOrZero(rs[|rs| - 1].faltas)
  }

  /** `frequenciaGeral`. */
  function FrequenciaGeral(rs: seq<FreqRecord>): (r: real)
    ensures TotalAulas(rs) <= 0.0 ==> r == 0.0
  {
    var t := TotalAulas(rs);
    if t > 0.0 then (t - TotalFaltas(rs)) / t * 100.0 else 0.0
  }

  /** A record whose absences are a number between 0 and its (numeric) total. */
  predicate Consistent(r: FreqRecord)
  {
    r.totalAulas.Some? && r.faltas.Some? && 0.0 <= r.faltas.value <= r.totalAulas.value
  }

  /** Summing consistent records keeps the total absences between 0 and the total classes. */
  lemma {:induction false} TotalsOrdered(rs: seq<FreqRecord>)
    requires forall i :: 0 <= i < |rs| ==> Consistent(rs[i])
    ensures 0.0 <= TotalFaltas(rs) <= TotalAulas(rs)
  {
    if rs != [] {
      TotalsOrdered(rs[..|rs| - 1]);
    }
  }

  /** Over consistent records the overall frequency is a percentage. */
  lemma FrequenciaGeralBounds(rs: seq<FreqRecord>)
    requires forall i :: 0 <= i < |rs| ==> Consistent(rs[i])
    ensures 0.0 <= FrequenciaGeral(rs) <= 100.0
  {
    TotalsOrdered(rs);
    var t := TotalAulas(rs);
    if t > 0.0 {
      QuotientInUnit(t - TotalFaltas(rs), t);
    }
  }

  /** What the status badge shows. */
  datatype Badge = NotAvailable | Status(s: Configuracoes.FreqStatus)

  /** `getStatusBadge`: N/D for null, absent or NaN, else the configured classifier. */
  function StatusBadge(bands: Configuracoes.FreqBands, percentual: Percent): (b: Badge)
    ensures b == NotAvailable <==> !percentual.Value?
    ensures percentual.Value? ==> b == Status(Configuracoes.StatusFrequencia(bands, percentual.v))
  {
    if percentual.Value? then Status(Configuracoes.StatusFrequencia(bands, percentual.v)) else NotAvailable
  }

  /** A reloaded record whose numbers cannot give a percentage shows N/D, whatever the thresholds. */
  lemma UncomputableShowsNotAvailable(bands: Configuracoes.FreqBands, f: FreqRecord)
    requires f.totalAulas.None? || f.faltas.None? || f.totalAulas.value <= 0.0
    ensures StatusBadge(bands, PercentPresenca(f.totalAulas, f.faltas)) == NotAvailable
  {
  }

  /** The modal form; `None` is an empty input. */
  datatype FreqForm = FreqForm(ano: Option<int>, aulasPrevistas: Option<real>, faltas: Option<real>, compensacoes: seq<Json>)

  const InitialForm: FreqForm := FreqForm(None, None, None, [])

  /** `x || ""` for a numeric field. */
  function OrBlank<T(==)>(x: Option<T>, zero: T): Option<T>
  {
    if x.Some? && x.value != zero then x else None
  }

  /** The form filled from a record for editing: `totalAulas` goes to `aulasPrevistas`. */
  function EditForm(f: FreqRecord): (form: FreqForm)
  {
    FreqForm(OrBlank(f.ano, 0), OrBlank(f.totalAulas, 0.0), OrBlank(f.faltas, 0.0),
             if f.compensacoes.Some? then f.compensacoes.value else [])
  }

  /** The body sent on save: the form spread, with the three numbers normalised. */
  datatype Payload = Payload(ano: int, totalAulas: real, faltas: real, aulasPrevistas: Option<real>, compensacoes: seq<Json>)

  function BuildPayload(form: FreqForm, currentYear: int): (p: Payload)
    ensures p.ano == (if form.ano.Some? && form.ano.value != 0 then form.ano.value else currentYear)
    ensures p.totalAulas == (if form.aulasPrevistas.Some? then form.aulasPrevistas.value else 0.0)
    ensures p.faltas == (if form.faltas.Some? then form.faltas.value else 0.0)
    ensures p.aulasPrevistas == form.aulasPrevistas && p.compensacoes == form.compensacoes
  {
    Payload(if form.ano.Some? && form.ano.value != 0 then form.ano.value else currentYear,
            NumberOrZero(form.aulasPrevistas), NumberOrZero(form.faltas), form.aulasPrevistas, form.compensacoes)
  }

  /** Editing a record and saving it unchanged sends back its numbers (missing ones as 0, the year as the current one). */
  lemma EditThenSave(f: FreqRecord, currentYear: int)
    ensures var p := BuildPayload(EditForm(f), currentYear);
            && p.totalAulas == NumberOrZero(f.totalAulas)
            && p.faltas == NumberOrZero(f.faltas)
            && p.ano == (if f.ano.Some? && f.ano.value != 0 then f.ano.value else currentYear)
  {
  }

  /** A blank form saves as the current year with zero classes and absences. */
  lemma BlankFormPayload(currentYear: int)
    ensures BuildPayload(InitialForm, currentYear) == Payload(currentYear, 0.0, 0.0, None, [])
  {
  }

  /** `frequencia.id || frequencia._id`. */
  function RecordId(f: FreqRecord): Option<string>
  {
    if f.id.Some? && f.id.value != [] then f.id else f.mongoId
  }

  datatype Mode = Add | Edit

  /** The save request the submit handler sends. */
  datatype SaveRequest = Create(alunoId: string, payload: Payload) | Update(alunoId: string, id: Option<string>, payload: Payload)

  class FrequenciaModal {
    var isModalOpen: bool
    var modalMode: Mode
    var currentFrequenciaId: Option<string>
    var formData: FreqForm

    constructor ()
      ensures !isModalOpen && modalMode == Add && currentFrequenciaId == None && formData == InitialForm
    {
      isModalOpen := false;
      modalMode := Add;
      currentFrequenciaId := None;
      formData := InitialForm;
    }

    /** `handleOpenModal(mode, frequencia)`. */
    method HandleOpenModal(mode: Mode, frequencia: Option<FreqRecord>)
      modifies this
      ensures isModalOpen && modalMode == mode
      ensures mode == Edit && frequencia.Some? ==>
                currentFrequenciaId == RecordId(frequencia.value) && formData == EditForm(frequencia.value)
      ensures !(mode == Edit && frequencia.Some?) ==> currentFrequenciaId == None && formData == InitialForm
    {
      modalMode := mode;
      isModalOpen := true;
      if mode == Edit && frequencia.Some? {
        currentFrequenciaId := RecordId(frequencia.value);
        formData := EditForm(frequencia.value);
      } else {
        currentFrequenciaId := None;
        formData := InitialForm;
      }
    }

    /** `handleSubmit`: nothing without a student id; create in add mode, update the current id otherwise. */
    method HandleSubmit(alunoId: Option<string>, currentYear: int) returns (request: Option<SaveRequest>)
      ensures alunoId.None? || alunoId.value == [] ==> request == None
      ensures alunoId.Some? && alunoId.value != [] && modalMode == Add ==>
                request == Some(Create(alunoId.value, BuildPayload(formData, currentYear)))
      ensures alunoId.Some? && alunoId.value != [] && modalMode == Edit ==>
                request == Some(Update(alunoId.value, currentFrequenciaId, BuildPayload(formData, currentYear)))
    {
      if alunoId.None? || alunoId.value == [] {
        return None;
      }
      var payload := BuildPayload(formData, currentYear);
      if modalMode == Add {
        request := Some(Create(alunoId.value, payload));
      } else {
        request := Some(Update(alunoId.value, currentFrequenciaId, payload));
      }
    }
  }

  /** `user?.role === "ADMIN" || user?.role === "EDITOR"`: add, edit and compensation controls. */
  predicate CanCreateEdit(user: Option<User>)
  {
    RoleIs(user, AdminName) || RoleIs(user, EditorName)
  }

  /** `user?.role === "ADMIN"`: delete controls. */
  predicate CanDelete(user: Option<User>)
  {
    RoleIs(user, AdminName)
  }

  lemma GatesAgree(user: Option<User>)
    ensures CanCreateEdit(user) == Allows(user, CreateEdit)
    ensures CanDelete(user) == Allows(user, Delete)
  {
  }
}
