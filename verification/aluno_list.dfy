/**
 * The student list: search and period filters, the latest yearly attendance
 * record, the low-attendance set built by the load and filter effects, the
 * status tags, the age column, the threshold input and the typed delete
 * confirmation.  Each student's records arrive already fetched: `None` is a
 * failed or empty (`null`) response.
 */
module AlunoList {
  import opened Wrappers
  import opened Access
  import Text
  import Seqs
  import FrequenciaTab

  datatype Aluno = Aluno(
    id: string,
    nome: string,
    sobrenome: string,
    matricula: Option<string>,
    anoEscolar: Option<string>,
    periodo: Option<string>,
    tagsAtencao: Option<seq<string>>)

  const Todos := "Todos"
  const LowAttendanceLimit: real := 75.0
  const BaixaFrequenciaTag := "Baixa frequência"

  /** An optional text that is present and non-empty (truthy). */
  predicate Present(s: Option<string>)
  {
    s.Some? && s.value != []
  }

  /** The search term test: names and school year ignoring case, the enrolment number as typed. */
  predicate MatchesSearch(s: Aluno, term: string)
  {
    || Text.ContainsIgnoringCase(s.nome, term)
    || Text.ContainsIgnoringCase(s.sobrenome, term)
    || (Present(s.matricula) && Text.Contains(s.matricula.value, term))
    || (Present(s.anoEscolar) && Text.ContainsIgnoringCase(s.anoEscolar.value, term))
  }

  /** The period test: "Todos" or the student's own period. */
  predicate InPeriodo(s: Aluno, filtroPeriodo: string)
  {
    filtroPeriodo == Todos || s.periodo == Some(filtroPeriodo)
  }

  predicate Kept(s: Aluno, term: string, filtroPeriodo: string)
  {
    MatchesSearch(s, term) && InPeriodo(s, filtroPeriodo)
  }

  /** `baseFilteredStudents`. */
  function BaseFiltered(students: seq<Aluno>, term: string, filtroPeriodo: string): (r: seq<Aluno>)
    ensures forall i :: 0 <= i < |r| ==> Kept(r[i], term, filtroPeriodo) && r[i] in students
    ensures forall i :: 0 <= i < |students| && Kept(students[i], term, filtroPeriodo) ==> students[i] in r
  {
    Seqs.Filter(students, s => Kept(s, term, filtroPeriodo))
  }

  /** `finalFilteredStudents`: with the attendance filter on, only flagged students remain. */
  function FinalFiltered(base: seq<Aluno>, filtroAtivo: bool, baixa: set<string>): (r: seq<Aluno>)
    ensures !filtroAtivo ==> r == base
    ensures filtroAtivo ==> forall i :: 0 <= i < |r| ==> r[i].id in baixa && r[i] in base
    ensures filtroAtivo ==> forall i :: 0 <= i < |base| && base[i].id in baixa ==> base[i] in r
  {
    if filtroAtivo then Seqs.Filter(base, (s: Aluno) => s.id in baixa) else base
  }

  /** An empty term with "Todos" lists every student, in order. */
  lemma EmptySearchKeepsAll(students: seq<Aluno>)
    ensures BaseFiltered(students, "", Todos) == students
  {
    forall i | 0 <= i < |students|
      ensures Kept(students[i], "", Todos)
    {
      Text.ContainsIgnoringCaseEmpty(students[i].nome);
    }
    Seqs.FilterKeepsAll(students, s => Kept(s, "", Todos));
  }

  /** The listed students are the students passing every active test, in their original order. */
  lemma ListedIsOrderedSelection(students: seq<Aluno>, term: string, filtroPeriodo: string, filtroAtivo: bool, baixa: set<string>)
    ensures var listed := FinalFiltered(BaseFiltered(students, term, filtroPeriodo), filtroAtivo, baixa);
            && listed == Seqs.Filter(students, s => Kept(s, term, filtroPeriodo) && (filtroAtivo ==> s.id in baixa))
            && Seqs.Subsequence(listed, students)
  {
    var kept := s => Kept(s, term, filtroPeriodo);
    var both := s => Kept(s, term, filtroPeriodo) && (filtroAtivo ==> s.id in baixa);
    if filtroAtivo {
      Seqs.FilterFilter(students, kept, (s: Aluno) => s.id in baixa, both);
    } else {
      Seqs.FilterFilter(students, kept, (s: Aluno) => true, both);
      Seqs.FilterKeepsAll(Seqs.Filter(students, kept), (s: Aluno) => true);
    }
    Seqs.FilterIsSubsequence(students, both);
  }

  /** `ano || 0`. */
  function AnoOrZero(r: FrequenciaTab.FreqRecord): int
  {
    if r.ano.Some? then r.ano.value else 0
  }

  /** The `reduce` picking the last year's record: the later record wins unless the earlier one is strictly newer. */
  function Latest(rs: seq<FrequenciaTab.FreqRecord>): FrequenciaTab.FreqRecord
    requires |rs| > 0
  {
    if |rs| == 1 then rs[0]
    else
      var ult := Latest(rs[..|rs| - 1]);
      var atual := rs[|rs| - 1];
      if AnoOrZero(ult) > AnoOrZero(atual) then ult else atual
  }

  /** The latest record is the last one among those with the greatest year. */
  lemma {:induction false} LatestIsLastNewest(rs: seq<FrequenciaTab.FreqRecord>) returns (k: nat)
    requires |rs| > 0
    ensures k < |rs| && Latest(rs) == rs[k]
    ensures forall j :: 0 <= j < |rs| ==> AnoOrZero(rs[j]) <= AnoOrZero(rs[k])
    ensures forall j :: k < j < |rs| ==> AnoOrZero(rs[j]) < AnoOrZero(rs[k])
  {
    if |rs| == 1 {
      k := 0;
    } else {
      var prefix := rs[..|rs| - 1];
      var k' := LatestIsLastNewest(prefix);
      assert forall j :: 0 <= j < |prefix| ==> rs[j] == prefix[j];
      if AnoOrZero(Latest(prefix)) > AnoOrZero(rs[|rs| - 1]) {
        k := k';
      } else {
        k := |rs| - 1;
      }
    }
  }

  predicate HasRecords(fetched: Option<seq<FrequenciaTab.FreqRecord>>)
  {
    fetched.Some? && |fetched.value| > 0
  }

  /** The percentage the load effect keeps for a student: the latest record's, `|| 0`. */
  function LoadedPercent(fetched: Option<seq<FrequenciaTab.FreqRecord>>): real
    requires HasRecords(fetched)
  {
    FrequenciaTab.PercentOrZero(Latest(fetched.value).percentPresenca)
  }

  /** The load effect's test: records exist and the latest percentage (missing = 0) is below 75. */
  predicate FlaggedOnLoad(fetched: Option<seq<FrequenciaTab.FreqRecord>>)
  {
    HasRecords(fetched) && LoadedPercent(fetched) < LowAttendanceLimit
  }

  /** The filter effects' test: records exist and the latest percentage compares below the threshold. */
  predicate FlaggedBelow(fetched: Option<seq<FrequenciaTab.FreqRecord>>, threshold: real)
  {
    HasRecords(fetched) && FrequenciaTab.PercentBelow(Latest(fetched.value).percentPresenca, threshold)
  }

  /** The two 75% tests agree unless the latest record has no percentage at all, where only the load effect flags. */
  lemma LoadAndFilterAgree(fetched: Option<seq<FrequenciaTab.FreqRecord>>)
    ensures HasRecords(fetched) && Latest(fetched.value).percentPresenca != FrequenciaTab.Missing ==>
              FlaggedOnLoad(fetched) == FlaggedBelow(fetched, LowAttendanceLimit)
    ensures HasRecords(fetched) && Latest(fetched.value).percentPresenca == FrequenciaTab.Missing ==>
              FlaggedOnLoad(fetched) && !FlaggedBelow(fetched, LowAttendanceLimit)
  {
  }

  /**
   * The load effect: for every student with records, remember the latest
   * percentage (`|| 0`) under its id and flag it when below 75.
   * The requests run concurrently, so with repeated ids the kept
   * percentage is that of one of the students with that id.
   */
  method CarregarDadosFrequencia(students: seq<Aluno>, fetched: seq<Option<seq<FrequenciaTab.FreqRecord>>>)
      returns (frequencias: map<string, real>, baixa: set<string>)
    requires |fetched| == |students|
    ensures frequencias.Keys == set i | 0 <= i < |students| && HasRecords(fetched[i]) :: students[i].id
    ensures forall id :: id in frequencias ==>
              exists i :: 0 <= i < |students| && students[i].id == id && HasRecords(fetched[i])
                          && frequencias[id] == LoadedPercent(fetched[i])
    ensures baixa == set i | 0 <= i < |students| && FlaggedOnLoad(fetched[i]) :: students[i].id
  {
    frequencias := map[];
    baixa := {};
    var k := 0;
    while k < |students|
      invariant 0 <= k <= |students|
      invariant frequencias.Keys == set i | 0 <= i < k && HasRecords(fetched[i]) :: students[i].id
      invariant forall id :: id in frequencias ==>
                  exists i :: 0 <= i < k && students[i].id == id && HasRecords(fetched[i])
                              && frequencias[id] == LoadedPercent(fetched[i])
      invariant baixa == set i | 0 <= i < k && FlaggedOnLoad(fetched[i]) :: students[i].id
    {
      var aluno := students[k];
      if fetched[k].Some? && |fetched[k].value| > 0 {
        var percentPresenca := FrequenciaTab.PercentOrZero(Latest(fetched[k].value).percentPresenca);
        frequencias := frequencias[aluno.id := percentPresenca];
        if percentPresenca < LowAttendanceLimit {
          baixa := baixa + {aluno.id};
        }
      }
      k := k + 1;
    }
  }

  /** The filter effects: flag every student with records whose latest percentage compares below the threshold. */
  method FiltrarBaixaFrequencia(students: seq<Aluno>, fetched: seq<Option<seq<FrequenciaTab.FreqRecord>>>, threshold: real)
      returns (baixa: set<string>)
    requires |fetched| == |students|
    ensures baixa == set i | 0 <= i < |students| && FlaggedBelow(fetched[i], threshold) :: students[i].id
  {
    baixa := {};
    var k := 0;
    while k < |students|
      invariant 0 <= k <= |students|
      invariant baixa == set i | 0 <= i < k && FlaggedBelow(fetched[i], threshold) :: students[i].id
    {
      if fetched[k].Some? && |fetched[k].value| > 0 {
        var ultimoRegistroAnual := Latest(fetched[k].value);
        if FrequenciaTab.PercentBelow(ultimoRegistroAnual.percentPresenca, threshold) {
          baixa := baixa + {students[k].id};
        }
      }
      k := k + 1;
    }
  }

  /** `getAlunoTags`: the original tags, then "Baixa frequência" once if flagged and not already there. */
  function AlunoTags(s: Aluno, baixa: set<string>): (r: seq<string>)
    ensures var orig := s.tagsAtencao.GetOr([]);
            && |orig| <= |r| <= |orig| + 1
            && r[..|orig|] == orig
            && (|r| > |orig| ==> r[|orig|] == BaixaFrequenciaTag && BaixaFrequenciaTag !in orig)
            && (BaixaFrequenciaTag in r <==> BaixaFrequenciaTag in orig || s.id in baixa)
  {
    var orig := s.tagsAtencao.GetOr([]);
    if s.id in baixa && BaixaFrequenciaTag !in orig then orig + [BaixaFrequenciaTag] else orig
  }

  /** Tagging a student whose tags were already computed adds nothing more. */
  lemma TagsAddedOnce(s: Aluno, baixa: set<string>)
    ensures AlunoTags(s.(tagsAtencao := Some(AlunoTags(s, baixa))), baixa) == AlunoTags(s, baixa)
  {
  }

  /** A calendar date as `getFullYear`, `getMonth`, `getDate` give it. */
  datatype Date = Date(year: int, month: int, day: int)

  /** `a` comes strictly before `b`. */
  predicate Before(a: Date, b: Date)
  {
    a.year < b.year || (a.year == b.year && (a.month < b.month || (a.month == b.month && a.day < b.day)))
  }

  /** `calculateAge`: `None` ("N/A") without a date, else the year difference, less one before the birthday. */
  function CalculateAge(birth: Option<Date>, today: Date): (r: Option<int>)
    ensures r.None? <==> birth.None?
  {
    if birth.None? then None
    else
      var b := birth.value;
      var age := today.year - b.year;
      var monthDiff := today.month - b.month;
      if monthDiff < 0 || (monthDiff == 0 && today.day < b.day) then Some(age - 1) else Some(age)
  }

  /** The age is the number of completed years: the last birthday is not after today, the next one is. */
  lemma AgeIsCompletedYears(b: Date, today: Date)
    ensures var age := CalculateAge(Some(b), today).value;
            && !Before(today, Date(b.year + age, b.month, b.day))
            && Before(today, Date(b.year + age + 1, b.month, b.day))
            && (!Before(today, b) ==> age >= 0)
  {
  }

  /** The threshold input's change handler: a number in [0, 100] is kept, an empty input stores 0. */
  function Changed(current: real, valueAsNumber: Option<real>, raw: string): (r: real)
    ensures 0.0 <= current <= 100.0 ==> 0.0 <= r <= 100.0
    ensures valueAsNumber.Some? && 0.0 <= valueAsNumber.value <= 100.0 ==> r == valueAsNumber.value
    ensures r != current ==> valueAsNumber.Some? || raw == []
  {
    if valueAsNumber.Some? && 0.0 <= valueAsNumber.value && valueAsNumber.value <= 100.0 then valueAsNumber.value
    else if raw == [] then 0.0
    else current
  }

  /**
   * The blur handler as written: `parseFloat` gives `None` (`NaN`) for an
   * empty input, so the two branches meant for the empty input are never
   * reached and an empty input falls into the first branch.
   */
  function BlurredAsWritten(current: real, parsed: Option<real>, raw: string, filtroAtivo: bool): (r: real)
    requires raw == [] ==> parsed.None?
    ensures 0.0 <= current <= 100.0 ==> 0.0 <= r <= 100.0
  {
    if parsed.None? || parsed.value < 0.0 then 0.0
    else if parsed.value > 100.0 then 100.0
    else if raw == [] && filtroAtivo then 75.0
    else if raw == [] then 75.0
    else current
  }

  /** Leaving the threshold empty stores 0, not the default 75 the code spells out twice. */
  lemma BlankBlurAsWrittenGivesZero(current: real, filtroAtivo: bool)
    ensures BlurredAsWritten(current, None, "", filtroAtivo) == 0.0
  {
  }

  /** The blur handler with the empty-input test first: an empty input restores 75. */
  function Blurred(current: real, parsed: Option<real>, raw: string): (r: real)
    ensures 0.0 <= current <= 100.0 ==> 0.0 <= r <= 100.0
    ensures raw == [] ==> r == LowAttendanceLimit
    ensures raw != [] ==> r == BlurredAsWritten(current, parsed, raw, false)
  {
    if raw == [] then LowAttendanceLimit
    else if parsed.None? || parsed.value < 0.0 then 0.0
    else if parsed.value > 100.0 then 100.0
    else current
  }

  /** The attendance filter's checkbox and threshold. */
  class FrequenciaFilter {
    var filtroAtivo: bool
    var percentual: real

    /** The threshold only ever holds a percentage. */
    ghost predicate Valid()
      reads this
    {
      0.0 <= percentual <= 100.0
    }

    constructor ()
      ensures Valid() && !filtroAtivo && percentual == LowAttendanceLimit
    {
      filtroAtivo := false;
      percentual := LowAttendanceLimit;
    }

    method Toggle(checked: bool)
      modifies this
      ensures filtroAtivo == checked && percentual == old(percentual)
    {
      filtroAtivo := checked;
    }

    method OnChange(valueAsNumber: Option<real>, raw: string)
      requires Valid()
      modifies this
      ensures Valid() && filtroAtivo == old(filtroAtivo)
      ensures percentual == Changed(old(percentual), valueAsNumber, raw)
    {
      percentual := Changed(percentual, valueAsNumber, raw);
    }

    method OnBlur(parsed: Option<real>, raw: string)
      requires Valid()
      modifies this
      ensures Valid() && filtroAtivo == old(filtroAtivo)
      ensures percentual == Blurred(old(percentual), parsed, raw)
    {
      percentual := Blurred(percentual, parsed, raw);
    }

    /** The threshold the filter effects use: the chosen one when on, 75 when off. */
    function EffectiveThreshold(): (t: real)
      reads this
      ensures Valid() ==> 0.0 <= t <= 100.0
    {
      if filtroAtivo then percentual else LowAttendanceLimit
    }
  }

  /** The full name the delete confirmation asks for. */
  function FullName(s: Aluno): string
  {
    s.nome + " " + s.sobrenome
  }

  /** The confirm button is enabled exactly when the full name is typed and no delete is running. */
  predicate DeleteEnabled(typed: string, s: Aluno, inFlight: bool)
  {
    typed == FullName(s) && !inFlight
  }

  /** A freshly opened dialog, with nothing typed, never starts enabled. */
  lemma EmptyConfirmationDisabled(s: Aluno, inFlight: bool)
    ensures !DeleteEnabled("", s, inFlight)
  {
    assert |FullName(s)| >= 1;
  }

  /** `user?.role === "ADMIN" || user?.role === "EDITOR"`. */
  predicate CanCreateEdit(user: Option<User>)
  {
    RoleIs(user, AdminName) || RoleIs(user, EditorName)
  }

  /** `user?.role === "ADMIN"`. */
  predicate CanDelete(user: Option<User>)
  {
    RoleIs(user, AdminName)
  }

  lemma GatesAgree(user: Option<User>)
    ensures CanCreateEdit(user) == Allows(user, CreateEdit)
    ensures CanDelete(user) == Allows(user, Delete)
  {
  }

  /** The delete dialog: the chosen student and the typed confirmation. */
  class DeleteDialog {
    var studentToDelete: Option<Aluno>
    var confirmationText: string

    constructor ()
      ensures studentToDelete == None && confirmationText == ""
    {
      studentToDelete := None;
      confirmationText := "";
    }

    /** The dialog is on screen only for an ADMIN with a student chosen. */
    predicate Shown(user: Option<User>)
      reads this
    {
      studentToDelete.Some? && CanDelete(user)
    }

    method Choose(s: Aluno)
      modifies this
      ensures studentToDelete == Some(s) && confirmationText == old(confirmationText)
    {
      studentToDelete := Some(s);
    }

    method Type(text: string)
      modifies this
      ensures confirmationText == text && studentToDelete == old(studentToDelete)
    {
      confirmationText := text;
    }

    /** Cancel, and the delete's success, both close the dialog and clear the text. */
    method Close()
      modifies this
      ensures studentToDelete == None && confirmationText == ""
    {
      studentToDelete := None;
      confirmationText := "";
    }

    /** Pressing confirm sends the student's id only when the button is enabled. */
    method Confirm(inFlight: bool) returns (sent: Option<string>)
      requires studentToDelete.Some?
      ensures sent.Some? <==> DeleteEnabled(confirmationText, studentToDelete.value, inFlight)
      ensures sent.Some? ==> sent.value == studentToDelete.value.id
    {
      var s := studentToDelete.value;
      if confirmationText == FullName(s) && !inFlight {
        sent := Some(s.id);
      } else {
        sent := None;
      }
    }
  }
}
