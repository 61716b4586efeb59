/**
 * The report-card tab: the year filter and the list of years, the average
 * of a report, and the create/edit modal whose disciplines are objects,
 * since editing shares them with the cached report.
 */
module BoletinsTab {
  import opened Wrappers
  import opened Access
  import Seqs
  import Configuracoes

  /** One discipline of a report as a value. */
  datatype Grade = Grade(nome: string, nota: real)

  /** A digital report card as the server returns it. */
  datatype Report = Report(id: Option<string>, ano: int, bimestre: Option<int>, disciplinas: seq<Grade>)

  /** The year filter: "todos", or a chosen year after `parseInt` (`None` for `NaN`). */
  datatype YearFilter = AllYears | Year(parsed: Option<int>)

  /** `boletinsFiltrados`. */
  function Filtered(reports: seq<Report>, filtro: YearFilter): (r: seq<Report>)
    ensures filtro == AllYears ==> r == reports
    ensures filtro.Year? ==> forall i :: 0 <= i < |r| ==> Some(r[i].ano) == filtro.parsed && r[i] in reports
    ensures filtro.Year? ==> forall i :: 0 <= i < |reports| && Some(reports[i].ano) == filtro.parsed ==> reports[i] in r
  {
    if filtro == AllYears then reports
    else Seqs.Filter(reports, (b: Report) => Some(b.ano) == filtro.parsed)
  }

  /** A year filter keeps the matching reports in their order. */
  lemma FilteredKeepsOrder(reports: seq<Report>, filtro: YearFilter)
    ensures Seqs.Subsequence(Filtered(reports, filtro), reports)
  {
    if filtro == AllYears {
      Seqs.FilterKeepsAll(reports, (b: Report) => true);
      Seqs.FilterIsSubsequence(reports, (b: Report) => true);
    } else {
      Seqs.FilterIsSubsequence(reports, (b: Report) => Some(b.ano) == filtro.parsed);
    }
  }

  predicate StrictlyDescending(s: seq<int>)
  {
    forall i, j :: 0 <= i < j < |s| ==> s[i] > s[j]
  }

  /** `x` placed in a strictly descending list, once. */
  function InsertDescending(x: int, s: seq<int>): (r: seq<int>)
    requires StrictlyDescending(s)
    ensures StrictlyDescending(r)
    ensures forall y :: y in r <==> y == x || y in s
  {
    if s == [] then [x]
    else if x > s[0] then [x] + s
    else if x == s[0] then s
    else
      var rest := InsertDescending(x, s[1..]);
      assert forall y :: y in s <==> y == s[0] || y in s[1..];
      assert forall j :: 0 <= j < |rest| ==> rest[j] < s[0] by {
        forall j | 0 <= j < |rest|
          ensures rest[j] < s[0]
        {
          assert rest[j] in rest;
          if rest[j] != x {
            var k :| 0 <= k < |s[1..]| && s[1..][k] == rest[j];
            assert s[k + 1] == rest[j];
          }
        }
      }
      [s[0]] + rest
  }

  /** `[...new Set(reports.map(b => b.ano))].sort((a, b) => b - a)`: each year once, newest first. */
  function AnosDisponiveis(reports: seq<Report>): (r: seq<int>)
    ensures StrictlyDescending(r)
    ensures forall i :: 0 <= i < |reports| ==> reports[i].ano in r
    ensures forall y :: y in r ==> exists i :: 0 <= i < |reports| && reports[i].ano == y
  {
    if reports == [] then []
    else
      var prefix := reports[..|reports| - 1];
      var r := InsertDescending(reports[|reports| - 1].ano, AnosDisponiveis(prefix));
      assert forall i :: 0 <= i < |prefix| ==> prefix[i] == reports[i];
      r
  }

  /** A strictly descending list is fixed by its elements, so the list of years is the only one with these properties. */
  lemma {:induction false} DescendingUnique(a: seq<int>, b: seq<int>)
    requires StrictlyDescending(a) && StrictlyDescending(b)
    requires forall y :: y in a <==> y in b
    ensures a == b
  {
    if a != [] && b != [] {
      TailsAgree(a, b);
      DescendingUnique(a[1..], b[1..]);
      assert a == [a[0]] + a[1..];
      assert b == [b[0]] + b[1..];
    } else if a != [] {
      HeadIsMember(a);
    } else if b != [] {
      HeadIsMember(b);
    }
  }

  /** Two strictly descending lists with the same elements share their head and their tails' elements. */
  lemma TailsAgree(a: seq<int>, b: seq<int>)
    requires a != [] && b != []
    requires StrictlyDescending(a) && StrictlyDescending(b)
    requires forall y :: y in a <==> y in b
    ensures a[0] == b[0]
    ensures StrictlyDescending(a[1..]) && StrictlyDescending(b[1..])
    ensures forall y :: y in a[1..] <==> y in b[1..]
  {
    // The heads are the maxima of the same set, so they coincide.
    assert a[0] in a && a[0] in b;
    assert b[0] in b && b[0] in a;
    forall y
      ensures y in a[1..] <==> y in b[1..]
    {
      if y in a[1..] {
        var i :| 1 <= i < |a| && a[i] == y;
        assert y < a[0] && y in b;
      }
      if y in b[1..] {
        var i :| 1 <= i < |b| && b[i] == y;
        assert y < b[0] && y in a;
      }
    }
    assert forall i, j :: 0 <= i < j < |a| - 1 ==> a[1..][i] == a[i + 1] && a[1..][j] == a[j + 1];
    assert forall i, j :: 0 <= i < j < |b| - 1 ==> b[1..][i] == b[i + 1] && b[1..][j] == b[j + 1];
  }

  lemma HeadIsMember(s: seq<int>)
    requires s != []
    ensures s[0] in s
  {
  }

  function Sum(ds: seq<Grade>): real
  {
    if ds == [] then 0.0 else Sum(ds[..|ds| - 1]) + ds[|ds| - 1].nota
  }

  /** `calcularMedia` before the display rounding: 0 for no disciplines. */
  function Media(ds: seq<Grade>): (r: real)
    ensures ds == [] ==> r == 0.0
  {
    if ds == [] then 0.0 else Sum(ds) / (|ds| as real)
  }

  lemma {:induction false} SumBetween(ds: seq<Grade>, lo: real, hi: real)
    requires forall i :: 0 <= i < |ds| ==> lo <= ds[i].nota <= hi
    ensures lo * (|ds| as real) <= Sum(ds) <= hi * (|ds| as real)
  {
    if ds != [] {
      SumBetween(ds[..|ds| - 1], lo, hi);
      assert (|ds| as real) == (|ds| - 1) as real + 1.0;
    }
  }

  /** The average of grades between `lo` and `hi` lies between them too. */
  lemma MediaBetween(ds: seq<Grade>, lo: real, hi: real)
    requires ds != []
    requires forall i :: 0 <= i < |ds| ==> lo <= ds[i].nota <= hi
    ensures lo <= Media(ds) <= hi
  {
    SumBetween(ds, lo, hi);
    var n := |ds| as real;
    var m := Sum(ds) / n;
    assert m * n == Sum(ds);
    if m < lo {
      assert (lo - m) * n > 0.0;
    }
    if m > hi {
      assert (m - hi) * n > 0.0;
    }
  }

  /** With ordered thresholds, a report whose every grade reaches the recovery threshold is classified as passed. */
  lemma AllGradesPassing(b: Configuracoes.GradeBands, ds: seq<Grade>, maxNota: real)
    requires b.reprovado <= b.recuperacao
    requires ds != []
    requires forall i :: 0 <= i < |ds| ==> b.recuperacao <= ds[i].nota <= maxNota
    ensures Configuracoes.StatusNota(b, Media(ds)) == Configuracoes.Aprovado
  {
    MediaBetween(ds, b.recuperacao, maxNota);
  }

  /** The five disciplines a new report starts with, all at 0. */
  const DefaultGrades: seq<Grade> := [
    Grade("Português", 0.0), Grade("Matemática", 0.0), Grade("História", 0.0),
    Grade("Geografia", 0.0), Grade("Ciências", 0.0)]

  /** A discipline row as an object, the way the form and the cached report share it. */
  class Disciplina {
    var nome: string
    var nota: real

    constructor (nome: string, nota: real)
      ensures this.nome == nome && this.nota == nota
    {
      this.nome := nome;
      this.nota := nota;
    }
  }

  /** The values of a list of discipline objects. */
  function Grades(ds: seq<Disciplina>): (r: seq<Grade>)
    reads set i | 0 <= i < |ds| :: ds[i]
    ensures |r| == |ds| && forall i :: 0 <= i < |ds| ==> r[i] == Grade(ds[i].nome, ds[i].nota)
  {
    seq(|ds|, i reads set i | 0 <= i < |ds| :: ds[i] requires 0 <= i < |ds| => Grade(ds[i].nome, ds[i].nota))
  }

  /** A report in the query cache. */
  class Boletim {
    const id: Option<string>
    var ano: int
    var bimestre: Option<int>
    var disciplinas: seq<Disciplina>

    constructor (id: Option<string>, ano: int, bimestre: Option<int>, disciplinas: seq<Disciplina>)
      ensures this.id == id && this.ano == ano && this.bimestre == bimestre && this.disciplinas == disciplinas
    {
      this.id := id;
      this.ano := ano;
      this.bimestre := bimestre;
      this.disciplinas := disciplinas;
    }
  }

  /** The request a submit sends. */
  datatype SubmitRequest = Create(ano: int, bimestre: Option<int>, disciplinas: seq<Grade>)
                         | Update(id: Option<string>, ano: int, bimestre: Option<int>, disciplinas: seq<Grade>)

  /** The create/edit modal and its form. */
  class BoletimModal {
    var showNovoBoletim: bool
    var isEditando: bool
    var boletimEditandoId: Option<string>
    var ano: int
    var bimestre: Option<int>
    var disciplinas: seq<Disciplina>

    constructor (currentYear: int)
      ensures !showNovoBoletim && !isEditando && boletimEditandoId == None
      ensures ano == currentYear && bimestre == Some(1)
      ensures fresh(set i | 0 <= i < |disciplinas| :: disciplinas[i]) && Grades(disciplinas) == DefaultGrades
    {
      showNovoBoletim := false;
      isEditando := false;
      boletimEditandoId := None;
      ano := currentYear;
      bimestre := Some(1);
      var ds := DefaultDisciplinas();
      disciplinas := ds;
    }

    static method DefaultDisciplinas() returns (ds: seq<Disciplina>)
      ensures fresh(set i | 0 <= i < |ds| :: ds[i]) && Grades(ds) == DefaultGrades
    {
      var d0 := new Disciplina("Português", 0.0);
      var d1 := new Disciplina("Matemática", 0.0);
      var d2 := new Disciplina("História", 0.0);
      var d3 := new Disciplina("Geografia", 0.0);
      var d4 := new Disciplina("Ciências", 0.0);
      ds := [d0, d1, d2, d3, d4];
    }

    /** `resetarModal`: closed, not editing, no id, the current year, bimestre 1 and the five default disciplines. */
    method ResetarModal(currentYear: int)
      modifies this
      ensures !showNovoBoletim && !isEditando && boletimEditandoId == None
      ensures ano == currentYear && bimestre == Some(1)
      ensures fresh(set i | 0 <= i < |disciplinas| :: disciplinas[i]) && Grades(disciplinas) == DefaultGrades
    {
      showNovoBoletim := false;
      isEditando := false;
      boletimEditandoId := None;
      ano := currentYear;
      bimestre := Some(1);
      disciplinas := DefaultDisciplinas();
    }

    /** "Novo Boletim": a reset form, shown. */
    method NovoBoletim(currentYear: int)
      modifies this
      ensures showNovoBoletim && !isEditando && boletimEditandoId == None
      ensures ano == currentYear && bimestre == Some(1)
      ensures fresh(set i | 0 <= i < |disciplinas| :: disciplinas[i]) && Grades(disciplinas) == DefaultGrades
    {
      ResetarModal(currentYear);
      showNovoBoletim := true;
    }

    /** The edit button: the form takes the report's fields and its very discipline objects. */
    method StartEdit(b: Boletim)
      modifies this
      ensures showNovoBoletim && isEditando && boletimEditandoId == b.id
      ensures ano == b.ano && bimestre == b.bimestre && disciplinas == b.disciplinas
    {
      ano := b.ano;
      bimestre := b.bimestre;
      disciplinas := b.disciplinas;
      showNovoBoletim := true;
      isEditando := true;
      boletimEditandoId := b.id;
    }

    /** `updateNota` as written: the copied array still holds the same objects, and the grade is written into one of them. */
    method UpdateNotaAsWritten(index: nat, parsed: Option<real>)
      requires index < |disciplinas|
      modifies disciplinas[index]
      ensures disciplinas[index].nota == NumberOrZero(parsed) && disciplinas[index].nome == old(disciplinas[index].nome)
    {
      disciplinas[index].nota := NumberOrZero(parsed);
    }

    /** `updateNota` without the shared write: a new object replaces the one at the index. */
    method UpdateNota(index: nat, parsed: Option<real>)
      requires index < |disciplinas|
      modifies this
      ensures |disciplinas| == |old(disciplinas)| && fresh(disciplinas[index])
      ensures disciplinas[index].nome == old(disciplinas[index].nome) && disciplinas[index].nota == NumberOrZero(parsed)
      ensures forall j :: 0 <= j < |disciplinas| && j != index ==> disciplinas[j] == old(disciplinas[j])
      ensures showNovoBoletim == old(showNovoBoletim) && isEditando == old(isEditando)
      ensures boletimEditandoId == old(boletimEditandoId) && ano == old(ano) && bimestre == old(bimestre)
    {
      var d := new Disciplina(disciplinas[index].nome, NumberOrZero(parsed));
      disciplinas := disciplinas[index := d];
    }

    /** The form's current value. */
    function FormGrades(): seq<Grade>
      reads this, set i | 0 <= i < |disciplinas| :: disciplinas[i]
    {
      Grades(disciplinas)
    }

    /** `handleSubmitBoletim`: an update of the edited id in edit mode, otherwise a create. */
    method HandleSubmit() returns (request: SubmitRequest)
      ensures isEditando ==> request == Update(boletimEditandoId, ano, bimestre, FormGrades())
      ensures !isEditando ==> request == Create(ano, bimestre, FormGrades())
    {
      if isEditando {
        request := Update(boletimEditandoId, ano, bimestre, Grades(disciplinas));
      } else {
        request := Create(ano, bimestre, Grades(disciplinas));
      }
    }
  }

  /**
   * As written, editing a grade and then cancelling leaves the cached report
   * with the edited grade, although nothing was saved.
   */
  method EditThenCancelAsWritten(b: Boletim, modal: BoletimModal, index: nat, parsed: Option<real>, currentYear: int)
    requires index < |b.disciplinas|
    modifies modal, b.disciplinas[index]
    ensures b.disciplinas == old(b.disciplinas)
    ensures b.disciplinas[index].nota == NumberOrZero(parsed)
  {
    modal.StartEdit(b);
    modal.UpdateNotaAsWritten(index, parsed);
    modal.ResetarModal(currentYear);
  }

  /** With the corrected `updateNota`, cancelling leaves the cached report as it was. */
  method EditThenCancel(b: Boletim, modal: BoletimModal, index: nat, parsed: Option<real>, currentYear: int)
    requires index < |b.disciplinas|
    modifies modal
    ensures b.disciplinas == old(b.disciplinas)
    ensures Grades(b.disciplinas) == old(Grades(b.disciplinas))
  {
    modal.StartEdit(b);
    modal.UpdateNota(index, parsed);
    modal.ResetarModal(currentYear);
  }

  /** `user?.role === "ADMIN" || user?.role === "EDITOR"`. */
  predicate CanCreateEdit(user: Option<User>)
  {
    RoleIs(user, AdminName) || RoleIs(user, EditorName)
  }

  /** `user?.role === "ADMIN"`. */
  predicate CanDelete(user: Option<User>)
  {
    RoleIs(user, AdminName)
  }

  lemma GatesAgree(user: Option<User>)
    ensures CanCreateEdit(user) == Allows(user, CreateEdit)
    ensures CanDelete(user) == Allows(user, Delete)
  {
  }
}
