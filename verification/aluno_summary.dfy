/**
 * The student summary page: which report sections are selected, the
 * generate request, the list of generated reports with its local prepend
 * and removal, the deleting flag and the ADMIN-only delete button.
 */
module AlunoSummary {
  import opened Wrappers
  import opened Access
  import Seqs

  /** The report sections in declaration order. */
  const SectionIds: seq<string> := [
    "dados-gerais", "saude", "boletins", "frequencias", "atendimentos",
    "encaminhamentos", "contraturnos", "hipotesesEscritas", "diagnosticos", "avaliacoesExternas"
  ]

  /** `selectedSections`: one flag per section id. */
  type Selection = map<string, bool>

  /** Every section id is a key of the selection. */
  predicate Complete(ids: seq<string>, sel: Selection)
  {
    forall i :: 0 <= i < |ids| ==> ids[i] in sel
  }

  /** All sections start selected. */
  function InitialSelection(ids: seq<string>): (sel: Selection)
    ensures Complete(ids, sel) && sel.Keys == set id | id in ids
    ensures forall id :: id in ids ==> sel[id]
  {
    map id | id in ids :: true
  }

  /** `handleCheckboxChange(id)`: that one flag is flipped. */
  function Toggle(sel: Selection, id: string): (r: Selection)
    requires id in sel
    ensures r.Keys == sel.Keys && r[id] == !sel[id]
    ensures forall k :: k in sel && k != id ==> r[k] == sel[k]
  {
    sel[id := !sel[id]]
  }

  /** Toggling the same section twice restores the selection. */
  lemma ToggleTwice(sel: Selection, id: string)
    requires id in sel
    ensures Toggle(Toggle(sel, id), id) == sel
  {
  }

  /**
   * The ids sent to the report request: the selected sections, in
   * declaration order (the selection's keys were inserted in that order and
   * toggles never add one).
   */
  function SectionsToInclude(ids: seq<string>, sel: Selection): (r: seq<string>)
    ensures forall id :: id in r <==> id in ids && id in sel && sel[id]
    ensures Seqs.Subsequence(r, ids)
  {
    Seqs.FilterIsSubsequence(ids, (id: string) => id in sel && sel[id]);
    Seqs.Filter(ids, (id: string) => id in sel && sel[id])
  }

  /** With the initial selection every section is included, in declaration order. */
  lemma InitialIncludesAll(ids: seq<string>)
    ensures SectionsToInclude(ids, InitialSelection(ids)) == ids
  {
    var sel := InitialSelection(ids);
    Seqs.FilterKeepsAll(ids, (id: string) => id in sel && sel[id]);
  }

  /** The page's ten sections all start selected and are all sent by default. */
  lemma InitialSelectsAllTen()
    ensures |SectionIds| == 10
    ensures SectionsToInclude(SectionIds, InitialSelection(SectionIds)) == SectionIds
  {
    InitialIncludesAll(SectionIds);
  }

  /** Unticking one section drops exactly that id from the request. */
  lemma ToggleOffDropsOne(ids: seq<string>, sel: Selection, id: string)
    requires id in sel && sel[id]
    ensures id !in SectionsToInclude(ids, Toggle(sel, id))
    ensures forall k :: k != id ==> (k in SectionsToInclude(ids, Toggle(sel, id)) <==> k in SectionsToInclude(ids, sel))
  {
  }

  /** A generated report in the list. */
  datatype Report = Report(id: string, createdAt: string)

  /** The sections a click on "generate" sends: none when nothing is selected. */
  function Requested(ids: seq<string>, sel: Selection): (r: Option<seq<string>>)
    ensures r.None? <==> forall id :: id in ids && id in sel ==> !sel[id]
    ensures r.Some? ==> r.value != [] && forall id :: id in r.value <==> id in ids && id in sel && sel[id]
  {
    var sections := SectionsToInclude(ids, sel);
    if sections == [] then None
    else
      assert sections[0] in sections;
      Some(sections)
  }

  /**
   * The report list after a generate click. `relatorioId` is the id in the
   * create request's answer (None when the request failed or the answer had
   * none); only a non-empty id puts the new report first.
   */
  function AfterGenerate(reports: seq<Report>, sent: Option<seq<string>>, relatorioId: Option<string>, now: string): (r: seq<Report>)
    ensures sent.Some? && relatorioId.Some? && relatorioId.value != [] ==>
              r == [Report(relatorioId.value, now)] + reports
    ensures sent.None? || relatorioId.None? || relatorioId.value == [] ==> r == reports
  {
    if sent.Some? && relatorioId.Some? && relatorioId.value != [] then [Report(relatorioId.value, now)] + reports
    else reports
  }

  /** The list after a successful delete of `reportId`. */
  function WithoutReport(reports: seq<Report>, reportId: string): (r: seq<Report>)
    ensures forall i :: 0 <= i < |r| ==> r[i].id != reportId
    ensures forall i :: 0 <= i < |reports| && reports[i].id != reportId ==> reports[i] in r
    ensures Seqs.Subsequence(r, reports)
  {
    Seqs.FilterIsSubsequence(reports, (x: Report) => x.id != reportId);
    Seqs.Filter(reports, (x: Report) => x.id != reportId)
  }

  /** Deleting a report just prepended, whose id was new, gives the old list back. */
  lemma PrependThenDelete(reports: seq<Report>, r: Report)
    requires forall i :: 0 <= i < |reports| ==> reports[i].id != r.id
    ensures WithoutReport([r] + reports, r.id) == reports
  {
    var keep := (x: Report) => x.id != r.id;
    assert ([r] + reports)[1..] == reports;
    Seqs.FilterKeepsAll(reports, keep);
  }

  /** The delete button: ADMIN only. */
  predicate DeleteShown(user: Option<User>)
  {
    RoleIs(user, AdminName)
  }

  lemma GatesAgree(user: Option<User>)
    ensures DeleteShown(user) == Allows(user, Delete)
  {
  }

  /** The body of the create-report request. */
  datatype ReportRequest = ReportRequest(alunoId: string, secoes: seq<string>)

  class SummaryPage {
    const alunoId: string
    /** `reportSections`, in declaration order. */
    const sections: seq<string>
    var isModalOpen: bool
    var reports: seq<Report>
    var deletingReportId: Option<string>
    var selectedSections: Selection

    ghost predicate Valid()
      reads this
    {
      Complete(sections, selectedSections)
    }

    constructor (alunoId: string)
      ensures Valid()
      ensures this.alunoId == alunoId && sections == SectionIds
      ensures !isModalOpen && reports == [] && deletingReportId == None
      ensures selectedSections == InitialSelection(SectionIds)
    {
      this.alunoId := alunoId;
      sections := SectionIds;
      isModalOpen := false;
      reports := [];
      deletingReportId := None;
      selectedSections := InitialSelection(SectionIds);
    }

    /** The report list fetched on load; a failed fetch keeps the current one. */
    method OnReportsFetched(data: Option<seq<Report>>)
      modifies this
      ensures data.Some? ==> reports == data.value
      ensures data.None? ==> reports == old(reports)
      ensures isModalOpen == old(isModalOpen) && deletingReportId == old(deletingReportId)
      ensures selectedSections == old(selectedSections)
    {
      if data.Some? {
        reports := data.value;
      }
    }

    /** The "generate report" button opens the modal; its cancel button closes it. */
    method SetModalOpen(open: bool)
      modifies this
      ensures isModalOpen == open
      ensures reports == old(reports) && deletingReportId == old(deletingReportId)
      ensures selectedSections == old(selectedSections)
    {
      isModalOpen := open;
    }

    method HandleCheckboxChange(id: string)
      requires Valid() && id in selectedSections
      modifies this
      ensures Valid()
      ensures selectedSections == Toggle(old(selectedSections), id)
      ensures reports == old(reports) && isModalOpen == old(isModalOpen)
      ensures deletingReportId == old(deletingReportId)
    {
      selectedSections := Toggle(selectedSections, id);
    }

    /**
     * `handleGenerateClick` and `handleDownloadReport`: with no section
     * selected nothing is requested; otherwise the selected ids are sent and
     * the modal closes, and a non-empty id in the answer puts the new report
     * at the head of the list and is downloaded. `relatorioId` is that id
     * (None when the request failed or the answer had none).
     */
    method HandleGenerateClick(relatorioId: Option<string>, now: string)
      returns (sent: Option<ReportRequest>, download: Option<string>)
      modifies this
      ensures var r := Requested(sections, old(selectedSections));
              sent == (if r.Some? then Some(ReportRequest(alunoId, r.value)) else None)
      ensures sent.None? ==> isModalOpen == old(isModalOpen)
      ensures sent.Some? ==> !isModalOpen
      ensures var secoes := if sent.Some? then Some(sent.value.secoes) else None;
              reports == AfterGenerate(old(reports), secoes, relatorioId, now)
      ensures download.Some? <==> sent.Some? && relatorioId.Some? && relatorioId.value != []
      ensures download.Some? ==> download == relatorioId && reports[0].id == download.value
      ensures selectedSections == old(selectedSections) && deletingReportId == old(deletingReportId)
    {
      var r := Requested(sections, selectedSections);
      if r.None? {
        return None, None;
      }
      sent := Some(ReportRequest(alunoId, r.value));
      reports := AfterGenerate(reports, r, relatorioId, now);
      download := if relatorioId.Some? && relatorioId.value != [] then relatorioId else None;
      isModalOpen := false;
    }

    /**
     * `deleteReport`: nothing without confirmation; otherwise the flag names
     * the report while the call runs, a successful call drops exactly that
     * report, and the flag is cleared afterwards either way.
     */
    method DeleteReport(reportId: string, confirmed: bool, succeeded: bool) returns (flagDuringCall: Option<string>)
      modifies this
      ensures !confirmed ==> flagDuringCall == None && reports == old(reports) && deletingReportId == old(deletingReportId)
      ensures confirmed ==> flagDuringCall == Some(reportId) && deletingReportId == None
      ensures confirmed && succeeded ==> reports == WithoutReport(old(reports), reportId)
      ensures !(confirmed && succeeded) ==> reports == old(reports)
      ensures selectedSections == old(selectedSections) && isModalOpen == old(isModalOpen)
    {
      if !confirmed {
        return None;
      }
      deletingReportId := Some(reportId);
      flagDuringCall := deletingReportId;
      if succeeded {
        reports := WithoutReport(reports, reportId);
      }
      deletingReportId := None;
    }

    /** A report's delete button is disabled while that report is being deleted. */
    predicate DeleteDisabled(reportId: string)
      reads this
    {
      deletingReportId == Some(reportId)
    }
  }
}
