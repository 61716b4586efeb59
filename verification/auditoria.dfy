/**
 * The audit-log screen: page arithmetic and the pager, the diff view with its
 * field filters, and the two-click revert confirmation.
 */
module Auditoria {
  import opened Wrappers
  import opened Access
  import opened JsonValue
  import opened Seqs

  /** Entries per page (`limit`). */
  const PageSize: nat := 20

  /** `skip` for page `p`: the entries before it. */
  function Skip(p: nat): nat
  {
    p * PageSize
  }

  /** `Math.ceil(total / limit)`. */
  function TotalPages(total: nat): (r: nat)
    ensures total == 0 ==> r == 0
    ensures total > 0 ==> (r - 1) * PageSize < total <= r * PageSize
  {
    (total + PageSize - 1) / PageSize
  }

  /** "Mostrando first a last": `p * limit + 1` and `Math.min((p + 1) * limit, total)`. */
  function RangeLabel(p: nat, total: nat): (r: (int, int))
  {
    (Skip(p) + 1, if (p + 1) * PageSize < total then (p + 1) * PageSize else total)
  }

  /**
   * On every existing page the label names a non-empty range inside the log,
   * as long as the page the server was asked for (`skip`, `limit`) can hold.
   */
  lemma RangeLabelInRange(p: nat, total: nat)
    requires p < TotalPages(total)
    ensures var (first, last) := RangeLabel(p, total);
            && 1 <= first <= last <= total
            && first == Skip(p) + 1
            && last - first + 1 == (if total - Skip(p) < PageSize then total - Skip(p) else PageSize)
  {
    assert p * PageSize < total by {
      assert (TotalPages(total) - 1) * PageSize < total;
      assert p * PageSize <= (TotalPages(total) - 1) * PageSize;
    }
  }

  /** With 45 entries there are three pages and the third shows entries 41 to 45. */
  lemma FortyFiveEntries()
    ensures TotalPages(45) == 3 && Skip(2) == 40 && RangeLabel(2, 45) == (41, 45)
  {
  }

  /** The "Anterior" target `Math.max(0, p - 1)`. */
  function Prev(p: int): int
  {
    if p - 1 > 0 then p - 1 else 0
  }

  /** The "Próximo" target `Math.min(totalPages - 1, p + 1)`. */
  function Next(p: int, totalPages: int): int
  {
    if totalPages - 1 < p + 1 then totalPages - 1 else p + 1
  }

  /** From a valid page of a multi-page log, both buttons lead to a valid page, one step away at most. */
  lemma PagerStaysInRange(p: int, totalPages: int)
    requires totalPages > 1 && 0 <= p < totalPages
    ensures 0 <= Prev(p) < totalPages && 0 <= Next(p, totalPages) < totalPages
    ensures p > 0 ==> Prev(p) == p - 1
    ensures p < totalPages - 1 ==> Next(p, totalPages) == p + 1
  {
  }

  /** The `currentPage` state and the two buttons, which are only rendered when there is more than one page. */
  class Pager {
    var currentPage: int

    ghost predicate Valid(totalPages: int)
      reads this
    {
      0 <= currentPage < totalPages
    }

    constructor ()
      ensures currentPage == 0
    {
      currentPage := 0;
    }

    /** A click on "Anterior", ignored while it is disabled on the first page. */
    method ClickPrev(totalPages: int)
      requires totalPages > 1 && Valid(totalPages)
      modifies this
      ensures Valid(totalPages)
      ensures currentPage == if old(currentPage) == 0 then 0 else old(currentPage) - 1
    {
      if currentPage != 0 {
        currentPage := Prev(currentPage);
      }
    }

    /** A click on "Próximo", ignored while it is disabled on the last page. */
    method ClickNext(totalPages: int)
      requires totalPages > 1 && Valid(totalPages)
      modifies this
      ensures Valid(totalPages)
      ensures currentPage == if old(currentPage) == totalPages - 1 then old(currentPage) else old(currentPage) + 1
    {
      if currentPage != totalPages - 1 {
        currentPage := Next(currentPage, totalPages);
      }
    }
  }

  /** The bookkeeping fields the diff never shows. */
  const MetaKeys: seq<string> := ["createdAt", "createdBy", "lastEditedAt", "lastEditedBy"]

  predicate IsShownChange(field: string)
  {
    field !in MetaKeys
  }

  predicate IsShownEntry(e: Entry)
  {
    !(|e.key| > 0 && e.key[0] == '_') && e.key !in MetaKeys
  }

  /** The rows of an UPDATE/REVERT diff: `changes` minus the bookkeeping fields. */
  function DiffRows(changes: seq<string>): (r: seq<string>)
  {
    Filter(changes, IsShownChange)
  }

  /** The entries listed for a CREATE/DELETE: no `_`-prefixed keys and no bookkeeping fields. */
  function ListedEntries(data: seq<Entry>): (r: seq<Entry>)
  {
    Filter(data, IsShownEntry)
  }

  /**
   * A changed field is a diff row exactly when it is not a bookkeeping field;
   * rows keep the order of `changes` and do not depend on how the list is cut.
   */
  lemma DiffRowsExact(changes: seq<string>, more: seq<string>, field: string)
    ensures field in DiffRows(changes) <==> field in changes && field !in MetaKeys
    ensures DiffRows(changes + more) == DiffRows(changes) + DiffRows(more)
    ensures (forall i :: 0 <= i < |changes| ==> changes[i] !in MetaKeys) ==> DiffRows(changes) == changes
  {
    FilterAppend(changes, more, IsShownChange);
    if field in changes && field !in MetaKeys {
      var i :| 0 <= i < |changes| && changes[i] == field;
    }
    if forall i :: 0 <= i < |changes| ==> changes[i] !in MetaKeys {
      FilterKeepsAll(changes, IsShownChange);
    }
  }

  /** A CREATE/DELETE listing shows an entry exactly when its key is neither internal nor bookkeeping. */
  lemma ListedEntriesExact(data: seq<Entry>, e: Entry)
    ensures e in ListedEntries(data) <==> e in data && !(|e.key| > 0 && e.key[0] == '_') && e.key !in MetaKeys
  {
    if e in data && IsShownEntry(e) {
      var i :| 0 <= i < |data| && data[i] == e;
    }
  }

  const CreateAction: string := "CREATE"
  const UpdateAction: string := "UPDATE"
  const DeleteAction: string := "DELETE"
  const RevertAction: string := "REVERT"

  /** `getActionText`. */
  function ActionText(action: string): (r: string)
    ensures action !in [CreateAction, UpdateAction, DeleteAction, RevertAction] ==> r == action
  {
    if action == CreateAction then "Criação"
    else if action == UpdateAction then "Atualização"
    else if action == DeleteAction then "Exclusão"
    else if action == RevertAction then "Reversão"
    else action
  }

  /** What `DataDiff` renders for a log entry. */
  datatype DiffView =
    | Hidden
    | Created(entries: seq<Entry>)
    | Deleted(entries: seq<Entry>)
    | Changed(rows: seq<string>, revertControls: bool)

  function View(beforeData: Option<seq<Entry>>, afterData: Option<seq<Entry>>,
                changes: Option<seq<string>>, action: string): (v: DiffView)
    ensures v.Changed? ==> changes.Some? && v.rows == DiffRows(changes.value)
    ensures v.Changed? && v.revertControls <==>
              (beforeData.Some? || afterData.Some?) && action == UpdateAction && changes.Some? && |changes.value| > 0
    ensures (beforeData.None? && afterData.None?) ==> v == Hidden
    ensures (beforeData.Some? || afterData.Some?) && action == CreateAction ==>
              v == Created(ListedEntries(afterData.GetOr([])))
    ensures (beforeData.Some? || afterData.Some?) && action == DeleteAction ==>
              v == Deleted(ListedEntries(beforeData.GetOr([])))
    ensures v.Changed? <==>
              (beforeData.Some? || afterData.Some?) && (action == UpdateAction || action == RevertAction)
              && changes.Some? && |changes.value| > 0
  {
    if beforeData.None? && afterData.None? then Hidden
    else if action == CreateAction then Created(if afterData.Some? then ListedEntries(afterData.value) else [])
    else if action == DeleteAction then Deleted(if beforeData.Some? then ListedEntries(beforeData.value) else [])
    else if (action == UpdateAction || action == RevertAction) && changes.Some? && |changes.value| > 0 then
      Changed(DiffRows(changes.value), action == UpdateAction)
    else Hidden
  }

  /** `beforeData?.[field]`: the first entry with that key, `None` for `undefined`. */
  function ValueOf(data: Option<seq<Entry>>, field: string): Option<Json>
  {
    if data.None? then None
    else
      var e := Find(data.value, (x: Entry) => x.key == field);
      if e.Some? then Some(e.value.value) else None
  }

  /** The body of the revert request. */
  datatype RevertRequest = RevertRequest(collection: string, documentId: string, fieldName: string, previousValue: Option<Json>)

  const AuditLogsKey: string := "audit-logs"

  /** One diff's revert confirmation state. */
  class DataDiff {
    const collection: string
    const documentId: string
    const beforeData: Option<seq<Entry>>
    var confirmingRevert: Option<string>

    constructor (collection: string, documentId: string, beforeData: Option<seq<Entry>>)
      ensures this.collection == collection && this.documentId == documentId && this.beforeData == beforeData
      ensures confirmingRevert == None
    {
      this.collection := collection;
      this.documentId := documentId;
      this.beforeData := beforeData;
      confirmingRevert := None;
    }

    /**
     * `handleRevert(field, beforeValue)`: the first click on a field only
     * stages it; a click on the staged field sends the request.
     */
    method HandleRevert(fieldName: string) returns (sent: Option<RevertRequest>)
      modifies this
      ensures old(confirmingRevert) == Some(fieldName) ==>
                sent == Some(RevertRequest(collection, documentId, fieldName, ValueOf(beforeData, fieldName)))
                && confirmingRevert == old(confirmingRevert)
      ensures old(confirmingRevert) != Some(fieldName) ==> sent == None && confirmingRevert == Some(fieldName)
    {
      if confirmingRevert == Some(fieldName) {
        sent := Some(RevertRequest(collection, documentId, fieldName, ValueOf(beforeData, fieldName)));
      } else {
        confirmingRevert := Some(fieldName);
        sent := None;
      }
    }

    /** "Cancelar". */
    method CancelRevert()
      modifies this
      ensures confirmingRevert == None
    {
      confirmingRevert := None;
    }

    /** The mutation succeeded: unstage and have the log list refetched (nothing is inserted locally). */
    method OnRevertSuccess() returns (invalidated: seq<string>)
      modifies this
      ensures confirmingRevert == None && invalidated == [AuditLogsKey]
    {
      confirmingRevert := None;
      invalidated := [AuditLogsKey];
    }

    /** The mutation failed: unstage. */
    method OnRevertError()
      modifies this
      ensures confirmingRevert == None
    {
      confirmingRevert := None;
    }
  }

  /** `user?.role !== "ADMIN"` sends the visitor to the dashboard. */
  predicate RedirectsToDashboard(user: Option<User>)
  {
    !RoleIs(user, AdminName)
  }

  lemma GatesAgree(user: Option<User>)
    ensures RedirectsToDashboard(user) == !Allows(user, Audit)
  {
  }
}
