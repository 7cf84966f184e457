/**
 * `src/components/FindingsList.tsx`: the findings of a contest in one folder per
 * severity, the expanded folders, the delete confirmation and the owner-only controls.
 * The list reads `id`, `submittedBy` and `anonymousId`, which its declared element type
 * lacks; they are explicit fields here.
 */
module FindingsList {
  import opened Common
  import opened Sorting
  import opened SeverityGroups

  /** A listed finding; `submittedBy` is `None` when the field is `undefined`. */
  datatype ListedFinding = ListedFinding(id: int, severity: string, title: string, submittedBy: Option<string>, anonymousId: string)

  function SeverityOf(f: ListedFinding): string {
    f.severity
  }

  /**
   * `Object.values(SeverityEnum)`, the initial expanded set: the upper-case enum names,
   * which no lower-case severity of a finding equals.
   */
  const AllSeverities: set<string> := {"HIGH", "MEDIUM", "LOW"}

  /** The lower-case values of `Severity`, the type of a finding's `severity`. */
  const IssueSeverities: set<string> := {"high", "medium", "low"}

  /** `severityOrder`, keyed by the upper-case enum names; `None` is `undefined`. */
  function SeverityOrder(s: string): (r: Option<int>)
    ensures r.Some? <==> s in AllSeverities
    ensures r.Some? ==> 0 <= r.value <= 2
  {
    if s == "HIGH" then Some(0) else if s == "MEDIUM" then Some(1) else if s == "LOW" then Some(2) else None
  }

  /** The evidently intended ranking of the lower-case severities: high, then medium, then low. */
  function IssueRank(s: string): int {
    if s == "high" then 0 else if s == "medium" then 1 else if s == "low" then 2 else 3
  }

  /** `finding.submittedBy === user?.id`, where `currentUserId` is `None` when signed out. */
  predicate IsOwner(f: ListedFinding, currentUserId: Option<string>) {
    f.submittedBy == currentUserId
  }

  /** The edit (or delete) button: outside anonymous mode, on the owner's findings, when the callback is given. */
  predicate ShowsOwnerControl(isAnonymous: bool, f: ListedFinding, currentUserId: Option<string>, hasCallback: bool) {
    !isAnonymous && IsOwner(f, currentUserId) && hasCallback
  }

  /** Anonymous mode hides every owner control; otherwise a control shows exactly on the signed-in user's findings. */
  lemma OwnerControls(isAnonymous: bool, f: ListedFinding, userId: string, hasCallback: bool)
    ensures isAnonymous ==> !ShowsOwnerControl(isAnonymous, f, Some(userId), hasCallback)
    ensures !isAnonymous && hasCallback ==> (ShowsOwnerControl(isAnonymous, f, Some(userId), hasCallback) <==> f.submittedBy == Some(userId))
    ensures !isAnonymous && hasCallback && f.submittedBy.None? ==> ShowsOwnerControl(isAnonymous, f, None, hasCallback)
  {
  }

  /** `displayName`. */
  function DisplayName(isAnonymous: bool, f: ListedFinding): (name: string)
    ensures isAnonymous ==> name == f.anonymousId
    ensures !isAnonymous ==> name == f.title
  {
    if isAnonymous then f.anonymousId else f.title
  }

  /** `confirmDelete`'s guard: a pending id that is truthy (so not `0`) and a delete callback. */
  function ConfirmedDelete(pending: Option<int>, hasOnDelete: bool): (r: Option<int>)
    ensures r.Some? <==> pending.Some? && pending.value != 0 && hasOnDelete
    ensures r.Some? ==> r == pending
  {
    if pending.Some? && pending.value != 0 && hasOnDelete then pending else None
  }

  /** The component's state. */
  class FindingsListView {
    var expanded: set<string>
    var deleteDialogOpen: bool
    var findingToDelete: Option<int>
    var viewDialogOpen: bool
    var selectedFinding: Option<ListedFinding>

    constructor()
      ensures expanded == AllSeverities
      ensures !deleteDialogOpen && findingToDelete.None? && !viewDialogOpen && selectedFinding.None?
    {
      expanded := AllSeverities;
      deleteDialogOpen := false;
      findingToDelete := None;
      viewDialogOpen := false;
      selectedFinding := None;
    }

    /** The evidently intended initial state: the lower-case severities start expanded. */
    constructor Intended()
      ensures expanded == IssueSeverities
      ensures !deleteDialogOpen && findingToDelete.None? && !viewDialogOpen && selectedFinding.None?
    {
      expanded := IssueSeverities;
      deleteDialogOpen := false;
      findingToDelete := None;
      viewDialogOpen := false;
      selectedFinding := None;
    }

    /** `toggleSeverity`. */
    method ToggleSeverity(s: string)
      modifies this
      ensures expanded == Toggled(old(expanded), s)
      ensures deleteDialogOpen == old(deleteDialogOpen) && findingToDelete == old(findingToDelete)
      ensures viewDialogOpen == old(viewDialogOpen) && selectedFinding == old(selectedFinding)
    {
      expanded := Toggled(expanded, s);
    }

    /** `handleDeleteClick`. */
    method HandleDeleteClick(id: int)
      modifies this
      ensures findingToDelete == Some(id) && deleteDialogOpen
      ensures expanded == old(expanded) && viewDialogOpen == old(viewDialogOpen) && selectedFinding == old(selectedFinding)
    {
      findingToDelete := Some(id);
      deleteDialogOpen := true;
    }

    /** `confirmDelete`: the id passed to `onDelete`, if it is called; the dialog always closes. */
    method ConfirmDelete(hasOnDelete: bool) returns (deleted: Option<int>)
      modifies this
      ensures deleted == ConfirmedDelete(old(findingToDelete), hasOnDelete)
      ensures !deleteDialogOpen && findingToDelete.None?
      ensures expanded == old(expanded) && viewDialogOpen == old(viewDialogOpen) && selectedFinding == old(selectedFinding)
    {
      deleted := ConfirmedDelete(findingToDelete, hasOnDelete);
      deleteDialogOpen := false;
      findingToDelete := None;
    }

    /** `handleViewClick`. */
    method HandleViewClick(f: ListedFinding)
      modifies this
      ensures selectedFinding == Some(f) && viewDialogOpen
      ensures expanded == old(expanded) && deleteDialogOpen == old(deleteDialogOpen) && findingToDelete == old(findingToDelete)
    {
      selectedFinding := Some(f);
      viewDialogOpen := true;
    }

    /** The folders in display order: present severities by ascending rank, each with its findings in list order. */
    method Folders(findings: seq<ListedFinding>, rank: string -> int) returns (folders: seq<Folder<string, ListedFinding>>)
      ensures var order := SortedSeverities(findings, SeverityOf, rank);
        && |folders| == |order|
        && forall i :: 0 <= i < |folders| ==>
          folders[i] == Folder(order[i], GroupOf(findings, SeverityOf, order[i]), order[i] in expanded)
    {
      var keys, groups := Group(findings, SeverityOf);
      var order := SortByKey(keys, rank);
      var open := expanded;
      assert order == SortedSeverities(findings, SeverityOf, rank);
      forall s | s in order ensures s in groups && groups[s] == GroupOf(findings, SeverityOf, s) {
        assert s in multiset(order);
      }
      folders := seq(|order|, i requires 0 <= i < |order| => Folder(order[i], groups[order[i]], order[i] in open));
    }
  }

  /** Each finding is listed in exactly one folder, the one of its severity; the folders are ordered by rank. */
  lemma FoldersPartitionFindings(findings: seq<ListedFinding>, rank: string -> int)
    ensures var order := SortedSeverities(findings, SeverityOf, rank);
      && SortedBy(order, rank) && Distinct(order)
      && (forall f :: f in findings ==> f.severity in order && f in GroupOf(findings, SeverityOf, f.severity))
      && (forall s, f :: s in order && f in GroupOf(findings, SeverityOf, s) ==> f.severity == s)
      && SizeSum(findings, SeverityOf, FirstOccurrences(findings, SeverityOf)) == |findings|
  {
    SortedSeveritiesPresent(findings, SeverityOf, rank);
    GroupsPartition(findings, SeverityOf);
  }

  /** No lower-case severity is a key of `severityOrder` or in the initial expanded set. */
  lemma LowerCaseSeveritiesUnmatched(s: string)
    requires s in IssueSeverities
    ensures s !in AllSeverities && SeverityOrder(s).None?
  {
  }

  /**
   * As written: on lower-case severities the comparator ranks every folder alike, so the
   * folders keep the order in which severities first occur, and none is in the initial
   * expanded set.
   */
  lemma AsWrittenFoldersStartCollapsed(findings: seq<ListedFinding>)
    requires forall f :: f in findings ==> f.severity in IssueSeverities
    ensures var order := SortedSeverities(findings, SeverityOf, Unranked);
      && order == FirstOccurrences(findings, SeverityOf)
      && forall i :: 0 <= i < |order| ==> order[i] !in AllSeverities && SeverityOrder(order[i]).None?
  {
    var order := SortedSeverities(findings, SeverityOf, Unranked);
    UnrankedKeepsFirstOccurrence(findings, SeverityOf, Unranked, 0);
    SortedSeveritiesPresent(findings, SeverityOf, Unranked);
    forall i | 0 <= i < |order| ensures order[i] in IssueSeverities {
      assert order[i] in order;
    }
  }

  /**
   * As written, the folders a new list computes for its first render: every one collapsed,
   * in order of first occurrence.
   */
  method FirstRender(findings: seq<ListedFinding>) returns (folders: seq<Folder<string, ListedFinding>>)
    requires forall f :: f in findings ==> f.severity in IssueSeverities
    ensures var order := FirstOccurrences(findings, SeverityOf);
      && |folders| == |order|
      && forall i :: 0 <= i < |folders| ==> folders[i].severity == order[i] && !folders[i].isExpanded
  {
    var view := new FindingsListView();
    folders := view.Folders(findings, Unranked);
    AsWrittenFoldersStartCollapsed(findings);
  }

  /** Corrected: ranked by `IssueRank`, the folders run high, medium, low, each at most once. */
  lemma IntendedFolderOrder(findings: seq<ListedFinding>)
    requires forall f :: f in findings ==> f.severity in IssueSeverities
    ensures var order := SortedSeverities(findings, SeverityOf, IssueRank);
      && (forall i :: 0 <= i < |order| ==> order[i] in IssueSeverities)
      && (forall i, j :: 0 <= i < j < |order| ==> IssueRank(order[i]) < IssueRank(order[j]))
  {
    DistinctRanksStrictOrder(findings, SeverityOf, IssueRank, IssueSeverities);
  }

  /** Corrected, the folders a new list computes for its first render: every one expanded, running high, medium, low. */
  method IntendedFirstRender(findings: seq<ListedFinding>) returns (folders: seq<Folder<string, ListedFinding>>)
    requires forall f :: f in findings ==> f.severity in IssueSeverities
    ensures forall i :: 0 <= i < |folders| ==> folders[i].severity in IssueSeverities && folders[i].isExpanded
    ensures forall i, j :: 0 <= i < j < |folders| ==> IssueRank(folders[i].severity) < IssueRank(folders[j].severity)
    ensures forall f :: f in findings ==> exists i :: 0 <= i < |folders| && folders[i].severity == f.severity
  {
    var view := new FindingsListView.Intended();
    folders := view.Folders(findings, IssueRank);
    IntendedFolderOrder(findings);
    SortedSeveritiesPresent(findings, SeverityOf, IssueRank);
    var order := SortedSeverities(findings, SeverityOf, IssueRank);
    forall f | f in findings ensures exists i :: 0 <= i < |folders| && folders[i].severity == f.severity {
      assert SeverityOf(f) in order;
      var i :| 0 <= i < |order| && order[i] == f.severity;
      assert folders[i].severity == f.severity;
    }
  }

  /** A finding whose id is `0` is never deleted: `0` is falsy. */
  lemma ZeroIdNeverDeleted(hasOnDelete: bool)
    ensures ConfirmedDelete(Some(0), hasOnDelete).None?
    ensures forall id :: id != 0 ==> ConfirmedDelete(Some(id), hasOnDelete) == (if hasOnDelete then Some(id) else None)
  {
  }
}
