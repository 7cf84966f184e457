/**
 * `src/components/JudgeReviewPanel.tsx`: the judge's view of a contest's findings in
 * severity folders, the status of each finding (from its review, `pending` without one),
 * the status filter, the status counts, and the save callback of the review dialog.
 * `getReviewForFinding` is the review hook's lookup over its list of reviews.
 */
module JudgeReviewPanel {
  import opened Common
  import opened Sorting
  import opened SeverityGroups
  import opened FindingsStore
  import opened JudgeReviews

  function SeverityOfFinding(f: Finding): string {
    f.severity
  }

  /** `getReviewStatus(findingId)`: the review's status, or `pending` when there is no review. */
  function ReviewStatusOf(reviews: seq<JudgeReview>, findingId: string): (st: ReviewStatus)
    ensures (forall r :: r in reviews ==> r.findingId != findingId) ==> st == Pending
    ensures ReviewForFinding(reviews, findingId).Some? ==> st == ReviewForFinding(reviews, findingId).value.status
  {
    match ReviewForFinding(reviews, findingId)
    case Some(r) => r.status
    case None => Pending
  }

  /** The select's value: every finding, or one status. */
  datatype FilterStatus = AllStatuses | Only(status: ReviewStatus)

  function HasReviewStatus(reviews: seq<JudgeReview>, st: ReviewStatus): Finding -> bool {
    (f: Finding) => ReviewStatusOf(reviews, f.id) == st
  }

  /** `filterFindings`. */
  function FilterFindings(findings: seq<Finding>, reviews: seq<JudgeReview>, filter: FilterStatus): (r: seq<Finding>)
    ensures filter.AllStatuses? ==> r == findings
    ensures filter.Only? ==> r == Filter(findings, HasReviewStatus(reviews, filter.status))
  {
    match filter
    case AllStatuses => findings
    case Only(st) => Filter(findings, HasReviewStatus(reviews, st))
  }

  /** A status filter keeps exactly the findings with that status, in order, and applying it again changes nothing. */
  lemma StatusFilterExact(findings: seq<Finding>, reviews: seq<JudgeReview>, st: ReviewStatus)
    ensures var r := FilterFindings(findings, reviews, Only(st));
      && (forall f :: f in r ==> f in findings && ReviewStatusOf(reviews, f.id) == st)
      && (forall f :: f in findings && ReviewStatusOf(reviews, f.id) == st ==> f in r)
      && FilterFindings(r, reviews, Only(st)) == r
  {
    FilterIdempotent(findings, HasReviewStatus(reviews, st));
  }

  /** The panel's `stats`. */
  function PanelStats(findings: seq<Finding>, reviews: seq<JudgeReview>): Stats {
    Stats(|findings|,
      |Filter(findings, HasReviewStatus(reviews, Pending))|,
      |Filter(findings, HasReviewStatus(reviews, Reviewed))|,
      |Filter(findings, HasReviewStatus(reviews, NeedsSecondReview))|,
      |Filter(findings, HasReviewStatus(reviews, Done))|)
  }

  /** Every finding has exactly one status, so the four counts add up to the total. */
  lemma {:induction false} PanelStatsAddUp(findings: seq<Finding>, reviews: seq<JudgeReview>)
    ensures var st := PanelStats(findings, reviews);
      st.pending + st.reviewed + st.needsSecondReview + st.done == st.total
    decreases |findings|
  {
    if findings != [] {
      PanelStatsAddUp(findings[1..], reviews);
    }
  }

  /** Without any review every finding counts as pending. */
  lemma NoReviewsAllPending(findings: seq<Finding>)
    ensures PanelStats(findings, []).pending == |findings|
  {
    FilterAll(findings, HasReviewStatus([], Pending));
  }

  /** The folders shown for `order`: the filtered findings of each severity, skipped when empty under a status filter. */
  function VisibleFolders(order: seq<string>, findings: seq<Finding>, reviews: seq<JudgeReview>, filter: FilterStatus, expanded: set<string>): seq<Folder<string, Finding>>
    decreases |order|
  {
    if order == [] then []
    else
      var s := order[0];
      var shown := FilterFindings(GroupOf(findings, SeverityOfFinding, s), reviews, filter);
      var rest := VisibleFolders(order[1..], findings, reviews, filter, expanded);
      if |shown| == 0 && !filter.AllStatuses? then rest else [Folder(s, shown, s in expanded)] + rest
  }

  /**
   * As written: the panel's severities are lower-case and `severityOrder` is keyed by the
   * upper-case names, so the comparator ranks every folder alike and the folders keep the
   * order in which severities first occur.
   */
  lemma AsWrittenPanelOrder(findings: seq<Finding>)
    ensures SortedSeverities(findings, SeverityOfFinding, Unranked) == FirstOccurrences(findings, SeverityOfFinding)
  {
    UnrankedKeepsFirstOccurrence(findings, SeverityOfFinding, Unranked, 0);
  }

  /** The panel's severities, the initial expanded set. */
  const PanelSeverities: set<string> := {"critical", "high", "medium", "low", "informational"}

  /** The evidently intended ranking of the panel's severities, most severe first. */
  function PanelRank(s: string): int {
    if s == "critical" then 0 else if s == "high" then 1 else if s == "medium" then 2
    else if s == "low" then 3 else if s == "informational" then 4 else 5
  }

  /** Corrected: ranked by `PanelRank`, the folders run from critical to informational, each at most once. */
  lemma IntendedPanelOrder(findings: seq<Finding>)
    requires forall f :: f in findings ==> f.severity in PanelSeverities
    ensures var order := SortedSeverities(findings, SeverityOfFinding, PanelRank);
      && (forall i :: 0 <= i < |order| ==> order[i] in PanelSeverities)
      && (forall i, j :: 0 <= i < j < |order| ==> PanelRank(order[i]) < PanelRank(order[j]))
  {
    DistinctRanksStrictOrder(findings, SeverityOfFinding, PanelRank, PanelSeverities);
  }

  /** A shown folder holds exactly the findings of its severity that pass the filter; under a status filter it is never empty. */
  lemma {:induction false} VisibleFoldersContents(order: seq<string>, findings: seq<Finding>, reviews: seq<JudgeReview>, filter: FilterStatus, expanded: set<string>)
    ensures forall fo :: fo in VisibleFolders(order, findings, reviews, filter, expanded) ==>
      && fo.severity in order
      && fo.findings == FilterFindings(GroupOf(findings, SeverityOfFinding, fo.severity), reviews, filter)
      && fo.isExpanded == (fo.severity in expanded)
      && (filter.Only? ==> fo.findings != [])
    decreases |order|
  {
    if order != [] {
      VisibleFoldersContents(order[1..], findings, reviews, filter, expanded);
      assert order == [order[0]] + order[1..];
    }
  }

  /** Under `all` every severity gets a folder, in order. */
  lemma {:induction false} VisibleFoldersAll(order: seq<string>, findings: seq<Finding>, reviews: seq<JudgeReview>, expanded: set<string>)
    ensures |VisibleFolders(order, findings, reviews, AllStatuses, expanded)| == |order|
    ensures forall i :: 0 <= i < |order| ==> VisibleFolders(order, findings, reviews, AllStatuses, expanded)[i].severity == order[i]
    decreases |order|
  {
    if order != [] {
      VisibleFoldersAll(order[1..], findings, reviews, expanded);
    }
  }

  /** Under a status filter, a severity with a finding of that status gets a folder. */
  lemma {:induction false} VisibleFoldersOnly(order: seq<string>, findings: seq<Finding>, reviews: seq<JudgeReview>, status: ReviewStatus, expanded: set<string>)
    ensures forall s :: s in order && (exists f :: f in findings && f.severity == s && ReviewStatusOf(reviews, f.id) == status) ==>
      exists fo :: fo in VisibleFolders(order, findings, reviews, Only(status), expanded) && fo.severity == s
    decreases |order|
  {
    if order != [] {
      var s := order[0];
      var shown := FilterFindings(GroupOf(findings, SeverityOfFinding, s), reviews, Only(status));
      VisibleFoldersOnly(order[1..], findings, reviews, status, expanded);
      var v := VisibleFolders(order, findings, reviews, Only(status), expanded);
      forall f | f in findings && f.severity == s && ReviewStatusOf(reviews, f.id) == status
        ensures Folder(s, shown, s in expanded) in v
      {
        assert f in GroupOf(findings, SeverityOfFinding, s);
        assert f in shown;
      }
      assert order == [s] + order[1..];
    }
  }

  /** The panel's state. */
  class PanelView {
    var expanded: set<string>
    var selectedFinding: Option<Finding>
    var reviewDialogOpen: bool
    var filterStatus: FilterStatus

    constructor()
      ensures expanded == PanelSeverities
      ensures selectedFinding.None? && !reviewDialogOpen && filterStatus == AllStatuses
    {
      expanded := PanelSeverities;
      selectedFinding := None;
      reviewDialogOpen := false;
      filterStatus := AllStatuses;
    }

    /** `toggleSeverity`. */
    method ToggleSeverity(s: string)
      modifies this
      ensures expanded == Toggled(old(expanded), s)
      ensures selectedFinding == old(selectedFinding) && reviewDialogOpen == old(reviewDialogOpen) && filterStatus == old(filterStatus)
    {
      expanded := Toggled(expanded, s);
    }

    /** `handleReviewClick`. */
    method HandleReviewClick(f: Finding)
      modifies this
      ensures selectedFinding == Some(f) && reviewDialogOpen
      ensures expanded == old(expanded) && filterStatus == old(filterStatus)
    {
      selectedFinding := Some(f);
      reviewDialogOpen := true;
    }

    method SetFilter(filter: FilterStatus)
      modifies this
      ensures filterStatus == filter
      ensures expanded == old(expanded) && selectedFinding == old(selectedFinding) && reviewDialogOpen == old(reviewDialogOpen)
    {
      filterStatus := filter;
    }

    /** The dialog's `onSave`: the update forwarded for the selected finding, if any; the dialog closes. */
    method Save(data: ReviewData) returns (forwarded: Option<(string, ReviewData)>)
      modifies this
      ensures forwarded.Some? <==> old(selectedFinding).Some?
      ensures forwarded.Some? ==> forwarded.value == (old(selectedFinding).value.id, data)
      ensures !reviewDialogOpen
      ensures expanded == old(expanded) && selectedFinding == old(selectedFinding) && filterStatus == old(filterStatus)
    {
      forwarded := None;
      if selectedFinding.Some? {
        forwarded := Some((selectedFinding.value.id, data));
      }
      reviewDialogOpen := false;
    }

    /** The folders rendered, in rank order. */
    method Folders(findings: seq<Finding>, reviews: seq<JudgeReview>, rank: string -> int) returns (folders: seq<Folder<string, Finding>>)
      ensures folders == VisibleFolders(SortedSeverities(findings, SeverityOfFinding, rank), findings, reviews, filterStatus, expanded)
    {
      var keys, groups := Group(findings, SeverityOfFinding);
      var order := SortByKey(keys, rank);
      var open, filter := expanded, filterStatus;
      assert order == SortedSeverities(findings, SeverityOfFinding, rank);
      forall s | s in order ensures s in groups && groups[s] == GroupOf(findings, SeverityOfFinding, s) {
        assert s in multiset(order);
      }
      folders := [];
      var i := |order|;
      while i > 0
        invariant 0 <= i <= |order|
        invariant folders == VisibleFolders(order[i..], findings, reviews, filter, open)
      {
        i := i - 1;
        var s := order[i];
        assert order[i..][1..] == order[i + 1..];
        var shown := FilterFindings(groups[s], reviews, filter);
        if !(|shown| == 0 && !filter.AllStatuses?) {
          folders := [Folder(s, shown, s in open)] + folders;
        }
      }
    }
  }
}
