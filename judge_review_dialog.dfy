/**
 * `src/components/JudgeReviewDialog.tsx`: the judge's form for one finding. The effect
 * fills the form from the existing review (or the submitted severity), the handlers set
 * the fields, and `handleSave` hands the three fields to `onSave`.
 */
module JudgeReviewDialog {
  import opened Common
  import opened JsStrings
  import opened FindingsStore
  import opened JudgeReviews
  import opened LineClassifier

  /** `existingReview?.judgeSelectedSeverity || finding.severity`. */
  function InitialSeverity(f: Finding, existing: Option<JudgeReview>): (s: string)
    ensures existing.Some? && existing.value.judgeSelectedSeverity != "" ==> s == existing.value.judgeSelectedSeverity
    ensures !(existing.Some? && existing.value.judgeSelectedSeverity != "") ==> s == f.severity
  {
    if existing.Some? && existing.value.judgeSelectedSeverity != "" then existing.value.judgeSelectedSeverity else f.severity
  }

  /** `existingReview?.comment || ""`. */
  function InitialComment(existing: Option<JudgeReview>): (c: string)
    ensures existing.Some? ==> c == existing.value.comment
    ensures existing.None? ==> c == ""
  {
    if existing.Some? && existing.value.comment != "" then existing.value.comment else ""
  }

  /** `existingReview?.status || "pending"`: a status is never empty, so it is taken as it is. */
  function InitialStatus(existing: Option<JudgeReview>): (st: ReviewStatus)
    ensures existing.Some? ==> st == existing.value.status
    ensures existing.None? ==> st == Pending
  {
    if existing.Some? then existing.value.status else Pending
  }

  /** The dialog's title: `Finding #` and the last six characters of the id. */
  function DialogTitle(f: Finding): (t: string)
    ensures |t| == 9 + (if |f.id| <= 6 then |f.id| else 6)
    ensures t[..9] == "Finding #" && t[9..] == f.id[|f.id| - |t[9..]|..]
  {
    "Finding #" + SliceLast(f.id, 6)
  }

  /** The form's state. */
  class ReviewForm {
    var selectedSeverity: string
    var comment: string
    var status: ReviewStatus

    constructor()
      ensures selectedSeverity == "medium" && comment == "" && status == Pending
    {
      selectedSeverity := "medium";
      comment := "";
      status := Pending;
    }

    /** The effect on `[finding, existingReview]`: without a finding the form is left as it is. */
    method Sync(finding: Option<Finding>, existing: Option<JudgeReview>)
      modifies this
      ensures finding.None? ==> selectedSeverity == old(selectedSeverity) && comment == old(comment) && status == old(status)
      ensures finding.Some? ==>
        && selectedSeverity == InitialSeverity(finding.value, existing)
        && comment == InitialComment(existing)
        && status == InitialStatus(existing)
    {
      if finding.Some? {
        selectedSeverity := InitialSeverity(finding.value, existing);
        comment := InitialComment(existing);
        status := InitialStatus(existing);
      }
    }

    method SelectSeverity(s: string)
      modifies this
      ensures selectedSeverity == s && comment == old(comment) && status == old(status)
    {
      selectedSeverity := s;
    }

    method SetComment(c: string)
      modifies this
      ensures comment == c && selectedSeverity == old(selectedSeverity) && status == old(status)
    {
      comment := c;
    }

    method SetStatus(st: ReviewStatus)
      modifies this
      ensures status == st && selectedSeverity == old(selectedSeverity) && comment == old(comment)
    {
      status := st;
    }

    /** `severityChanged`: the judge's severity differs from the submitted one. */
    predicate SeverityChanged(f: Finding)
      reads this
    {
      selectedSeverity != f.severity
    }

    /** `handleSave`: the data passed to `onSave`, exactly the three fields of the form. */
    method HandleSave() returns (data: ReviewData)
      ensures data.judgeSelectedSeverity == selectedSeverity && data.comment == comment && data.status == status
    {
      data := ReviewData(selectedSeverity, comment, status);
    }
  }

  /** What saving right after the effect sends. */
  function SavedAfterSync(f: Finding, existing: Option<JudgeReview>): ReviewData {
    ReviewData(InitialSeverity(f, existing), InitialComment(existing), InitialStatus(existing))
  }

  /**
   * Saving without edits sends back the existing review's verdict (when it names a
   * severity), or, without a review, the submitted severity, no comment and `pending`;
   * in that case the severity is unchanged.
   */
  lemma SaveWithoutEdits(f: Finding, existing: Option<JudgeReview>)
    ensures existing.Some? && existing.value.judgeSelectedSeverity != "" ==>
      SavedAfterSync(f, existing) == ReviewData(existing.value.judgeSelectedSeverity, existing.value.comment, existing.value.status)
    ensures existing.None? ==> SavedAfterSync(f, existing) == ReviewData(f.severity, "", Pending)
    ensures existing.None? || existing.value.judgeSelectedSeverity == "" || existing.value.judgeSelectedSeverity == f.severity
      <==> SavedAfterSync(f, existing).judgeSelectedSeverity == f.severity
  {
  }

  /** The content panel: `renderContent(finding.content)`; nothing without a finding. */
  function DialogContent(finding: Option<Finding>): (r: Option<(string, seq<Block>)>)
    ensures r.None? <==> finding.None?
    ensures r.Some? ==> r.value.0 == DialogTitle(finding.value) && r.value.1 == RenderContent(finding.value.content)
  {
    match finding
    case None => None
    case Some(f) => Some((DialogTitle(f), RenderContent(f.content)))
  }
}
