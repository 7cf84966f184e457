/**
 * `src/components/FindingViewDialog.tsx`: a read-only view of one finding. In anonymous
 * mode the title is derived from the id and the timestamps are hidden. The dates are
 * shown as the stored strings; `toLocaleString` is not part of this model.
 */
module FindingViewDialog {
  import opened Common
  import opened JsStrings
  import opened FindingsStore
  import opened LineClassifier

  /** The footer: the creation time, and the last update when it differs. */
  datatype Timestamps = Timestamps(created: string, lastUpdated: Option<string>)

  datatype View = View(title: string, blocks: seq<Block>, timestamps: Option<Timestamps>)

  function ViewOf(finding: Option<Finding>, isAnonymous: bool): (v: Option<View>)
    ensures v.None? <==> finding.None?
    ensures v.Some? ==> v.value.blocks == RenderContent(finding.value.content)
    ensures v.Some? && isAnonymous ==> v.value.title == "Finding #" + SliceLast(finding.value.id, 6) && v.value.timestamps.None?
    ensures v.Some? && !isAnonymous ==>
      && v.value.title == finding.value.title
      && v.value.timestamps.Some?
      && v.value.timestamps.value.created == finding.value.createdAt
      && (v.value.timestamps.value.lastUpdated.Some? <==> finding.value.updatedAt != finding.value.createdAt)
      && (v.value.timestamps.value.lastUpdated.Some? ==> v.value.timestamps.value.lastUpdated.value == finding.value.updatedAt)
  {
    match finding
    case None => None
    case Some(f) =>
      var title := if isAnonymous then "Finding #" + SliceLast(f.id, 6) else f.title;
      var stamps := if isAnonymous then None
        else Some(Timestamps(f.createdAt, if f.updatedAt != f.createdAt then Some(f.updatedAt) else None));
      Some(View(title, RenderContent(f.content), stamps))
  }

  /**
   * The anonymous view depends only on the last six characters of the id and on the
   * content: title, author and timestamps do not show through.
   */
  lemma AnonymousViewHidesAuthor(f: Finding, g: Finding)
    requires SliceLast(f.id, 6) == SliceLast(g.id, 6) && f.content == g.content
    ensures ViewOf(Some(f), true) == ViewOf(Some(g), true)
  {
  }
}
