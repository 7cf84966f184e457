/**
 * The toolbar of `src/components/MarkdownEditor.tsx`: `insertAtCursor` splices a marker
 * pair around the selection (or around a placeholder when nothing is selected) and puts
 * the cursor after the wrapped text. The preview renderer, a chain of regular-expression
 * substitutions, and the file reader are not part of this model.
 */
module MarkdownEditor {
  import opened Common

  /** The text after the splice and where the cursor goes. */
  datatype Splice = Splice(newText: string, cursor: nat)

  /** `value.substring(start, end) || placeholder`. */
  function SelectedOrPlaceholder(value: string, start: nat, end: nat, placeholder: string): (sel: string)
    requires start <= end <= |value|
    ensures start < end ==> sel == value[start..end]
    ensures start == end ==> sel == placeholder
  {
    if value[start..end] != "" then value[start..end] else placeholder
  }

  /**
   * `insertAtCursor(before, after, placeholder)` on a textarea whose selection is
   * `[start, end)`; `None` when there is no textarea, in which case nothing changes.
   */
  function InsertAtCursor(hasTextarea: bool, value: string, start: nat, end: nat, before: string, after: string, placeholder: string): (r: Option<Splice>)
    requires start <= end <= |value|
    ensures r.None? <==> !hasTextarea
  {
    if !hasTextarea then None
    else
      var sel := SelectedOrPlaceholder(value, start, end, placeholder);
      Some(Splice(value[..start] + before + sel + after + value[end..], start + |before| + |sel|))
  }

  /**
   * The splice keeps the text before the selection and the text from its end verbatim,
   * puts `before + sel + after` between them, and leaves the cursor between `sel` and
   * `after`.
   */
  lemma InsertAtCursorSpec(value: string, start: nat, end: nat, before: string, after: string, placeholder: string)
    requires start <= end <= |value|
    ensures var r := InsertAtCursor(true, value, start, end, before, after, placeholder).value;
      var sel := SelectedOrPlaceholder(value, start, end, placeholder);
      && |r.newText| == |value| - (end - start) + |before| + |sel| + |after|
      && r.newText[..start] == value[..start]
      && r.newText[start..start + |before|] == before
      && r.newText[start + |before|..r.cursor] == sel
      && r.newText[r.cursor..r.cursor + |after|] == after
      && r.newText[r.cursor + |after|..] == value[end..]
      && r.cursor == start + |before| + |sel|
  {
    var sel := SelectedOrPlaceholder(value, start, end, placeholder);
    var t := value[..start] + before + sel + after + value[end..];
    var c := start + |before| + |sel|;
    assert t[..start] == value[..start];
    assert t[start..start + |before|] == before;
    assert t[start + |before|..c] == sel;
    assert t[c..c + |after|] == after;
    assert t[c + |after|..] == value[end..];
  }

  /** Cutting the inserted markers and text out again gives the value without its selection. */
  lemma InsertThenCut(value: string, start: nat, end: nat, before: string, after: string, placeholder: string)
    requires start <= end <= |value|
    ensures var r := InsertAtCursor(true, value, start, end, before, after, placeholder).value;
      r.newText[..start] + r.newText[r.cursor + |after|..] == value[..start] + value[end..]
    ensures start == end ==>
      var r := InsertAtCursor(true, value, start, end, before, after, placeholder).value;
      r.newText[..start] + r.newText[r.cursor + |after|..] == value
  {
    InsertAtCursorSpec(value, start, end, before, after, placeholder);
    if start == end {
      assert value[..start] + value[end..] == value;
    }
  }

  /** The toolbar buttons that insert text. */
  datatype ToolbarAction = Heading1 | Heading2 | Bold | Italic | CodeBlock | Quote | BulletList | NumberedList | LinkAction

  /** The `(before, after, placeholder)` each button passes to `insertAtCursor`. */
  function Markers(a: ToolbarAction): (string, string, string) {
    match a
    case Heading1 => ("# ", "", "Heading")
    case Heading2 => ("## ", "", "Heading")
    case Bold => ("**", "**", "bold text")
    case Italic => ("*", "*", "italic text")
    case CodeBlock => ("```\n", "\n```", "code")
    case Quote => ("> ", "", "quote")
    case BulletList => ("- ", "", "item")
    case NumberedList => ("1. ", "", "item")
    case LinkAction => ("[", "](url)", "link text")
  }

  /** The text a button puts in place of the selection. */
  function Wrapped(a: ToolbarAction, sel: string): string {
    var (before, after, _) := Markers(a);
    before + sel + after
  }

  /**
   * Bold, italic, code and link wrap the selection in a marker pair; the headings, the
   * quote and the two lists only prefix it.
   */
  lemma ToolbarMarkers(a: ToolbarAction, sel: string)
    ensures Wrapped(Bold, sel) == "**" + sel + "**" && Wrapped(Italic, sel) == "*" + sel + "*"
    ensures Wrapped(CodeBlock, sel) == "```\n" + sel + "\n```"
    ensures Wrapped(LinkAction, sel) == "[" + sel + "](url)"
    ensures a in {Heading1, Heading2, Quote, BulletList, NumberedList} <==> Markers(a).1 == ""
    ensures a in {Heading1, Heading2, Quote, BulletList, NumberedList} ==> Wrapped(a, sel) == Markers(a).0 + sel
  {
    if a in {Heading1, Heading2, Quote, BulletList, NumberedList} {
      assert Markers(a).0 + sel + "" == Markers(a).0 + sel;
    }
  }

  /** `handleImageUpload`'s insertion: the data URL stands in for an empty selection. */
  function InsertImage(value: string, start: nat, end: nat, fileName: string, dataUrl: string): Option<Splice>
    requires start <= end <= |value|
  {
    InsertAtCursor(true, value, start, end, "![" + fileName + "](", ")", dataUrl)
  }

  /** With nothing selected an image becomes `![name](dataUrl)` at the cursor; with a selection the selection takes the data URL's place. */
  lemma ImageInsertion(value: string, start: nat, end: nat, fileName: string, dataUrl: string)
    requires start <= end <= |value|
    ensures var r := InsertImage(value, start, end, fileName, dataUrl).value;
      start == end ==> r.newText == value[..start] + "![" + fileName + "](" + dataUrl + ")" + value[start..]
    ensures var r := InsertImage(value, start, end, fileName, dataUrl).value;
      start < end ==> r.newText == value[..start] + "![" + fileName + "](" + value[start..end] + ")" + value[end..]
  {
  }
}
