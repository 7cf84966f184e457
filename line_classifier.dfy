/**
 * `renderContent`, written out identically in `src/components/JudgeReviewDialog.tsx` and
 * `src/components/FindingViewDialog.tsx`: the content is split on `\n` and every line
 * becomes one block, by the first test it passes.
 */
module LineClassifier {
  import opened JsStrings

  /** What a line renders as; `Hidden` is the `null` a code-fence line maps to. */
  datatype Block = H2(text: string) | H3(text: string) | Hidden | Break | Paragraph(text: string)

  /** The first matching rule, in the source's order. */
  function ClassifyLine(line: string): (b: Block)
    ensures b.H2? <==> StartsWith(line, "## ")
    ensures b.H2? ==> line == "## " + b.text
    ensures b.H3? <==> StartsWith(line, "### ")
    ensures b.H3? ==> line == "### " + b.text
    ensures b.Hidden? <==> StartsWith(line, "```")
    ensures b.Break? <==> !StartsWith(line, "## ") && !StartsWith(line, "### ") && !StartsWith(line, "```") && Trim(line) == ""
    ensures b.Paragraph? ==> b.text == line
  {
    PrefixesExclusive(line);
    if StartsWith(line, "## ") then H2(line[3..])
    else if StartsWith(line, "### ") then H3(line[4..])
    else if StartsWith(line, "```") then Hidden
    else if Trim(line) == "" then Break
    else Paragraph(line)
  }

  /** The three prefixes exclude each other: `### ` never starts with `## `. */
  lemma PrefixesExclusive(line: string)
    ensures StartsWith(line, "### ") ==> !StartsWith(line, "## ") && !StartsWith(line, "```")
    ensures StartsWith(line, "## ") ==> !StartsWith(line, "```")
  {
    if StartsWith(line, "### ") {
      assert line[2] == '#';
    }
  }

  function RenderContent(content: string): (blocks: seq<Block>)
    ensures |blocks| == |Split(content, "\n")|
    ensures forall i :: 0 <= i < |blocks| ==> blocks[i] == ClassifyLine(Split(content, "\n")[i])
  {
    var lines := Split(content, "\n");
    seq(|lines|, i requires 0 <= i < |lines| => ClassifyLine(lines[i]))
  }

  /** One block per line: one more than there are line feeds. */
  lemma OneBlockPerLine(content: string)
    ensures |RenderContent(content)| == CountChar(content, '\n') + 1
  {
    SplitCharCount(content, '\n');
  }

  /** A content of lines without line feeds renders as those lines, one block each, in order. */
  lemma RenderJoinedLines(lines: seq<string>)
    requires lines != []
    requires forall i :: 0 <= i < |lines| ==> NoChar(lines[i], '\n')
    ensures var blocks := RenderContent(JoinWith(lines, '\n'));
      |blocks| == |lines| && forall i :: 0 <= i < |lines| ==> blocks[i] == ClassifyLine(lines[i])
  {
    SplitJoin(lines, '\n');
  }
}
