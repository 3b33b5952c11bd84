/** `formatContexts` and the line total the collect action reports: each context
    becomes a header naming its relative path and the range of lines its content
    occupies in a running count over all contents, then the content, then a newline. */
module Formatter {
  import opened Text
  import opened Files

  /** The action's `contexts.sumOf { it.content.lines().size }`. */
  function TotalLines(cs: seq<FileContext>): (total: nat)
    ensures total >= |cs|
  {
    if |cs| == 0 then 0
    else
      LineCountIsSeparatorsPlusOne(cs[|cs| - 1].content);
      TotalLines(cs[..|cs| - 1]) + LineCount(cs[|cs| - 1].content)
  }

  /** The header line: `"\n// $relativePath (L$start-L$end)\n"`. */
  function Header(relativePath: string, start: nat, end: nat): string {
    Concat(["\n// ", relativePath, " (L", NatToString(start), "-L", NatToString(end), ")\n"])
  }

  /** The pieces of a string template, joined in order. */
  function Concat(pieces: seq<string>): string {
    if |pieces| == 0 then "" else Concat(pieces[..|pieces| - 1]) + pieces[|pieces| - 1]
  }

  /** One context's contribution to the output. */
  function Block(c: FileContext, start: nat, end: nat): string {
    Header(c.relativePath, start, end) + c.content + "\n"
  }

  /** The first line number context `i` is given: one past the lines of all earlier
      contents. */
  function StartLine(cs: seq<FileContext>, i: nat): nat
    requires i < |cs|
  {
    1 + TotalLines(cs[..i])
  }

  /** The last line number context `i` is given. */
  function EndLine(cs: seq<FileContext>, i: nat): nat
    requires i < |cs|
  {
    TotalLines(cs[..i + 1])
  }

  /** The expected output: the blocks of all contexts, in order, with their ranges. */
  function Rendered(cs: seq<FileContext>): string {
    if |cs| == 0 then ""
    else Rendered(cs[..|cs| - 1]) + Block(cs[|cs| - 1], StartLine(cs, |cs| - 1), EndLine(cs, |cs| - 1))
  }

  /** `formatContexts`: the loop with its running `currentLine`. Each pass appends the
      header, the content and a newline, which together make the context's block. */
  method FormatContexts(cs: seq<FileContext>) returns (out: string)
    ensures out == Rendered(cs)
    ensures |cs| == 0 <==> out == ""
  {
    var currentLine: nat := 1;
    out := "";
    var i := 0;
    while i < |cs|
      invariant 0 <= i <= |cs|
      invariant out == Rendered(cs[..i])
      invariant currentLine == 1 + TotalLines(cs[..i])
    {
      var c := cs[i];
      var lines := SplitLines(c.content);
      var endLine: nat := currentLine + |lines| - 1;
      LoopStep(cs, i, currentLine);
      out := out + Block(c, currentLine, endLine);
      currentLine := endLine + 1;
      i := i + 1;
    }
    assert cs[..i] == cs;
    RenderedEmpty(cs);
  }

  /** Only the empty list renders as the empty string. */
  lemma RenderedEmpty(cs: seq<FileContext>)
    ensures |cs| == 0 <==> Rendered(cs) == ""
  {
  }

  /** One pass of the loop: with the running counter at the context's start line,
      the counter plus its line count less one is its end line, and its block
      extends the output for the contexts before it. */
  lemma LoopStep(cs: seq<FileContext>, i: nat, currentLine: nat)
    requires i < |cs| && currentLine == 1 + TotalLines(cs[..i])
    ensures currentLine + |SplitLines(cs[i].content)| - 1 == TotalLines(cs[..i + 1])
    ensures Rendered(cs[..i + 1]) == Rendered(cs[..i]) + Block(cs[i], currentLine, currentLine + |SplitLines(cs[i].content)| - 1)
  {
    assert cs[..i + 1][..i] == cs[..i];
    RenderedStep(cs, i);
  }

  /** Rendering one more context appends its block. */
  lemma RenderedStep(cs: seq<FileContext>, i: nat)
    requires i < |cs|
    ensures Rendered(cs[..i + 1]) == Rendered(cs[..i]) + Block(cs[i], StartLine(cs, i), EndLine(cs, i))
  {
    var p := cs[..i + 1];
    assert p[..|p| - 1] == cs[..i];
    assert p[..i + 1] == p;
  }

  /** The ranges tile the line count: each context gets exactly as many numbers as
      its content has lines, the first starts at 1, each starts right after the one
      before, and the last ends at the action's reported total. */
  lemma LineRanges(cs: seq<FileContext>, i: nat)
    requires i < |cs|
    ensures EndLine(cs, i) - StartLine(cs, i) + 1 == LineCount(cs[i].content)
    ensures StartLine(cs, i) <= EndLine(cs, i)
    ensures i == 0 ==> StartLine(cs, i) == 1
    ensures i + 1 < |cs| ==> StartLine(cs, i + 1) == EndLine(cs, i) + 1
    ensures i + 1 == |cs| ==> EndLine(cs, i) == TotalLines(cs)
  {
    assert cs[..i + 1][..i] == cs[..i];
    LineCountIsSeparatorsPlusOne(cs[i].content);
    if i + 1 == |cs| {
      assert cs[..i + 1] == cs;
    }
  }

  /** The output for a prefix of the list is a prefix of the output. */
  lemma {:induction false} RenderedPrefix(cs: seq<FileContext>, k: nat)
    requires k <= |cs|
    ensures Rendered(cs[..k]) <= Rendered(cs)
    decreases |cs| - k
  {
    if k < |cs| {
      RenderedPrefix(cs, k + 1);
      RenderedStep(cs, k);
    } else {
      assert cs[..k] == cs;
    }
  }

  /** A piece of a prefix sits at its offset in the whole. */
  lemma PieceOfPrefix(whole: string, before: string, piece: string)
    requires before + piece <= whole
    ensures OccursAt(whole, piece, |before|)
  {
    assert whole[..|before| + |piece|] == before + piece;
    assert (before + piece)[|before|..] == piece;
  }

  /** Context `i` appears in the output verbatim, as its header with its range, its
      content and a newline, right after the blocks of the contexts before it. */
  lemma BlockInOutput(cs: seq<FileContext>, i: nat)
    requires i < |cs|
    ensures OccursAt(Rendered(cs), Block(cs[i], StartLine(cs, i), EndLine(cs, i)), |Rendered(cs[..i])|)
  {
    RenderedStep(cs, i);
    RenderedPrefix(cs, i + 1);
    PieceOfPrefix(Rendered(cs), Rendered(cs[..i]), Block(cs[i], StartLine(cs, i), EndLine(cs, i)));
  }
}
