/** Content rendering without syntax highlighting: each visible line, clipped
    to the visible columns, painted in the box's computed style. The per-line
    part is also the fallback of the syntect path. */
module NoSynHiPath {
  import opened Common
  import opened RenderOps
  import opened EditorEngine

  /** `render_line_no_syntax_highlight`: colours, the clipped line, reset. */
  function LineNoSyntaxHighlight(args: RenderArgs, c: RenderCollaborators, line: string): (r: seq<RenderOp>)
    ensures |r| == 3 && r[0] == ApplyColors(args.box.computedStyle) && r[2] == ResetColor
    ensures r[1].PaintTextWithAttributes? && r[1].attributes == args.box.computedStyle
    ensures r[1].text == c.clipToWidth(line, args.ScrollOffset().colIndex, args.MaxDisplayColCount())
  {
    var truncated := c.clipToWidth(line, args.ScrollOffset().colIndex, args.MaxDisplayColCount());
    [ ApplyColors(args.box.computedStyle),
      PaintTextWithAttributes(truncated, args.box.computedStyle),
      ResetColor ]
  }

  /** `render_single_line`: move to the row, then the line. */
  function SingleLine(args: RenderArgs, c: RenderCollaborators, rowIndex: nat, line: string): (r: seq<RenderOp>)
    ensures |r| == 4 && r[0] == MoveToRow(args, rowIndex) && r[1..] == LineNoSyntaxHighlight(args, c, line)
  {
    [MoveToRow(args, rowIndex)] + LineNoSyntaxHighlight(args, c, line)
  }

  function RowRenderer(args: RenderArgs, c: RenderCollaborators): (r: (nat, string) -> seq<RenderOp>)
    ensures forall i, line :: r(i, line) == SingleLine(args, c, i, line)
  {
    (i: nat, line: string) => SingleLine(args, c, i, line)
  }

  /** What `render_content` appends. */
  function Content(args: RenderArgs, c: RenderCollaborators): seq<RenderOp>
  {
    Enumerated(VisibleLines(args), RowRenderer(args, c))
  }

  /** `render_content`: skip the scrolled-off lines, stop once the row index
      passes the box's row count, paint every line in between. */
  method RenderContent(args: RenderArgs, c: RenderCollaborators, ops: seq<RenderOp>) returns (out: seq<RenderOp>)
    ensures out == ops + Content(args, c)
  {
    out := RenderWindow(args.content.lines, args.ScrollOffset().rowIndex, args.MaxDisplayRowCount(), RowRenderer(args, c), ops);
  }

  /** The row window: four instructions per visible line; the line at window
      row `i` is buffer line `scroll row + i`, and its instructions are a move
      to (col 0, row `i`), the box colours, the line clipped to the visible
      columns, and a colour reset. At most `max_display_row_count + 1` lines
      are painted. */
  lemma ContentLayout(args: RenderArgs, c: RenderCollaborators, i: nat)
    requires i < |VisibleLines(args)|
    ensures |Content(args, c)| == 4 * |VisibleLines(args)|
    ensures |VisibleLines(args)| <= args.MaxDisplayRowCount() + 1
    ensures var line := args.content.lines[args.ScrollOffset().rowIndex + i];
      && Content(args, c)[4 * i] == MoveCursorPositionRelTo(args.Origin(), Position(0, i))
      && Content(args, c)[4 * i + 1] == ApplyColors(args.box.computedStyle)
      && Content(args, c)[4 * i + 2] == PaintTextWithAttributes(
           c.clipToWidth(line, args.ScrollOffset().colIndex, args.MaxDisplayColCount()),
           args.box.computedStyle)
      && Content(args, c)[4 * i + 3] == ResetColor
  {
    var rows := VisibleLines(args);
    var render := RowRenderer(args, c);
    assert forall n :: 0 <= n < |rows| ==> |render(n, rows[n])| == 4;
    EnumeratedFourEach(rows, render, i, 0);
    EnumeratedFourEach(rows, render, i, 1);
    EnumeratedFourEach(rows, render, i, 2);
    EnumeratedFourEach(rows, render, i, 3);
    assert rows[i] == args.content.lines[args.ScrollOffset().rowIndex + i];
  }

  /** Viewport bound: every cursor move among the content instructions goes to
      column 0 of a window row no larger than `max_display_row_count`. */
  lemma ContentMovesInWindow(args: RenderArgs, c: RenderCollaborators, n: nat)
    requires n < |Content(args, c)|
    requires Content(args, c)[n].MoveCursorPositionRelTo?
    ensures Content(args, c)[n] == MoveCursorPositionRelTo(args.Origin(), Position(0, n / 4))
    ensures n / 4 <= args.MaxDisplayRowCount()
    ensures args.ScrollOffset().rowIndex + n / 4 < |args.content.lines|
  {
    var rows := VisibleLines(args);
    var render := RowRenderer(args, c);
    assert forall n :: 0 <= n < |rows| ==> |render(n, rows[n])| == 4;
    EnumeratedFourEach(rows, render, 0, 0);
    var i, j := n / 4, n % 4;
    assert n == 4 * i + j;
    EnumeratedFourEach(rows, render, i, j);
  }
}
