/** The override rendering that runs after the syntect path: the whole buffer
    is parsed and highlighted at once; on success each visible highlighted
    line is painted, on failure nothing is. */
module SynHiR3blPath {
  import opened Common
  import opened RenderOps
  import opened EditorEngine

  /** `render_single_line`: move to the row, clip and render the spans,
      reset. */
  function SingleLine(args: RenderArgs, c: RenderCollaborators, rowIndex: nat, line: seq<StyleSpan>): (r: seq<RenderOp>)
    ensures |r| > 0 && r[0] == MoveToRow(args, rowIndex) && r[|r| - 1] == ResetColor
  {
    [MoveToRow(args, rowIndex)]
      + c.clipAndRenderSpans(line, args.ScrollOffset().colIndex, args.MaxDisplayColCount())
      + [ResetColor]
  }

  function RowRenderer(args: RenderArgs, c: RenderCollaborators): (r: (nat, seq<StyleSpan>) -> seq<RenderOp>)
    ensures forall i, line :: r(i, line) == SingleLine(args, c, i, line)
  {
    (i: nat, line: seq<StyleSpan>) => SingleLine(args, c, i, line)
  }

  function Parsed(args: RenderArgs, c: RenderCollaborators): Result<seq<seq<StyleSpan>>, string>
  {
    c.tryParseAndHighlight(args.content.lines, args.box.computedStyle)
  }

  /** What `render_content` appends: nothing when parsing fails, otherwise
      the visible highlighted lines, with the same row window as the other
      paths but over the parsed lines. */
  function Content(args: RenderArgs, c: RenderCollaborators): (r: seq<RenderOp>)
    ensures Parsed(args, c).Err? ==> r == []
  {
    match Parsed(args, c)
    case Err(_) => []
    case Ok(lines) =>
      Enumerated(Window(lines, args.ScrollOffset().rowIndex, args.MaxDisplayRowCount()), RowRenderer(args, c))
  }

  /** `try_render_content`: the parse error, if any, comes back before
      anything is appended. */
  method TryRenderContent(args: RenderArgs, c: RenderCollaborators, ops: seq<RenderOp>)
    returns (out: seq<RenderOp>, result: Result<(), string>)
    ensures result.Err? <==> Parsed(args, c).Err?
    ensures out == ops + Content(args, c)
  {
    var parsed := c.tryParseAndHighlight(args.content.lines, args.box.computedStyle);
    if parsed.Err? {
      return ops, Err(parsed.error);
    }
    out := RenderWindow(parsed.value, args.ScrollOffset().rowIndex, args.MaxDisplayRowCount(), RowRenderer(args, c), ops);
    result := Ok(());
  }

  /** `render_content`: a failure is swallowed. */
  method RenderContent(args: RenderArgs, c: RenderCollaborators, ops: seq<RenderOp>) returns (out: seq<RenderOp>)
    ensures out == ops + Content(args, c)
    ensures Parsed(args, c).Err? ==> out == ops
  {
    var ignored;
    out, ignored := TryRenderContent(args, c, ops);
  }

  /** On success, the instructions of the highlighted line at window row `i`
      (parsed line `scroll row + i`) sit contiguous in the content, beginning
      with the move to (col 0, row `i`) and ending with a colour reset; there
      are at most `max_display_row_count + 1` such lines. */
  lemma LineChunk(args: RenderArgs, c: RenderCollaborators, i: nat)
    requires Parsed(args, c).Ok?
    requires i < |Window(Parsed(args, c).value, args.ScrollOffset().rowIndex, args.MaxDisplayRowCount())|
    ensures var parsed := Parsed(args, c).value;
      var rows := Window(parsed, args.ScrollOffset().rowIndex, args.MaxDisplayRowCount());
      var chunk := SingleLine(args, c, i, parsed[args.ScrollOffset().rowIndex + i]);
      var start := ChunkStart(rows, RowRenderer(args, c), i);
      && |rows| <= args.MaxDisplayRowCount() + 1
      && start + |chunk| <= |Content(args, c)|
      && Content(args, c)[start..start + |chunk|] == chunk
      && Content(args, c)[start] == MoveCursorPositionRelTo(args.Origin(), Position(0, i))
  {
    var parsed := Parsed(args, c).value;
    var rows := Window(parsed, args.ScrollOffset().rowIndex, args.MaxDisplayRowCount());
    EnumeratedChunk(rows, RowRenderer(args, c), i);
    var start := ChunkStart(rows, RowRenderer(args, c), i);
    var chunk := SingleLine(args, c, i, rows[i]);
    assert Content(args, c)[start] == Content(args, c)[start..start + |chunk|][0];
  }
}
