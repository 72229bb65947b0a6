/** Content rendering through the syntect highlighter: each visible line is
    highlighted when the buffer has a file extension, the extension has a
    syntax, and highlighting succeeds; any other line falls back to the plain
    rendering. */
module SynHiSyntectPath {
  import opened Common
  import opened RenderOps
  import opened EditorEngine
  import NoSynHiPath

  /** `try_get_syntect_highlighted_line`: `None` exactly when there is no file
      extension, no syntax for it, or the highlighter fails on the line. */
  function TryGetSyntectHighlightedLine(args: RenderArgs, c: RenderCollaborators, line: string): (r: Option<seq<SyntectSpan>>)
    ensures r.None? <==>
      || args.fileExtension.None?
      || c.trySyntaxRef(args.fileExtension.value).None?
      || c.highlightLine(c.trySyntaxRef(args.fileExtension.value).value, line).Err?
    ensures r.Some? ==> r.value == c.highlightLine(c.trySyntaxRef(args.fileExtension.value).value, line).value
  {
    match args.fileExtension
    case None => None
    case Some(fileExt) =>
      match c.trySyntaxRef(fileExt)
      case None => None
      case Some(syntaxRef) =>
        match c.highlightLine(syntaxRef, line)
        case Ok(spans) => Some(spans)
        case Err(_) => None
  }

  /** `render_line_with_syntect`: convert, clip to the visible columns,
      render, reset. */
  function LineWithSyntect(args: RenderArgs, c: RenderCollaborators, spans: seq<SyntectSpan>): (r: seq<RenderOp>)
    ensures |r| > 0 && r[|r| - 1] == ResetColor
  {
    c.clipAndRenderSpans(c.fromSyntectToTui(spans), args.ScrollOffset().colIndex, args.MaxDisplayColCount())
      + [ResetColor]
  }

  /** `render_single_line`: move to the row, then the highlighted line or,
      failing that, the plain one. */
  function SingleLine(args: RenderArgs, c: RenderCollaborators, rowIndex: nat, line: string): (r: seq<RenderOp>)
    ensures |r| > 1 && r[0] == MoveToRow(args, rowIndex) && r[|r| - 1] == ResetColor
  {
    [MoveToRow(args, rowIndex)] +
      match TryGetSyntectHighlightedLine(args, c, line)
      case Some(spans) => LineWithSyntect(args, c, spans)
      case None => NoSynHiPath.LineNoSyntaxHighlight(args, c, line)
  }

  function RowRenderer(args: RenderArgs, c: RenderCollaborators): (r: (nat, string) -> seq<RenderOp>)
    ensures forall i, line :: r(i, line) == SingleLine(args, c, i, line)
  {
    (i: nat, line: string) => SingleLine(args, c, i, line)
  }

  /** What `render_content` appends. */
  function Content(args: RenderArgs, c: RenderCollaborators): seq<RenderOp>
  {
    Enumerated(VisibleLines(args), RowRenderer(args, c))
  }

  /** `render_content`: the same row window as the plain path. The source
      repeats the loop in each path; here each path passes its own row
      renderer to the shared `RenderWindow`. */
  method RenderContent(args: RenderArgs, c: RenderCollaborators, ops: seq<RenderOp>) returns (out: seq<RenderOp>)
    ensures out == ops + Content(args, c)
  {
    out := RenderWindow(args.content.lines, args.ScrollOffset().rowIndex, args.MaxDisplayRowCount(), RowRenderer(args, c), ops);
  }

  /** A line the highlighter gives nothing for is rendered exactly as the
      plain path renders it. */
  lemma FallbackLine(args: RenderArgs, c: RenderCollaborators, rowIndex: nat, line: string)
    requires TryGetSyntectHighlightedLine(args, c, line).None?
    ensures SingleLine(args, c, rowIndex, line) == NoSynHiPath.SingleLine(args, c, rowIndex, line)
  {
  }

  /** A line the highlighter gives spans for is painted as the move to its
      row, those spans converted and clipped to the visible columns, and a
      colour reset; the box's own colours are not applied. */
  lemma HighlightedLine(args: RenderArgs, c: RenderCollaborators, rowIndex: nat, line: string)
    requires TryGetSyntectHighlightedLine(args, c, line).Some?
    ensures var spans := TryGetSyntectHighlightedLine(args, c, line).value;
      SingleLine(args, c, rowIndex, line) ==
        [MoveToRow(args, rowIndex)]
        + c.clipAndRenderSpans(c.fromSyntectToTui(spans), args.ScrollOffset().colIndex, args.MaxDisplayColCount())
        + [ResetColor]
  {
    var spans := TryGetSyntectHighlightedLine(args, c, line).value;
    var body := LineWithSyntect(args, c, spans);
    assert body == body[..|body| - 1] + [ResetColor];
  }


  /** Without a file extension, or without a syntax for it, the syntect path
      renders exactly what the plain path renders. */
  lemma {:induction false} NoSyntaxMeansPlain(args: RenderArgs, c: RenderCollaborators)
    requires args.fileExtension.None? || c.trySyntaxRef(args.fileExtension.value).None?
    ensures Content(args, c) == NoSynHiPath.Content(args, c)
  {
    var rows := VisibleLines(args);
    forall n | 0 <= n < |rows|
      ensures RowRenderer(args, c)(n, rows[n]) == NoSynHiPath.RowRenderer(args, c)(n, rows[n])
    {
      FallbackLine(args, c, n, rows[n]);
    }
    EnumeratedPointwise(rows, RowRenderer(args, c), NoSynHiPath.RowRenderer(args, c));
  }

  /** Each visible line's instructions sit contiguous in the content, in row
      order, and begin with the move to (col 0, its window row); the line is
      buffer line `scroll row + i`. */
  lemma LineChunk(args: RenderArgs, c: RenderCollaborators, i: nat)
    requires i < |VisibleLines(args)|
    ensures var line := args.content.lines[args.ScrollOffset().rowIndex + i];
      var start := ChunkStart(VisibleLines(args), RowRenderer(args, c), i);
      && start + |SingleLine(args, c, i, line)| <= |Content(args, c)|
      && Content(args, c)[start..start + |SingleLine(args, c, i, line)|] == SingleLine(args, c, i, line)
      && Content(args, c)[start] == MoveCursorPositionRelTo(args.Origin(), Position(0, i))
  {
    var rows := VisibleLines(args);
    EnumeratedChunk(rows, RowRenderer(args, c), i);
    var start := ChunkStart(rows, RowRenderer(args, c), i);
    var chunk := SingleLine(args, c, i, rows[i]);
    assert Content(args, c)[start] == Content(args, c)[start..start + |chunk|][0];
  }
}
