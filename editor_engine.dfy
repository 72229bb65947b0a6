/** What the editor engine works with: its configuration, the box it renders
    into, the editor events, and the collaborators it calls whose code is not
    part of this model (Unicode clipping, the highlighters, history, the
    event conversion and application). */
module EditorEngine {
  import opened Common
  import opened InputEvents
  import opened RenderOps
  import opened EngineEditorBuffer

  datatype EditMode = ReadOnly | ReadWrite

  datatype SyntaxHighlightMode = Enable(themeName: string) | Disable

  datatype EditorConfig = EditorConfig(editMode: EditMode, syntaxHighlight: SyntaxHighlightMode)

  datatype Size = Size(colCount: nat, rowCount: nat)

  /** The layout box the editor renders into, with the style-adjusted origin
      and bounds the render code reads and the box's computed style. */
  datatype EditorBox = EditorBox(
    id: nat,
    styleAdjustedOriginPos: Position,
    styleAdjustedBoundsSize: Size,
    computedStyle: Option<Style>)

  datatype CaretDirection = Up | Down | Left | Right

  datatype SelectionScope = OneCharLeft | OneCharRight | ToStartOfLine | ToEndOfLine | OneLineUp | OneLineDown

  datatype EditorEvent =
    | InsertChar(character: char)
    | InsertString(text: string)
    | InsertNewLine
    | Delete
    | Backspace
    | Home
    | End
    | PageUp
    | PageDown
    | MoveCaret(direction: CaretDirection)
    | Resize(size: Size)
    | Select(scope: SelectionScope)
    | Copy
    | Paste
    | Cut
    | Undo
    | Redo

  /** The engine's own state: its configuration and the box of the last
      render. */
  class EditorEngine {
    const configOptions: EditorConfig
    var currentBox: EditorBox

    /** Builds an engine in a given state; it stands for no constructor of
        the source. */
    constructor (config: EditorConfig, box: EditorBox)
      ensures configOptions == config && currentBox == box
    {
      configOptions := config;
      currentBox := box;
    }
  }

  /** The collaborators `apply_event` calls. */
  datatype EventOps = EventOps(
    /** `EditorEvent::try_from`. */
    tryFrom: InputEvent -> Result<EditorEvent, string>,
    /** `EditorEvent::apply_editor_event`, on the buffer's content. */
    applyEditorEvent: (EditorEvent, EditorContent) -> EditorContent,
    history: HistoryOps)

  /** Where a selection range starts relative to the horizontal scroll offset. */
  datatype ScrollOffsetColLocationInRange = Overflow | Underflow

  datatype SyntaxReference = SyntaxReference(name: string)

  /** A span as the syntect highlighter returns it. */
  datatype SyntectSpan = SyntectSpan(foreground: nat, background: nat, text: string)

  /** The collaborators the render functions call. */
  datatype RenderCollaborators = RenderCollaborators(
    /** `UnicodeString::clip_to_width(scroll_offset_col, max_display_col_count)`. */
    clipToWidth: (string, nat, nat) -> string,
    /** `UnicodeString::clip_to_range(selection_range)`. */
    clipToRange: (string, SelectionRange) -> string,
    /** `SelectionRange::locate_scroll_offset_col(scroll_offset)`. */
    locateScrollOffsetCol: (SelectionRange, Position) -> ScrollOffsetColLocationInRange,
    /** `EditorEngineInternalApi::string_at_caret`: the grapheme under the caret. */
    stringAtCaret: EditorContent -> Option<string>,
    /** `try_get_syntax_ref(syntax_set, file_extension)`. */
    trySyntaxRef: string -> Option<SyntaxReference>,
    /** `HighlightLines::new(syntax_ref, theme).highlight_line(line, syntax_set)`. */
    highlightLine: (SyntaxReference, string) -> Result<seq<SyntectSpan>, string>,
    /** `from_syntect_to_tui`. */
    fromSyntectToTui: seq<SyntectSpan> -> seq<StyleSpan>,
    /** `List<StyleUSSpan>::clip(scroll_offset_col, max_display_col_count)`
        followed by `StyledTexts::render_into`. */
    clipAndRenderSpans: (seq<StyleSpan>, nat, nat) -> seq<RenderOp>,
    /** `try_parse_and_highlight(lines, computed_style, (syntax_set, theme))`. */
    tryParseAndHighlight: (seq<string>, Option<Style>) -> Result<seq<seq<StyleSpan>>, string>,
    /** `Position::add_row_with_bounds(value, max)`. */
    addRowWithBounds: (Position, nat, nat) -> Position,
    /** `get_selection_style()`. */
    selectionStyle: Style,
    /** `DEFAULT_CURSOR_CHAR`. */
    defaultCursorChar: char)

  /** `RenderArgs`: the buffer's content and file extension, the engine's
      configuration and current box, and whether the box has focus. */
  datatype RenderArgs = RenderArgs(
    content: EditorContent,
    fileExtension: Option<string>,
    config: EditorConfig,
    box: EditorBox,
    hasFocus: bool)
  {
    function Origin(): Position { box.styleAdjustedOriginPos }
    function MaxDisplayRowCount(): nat { box.styleAdjustedBoundsSize.rowCount }
    function MaxDisplayColCount(): nat { box.styleAdjustedBoundsSize.colCount }
    function ScrollOffset(): Position { content.scrollOffset }
  }

  /** The rows `xs.iter().skip(skip).enumerate()` visits before the check
      `row_index > max_row_index` breaks out: at most `max_row_index + 1`
      of them, starting at `xs[skip]`. */
  function Window<T>(xs: seq<T>, skip: nat, maxRowIndex: nat): (w: seq<T>)
    ensures skip >= |xs| ==> w == []
    ensures skip < |xs| ==> |w| == Min(|xs| - skip, maxRowIndex + 1)
    ensures |w| <= maxRowIndex + 1
    ensures forall i :: 0 <= i < |w| ==> skip + i < |xs| && w[i] == xs[skip + i]
  {
    if skip >= |xs| then []
    else
      var rest := xs[skip..];
      if |rest| <= maxRowIndex + 1 then rest else rest[..maxRowIndex + 1]
  }

  /** The visible lines of the buffer. */
  function VisibleLines(args: RenderArgs): seq<string>
  {
    Window(args.content.lines, args.ScrollOffset().rowIndex, args.MaxDisplayRowCount())
  }

  /** The loop every `render_content` path runs: skip the scrolled-off lines,
      stop once the row index passes `maxRowIndex`, and append each line in
      between as `render` paints it at its window row. */
  method RenderWindow<T>(lines: seq<T>, skip: nat, maxRowIndex: nat, render: (nat, T) -> seq<RenderOp>, ops: seq<RenderOp>)
    returns (out: seq<RenderOp>)
    ensures out == ops + Enumerated(Window(lines, skip, maxRowIndex), render)
  {
    ghost var window := Window(lines, skip, maxRowIndex);
    out := ops;
    var rowIndex := 0;
    while skip + rowIndex < |lines|
      invariant rowIndex <= |window|
      invariant out == ops + Enumerated(window[..rowIndex], render)
    {
      if rowIndex > maxRowIndex {
        break;
      }
      EnumeratedSnoc(window, rowIndex, render);
      out := out + render(rowIndex, lines[skip + rowIndex]);
      rowIndex := rowIndex + 1;
    }
    assert window[..rowIndex] == window;
  }

  /** The instruction that starts each painted row: column 0 of the row's
      index in the window, relative to the box origin. */
  function MoveToRow(args: RenderArgs, rowIndex: nat): RenderOp
  {
    MoveCursorPositionRelTo(args.Origin(), Position(0, rowIndex))
  }
}
