/** The editor engine's public interface: applying an input event to a buffer
    (the edit-mode gate, the conversion to an editor event and the history
    policy), and rendering a buffer into a pipeline of paint instructions
    (content, then selection, then caret; or the empty state). */
module EditorEngineApi {
  import opened Common
  import opened InputEvents
  import opened RenderOps
  import opened EngineEditorBuffer
  import opened EditorEngine
  import NoSynHiPath
  import SynHiSyntectPath
  import SynHiR3blPath

  // ---------------------------------------------------------------------
  // apply_event
  // ---------------------------------------------------------------------

  /** The key presses a read-only editor still lets through. */
  const ReadOnlyNavigationKeys: seq<KeyPress> := [
    Plain(Special(SpecialKey.Up)), Plain(Special(SpecialKey.Down)),
    Plain(Special(SpecialKey.Left)), Plain(Special(SpecialKey.Right)),
    Plain(Special(SpecialKey.Home)), Plain(Special(SpecialKey.End)),
    Plain(Special(SpecialKey.PageUp)), Plain(Special(SpecialKey.PageDown))]

  predicate IsNavigationKey(k: SpecialKey)
  {
    k.Up? || k.Down? || k.Left? || k.Right? || k.Home? || k.End? || k.PageUp? || k.PageDown?
  }

  /** The edit-mode gate: a read-write editor lets every event through, a
      read-only one exactly the navigation keys above pressed without
      modifiers. */
  predicate PassesEditModeGate(config: EditorConfig, event: InputEvent): (r: bool)
    ensures config.editMode.ReadWrite? ==> r
    ensures config.editMode.ReadOnly? ==>
      (r <==> event.Keyboard? && event.keyPress.Plain? && event.keyPress.key.Special?
              && IsNavigationKey(event.keyPress.key.specialKey))
  {
    config.editMode.ReadOnly? ==> MatchesAnyOfTheseKeyPresses(event, ReadOnlyNavigationKeys)
  }

  /** The editor events after which `apply_event` snapshots the buffer again:
      the ones that change content, and `Copy`. */
  predicate PushesHistory(event: EditorEvent): (r: bool)
    ensures !r <==>
      || event.Home? || event.End? || event.PageUp? || event.PageDown?
      || event.MoveCaret? || event.Resize? || event.Select? || event.Undo? || event.Redo?
  {
    match event
    case InsertChar(_) => true
    case InsertString(_) => true
    case InsertNewLine => true
    case Delete => true
    case Backspace => true
    case Copy => true
    case Paste => true
    case Cut => true
    case _ => false
  }

  datatype ApplyEventResult = Applied | NotApplied

  /** What `apply_event` does: its result, the buffer content afterwards, and
      the snapshots it pushes onto the history, first pushed first. */
  datatype EventOutcome = EventOutcome(result: ApplyEventResult, content: EditorContent, pushed: seq<EditorContent>)

  /** Specification of `apply_event`. An event the gate stops or that does not
      convert is not applied and changes nothing. A converted event is
      applied; the pre-edit content is pushed first when the history is
      empty, and the post-edit content is pushed after an event that
      `PushesHistory`. */
  function ApplyEventOutcome(config: EditorConfig, x: EventOps, content: EditorContent, history: History, event: InputEvent): (o: EventOutcome)
    ensures o.result.Applied? <==> PassesEditModeGate(config, event) && x.tryFrom(event).Ok?
    ensures o.result.NotApplied? ==> o.content == content && o.pushed == []
    ensures o.result.Applied? ==>
      var e := x.tryFrom(event).value;
      && o.content == x.applyEditorEvent(e, content)
      && |o.pushed| == (if x.history.isEmpty(history) then 1 else 0) + (if PushesHistory(e) then 1 else 0)
      && (x.history.isEmpty(history) ==> o.pushed[0] == content)
      && (PushesHistory(e) ==> o.pushed[|o.pushed| - 1] == o.content)
  {
    if !PassesEditModeGate(config, event) then EventOutcome(NotApplied, content, [])
    else
      match x.tryFrom(event)
      case Err(_) => EventOutcome(NotApplied, content, [])
      case Ok(e) =>
        var after := x.applyEditorEvent(e, content);
        EventOutcome(Applied, after,
          (if x.history.isEmpty(history) then [content] else [])
          + (if PushesHistory(e) then [after] else []))
  }

  /** A read-only editor applies nothing but navigation keys, and an event it
      does not apply leaves buffer and history as they were. */
  lemma ReadOnlyAppliesOnlyNavigation(config: EditorConfig, x: EventOps, content: EditorContent, history: History, event: InputEvent)
    requires config.editMode.ReadOnly?
    ensures var o := ApplyEventOutcome(config, x, content, history, event);
      && (o.result.Applied? ==>
            event.Keyboard? && event.keyPress.Plain? && event.keyPress.key.Special?
            && IsNavigationKey(event.keyPress.key.specialKey))
      && (o.result.NotApplied? ==> o.content == content && PushAll(x.history, history, o.pushed) == history)
  {
  }

  /** `apply_event`. */
  method ApplyEvent(buffer: EditorBuffer, engine: EditorEngine, x: EventOps, event: InputEvent) returns (r: ApplyEventResult)
    modifies buffer
    ensures var o := ApplyEventOutcome(engine.configOptions, x, old(buffer.Content()), old(buffer.history), event);
      && r == o.result
      && buffer.Content() == o.content
      && buffer.history == PushAll(x.history, old(buffer.history), o.pushed)
  {
    if engine.configOptions.editMode.ReadOnly? {
      if !MatchesAnyOfTheseKeyPresses(event, ReadOnlyNavigationKeys) {
        return NotApplied;
      }
    }
    var converted := x.tryFrom(event);
    if converted.Err? {
      return NotApplied;
    }
    var editorEvent := converted.value;
    ghost var before := buffer.Content();
    ghost var initial := buffer.history;
    ghost var first: seq<EditorContent> := [];
    if x.history.isEmpty(buffer.history) {
      buffer.PushHistory(x.history);
      first := [before];
    }
    assert buffer.history == PushAll(x.history, initial, first);
    buffer.Update(c => x.applyEditorEvent(editorEvent, c));
    ghost var second: seq<EditorContent> := [];
    if PushesHistory(editorEvent) {
      second := [buffer.Content()];
      buffer.PushHistory(x.history);
    }
    assert buffer.history == PushAll(x.history, PushAll(x.history, initial, first), second);
    PushAllAppend(x.history, initial, first, second);
    r := Applied;
  }

  // ---------------------------------------------------------------------
  // render_content
  // ---------------------------------------------------------------------

  /** What `render_content` appends: the plain path when highlighting is
      off, otherwise the syntect path followed by the override path. */
  function ContentOps(args: RenderArgs, c: RenderCollaborators): seq<RenderOp>
  {
    match args.config.syntaxHighlight
    case Disable => NoSynHiPath.Content(args, c)
    case Enable(_) => SynHiSyntectPath.Content(args, c) + SynHiR3blPath.Content(args, c)
  }

  method RenderContent(args: RenderArgs, c: RenderCollaborators, ops: seq<RenderOp>) returns (out: seq<RenderOp>)
    ensures out == ops + ContentOps(args, c)
  {
    if !args.config.syntaxHighlight.Enable? {
      out := NoSynHiPath.RenderContent(args, c, ops);
      return;
    }
    out := SynHiSyntectPath.RenderContent(args, c, ops);
    out := SynHiR3blPath.RenderContent(args, c, out);
  }

  /** With highlighting on but no syntax for the buffer and an override
      parser that fails, the content is exactly what the plain path paints. */
  lemma HighlightingDegradesToPlain(args: RenderArgs, c: RenderCollaborators)
    requires args.config.syntaxHighlight.Enable?
    requires args.fileExtension.None? || c.trySyntaxRef(args.fileExtension.value).None?
    requires SynHiR3blPath.Parsed(args, c).Err?
    ensures ContentOps(args, c) == NoSynHiPath.Content(args, c)
  {
    SynHiSyntectPath.NoSyntaxMeansPlain(args, c);
  }

  // ---------------------------------------------------------------------
  // render_selection
  // ---------------------------------------------------------------------

  /** The range actually clipped: a selection that starts left of the
      horizontal scroll offset (`Overflow`) is made to start there. */
  function ScrollClippedRange(args: RenderArgs, c: RenderCollaborators, range: SelectionRange): SelectionRange
  {
    match c.locateScrollOffsetCol(range, args.ScrollOffset())
    case Underflow => range
    case Overflow => SelectionRange(args.ScrollOffset().colIndex, range.endDisplayColIndex)
  }

  /** The text painted for a selected row: none when the row has no line or
      its clipped slice is empty. */
  function SelectionSlice(args: RenderArgs, c: RenderCollaborators, row: nat, range: SelectionRange): (r: Option<string>)
    ensures r.None? <==>
      row >= |args.content.lines|
      || c.clipToRange(args.content.lines[row], ScrollClippedRange(args, c, range)) == []
    ensures r.Some? ==> r.value != [] && r.value == c.clipToRange(args.content.lines[row], ScrollClippedRange(args, c, range))
  {
    if row >= |args.content.lines| then None
    else
      var it := c.clipToRange(args.content.lines[row], ScrollClippedRange(args, c, range));
      if it == [] then None else Some(it)
  }

  /** Where the slice is painted: the row and the selection's own start
      column, both made relative to the scroll offset. */
  function SelectionPosition(args: RenderArgs, row: nat, range: SelectionRange): Position
  {
    Position(
      SaturatingSub(range.startDisplayColIndex, args.ScrollOffset().colIndex),
      SaturatingSub(row, args.ScrollOffset().rowIndex))
  }

  /** The instructions one selection-map entry contributes. */
  function SelectionEntryOps(args: RenderArgs, c: RenderCollaborators, row: nat, range: SelectionRange): (r: seq<RenderOp>)
    ensures |r| == 0 || |r| == 4
  {
    match SelectionSlice(args, c, row, range)
    case None => []
    case Some(slice) =>
      [ MoveCursorPositionRelTo(args.Origin(), SelectionPosition(args, row, range)),
        ApplyColors(Some(c.selectionStyle)),
        PaintTextWithAttributes(slice, None),
        ResetColor ]
  }

  function SelectionRenderer(args: RenderArgs, c: RenderCollaborators): (r: (nat, (nat, SelectionRange)) -> seq<RenderOp>)
    ensures forall i, e :: r(i, e) == SelectionEntryOps(args, c, e.0, e.1)
  {
    (i: nat, e: (nat, SelectionRange)) => SelectionEntryOps(args, c, e.0, e.1)
  }

  /** What `render_selection` appends, entries in selection-map order. */
  function SelectionOps(args: RenderArgs, c: RenderCollaborators): seq<RenderOp>
  {
    Enumerated(args.content.selectionMap.entries, SelectionRenderer(args, c))
  }

  /** `render_selection`. */
  method RenderSelection(args: RenderArgs, c: RenderCollaborators, ops: seq<RenderOp>) returns (out: seq<RenderOp>)
    ensures out == ops + SelectionOps(args, c)
  {
    var entries := args.content.selectionMap.entries;
    out := ops;
    for i := 0 to |entries|
      invariant out == ops + Enumerated(entries[..i], SelectionRenderer(args, c))
    {
      EnumeratedSnoc(entries, i, SelectionRenderer(args, c));
      var (rowIndex, range) := entries[i];
      var lines := args.content.lines;
      var scrollOffset := args.ScrollOffset();
      if rowIndex < |lines| {
        var line := lines[rowIndex];
        var selection;
        match c.locateScrollOffsetCol(range, scrollOffset) {
          case Underflow =>
            var it := c.clipToRange(line, range);
            if it == [] {
              continue;
            }
            selection := it;
          case Overflow =>
            var scrollOffsetClippedRange := SelectionRange(scrollOffset.colIndex, range.endDisplayColIndex);
            var it := c.clipToRange(line, scrollOffsetClippedRange);
            if it == [] {
              continue;
            }
            selection := it;
        }
        assert SelectionSlice(args, c, rowIndex, range) == Some(selection);
        var position := Position(
          SaturatingSub(range.startDisplayColIndex, scrollOffset.colIndex),
          SaturatingSub(rowIndex, scrollOffset.rowIndex));
        out := out + [
          MoveCursorPositionRelTo(args.Origin(), position),
          ApplyColors(Some(c.selectionStyle)),
          PaintTextWithAttributes(selection, None),
          ResetColor];
      }
    }
    assert entries[..|entries|] == entries;
  }

  /** Selection instructions come four per painted entry, at most one group
      per entry, and every text they paint is non-empty and unstyled. */
  lemma {:induction false} SelectionOpsShape(args: RenderArgs, c: RenderCollaborators, entries: seq<(nat, SelectionRange)>)
    ensures var ops := Enumerated(entries, SelectionRenderer(args, c));
      && |ops| % 4 == 0 && |ops| <= 4 * |entries|
      && forall op :: op in ops && op.PaintTextWithAttributes? ==> op.attributes.None? && op.text != []
    decreases |entries|
  {
    if entries != [] {
      SelectionOpsShape(args, c, entries[..|entries| - 1]);
    }
  }

  /** A slice is painted exactly when some entry of the selection map has a
      line and yields that slice. */
  lemma {:induction false} SelectionPaintsExactly(args: RenderArgs, c: RenderCollaborators, entries: seq<(nat, SelectionRange)>, s: string)
    ensures PaintTextWithAttributes(s, None) in Enumerated(entries, SelectionRenderer(args, c))
      <==> exists k :: 0 <= k < |entries| && SelectionSlice(args, c, entries[k].0, entries[k].1) == Some(s)
    decreases |entries|
  {
    if entries != [] {
      var front := entries[..|entries| - 1];
      var last := entries[|entries| - 1];
      SelectionPaintsExactly(args, c, front, s);
      assert forall k :: 0 <= k < |front| ==> front[k] == entries[k];
      if SelectionSlice(args, c, last.0, last.1) == Some(s) {
        assert SelectionEntryOps(args, c, last.0, last.1)[2] == PaintTextWithAttributes(s, None);
      }
      if exists k :: 0 <= k < |entries| && SelectionSlice(args, c, entries[k].0, entries[k].1) == Some(s) {
        var k :| 0 <= k < |entries| && SelectionSlice(args, c, entries[k].0, entries[k].1) == Some(s);
        if k < |front| {
          assert front[k] == entries[k];
        }
      }
    }
  }

  /** The group painted for entry `k` of the map: a move to the entry's row
      and start column relative to the scroll offset, the selection colours,
      the slice, a reset. */
  lemma SelectionEntryLayout(args: RenderArgs, c: RenderCollaborators, k: nat)
    requires k < |args.content.selectionMap.entries|
    requires SelectionSlice(args, c, args.content.selectionMap.entries[k].0, args.content.selectionMap.entries[k].1).Some?
    ensures var entries := args.content.selectionMap.entries;
      var (row, range) := entries[k];
      var start := ChunkStart(entries, SelectionRenderer(args, c), k);
      && start + 4 <= |SelectionOps(args, c)|
      && SelectionOps(args, c)[start..start + 4] ==
         [ MoveCursorPositionRelTo(args.Origin(),
             Position(SaturatingSub(range.startDisplayColIndex, args.ScrollOffset().colIndex),
                      SaturatingSub(row, args.ScrollOffset().rowIndex))),
           ApplyColors(Some(c.selectionStyle)),
           PaintTextWithAttributes(SelectionSlice(args, c, row, range).value, None),
           ResetColor ]
  {
    EnumeratedChunk(args.content.selectionMap.entries, SelectionRenderer(args, c), k);
  }
  /** The overlay is not clipped to the visible rows: a selected row above
      the scroll offset is painted on window row 0, over the first visible
      line, and one below the box is painted past its last row. */
  lemma SelectionIgnoresRowWindow(args: RenderArgs, c: RenderCollaborators, row: nat, range: SelectionRange)
    requires SelectionSlice(args, c, row, range).Some?
    ensures var ops := SelectionEntryOps(args, c, row, range);
      && |ops| == 4 && ops[0].MoveCursorPositionRelTo?
      && (row <= args.ScrollOffset().rowIndex ==> ops[0].position.rowIndex == 0)
      && (row > args.ScrollOffset().rowIndex + args.MaxDisplayRowCount() ==>
            ops[0].position.rowIndex > args.MaxDisplayRowCount())
  {
  }


  // ---------------------------------------------------------------------
  // render_caret
  // ---------------------------------------------------------------------

  /** The `reverse` attribute alone. */
  const ReverseStyle: Style := Style(None, None, true)

  /** What `render_caret` appends: nothing without focus; otherwise the
      grapheme under the caret (or the default cursor character) painted in
      reverse at the raw caret position, the cursor left there, a reset. */
  function CaretOps(args: RenderArgs, c: RenderCollaborators): (r: seq<RenderOp>)
    ensures r == [] <==> !args.hasFocus
    ensures args.hasFocus ==>
      && |r| == 4
      && r[0] == r[2] == MoveCursorPositionRelTo(args.Origin(), args.content.caret)
      && r[1].PaintTextWithAttributes? && r[1].attributes == Some(ReverseStyle)
      && (c.stringAtCaret(args.content).Some? ==> r[1].text == c.stringAtCaret(args.content).value)
      && (c.stringAtCaret(args.content).None? ==> r[1].text == [c.defaultCursorChar])
      && r[3] == ResetColor
  {
    if !args.hasFocus then []
    else
      var strAtCaret :=
        match c.stringAtCaret(args.content)
        case Some(grapheme) => grapheme
        case None => [c.defaultCursorChar];
      [ MoveCursorPositionRelTo(args.Origin(), args.content.caret),
        PaintTextWithAttributes(strAtCaret, Some(ReverseStyle)),
        MoveCursorPositionRelTo(args.Origin(), args.content.caret),
        ResetColor ]
  }

  // ---------------------------------------------------------------------
  // render_empty_state and render_engine
  // ---------------------------------------------------------------------

  const NoContentText: string := "No content added"
  const FocusMarker: string := "\U{1F440}"
  const NoContentStyle: Style := Style(Some(Basic(Red)), None, false)

  /** `render_empty_state`: the placeholder message at the origin, and, only
      with focus, the marker one row below (as far as the box allows). */
  function EmptyStatePipeline(args: RenderArgs, c: RenderCollaborators): (p: RenderPipeline)
    ensures forall i :: 0 <= i < |p.batches| ==> p.batches[i].0 == Normal
    ensures |Flatten(p.batches)| == if args.hasFocus then 7 else 4
    ensures Flatten(p.batches)[..4] ==
      [ MoveCursorPositionRelTo(args.Origin(), Position(0, 0)),
        ApplyColors(Some(NoContentStyle)),
        PaintTextWithAttributes(NoContentText, None),
        ResetColor ]
    ensures args.hasFocus ==>
      Flatten(p.batches)[4..] ==
        [ MoveCursorPositionRelTo(args.Origin(), c.addRowWithBounds(Position(0, 0), 1, args.MaxDisplayRowCount())),
          PaintTextWithAttributes(FocusMarker, None),
          ResetColor ]
  {
    var pipeline := RenderPipeline([]).Push(Normal,
      [ MoveCursorPositionRelTo(args.Origin(), Position(0, 0)),
        ApplyColors(Some(NoContentStyle)),
        PaintTextWithAttributes(NoContentText, None),
        ResetColor ]);
    assert Flatten(pipeline.batches) == Flatten([]) + pipeline.batches[0].1;
    if args.hasFocus then
      var p := pipeline.Push(Normal,
        [ MoveCursorPositionRelTo(args.Origin(), c.addRowWithBounds(Position(0, 0), 1, args.MaxDisplayRowCount())),
          PaintTextWithAttributes(FocusMarker, None),
          ResetColor ]);
      assert p.batches[..1] == pipeline.batches;
      p
    else pipeline
  }

  /** What `render_engine` returns for the given render arguments. */
  function EnginePipeline(args: RenderArgs, c: RenderCollaborators): (p: RenderPipeline)
    ensures |args.content.lines| == 0 ==> p == EmptyStatePipeline(args, c)
    ensures |args.content.lines| > 0 ==>
      p.batches == [(Normal, ContentOps(args, c) + SelectionOps(args, c) + CaretOps(args, c))]
  {
    if args.content.lines == [] then EmptyStatePipeline(args, c)
    else RenderPipeline([]).Push(Normal, ContentOps(args, c) + SelectionOps(args, c) + CaretOps(args, c))
  }

  /** On a non-empty buffer everything is painted in one batch, content
      first and, with focus, the caret's four instructions last, so caret and
      selection are drawn over the content. */
  lemma CaretDrawnLast(args: RenderArgs, c: RenderCollaborators)
    requires |args.content.lines| > 0
    ensures var all := Flatten(EnginePipeline(args, c).batches);
      && all[..|ContentOps(args, c)|] == ContentOps(args, c)
      && (args.hasFocus ==>
            |all| >= 4 && all[|all| - 4..] == CaretOps(args, c)
            && all[|all| - 3] == PaintTextWithAttributes(all[|all| - 3].text, Some(ReverseStyle)))
  {
    var p := EnginePipeline(args, c);
    var all := ContentOps(args, c) + SelectionOps(args, c) + CaretOps(args, c);
    assert p.batches[..0] == [];
    assert Flatten(p.batches) == all;
    assert all[..|ContentOps(args, c)|] == ContentOps(args, c);
    if args.hasFocus {
      assert all[|all| - 4..] == CaretOps(args, c);
      assert all[|all| - 3] == CaretOps(args, c)[1];
    }
  }

  /** The body of `render_engine` once the box is stored. */
  method RenderPipelineFor(args: RenderArgs, c: RenderCollaborators) returns (p: RenderPipeline)
    ensures p == EnginePipeline(args, c)
  {
    if args.content.lines == [] {
      return EmptyStatePipeline(args, c);
    }
    var ops: seq<RenderOp> := [];
    ops := RenderContent(args, c, ops);
    assert ops == ContentOps(args, c);
    ops := RenderSelection(args, c, ops);
    ops := ops + CaretOps(args, c);
    p := RenderPipeline([]).Push(Normal, ops);
  }

  /** `render_engine`: remember the box, then paint. */
  method RenderEngine(engine: EditorEngine, buffer: EditorBuffer, box: EditorBox, hasFocus: bool, c: RenderCollaborators)
    returns (p: RenderPipeline)
    modifies engine
    ensures engine.currentBox == box
    ensures p == EnginePipeline(RenderArgs(buffer.Content(), buffer.maybeFileExtension, engine.configOptions, box, hasFocus), c)
  {
    engine.currentBox := box;
    var args := RenderArgs(buffer.Content(), buffer.maybeFileExtension, engine.configOptions, engine.currentBox, hasFocus);
    p := RenderPipelineFor(args, c);
  }
}
