# Terminal text editor core: buffer, event gate, render pipeline, clipboard

This project models the core of the r3bl terminal text-editor component in Dafny, and proves properties of the model. The model covers three parts.

- **The older editor buffer** (`legacy_editor_buffer.dfy`). It holds lines, a display caret and a scroll offset.
  - Every write goes through one of two funnels, `MutateLines` or `MutateCaret`. Each funnel re-validates the caret after the write.
  - A line-buffer operation may also return without writing; then nothing changes.
  - Editing commands (`EditorBufferCommand`) are dispatched one at a time or as a list.
  - Input events convert to commands by a fixed table of plain key presses.
- **The editor engine API** (`editor_engine_api.dfy`, with `editor_engine.dfy`, `no_syn_hi_path.dfy`, `syn_hi_syntect_path.dfy` and `syn_hi_r3bl_path.dfy`).
  - `apply_event` has three steps:
    - the read-only gate;
    - the conversion to an editor event;
    - the history policy: snapshot first on an empty history, then again after each content-changing event and after `Copy`.
  - `render_engine` produces a render pipeline. On an empty buffer it is the empty state: a placeholder and, with focus, a marker. Otherwise it is one batch holding:
    - the content. With highlighting off, the plain path paints it. With highlighting on, two paths paint in sequence: the syntect path (with a per-line plain fallback), then the override highlighter. When the override's parse succeeds, it paints the window of the parsed lines over the same rows (`SynHiR3blPath.LineChunk`); the parsed lines need not match the buffer's lines one for one. When it fails, the failure is swallowed and the override adds nothing;
    - the selection overlay;
    - the caret.
- **Clipboard support** (`clipboard_support.dfy`).
  - `copy` joins with `"\n"` the clipped slices of the selected rows that have a line, in ascending row order.
  - `paste` inserts the clipboard text at the caret. A text without a newline is inserted whole. Otherwise the text is inserted line by line, with a new line between lines.

Shared vocabulary lives in `common.dfy` (`Option`, `Result`, `Position`, saturating `ChUnit` subtraction), `input_event.dfy` (input events and key presses) and `render_ops.dfy`. `render_ops.dfy` holds the paint instructions, the pipeline, and `Enumerated`, the fold every render loop performs. `editor_buffer.dfy` holds the newer buffer that the engine renders and the clipboard reads and writes.

Code whose source is not part of this model is passed in as arrow-typed fields of collaborator datatypes, and only the core's use of it is modelled. This covers:
- Unicode clipping (`clip_to_width`, `clip_to_range`, `string_at_caret`);
- the line-buffer operations and the caret validator;
- the highlighters (`syntect`, `try_parse_and_highlight`, `from_syntect_to_tui`, span clipping and rendering);
- `add_row_with_bounds`;
- the history operations;
- `EditorEvent::try_from` and `apply_editor_event`;
- `EditorEngineInternalApi::insert_str_at_caret` and `insert_new_line_at_caret`, which paste calls.

Each render loop is a method that appends to the instruction list. Each is proved equal to the list plus a specification function, and the lemmas state what that function paints. Each state-changing operation is a method on a class (`EditorBuffer`, `EditorEngine`, `SystemClipboard`), proved against a value-level specification.

Points where the code behaves differently from what a reader might expect:
- The content loops break only when the row index is strictly greater than the box's row count. They therefore paint up to `max_display_row_count + 1` rows, window rows `0..=max_display_row_count`. `Window`, `ContentLayout` and `ContentMovesInWindow` state this.
- The selection overlay is not clipped to the visible rows. Its row is the selected row minus the scroll row, and `ChUnit` subtraction saturates, so a selected row above the scroll offset is painted on window row 0, over the first visible line. A selected row below the box is painted past its last row. `SelectionIgnoresRowWindow` states both.
- The selection overlay visits rows in the selection map's iteration order, which the code does not sort. Only `copy` sorts its rows.
- `apply_event` also snapshots the history after `Copy`.

## Model

| member | source | states |
|---|---|---|
| LegacyEditorBuffer.TryFrom | src/tui/ed/editor_buffer.rs:188-215 | A conversion succeeds exactly for the plain keys of the table: character, Enter, Delete, Backspace and the four arrows. Its command is the one whose key (`KeyFor`) is the event. Every other event, including every key pressed with modifiers, is an error carrying "Invalid input event: ". |
| LegacyEditorBuffer.TryConvertInputEvent | src/tui/ed/editor_buffer.rs:176-182 | `Some(c)` exactly when the conversion is `Ok(c)`, and `None` exactly when it fails. Equivalently, `Some(c)` exactly when `c`'s key is the event. |
| LegacyEditorBuffer.KeyRoundTrip | src/tui/ed/editor_buffer.rs:188-213 | Every command that has a key converts back from that key (the inverse direction of the table). |
| LegacyEditorBuffer.Funnelled | src/tui/ed/editor_buffer.rs:60-68 | A funnelled write keeps the written lines and leaves a caret the validator produced, so the caret is valid whenever the validator is sound. |
| LegacyEditorBuffer.Step | src/tui/ed/editor_buffer.rs:88-145 | Each command goes to its one line-buffer operation. If that operation makes no write, the document is unchanged. If it writes, the write ends in the validator, so the caret is valid afterwards. Either way a valid caret stays valid. A caret move leaves the lines as they were, because caret moves are assumed to write only the caret (see `LegacyEditorBuffer.LineBufferOps` under Left out). |
| LegacyEditorBuffer.RunAppend | src/tui/ed/editor_buffer.rs:109-113 | Applying a list of commands is applying its two halves in turn. |
| LegacyEditorBuffer.RunSingle | src/tui/ed/editor_buffer.rs:109-113 | A one-command list does what `apply_command` does. |
| LegacyEditorBuffer.RunKeepsValid | src/tui/ed/editor_buffer.rs:60-68 | A valid caret stays valid through any list of commands. A list whose first command writes ends with a valid caret, whatever the state before. |
| LegacyEditorBuffer.EditorBuffer.Default | src/tui/ed/editor_buffer.rs:30-43 | The default buffer has no lines, caret and scroll offset at the origin, and is empty. |
| LegacyEditorBuffer.EditorBuffer.IsEmpty | src/tui/ed/editor_buffer.rs:120 | Empty exactly when there are no lines. |
| LegacyEditorBuffer.EditorBuffer.GetCaret | src/tui/ed/editor_buffer.rs:70 | The stored caret. |
| LegacyEditorBuffer.EditorBuffer.MutateLines | src/tui/ed/editor_buffer.rs:60-63 | The mutator runs on lines and caret, then the caret is validated (valid afterwards if the validator is sound). The scroll offset is untouched. |
| LegacyEditorBuffer.EditorBuffer.MutateCaret | src/tui/ed/editor_buffer.rs:65-68 | The mutator runs on the caret only, then the caret is validated. Lines and scroll offset are untouched. |
| LegacyEditorBuffer.EditorBuffer.WriteLines | src/tui/ed/editor_buffer.rs:60-63 | The write a line-buffer operation hands over, if any, goes through the line funnel; with no write nothing changes. The scroll offset is untouched. |
| LegacyEditorBuffer.EditorBuffer.InsertNewLine | src/tui/ed/editor_buffer.rs:122 | The new state is `Step` of `InsertNewLine`, reached through the line funnel. |
| LegacyEditorBuffer.EditorBuffer.InsertChar | src/tui/ed/editor_buffer.rs:125-127 | Inserting a character is the same operation as inserting the one-character string. |
| LegacyEditorBuffer.EditorBuffer.InsertStr | src/tui/ed/editor_buffer.rs:130 | The new state is `Step` of `InsertString(chunk)`: the line-buffer insertion through the funnel. |
| LegacyEditorBuffer.EditorBuffer.MoveCaret | src/tui/ed/editor_buffer.rs:134-141 | The caret move, if it writes, goes through the caret funnel; otherwise nothing changes. Lines stay, because caret moves are assumed to write only the caret. |
| LegacyEditorBuffer.EditorBuffer.Delete | src/tui/ed/editor_buffer.rs:143 | The new state is `Step` of `Delete`. |
| LegacyEditorBuffer.EditorBuffer.Backspace | src/tui/ed/editor_buffer.rs:145 | The new state is `Step` of `Backspace`. |
| LegacyEditorBuffer.EditorBuffer.ApplyCommand | src/tui/ed/editor_buffer.rs:88-97 | Each variant is dispatched to its one operation. The new state is `Step` of the command. |
| LegacyEditorBuffer.EditorBuffer.ApplyCommands | src/tui/ed/editor_buffer.rs:109-113 | The new state is the left fold of `Step` over the commands, in list order. |
| EngineEditorBuffer.SelectionMap.Get | tui/src/tui/editor/editor_buffer/editor_buffer_clipboard_support.rs:41 | A range is found exactly for a selected row, and it is that row's range in the map. |
| EngineEditorBuffer.SelectionMap.GetFindsEntry | tui/src/tui/editor/editor_buffer/editor_buffer_clipboard_support.rs:41 | With one entry per row, as in a hash map, looking up an entry's row finds that entry's range. |
| EngineEditorBuffer.SelectionMap.OrderedIndices | tui/src/tui/editor/editor_buffer/editor_buffer_clipboard_support.rs:37 | The selected rows, strictly ascending, each once, and no other row. |
| EngineEditorBuffer.PushAllAppend | tui/src/tui/editor/editor_engine/editor_engine_api.rs:71-107 | Pushing two lists of snapshots is pushing the first, then the second. |
| EngineEditorBuffer.EditorBuffer.IsEmpty | tui/src/tui/editor/editor_engine/editor_engine_api.rs:130 | Empty exactly when there are no lines. |
| EngineEditorBuffer.EditorBuffer.Update | tui/src/tui/editor/editor_engine/editor_engine_api.rs:75-79 | The content becomes the change of the old content. The history stays. |
| EngineEditorBuffer.EditorBuffer.InsertStrAtCaret | tui/src/tui/editor/editor_buffer/editor_buffer_clipboard_support.rs:69-75 | The content becomes the insertion of the text at the caret. The history stays, because the insert operation is assumed not to touch it (see `EngineEditorBuffer.EditingOps` under Left out). |
| EngineEditorBuffer.EditorBuffer.InsertNewLineAtCaret | tui/src/tui/editor/editor_buffer/editor_buffer_clipboard_support.rs:91-96 | The content becomes the new-line insertion at the caret. The history stays, because the insert operation is assumed not to touch it (see `EngineEditorBuffer.EditingOps` under Left out). |
| EngineEditorBuffer.EditorBuffer.PushHistory | tui/src/tui/editor/editor_engine/editor_engine_api.rs:72 | The current content is pushed onto the history. The content stays. |
| EditorEngine.Window | tui/src/tui/editor/editor_engine/editor_engine_api.rs:587-596 | The rows a skip-then-enumerate loop with a `>` break visits: none when the skip passes the end; otherwise `min(len - skip, max + 1)` rows, row `i` being `xs[skip + i]`. |
| NoSynHiPath.RenderContent | tui/src/tui/editor/editor_engine/editor_engine_api.rs:578-607 | The loop appends exactly the plain content: the window's lines, each rendered in turn. |
| NoSynHiPath.ContentLayout | tui/src/tui/editor/editor_engine/editor_engine_api.rs:609-655 | Four instructions per visible line, at most `max_display_row_count + 1` lines. The line at window row `i` is buffer line `scroll row + i`, painted as: move to (0, `i`), the box colours, the line clipped to (scroll col, max cols) in the box style, reset. |
| NoSynHiPath.ContentMovesInWindow | tui/src/tui/editor/editor_engine/editor_engine_api.rs:587-596 | Every move among the content instructions goes to column 0 of a window row at most `max_display_row_count` whose buffer line exists. |
| NoSynHiPath.LineNoSyntaxHighlight | tui/src/tui/editor/editor_engine/editor_engine_api.rs:632-655 | Three instructions: the box's computed colours, the line clipped to (scroll col, max cols) painted in the box style, and a colour reset. |
| NoSynHiPath.SingleLine | tui/src/tui/editor/editor_engine/editor_engine_api.rs:609-630 | Four instructions: the move to (0, the window row), then the plain line. |
| SynHiSyntectPath.TryGetSyntectHighlightedLine | tui/src/tui/editor/editor_engine/editor_engine_api.rs:560-572 | No highlighted line exactly when there is no file extension, no syntax for it, or the highlighter fails; otherwise the highlighter's spans. |
| SynHiSyntectPath.SingleLine | tui/src/tui/editor/editor_engine/editor_engine_api.rs:499-536 | Every line begins with the move to (0, its window row) and ends with a colour reset. |
| SynHiSyntectPath.RenderContent | tui/src/tui/editor/editor_engine/editor_engine_api.rs:468-497 | The loop appends exactly the syntect content over the same row window as the plain path. |
| SynHiSyntectPath.FallbackLine | tui/src/tui/editor/editor_engine/editor_engine_api.rs:515-534 | A line the highlighter gives nothing for is painted exactly as the plain path paints it. |
| SynHiSyntectPath.LineWithSyntect | tui/src/tui/editor/editor_engine/editor_engine_api.rs:538-553 | A highlighted line always ends with a colour reset. |
| SynHiSyntectPath.HighlightedLine | tui/src/tui/editor/editor_engine/editor_engine_api.rs:499-553 | A line the highlighter gives spans for is painted as the move to its row, then those spans converted and clipped to the visible columns, then a colour reset. The box's own colours are not applied. |
| SynHiSyntectPath.NoSyntaxMeansPlain | tui/src/tui/editor/editor_engine/editor_engine_api.rs:560-566 | Without a file extension, or without a syntax for it, the whole syntect content equals the plain content. |
| SynHiSyntectPath.LineChunk | tui/src/tui/editor/editor_engine/editor_engine_api.rs:477-510 | Each visible line's instructions sit contiguous and in row order, starting with the move to (0, its window row). |
| SynHiR3blPath.SingleLine | tui/src/tui/editor/editor_engine/editor_engine_api.rs:445-462 | A highlighted line begins with the move to its row and ends with a colour reset. |
| SynHiR3blPath.Content | tui/src/tui/editor/editor_engine/editor_engine_api.rs:399-443 | A parse failure paints nothing. |
| SynHiR3blPath.TryRenderContent | tui/src/tui/editor/editor_engine/editor_engine_api.rs:399-443 | An error exactly when parsing fails, with nothing appended before it. Otherwise the loop appends the parsed lines' window. |
| EditorEngine.RenderWindow | tui/src/tui/editor/editor_engine/editor_engine_api.rs:587-605 | The loop shared by all three `render_content` paths (also lines 477-496 and 423-441) appends, after what was there, each line of the row window as the path paints it at its window row, in row order. |
| SynHiR3blPath.RenderContent | tui/src/tui/editor/editor_engine/editor_engine_api.rs:375-391 | The override content is appended, and a parse failure is swallowed: the instructions are left as they were. |
| SynHiR3blPath.LineChunk | tui/src/tui/editor/editor_engine/editor_engine_api.rs:423-462 | At most `max_display_row_count + 1` parsed lines are painted. Parsed line `scroll row + i` is painted contiguously, starting with the move to (0, `i`). |
| EditorEngineApi.PassesEditModeGate | tui/src/tui/editor/editor_engine/editor_engine_api.rs:39-68 | A read-write editor passes every event. A read-only one passes exactly the plain Up, Down, Left, Right, Home, End, PageUp and PageDown keys, with no modifiers. |
| EditorEngineApi.PushesHistory | tui/src/tui/editor/editor_engine/editor_engine_api.rs:81-107 | A second snapshot follows exactly the eight listed variants. No second snapshot follows the other variants: the navigation events (Home, End, PageUp, PageDown, caret moves), Resize, Select, Undo and Redo, a list that is reconstructed (see `EditorEngine.EditorEvent` under Left out). |
| EditorEngineApi.ApplyEventOutcome | tui/src/tui/editor/editor_engine/editor_engine_api.rs:32-111 | Applied exactly when the gate passes and the conversion succeeds. Not applied: content unchanged and nothing pushed. Applied: the content is the applied event; one push of the pre-edit content if the history was empty, and one push of the post-edit content after InsertChar, InsertString, InsertNewLine, Delete, Backspace, Copy, Paste or Cut; no other push. |
| EditorEngineApi.ReadOnlyAppliesOnlyNavigation | tui/src/tui/editor/editor_engine/editor_engine_api.rs:39-67 | A read-only editor applies only plain navigation keys. Any other event leaves buffer content and history unchanged. |
| EditorEngineApi.ApplyEvent | tui/src/tui/editor/editor_engine/editor_engine_api.rs:32-111 | Result, new content and new history (the old one with the outcome's snapshots pushed in order) are those of `ApplyEventOutcome`. |
| EditorEngineApi.RenderContent | tui/src/tui/editor/editor_engine/editor_engine_api.rs:146-190 | Appends the plain content when highlighting is off, otherwise the syntect content followed by the override content. |
| EditorEngineApi.HighlightingDegradesToPlain | tui/src/tui/editor/editor_engine/editor_engine_api.rs:157-189 | With highlighting on, no syntax for the buffer and a failing override parser, the content is exactly the plain content. |
| EditorEngineApi.SelectionSlice | tui/src/tui/editor/editor_engine/editor_engine_api.rs:208-232 | No slice exactly when the row has no line or the clipped text is empty. The clip uses the row's range, or in the Overflow case that range starting at the scroll column. |
| EditorEngineApi.SelectionEntryOps | tui/src/tui/editor/editor_engine/editor_engine_api.rs:244-275 | An entry contributes four instructions or none. |
| EditorEngineApi.RenderSelection | tui/src/tui/editor/editor_engine/editor_engine_api.rs:193-278 | The loop appends, in selection-map order, each entry's instructions, skipping rows with no line or an empty slice. |
| EditorEngineApi.SelectionOpsShape | tui/src/tui/editor/editor_engine/editor_engine_api.rs:200-276 | The overlay has four instructions per painted entry, at most one group per entry, and every text it paints is non-empty and unstyled. |
| EditorEngineApi.SelectionPaintsExactly | tui/src/tui/editor/editor_engine/editor_engine_api.rs:200-276 | A text is painted by the overlay exactly when some entry of the map yields it as its slice. |
| EditorEngineApi.SelectionEntryLayout | tui/src/tui/editor/editor_engine/editor_engine_api.rs:244-275 | A painted entry's group is: move to (start col − scroll col, row − scroll row), the selection colours, the slice, reset. |
| EditorEngineApi.SelectionIgnoresRowWindow | tui/src/tui/editor/editor_engine/editor_engine_api.rs:244-252 | A painted entry for a row at or above the scroll offset moves to window row 0. One for a row below the box moves past its last row. |
| EditorEngineApi.CaretOps | tui/src/tui/editor/editor_engine/editor_engine_api.rs:287-312 | Nothing without focus. With focus: move to the raw caret, paint the grapheme at the caret (or the default cursor character) in reverse, move to the caret again, reset. |
| EditorEngineApi.EmptyStatePipeline | tui/src/tui/editor/editor_engine/editor_engine_api.rs:315-358 | All batches are Normal. Unfocused: exactly 4 instructions (move to (0,0), red, "No content added", reset). Focused: 3 more (move to `add_row_with_bounds(1, rows)`, the marker, reset). |
| EditorEngineApi.EnginePipeline | tui/src/tui/editor/editor_engine/editor_engine_api.rs:130-142 | Empty buffer: exactly the empty-state pipeline. Otherwise one Normal batch of content, then selection, then caret instructions. |
| EditorEngineApi.CaretDrawnLast | tui/src/tui/editor/editor_engine/editor_engine_api.rs:130-142 | On a non-empty buffer the content comes first and, with focus, the caret's four instructions come last, its paint in reverse. |
| EditorEngineApi.RenderPipelineFor | tui/src/tui/editor/editor_engine/editor_engine_api.rs:130-142 | The pipeline built step by step (empty state, or content, selection and caret into one Normal batch) is exactly `EnginePipeline`. |
| EditorEngineApi.RenderEngine | tui/src/tui/editor/editor_engine/editor_engine_api.rs:114-144 | The engine remembers the new box, and the pipeline is `EnginePipeline` of the buffer, the configuration, that box and the focus. |
| ClipboardSupport.Split | tui/src/tui/editor/editor_buffer/editor_buffer_clipboard_support.rs:79-80 | A split has at least one piece and no piece holds a newline. |
| ClipboardSupport.SplitCount | tui/src/tui/editor/editor_buffer/editor_buffer_clipboard_support.rs:79-80 | A split has exactly one piece more than the text has newlines. |
| ClipboardSupport.SplitThenJoin | tui/src/tui/editor/editor_buffer/editor_buffer_clipboard_support.rs:79 | Joining the pieces of a split with "\n" gives the text back. |
| ClipboardSupport.JoinThenSplit | tui/src/tui/editor/editor_buffer/editor_buffer_clipboard_support.rs:145 | Splitting what was joined gives the pieces back, for at least one newline-free piece. |
| ClipboardSupport.SystemClipboard.TryToPutContentIntoClipboard | tui/src/tui/editor/editor_buffer/editor_buffer_clipboard_support.rs:143-163 | Success exactly when the clipboard is reachable, and then it holds the pieces joined with "\n". On failure nothing changes. |
| ClipboardSupport.SystemClipboard.TryToGetContentFromClipboard | tui/src/tui/editor/editor_buffer/editor_buffer_clipboard_support.rs:167-172 | Success exactly when the clipboard is reachable, with its contents. |
| ClipboardSupport.IncludedRows | tui/src/tui/editor/editor_buffer/editor_buffer_clipboard_support.rs:40-46 | The included rows are exactly the visited rows that have a line. |
| ClipboardSupport.IncludedRowsAscending | tui/src/tui/editor/editor_buffer/editor_buffer_clipboard_support.rs:36-42 | Visiting rows in ascending order keeps the included rows ascending. |
| ClipboardSupport.CopiedPiecesMatchRows | tui/src/tui/editor/editor_buffer/editor_buffer_clipboard_support.rs:40-47 | One piece per included row, in order. Each piece is the row's line clipped to its range, so a row without a line contributes nothing. |
| ClipboardSupport.CopiedTextLayout | tui/src/tui/editor/editor_buffer/editor_buffer_clipboard_support.rs:29-49 | The copied text is the "\n"-join of the clipped lines of the selected rows that have a line, in strictly ascending row order. |
| ClipboardSupport.Copy | tui/src/tui/editor/editor_buffer/editor_buffer_clipboard_support.rs:29-62 | Only the clipboard may change, and only when reachable: it then holds the copied text. A write failure is ignored. |
| ClipboardSupport.CollectPieces | tui/src/tui/editor/editor_buffer/editor_buffer_clipboard_support.rs:34-47 | The pieces collected over the ordered selected rows are `CopiedPieces`: per row with a range and a line, that line clipped to its range, ascending. |
| ClipboardSupport.LoopActionsLayout | tui/src/tui/editor/editor_buffer/editor_buffer_clipboard_support.rs:81-98 | The line loop inserts line `i` at step `2 i` and a new line after every line but the last. |
| ClipboardSupport.NewLineCount | tui/src/tui/editor/editor_buffer/editor_buffer_clipboard_support.rs:89-97 | The line loop inserts one new line fewer than there are lines. |
| ClipboardSupport.PasteLayout | tui/src/tui/editor/editor_buffer/editor_buffer_clipboard_support.rs:64-99 | Paste inserts the split pieces in order with a new line between each two, so it inserts as many new lines as the text has newlines. A text without one is a single insertion of the whole text. |
| ClipboardSupport.CopyPasteRoundTrip | tui/src/tui/editor/editor_buffer/editor_buffer_clipboard_support.rs:64-99 | Pasting what copy joined inserts the copied pieces in order, with a new line between each two. |
| ClipboardSupport.Paste | tui/src/tui/editor/editor_buffer/editor_buffer_clipboard_support.rs:64-129 | A read failure changes nothing. Otherwise the content is the paste actions applied in order. The history is untouched, because the insert operations are assumed not to touch it (see `EngineEditorBuffer.EditingOps` under Left out). |

## Left out

- Both `EditorBuffer` types: the `lolcat` field and the `Debug` formatting (floating point, display only) are not modelled.
- The engine's own buffer type is not part of this model. `EngineEditorBuffer.EditorBuffer` has the fields the core reads: lines, caret (raw), scroll offset, selection map, history and file extension.
- LegacyEditorBuffer.TryFrom: the error text omits the event's debug rendering and is only the fixed prefix.
- LegacyEditorBuffer.LineBufferOps: the line-buffer operations, the caret moves and the validator are abstract.
  - Their changes to the scroll offset are not modelled; the funnels leave it as it was.
  - The caret moves are assumed to write only the caret, through the caret funnel. Their bodies are not part of this model, so "a caret move leaves the lines as they were" is a consequence of that assumption.
  - The validator and the validity test are assumed to read only the lines and the caret. The source hands them the whole buffer, so they could also read the scroll offset.
- EngineEditorBuffer.EditingOps: the insert operations called by paste are assumed to change only the buffer's content, never its history or the engine. The source passes them the whole buffer and the engine, and their bodies are not part of this model. So "the history stays" in `InsertStrAtCaret`, `InsertNewLineAtCaret` and `Paste` follows from that assumption, not from a source line.
- EditorEngine.EditorEvent: the source shows only the eight variants that `apply_event` names (Copy among them), not the enum's definition. The other variants (Home, End, PageUp, PageDown, MoveCaret, Resize, Select, Undo, Redo) are reconstructed. So `PushesHistory` is exact for the eight shown variants, and its "no snapshot" list holds only for the reconstructed rest.
- EngineEditorBuffer.History: `history::is_empty` and `history::push` are abstract, so undo and redo are not modelled.
- EditorEngineApi.ApplyEvent: `EditorEvent::try_from` and `apply_editor_event` are abstract. `apply_editor_event` is modelled on the buffer's content only, and its effects on the engine are not modelled.
- The highlighters are abstract: syntect (`HighlightLines`, syntax lookup, theme), `try_parse_and_highlight`, `from_syntect_to_tui` and span clipping/rendering. So are `clip_to_width`, `clip_to_range`, `string_at_caret`, `locate_scroll_offset_col` and `add_row_with_bounds`.
- `get_selection_style()` and `DEFAULT_CURSOR_CHAR` are parameters, not fixed constants.
- Focus is a boolean. The box is given by its id, origin, bounds and computed style; flex-box layout is not modelled.
- Positions and counts are unbounded naturals. `ChUnit` arithmetic is not limited to 16 bits. Its subtraction saturates at zero, which `SaturatingSub` models.
- The `CommonResult` wrappers of `apply_event` and `render_engine` always hold `Ok` in this code, so the model returns the value directly.
- Debug logging (`call_if_true!`, `log_debug`) and crossterm colouring of log text are not modelled.
- ClipboardSupport.SystemClipboard: the OS clipboard is a reachable flag plus its contents. A failure to create the clipboard context and a failure to read or write it are merged into "not reachable".
- The selection map's iteration order is a fixed sequence, so the model does not capture that a hash map's order may vary between runs.
