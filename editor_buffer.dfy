/** The newer generation of the editor buffer, the one the editor engine
    renders and the clipboard reads and writes: lines, caret, scroll offset,
    a selection map, an undo history and an optional file extension.

    The buffer's own editing operations are not part of this model; the ones
    the engine and the clipboard call are supplied as the arrow-typed fields
    of `EditingOps`, and `history::is_empty`/`history::push` as those of
    `HistoryOps`. */
module EngineEditorBuffer {
  import opened Common

  /** A half-open range of display columns selected on one row. */
  datatype SelectionRange = SelectionRange(startDisplayColIndex: nat, endDisplayColIndex: nat)

  predicate StrictlyAscending(s: seq<nat>)
  {
    forall i, j :: 0 <= i < j < |s| ==> s[i] < s[j]
  }

  /** Insert `x` into an ascending list of distinct rows, keeping it so. */
  function InsertAscending(s: seq<nat>, x: nat): (r: seq<nat>)
    requires StrictlyAscending(s)
    ensures StrictlyAscending(r)
    ensures forall y :: y in r <==> y in s || y == x
  {
    if s == [] then [x]
    else if x < s[0] then [x] + s
    else if x == s[0] then s
    else
      var rest := InsertAscending(s[1..], x);
      assert forall y :: y in rest ==> s[0] < y;
      var r := [s[0]] + rest;
      assert StrictlyAscending(r) by {
        forall i, j | 0 <= i < j < |r|
          ensures r[i] < r[j]
        {
          assert r[j] == rest[j - 1] && rest[j - 1] in rest;
          if i > 0 {
            assert r[i] == rest[i - 1];
          }
        }
      }
      r
  }

  /** The rows that have a selection, each with its range. The order of
      `entries` is the map's iteration order, which the source does not fix;
      a row appears at most once (`Wf`). */
  datatype SelectionMap = SelectionMap(entries: seq<(nat, SelectionRange)>)
  {
    predicate Wf()
    {
      forall i, j :: 0 <= i < j < |entries| ==> entries[i].0 != entries[j].0
    }

    function Rows(): set<nat>
    {
      set e | e in entries :: e.0
    }

    /** With one entry per row, as in a hash map, looking up the row of an
        entry finds that entry's range. */
    lemma {:induction false} GetFindsEntry(k: nat)
      requires Wf()
      requires k < |entries|
      ensures Get(entries[k].0) == Some(entries[k].1)
      decreases |entries|
    {
      if k > 0 {
        var rest := SelectionMap(entries[1..]);
        assert entries[0].0 != entries[k].0;
        assert rest.entries[k - 1] == entries[k];
        rest.GetFindsEntry(k - 1);
      }
    }

    /** `map.get(&row_index)`. */
    function Get(row: nat): (r: Option<SelectionRange>)
      ensures r.Some? <==> row in Rows()
      ensures r.Some? ==> (row, r.value) in entries
      decreases |entries|
    {
      if entries == [] then None
      else if entries[0].0 == row then Some(entries[0].1)
      else
        var rest := SelectionMap(entries[1..]);
        assert forall e :: e in rest.entries ==> e in entries;
        assert Rows() == {entries[0].0} + rest.Rows();
        rest.Get(row)
    }

    /** `get_ordered_indices`: the selected rows, ascending, each once. */
    function OrderedIndices(): (r: seq<nat>)
      ensures StrictlyAscending(r)
      ensures forall row :: row in r <==> row in Rows()
      decreases |entries|
    {
      if entries == [] then []
      else
        var rest := SelectionMap(entries[..|entries| - 1]);
        assert forall e :: e in rest.entries ==> e in entries;
        assert entries == rest.entries + [entries[|entries| - 1]];
        assert Rows() == rest.Rows() + {entries[|entries| - 1].0};
        InsertAscending(rest.OrderedIndices(), entries[|entries| - 1].0)
    }
  }

  /** Everything an editing operation reads and writes: the buffer without
      its history and its file extension. */
  datatype EditorContent = EditorContent(
    lines: seq<string>,
    caret: Position,
    scrollOffset: Position,
    selectionMap: SelectionMap)

  /** The undo/redo stack: snapshots and the index of the current one. */
  datatype History = History(versions: seq<EditorContent>, currentIndex: int)

  datatype HistoryOps = HistoryOps(
    isEmpty: History -> bool,
    push: (History, EditorContent) -> History)

  /** `EditorEngineInternalApi::insert_str_at_caret` and
      `insert_new_line_at_caret`. */
  datatype EditingOps = EditingOps(
    insertStrAtCaret: (EditorContent, string) -> EditorContent,
    insertNewLineAtCaret: EditorContent -> EditorContent)

  /** Pushing several snapshots, the first first. */
  function PushAll(h: HistoryOps, history: History, snapshots: seq<EditorContent>): History
    decreases |snapshots|
  {
    if snapshots == [] then history else PushAll(h, h.push(history, snapshots[0]), snapshots[1..])
  }

  /** Pushing two lists of snapshots is pushing the first, then the second. */
  lemma {:induction false} PushAllAppend(h: HistoryOps, history: History, first: seq<EditorContent>, second: seq<EditorContent>)
    ensures PushAll(h, history, first + second) == PushAll(h, PushAll(h, history, first), second)
    decreases |first|
  {
    if first != [] {
      assert (first + second)[0] == first[0];
      assert (first + second)[1..] == first[1..] + second;
      PushAllAppend(h, h.push(history, first[0]), first[1..], second);
    } else {
      assert first + second == second;
    }
  }

  class EditorBuffer {
    var lines: seq<string>
    var caret: Position
    var scrollOffset: Position
    var selectionMap: SelectionMap
    var history: History
    const maybeFileExtension: Option<string>

    /** Builds a buffer in a given state; it stands for no constructor of
        the source, whose buffer construction is not part of this model. */
    constructor (fileExtension: Option<string>, initialLines: seq<string>, initialHistory: History)
      ensures Content() == EditorContent(initialLines, Position(0, 0), Position(0, 0), SelectionMap([]))
      ensures history == initialHistory && maybeFileExtension == fileExtension
    {
      lines := initialLines;
      caret := Position(0, 0);
      scrollOffset := Position(0, 0);
      selectionMap := SelectionMap([]);
      history := initialHistory;
      maybeFileExtension := fileExtension;
    }

    function Content(): EditorContent
      reads this
    {
      EditorContent(lines, caret, scrollOffset, selectionMap)
    }

    function IsEmpty(): (r: bool)
      reads this
      ensures r <==> |Content().lines| == 0
    {
      lines == []
    }

    /** Replace the content by `change` of it; the history stays. */
    method Update(change: EditorContent -> EditorContent)
      modifies this
      ensures Content() == change(old(Content()))
      ensures history == old(history)
    {
      var next := change(Content());
      lines, caret, scrollOffset, selectionMap := next.lines, next.caret, next.scrollOffset, next.selectionMap;
    }

    method InsertStrAtCaret(ops: EditingOps, text: string)
      modifies this
      ensures Content() == ops.insertStrAtCaret(old(Content()), text)
      ensures history == old(history)
    {
      Update(c => ops.insertStrAtCaret(c, text));
    }

    method InsertNewLineAtCaret(ops: EditingOps)
      modifies this
      ensures Content() == ops.insertNewLineAtCaret(old(Content()))
      ensures history == old(history)
    {
      Update(ops.insertNewLineAtCaret);
    }

    /** `history::push(editor_buffer)`: snapshot the current content. */
    method PushHistory(h: HistoryOps)
      modifies this
      ensures history == h.push(old(history), old(Content()))
      ensures Content() == old(Content())
    {
      history := h.push(history, Content());
    }
  }
}
