/** Copy and paste between the editor buffer and the system clipboard. Copy
    joins the selected slices of the selected rows, in row order, with
    newlines; paste inserts the clipboard text at the caret, line by line with
    a new line between lines. */
module ClipboardSupport {
  import opened Common
  import opened EngineEditorBuffer

  const NewLine: char := '\n'

  // ---------------------------------------------------------------------
  // Joining and splitting on "\n"
  // ---------------------------------------------------------------------

  /** `join("\n")`: the pieces with one newline between neighbours. */
  function JoinLines(pieces: seq<string>): string
  {
    if pieces == [] then []
    else if |pieces| == 1 then pieces[0]
    else pieces[0] + [NewLine] + JoinLines(pieces[1..])
  }

  /** `split("\n")`: the text cut at every newline; a text without one is a
      single piece, and the empty text is one empty piece. */
  function Split(text: string): (pieces: seq<string>)
    ensures |pieces| >= 1
    ensures forall i :: 0 <= i < |pieces| ==> NewLine !in pieces[i]
  {
    if text == [] then [[]]
    else
      var rest := Split(text[1..]);
      if text[0] == NewLine then [[]] + rest
      else
        assert forall i :: 1 <= i < |rest| ==> rest[1..][i - 1] == rest[i];
        [[text[0]] + rest[0]] + rest[1..]
  }

  /** A split has one piece more than the text has newlines. */
  lemma {:induction false} SplitCount(text: string)
    ensures |Split(text)| == multiset(text)[NewLine] + 1
    decreases |text|
  {
    if text != [] {
      SplitCount(text[1..]);
      assert text == [text[0]] + text[1..];
      assert multiset(text) == multiset([text[0]]) + multiset(text[1..]);
    }
  }

  /** Joining a piece in front of at least one more piece puts a newline
      between them. */
  lemma JoinCons(piece: string, rest: seq<string>)
    requires |rest| > 0
    ensures JoinLines([piece] + rest) == piece + [NewLine] + JoinLines(rest)
  {
    assert ([piece] + rest)[1..] == rest;
  }

  /** Joining the pieces of a split gives the text back. */
  lemma {:induction false} SplitThenJoin(text: string)
    ensures JoinLines(Split(text)) == text
    decreases |text|
  {
    if text != [] {
      var rest := Split(text[1..]);
      SplitThenJoin(text[1..]);
      assert text == [text[0]] + text[1..];
      if text[0] == NewLine {
        JoinCons([], rest);
      } else if |rest| == 1 {
        assert rest == [rest[0]];
      } else {
        assert rest == [rest[0]] + rest[1..];
        JoinCons([text[0]] + rest[0], rest[1..]);
        JoinCons(rest[0], rest[1..]);
      }
    }
  }

  /** Splitting a text that starts with a newline-free prefix: the prefix
      lengthens the first piece and nothing else. */
  lemma {:induction false} SplitPrefix(prefix: string, tail: string)
    requires NewLine !in prefix
    ensures Split(prefix + tail) == [prefix + Split(tail)[0]] + Split(tail)[1..]
    decreases |prefix|
  {
    if prefix != [] {
      SplitPrefix(prefix[1..], tail);
      var pieces := Split(tail);
      var rest := Split(prefix[1..] + tail);
      assert rest[0] == prefix[1..] + pieces[0];
      assert rest[1..] == pieces[1..];
      assert prefix[0] != NewLine by { assert prefix[0] in prefix; }
      assert (prefix + tail)[1..] == prefix[1..] + tail;
      assert (prefix + tail)[0] == prefix[0];
      assert Split(prefix + tail) == [[prefix[0]] + rest[0]] + rest[1..];
      assert prefix == [prefix[0]] + prefix[1..];
      assert [prefix[0]] + rest[0] == prefix + pieces[0];
    } else {
      assert prefix + tail == tail;
      assert prefix + Split(tail)[0] == Split(tail)[0];
      assert Split(tail) == [Split(tail)[0]] + Split(tail)[1..];
    }
  }

  /** Splitting what was joined gives the pieces back, provided there is at
      least one piece and none holds a newline. */
  lemma {:induction false} JoinThenSplit(pieces: seq<string>)
    requires |pieces| > 0
    requires forall i :: 0 <= i < |pieces| ==> NewLine !in pieces[i]
    ensures Split(JoinLines(pieces)) == pieces
    decreases |pieces|
  {
    if |pieces| == 1 {
      SplitPrefix(pieces[0], []);
      assert pieces[0] + [] == pieces[0];
    } else {
      var rest := pieces[1..];
      JoinThenSplit(rest);
      var tail := [NewLine] + JoinLines(rest);
      assert tail[1..] == JoinLines(rest);
      assert Split(tail) == [[]] + rest;
      assert Split(tail)[0] == [] && Split(tail)[1..] == rest;
      assert NewLine !in pieces[0];
      SplitPrefix(pieces[0], tail);
      assert pieces[0] + [] == pieces[0];
      assert JoinLines(pieces) == pieces[0] + [NewLine] + JoinLines(rest);
      assert pieces[0] + [NewLine] + JoinLines(rest) == pieces[0] + tail;
      assert pieces == [pieces[0]] + rest;
    }
  }

  // ---------------------------------------------------------------------
  // The system clipboard
  // ---------------------------------------------------------------------

  const ClipboardUnavailable: string := "clipboard unavailable"

  /** The system clipboard: whether it can be reached, and what it holds. */
  class SystemClipboard {
    var available: bool
    var contents: string

    /** Builds a clipboard in a given state; it stands for no function of
        the source, which reaches the OS clipboard afresh on each call. */
    constructor (isAvailable: bool, initialContents: string)
      ensures available == isAvailable && contents == initialContents
    {
      available := isAvailable;
      contents := initialContents;
    }

    /** `try_to_put_content_into_clipboard`: store the pieces joined with
        newlines, or fail and change nothing. */
    method TryToPutContentIntoClipboard(pieces: seq<string>) returns (r: Result<(), string>)
      modifies this
      ensures r.Ok? <==> old(available)
      ensures available == old(available)
      ensures contents == if old(available) then JoinLines(pieces) else old(contents)
    {
      var content := JoinLines(pieces);
      if !available {
        return Err(ClipboardUnavailable);
      }
      contents := content;
      r := Ok(());
    }

    /** `try_to_get_content_from_clipboard`. */
    method TryToGetContentFromClipboard() returns (r: Result<string, string>)
      ensures r.Ok? <==> available
      ensures r.Ok? ==> r.value == contents
    {
      if !available {
        return Err(ClipboardUnavailable);
      }
      r := Ok(contents);
    }
  }

  // ---------------------------------------------------------------------
  // copy
  // ---------------------------------------------------------------------

  /** The rows among `rows` that have a line, in the same order. */
  function IncludedRows(lines: seq<string>, rows: seq<nat>): (r: seq<nat>)
    ensures forall x :: x in r <==> x in rows && x < |lines|
    ensures |r| <= |rows|
  {
    if rows == [] then []
    else
      var front := rows[..|rows| - 1];
      var row := rows[|rows| - 1];
      assert rows == front + [row];
      var included := IncludedRows(lines, front);
      if row < |lines| then included + [row] else included
  }

  /** Keeping only some rows of an ascending list leaves it ascending. */
  lemma {:induction false} IncludedRowsAscending(lines: seq<string>, rows: seq<nat>)
    requires StrictlyAscending(rows)
    ensures StrictlyAscending(IncludedRows(lines, rows))
    decreases |rows|
  {
    if rows != [] {
      var front := rows[..|rows| - 1];
      assert StrictlyAscending(front);
      IncludedRowsAscending(lines, front);
      var included := IncludedRows(lines, front);
      var row := rows[|rows| - 1];
      forall y | y in included
        ensures y < row
      {
        var k :| 0 <= k < |front| && front[k] == y;
      }
      if row < |lines| {
        var r := included + [row];
        forall i, j | 0 <= i < j < |r|
          ensures r[i] < r[j]
        {
          if j == |r| - 1 {
            assert r[i] in included;
          }
        }
      }
    }
  }

  /** The pieces `copy` collects while visiting `rows` in order: for a row
      with a selection range and a line, the line clipped to that range. */
  function CopiedPieces(lines: seq<string>, selectionMap: SelectionMap, clipToRange: (string, SelectionRange) -> string, rows: seq<nat>): seq<string>
  {
    if rows == [] then []
    else
      var pieces := CopiedPieces(lines, selectionMap, clipToRange, rows[..|rows| - 1]);
      var row := rows[|rows| - 1];
      match selectionMap.Get(row)
      case None => pieces
      case Some(range) => if row < |lines| then pieces + [clipToRange(lines[row], range)] else pieces
  }

  /** When every visited row has a selection range, the pieces are one per
      included row, in order, each the row's line clipped to its range. */
  lemma {:induction false} CopiedPiecesMatchRows(lines: seq<string>, selectionMap: SelectionMap, clipToRange: (string, SelectionRange) -> string, rows: seq<nat>)
    requires forall row :: row in rows ==> row in selectionMap.Rows()
    ensures var pieces := CopiedPieces(lines, selectionMap, clipToRange, rows);
      var included := IncludedRows(lines, rows);
      && |pieces| == |included|
      && forall i :: 0 <= i < |included| ==>
           included[i] < |lines| && selectionMap.Get(included[i]).Some?
           && pieces[i] == clipToRange(lines[included[i]], selectionMap.Get(included[i]).value)
    decreases |rows|
  {
    if rows != [] {
      var front := rows[..|rows| - 1];
      assert forall row :: row in front ==> row in rows;
      CopiedPiecesMatchRows(lines, selectionMap, clipToRange, front);
    }
  }

  /** What `copy` puts into the clipboard for a buffer's content. */
  function CopiedText(content: EditorContent, clipToRange: (string, SelectionRange) -> string): string
  {
    JoinLines(CopiedPieces(content.lines, content.selectionMap, clipToRange, content.selectionMap.OrderedIndices()))
  }

  /** The copied text: the selected rows that have a line, ascending, each
      line clipped to its row's range, joined with newlines. */
  lemma CopiedTextLayout(content: EditorContent, clipToRange: (string, SelectionRange) -> string)
    ensures var sel := content.selectionMap;
      var rows := IncludedRows(content.lines, sel.OrderedIndices());
      var pieces := CopiedPieces(content.lines, sel, clipToRange, sel.OrderedIndices());
      && StrictlyAscending(rows)
      && (forall row :: row in rows <==> row in sel.Rows() && row < |content.lines|)
      && |pieces| == |rows|
      && (forall i :: 0 <= i < |rows| ==>
            && rows[i] < |content.lines| && sel.Get(rows[i]).Some?
            && pieces[i] == clipToRange(content.lines[rows[i]], sel.Get(rows[i]).value))
      && CopiedText(content, clipToRange) == JoinLines(pieces)
  {
    var sel := content.selectionMap;
    IncludedRowsAscending(content.lines, sel.OrderedIndices());
    CopiedPiecesMatchRows(content.lines, sel, clipToRange, sel.OrderedIndices());
  }

  /** `clipboard_support::copy`: the buffer is only read; a failure to write
      the clipboard is ignored. */
  method Copy(buffer: EditorBuffer, clipboard: SystemClipboard, clipToRange: (string, SelectionRange) -> string)
    modifies clipboard
    ensures clipboard.available == old(clipboard.available)
    ensures clipboard.contents ==
      if old(clipboard.available) then CopiedText(buffer.Content(), clipToRange) else old(clipboard.contents)
  {
    var pieces := CollectPieces(buffer.lines, buffer.selectionMap, clipToRange);
    var ignored := clipboard.TryToPutContentIntoClipboard(pieces);
  }

  /** The loop of `copy` over the ordered selected rows. */
  method CollectPieces(lines: seq<string>, selectionMap: SelectionMap, clipToRange: (string, SelectionRange) -> string)
    returns (pieces: seq<string>)
    ensures pieces == CopiedPieces(lines, selectionMap, clipToRange, selectionMap.OrderedIndices())
  {
    pieces := [];
    var rowIndices := selectionMap.OrderedIndices();
    for i := 0 to |rowIndices|
      invariant pieces == CopiedPieces(lines, selectionMap, clipToRange, rowIndices[..i])
    {
      var rowIndex := rowIndices[i];
      assert rowIndices[..i + 1][..i] == rowIndices[..i];
      assert rowIndices[..i + 1][i] == rowIndex;
      match selectionMap.Get(rowIndex) {
        case Some(selectionRange) =>
          if rowIndex < |lines| {
            var selectedText := clipToRange(lines[rowIndex], selectionRange);
            pieces := pieces + [selectedText];
          }
        case None =>
      }
    }
    assert rowIndices[..|rowIndices|] == rowIndices;
  }

  // ---------------------------------------------------------------------
  // paste
  // ---------------------------------------------------------------------

  /** One call paste makes on the buffer. */
  datatype EditAction = InsertText(text: string) | InsertNewLineAction

  function ApplyAction(x: EditingOps, content: EditorContent, action: EditAction): EditorContent
  {
    match action
    case InsertText(text) => x.insertStrAtCaret(content, text)
    case InsertNewLineAction => x.insertNewLineAtCaret(content)
  }

  /** The actions applied one after the other, the first first. */
  function ApplyActions(x: EditingOps, content: EditorContent, actions: seq<EditAction>): EditorContent
    decreases |actions|
  {
    if actions == [] then content else ApplyActions(x, ApplyAction(x, content, actions[0]), actions[1..])
  }

  lemma {:induction false} ApplyActionsAppend(x: EditingOps, content: EditorContent, first: seq<EditAction>, second: seq<EditAction>)
    ensures ApplyActions(x, content, first + second) == ApplyActions(x, ApplyActions(x, content, first), second)
    decreases |first|
  {
    if first == [] {
      assert first + second == second;
    } else {
      assert (first + second)[0] == first[0];
      assert (first + second)[1..] == first[1..] + second;
      ApplyActionsAppend(x, ApplyAction(x, content, first[0]), first[1..], second);
    }
  }

  /** The actions of the first `n` turns of the line loop: insert the line,
      then a new line unless it is the last of the `|lines|`. */
  function LoopActions(lines: seq<string>, n: nat): seq<EditAction>
    requires n <= |lines|
  {
    if n == 0 then []
    else LoopActions(lines, n - 1) + [InsertText(lines[n - 1])] + (if n - 1 < |lines| - 1 then [InsertNewLineAction] else [])
  }

  /** What `paste` does with the clipboard text: a text without a newline is
      inserted whole; otherwise its lines are inserted one by one. */
  function PasteActions(text: string): seq<EditAction>
  {
    if NewLine !in text then [InsertText(text)]
    else LoopActions(Split(text), |Split(text)|)
  }

  /** The loop's actions alternate: line `i` at position `2 i`, a new line
      after every line but the last. */
  lemma {:induction false} LoopActionsLayout(lines: seq<string>, n: nat)
    requires 0 < n <= |lines|
    ensures |LoopActions(lines, n)| == if n == |lines| then 2 * n - 1 else 2 * n
    ensures forall j :: 0 <= j < |LoopActions(lines, n)| ==>
      LoopActions(lines, n)[j] == if j % 2 == 0 then InsertText(lines[j / 2]) else InsertNewLineAction
    decreases n
  {
    if n > 1 {
      LoopActionsLayout(lines, n - 1);
    }
  }

  /** Paste's actions alternate between the pieces of the split text, in
      order, and new lines: a new line between each two pieces and none after
      the last, so as many new lines as the text has newlines. This holds for
      the whole-text shortcut too, whose one piece is the text. */
  lemma PasteLayout(text: string)
    ensures var actions := PasteActions(text);
      var pieces := Split(text);
      && |actions| == 2 * |pieces| - 1
      && (forall j :: 0 <= j < |actions| ==>
            actions[j] == if j % 2 == 0 then InsertText(pieces[j / 2]) else InsertNewLineAction)
      && multiset(actions)[InsertNewLineAction] == multiset(text)[NewLine]
  {
    var pieces := Split(text);
    SplitCount(text);
    if NewLine !in text {
      SplitThenJoin(text);
      assert |pieces| == 1;
    } else {
      LoopActionsLayout(pieces, |pieces|);
      NewLineCount(pieces, |pieces|);
    }
  }

  /** The loop inserts a new line after every line but the last. */
  lemma {:induction false} NewLineCount(lines: seq<string>, n: nat)
    requires 0 < n <= |lines|
    ensures multiset(LoopActions(lines, n))[InsertNewLineAction] == if n == |lines| then n - 1 else n
    decreases n
  {
    if n > 1 {
      NewLineCount(lines, n - 1);
    }
  }

  /** Pasting what copy joined inserts the copied pieces, in order, with a
      new line between each two, provided there is at least one piece and
      no piece holds a newline. */
  lemma CopyPasteRoundTrip(pieces: seq<string>)
    requires |pieces| > 0
    requires forall i :: 0 <= i < |pieces| ==> NewLine !in pieces[i]
    ensures var actions := PasteActions(JoinLines(pieces));
      && |actions| == 2 * |pieces| - 1
      && forall j :: 0 <= j < |actions| ==>
           actions[j] == if j % 2 == 0 then InsertText(pieces[j / 2]) else InsertNewLineAction
  {
    JoinThenSplit(pieces);
    PasteLayout(JoinLines(pieces));
  }

  /** `clipboard_support::paste`: a failure to read the clipboard changes
      nothing. */
  method Paste(buffer: EditorBuffer, clipboard: SystemClipboard, x: EditingOps)
    modifies buffer
    ensures buffer.history == old(buffer.history)
    ensures !clipboard.available ==> buffer.Content() == old(buffer.Content())
    ensures clipboard.available ==>
      buffer.Content() == ApplyActions(x, old(buffer.Content()), PasteActions(clipboard.contents))
  {
    var read := clipboard.TryToGetContentFromClipboard();
    match read {
      case Ok(clipboardText) =>
        if NewLine !in clipboardText {
          buffer.InsertStrAtCaret(x, clipboardText);
          assert ApplyActions(x, old(buffer.Content()), [InsertText(clipboardText)])
              == ApplyActions(x, buffer.Content(), []);
        } else {
          var lines := Split(clipboardText);
          var lineCount := |lines|;
          ghost var start := buffer.Content();
          for lineIndex := 0 to lineCount
            invariant buffer.Content() == ApplyActions(x, start, LoopActions(lines, lineIndex))
            invariant buffer.history == old(buffer.history)
          {
            ghost var before := buffer.Content();
            buffer.InsertStrAtCaret(x, lines[lineIndex]);
            ghost var turn := [InsertText(lines[lineIndex])];
            if lineIndex < lineCount - 1 {
              buffer.InsertNewLineAtCaret(x);
              turn := turn + [InsertNewLineAction];
              assert turn[1..][1..] == [];
              assert ApplyActions(x, before, turn)
                  == ApplyActions(x, ApplyAction(x, before, turn[0]), turn[1..])
                  == ApplyActions(x, ApplyAction(x, ApplyAction(x, before, turn[0]), turn[1]), []);
            } else {
              assert turn[1..] == [];
              assert ApplyActions(x, before, turn) == ApplyActions(x, ApplyAction(x, before, turn[0]), []);
            }
            assert LoopActions(lines, lineIndex + 1) == LoopActions(lines, lineIndex) + turn;
            ApplyActionsAppend(x, start, LoopActions(lines, lineIndex), turn);
          }
        }
      case Err(_) =>
    }
  }
}
