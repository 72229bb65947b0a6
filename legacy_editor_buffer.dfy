/** The older generation of the editor buffer: a list of lines and a caret,
    written only through two funnels (`MutateLines`, `MutateCaret`) that
    re-validate the caret after every write, a command type, a dispatcher
    and the conversion from input events to commands.

    The line-buffer operations (insert, delete, backspace, caret moves) and
    the caret validator are not part of this model; they are supplied as the
    arrow-typed fields of `LineBufferOps`. */
module LegacyEditorBuffer {
  import opened Common
  import opened InputEvents

  datatype CaretDirection = Up | Down | Left | Right

  datatype EditorBufferCommand =
    | InsertChar(character: char)
    | InsertString(text: string)
    | InsertNewLine
    | Delete
    | Backspace
    | MoveCaret(direction: CaretDirection)

  // ---------------------------------------------------------------------------
  // Input event -> command
  // ---------------------------------------------------------------------------

  /** The plain key press that produces each command, if any: the inverse of
      `TryFrom`. `InsertString` is only ever issued programmatically. */
  function KeyFor(command: EditorBufferCommand): Option<InputEvent>
  {
    match command
    case InsertChar(c) => Some(PlainKey(Character(c)))
    case InsertString(_) => None
    case InsertNewLine => Some(PlainSpecial(SpecialKey.Enter))
    case Delete => Some(PlainSpecial(SpecialKey.Delete))
    case Backspace => Some(PlainSpecial(SpecialKey.Backspace))
    case MoveCaret(d) =>
      Some(PlainSpecial(match d
        case Up => SpecialKey.Up
        case Down => SpecialKey.Down
        case Left => SpecialKey.Left
        case Right => SpecialKey.Right))
  }

  const InvalidInputEvent: string := "Invalid input event: "

  /** `TryFrom<&InputEvent> for EditorBufferCommand`: a plain character
      inserts it, plain Enter/Delete/Backspace and the four plain arrows map to
      their commands, and everything else is an error. The error text also
      carries the event's debug rendering, which is not modelled. */
  function TryFrom(event: InputEvent): (r: Result<EditorBufferCommand, string>)
    ensures r.Ok? ==> KeyFor(r.value) == Some(event)
    ensures r.Err? ==> forall c :: KeyFor(c) != Some(event)
    ensures !(event.Keyboard? && event.keyPress.Plain?) ==> r.Err?
    ensures r.Err? ==> r.error == InvalidInputEvent
  {
    match event
    case Keyboard(Plain(Character(c))) => Ok(InsertChar(c))
    case Keyboard(Plain(Special(k))) =>
      (match k
       case Enter => Ok(InsertNewLine)
       case Delete => Ok(EditorBufferCommand.Delete)
       case Backspace => Ok(EditorBufferCommand.Backspace)
       case Up => Ok(MoveCaret(CaretDirection.Up))
       case Down => Ok(MoveCaret(CaretDirection.Down))
       case Left => Ok(MoveCaret(CaretDirection.Left))
       case Right => Ok(MoveCaret(CaretDirection.Right))
       case _ => Err(InvalidInputEvent))
    case _ => Err(InvalidInputEvent)
  }

  /** `try_convert_input_event`: `Some` exactly when the conversion succeeds. */
  function TryConvertInputEvent(event: InputEvent): (r: Option<EditorBufferCommand>)
    ensures r.Some? <==> TryFrom(event).Ok?
    ensures r.Some? ==> r.value == TryFrom(event).value
    ensures forall c :: r == Some(c) <==> KeyFor(c) == Some(event)
  {
    match TryFrom(event)
    case Ok(command) => Some(command)
    case Err(_) => None
  }

  /** Every command that has a key converts back from that key. */
  lemma {:induction false} KeyRoundTrip(command: EditorBufferCommand)
    requires KeyFor(command).Some?
    ensures TryFrom(KeyFor(command).value) == Ok(command)
  {
    match command
    case InsertChar(_) =>
    case InsertNewLine =>
    case Delete =>
    case Backspace =>
    case MoveCaret(d) =>
      match d
      case Up =>
      case Down =>
      case Left =>
      case Right =>
  }

  // ---------------------------------------------------------------------------
  // The line-buffer operations and the validator, which this model does not see
  // ---------------------------------------------------------------------------

  /** A mutator gets the lines and the caret and returns both, changed. */
  type Mutator = (seq<string>, Position) -> (seq<string>, Position)

  /** What a line-buffer operation hands to the line funnel: the lines and
      caret it writes, or `None` when it returns without writing (at the end
      of the buffer, say). Only the last of several funnelled writes matters,
      since each one ends in the validator. */
  type LineEdit = (seq<string>, Position) -> Option<(seq<string>, Position)>

  datatype LineBufferOps = LineBufferOps(
    insertStrAtCaret: (seq<string>, Position, string) -> Option<(seq<string>, Position)>,
    insertNewLineAtCaret: LineEdit,
    deleteAtCaret: LineEdit,
    backspaceAtCaret: LineEdit,
    /** The caret a move in a direction writes over the given lines, or
        `None` when the move makes no write. */
    moveCaret: (CaretDirection, seq<string>, Position) -> Option<Position>,
    /** `validate_caret_col_position`: the caret it leaves behind. */
    validateCaretColPosition: (seq<string>, Position) -> Position,
    /** What a valid caret is (on a grapheme boundary of its line). */
    caretColValid: (seq<string>, Position) -> bool)

  /** The validator's own promise: its result is always a valid caret. */
  ghost predicate ValidatorSound(ops: LineBufferOps)
  {
    forall lines, caret :: ops.caretColValid(lines, ops.validateCaretColPosition(lines, caret))
  }

  // ---------------------------------------------------------------------------
  // The specification: buffer contents as values
  // ---------------------------------------------------------------------------

  datatype Doc = Doc(lines: seq<string>, caret: Position)

  predicate CaretValid(ops: LineBufferOps, d: Doc)
  {
    ops.caretColValid(d.lines, d.caret)
  }

  /** The document after a write of `lines` and `caret` through a funnel:
      the validator has had the last word on the caret. */
  function Funnelled(ops: LineBufferOps, lines: seq<string>, caret: Position): (d: Doc)
    ensures d.lines == lines
    ensures ValidatorSound(ops) ==> CaretValid(ops, d)
  {
    Doc(lines, ops.validateCaretColPosition(lines, caret))
  }

  function Mutated(ops: LineBufferOps, d: Doc, mutator: Mutator): Doc
  {
    var after := mutator(d.lines, d.caret);
    Funnelled(ops, after.0, after.1)
  }

  /** The document after an operation that may or may not have written. */
  function Written(ops: LineBufferOps, d: Doc, edit: Option<(seq<string>, Position)>): (r: Doc)
    ensures edit.None? ==> r == d
    ensures edit.Some? ==> r.lines == edit.value.0
    ensures ValidatorSound(ops) && (edit.Some? || CaretValid(ops, d)) ==> CaretValid(ops, r)
  {
    match edit
    case None => d
    case Some(after) => Funnelled(ops, after.0, after.1)
  }

  /** The write the line-buffer operation of `command` makes, if any. */
  function CommandEdit(ops: LineBufferOps, d: Doc, command: EditorBufferCommand): Option<(seq<string>, Position)>
  {
    match command
    case InsertChar(c) => ops.insertStrAtCaret(d.lines, d.caret, [c])
    case InsertString(s) => ops.insertStrAtCaret(d.lines, d.caret, s)
    case InsertNewLine => ops.insertNewLineAtCaret(d.lines, d.caret)
    case Delete => ops.deleteAtCaret(d.lines, d.caret)
    case Backspace => ops.backspaceAtCaret(d.lines, d.caret)
    case MoveCaret(direction) =>
      match ops.moveCaret(direction, d.lines, d.caret)
      case None => None
      case Some(caret) => Some((d.lines, caret))
  }

  /** What `apply_command` does to the document: each variant goes to exactly
      one line-buffer operation; if that operation writes, the write ends in
      the validator, and if it does not, nothing changes. Either way a valid
      caret stays valid. */
  function Step(ops: LineBufferOps, d: Doc, command: EditorBufferCommand): (r: Doc)
    ensures CommandEdit(ops, d, command).None? ==> r == d
    ensures ValidatorSound(ops) && CommandEdit(ops, d, command).Some? ==> CaretValid(ops, r)
    ensures ValidatorSound(ops) && CaretValid(ops, d) ==> CaretValid(ops, r)
    ensures command.MoveCaret? ==> r.lines == d.lines
  {
    Written(ops, d, CommandEdit(ops, d, command))
  }

  /** `apply_commands`: a left fold of `Step` over the commands. */
  function Run(ops: LineBufferOps, d: Doc, commands: seq<EditorBufferCommand>): Doc
    decreases |commands|
  {
    if commands == [] then d else Run(ops, Step(ops, d, commands[0]), commands[1..])
  }

  /** Applying a list of commands is applying its two halves in turn. */
  lemma {:induction false} RunAppend(ops: LineBufferOps, d: Doc, a: seq<EditorBufferCommand>, b: seq<EditorBufferCommand>)
    ensures Run(ops, d, a + b) == Run(ops, Run(ops, d, a), b)
    decreases |a|
  {
    if a == [] {
      assert a + b == b;
    } else {
      assert (a + b)[0] == a[0];
      assert (a + b)[1..] == a[1..] + b;
      RunAppend(ops, Step(ops, d, a[0]), a[1..], b);
    }
  }

  /** Once the caret is valid it stays valid through any list of commands,
      and a list whose first command writes ends with a valid caret, whatever
      the state was before: every write ends in the validator. */
  lemma {:induction false} RunKeepsValid(ops: LineBufferOps, d: Doc, commands: seq<EditorBufferCommand>)
    requires ValidatorSound(ops)
    requires CaretValid(ops, d) || (commands != [] && CommandEdit(ops, d, commands[0]).Some?)
    ensures CaretValid(ops, Run(ops, d, commands))
    decreases |commands|
  {
    if commands != [] {
      RunKeepsValid(ops, Step(ops, d, commands[0]), commands[1..]);
    }
  }

  /** A single command applied through `apply_commands` is `apply_command`. */
  lemma {:induction false} RunSingle(ops: LineBufferOps, d: Doc, command: EditorBufferCommand)
    ensures Run(ops, d, [command]) == Step(ops, d, command)
  {
    assert [command][1..] == [];
  }

  // ---------------------------------------------------------------------------
  // The buffer
  // ---------------------------------------------------------------------------

  class EditorBuffer {
    /** The document being edited, one string per line. */
    var lines: seq<string>
    /** The display (not logical) caret position. */
    var caret: Position
    /** The scroll offset; public in the source, so not funnelled. */
    var scrollOffset: Position

    /** `EditorBuffer::default()`. */
    constructor Default()
      ensures lines == [] && caret == Position(0, 0) && scrollOffset == Position(0, 0)
      ensures IsEmpty()
    {
      lines := [];
      caret := Position(0, 0);
      scrollOffset := Position(0, 0);
    }

    function Snapshot(): Doc
      reads this
    {
      Doc(lines, caret)
    }

    function IsEmpty(): (r: bool)
      reads this
      ensures r <==> |lines| == 0
    {
      lines == []
    }

    function GetCaret(): (p: Position)
      reads this
      ensures p == Snapshot().caret
    {
      caret
    }

    /** The one write path for the lines: run the mutator on lines and caret,
        then validate the caret. */
    method MutateLines(ops: LineBufferOps, mutator: Mutator)
      modifies this
      ensures Snapshot() == Mutated(ops, old(Snapshot()), mutator)
      ensures scrollOffset == old(scrollOffset)
      ensures ValidatorSound(ops) ==> ops.caretColValid(lines, caret)
    {
      var after := mutator(lines, caret);
      lines, caret := after.0, after.1;
      caret := ops.validateCaretColPosition(lines, caret);
    }

    /** The one write path for the caret alone, followed by validation. */
    method MutateCaret(ops: LineBufferOps, mutator: Position -> Position)
      modifies this
      ensures Snapshot() == Funnelled(ops, old(lines), mutator(old(caret)))
      ensures scrollOffset == old(scrollOffset)
      ensures ValidatorSound(ops) ==> ops.caretColValid(lines, caret)
    {
      caret := mutator(caret);
      caret := ops.validateCaretColPosition(lines, caret);
    }

    /** A line-buffer operation's write, if it makes one, through the line
        funnel. */
    method WriteLines(ops: LineBufferOps, edit: Option<(seq<string>, Position)>)
      modifies this
      ensures Snapshot() == Written(ops, old(Snapshot()), edit)
      ensures scrollOffset == old(scrollOffset)
    {
      if edit.Some? {
        var after := edit.value;
        MutateLines(ops, (ls, p) => after);
      }
    }

    method InsertNewLine(ops: LineBufferOps)
      modifies this
      ensures Snapshot() == Step(ops, old(Snapshot()), EditorBufferCommand.InsertNewLine)
      ensures scrollOffset == old(scrollOffset)
    {
      WriteLines(ops, ops.insertNewLineAtCaret(lines, caret));
    }

    /** Inserting a character is inserting the one-character string. */
    method InsertChar(ops: LineBufferOps, character: char)
      modifies this
      ensures Snapshot() == Step(ops, old(Snapshot()), EditorBufferCommand.InsertString([character]))
      ensures Snapshot() == Step(ops, old(Snapshot()), EditorBufferCommand.InsertChar(character))
      ensures scrollOffset == old(scrollOffset)
    {
      InsertStr(ops, [character]);
    }

    method InsertStr(ops: LineBufferOps, chunk: string)
      modifies this
      ensures Snapshot() == Step(ops, old(Snapshot()), EditorBufferCommand.InsertString(chunk))
      ensures scrollOffset == old(scrollOffset)
    {
      WriteLines(ops, ops.insertStrAtCaret(lines, caret, chunk));
    }

    /** A caret move writes, if at all, through the caret funnel only. */
    method MoveCaret(ops: LineBufferOps, direction: CaretDirection)
      modifies this
      ensures Snapshot() == Step(ops, old(Snapshot()), EditorBufferCommand.MoveCaret(direction))
      ensures scrollOffset == old(scrollOffset)
    {
      var target := ops.moveCaret(direction, lines, caret);
      if target.Some? {
        var p := target.value;
        MutateCaret(ops, _ => p);
      }
    }

    method Delete(ops: LineBufferOps)
      modifies this
      ensures Snapshot() == Step(ops, old(Snapshot()), EditorBufferCommand.Delete)
      ensures scrollOffset == old(scrollOffset)
    {
      WriteLines(ops, ops.deleteAtCaret(lines, caret));
    }

    method Backspace(ops: LineBufferOps)
      modifies this
      ensures Snapshot() == Step(ops, old(Snapshot()), EditorBufferCommand.Backspace)
      ensures scrollOffset == old(scrollOffset)
    {
      WriteLines(ops, ops.backspaceAtCaret(lines, caret));
    }

    /** `apply_command`: dispatch each variant to its one operation. */
    method ApplyCommand(ops: LineBufferOps, command: EditorBufferCommand)
      modifies this
      ensures Snapshot() == Step(ops, old(Snapshot()), command)
      ensures scrollOffset == old(scrollOffset)
    {
      match command
      case InsertChar(c) => InsertChar(ops, c);
      case InsertNewLine => InsertNewLine(ops);
      case Delete => Delete(ops);
      case Backspace => Backspace(ops);
      case MoveCaret(direction) => MoveCaret(ops, direction);
      case InsertString(s) => InsertStr(ops, s);
    }

    /** `apply_commands`: the commands one at a time, in list order. */
    method ApplyCommands(ops: LineBufferOps, commands: seq<EditorBufferCommand>)
      modifies this
      ensures Snapshot() == Run(ops, old(Snapshot()), commands)
      ensures scrollOffset == old(scrollOffset)
    {
      for i := 0 to |commands|
        invariant Run(ops, Snapshot(), commands[i..]) == Run(ops, old(Snapshot()), commands)
        invariant scrollOffset == old(scrollOffset)
      {
        ghost var before := Snapshot();
        assert commands[i..][0] == commands[i] && commands[i..][1..] == commands[i + 1..];
        ApplyCommand(ops, commands[i]);
        assert Run(ops, before, commands[i..]) == Run(ops, Snapshot(), commands[i + 1..]);
      }
      assert commands[|commands|..] == [];
    }
  }
}
