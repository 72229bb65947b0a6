/** The paint instructions the editor hands to the terminal backend, and the
    one shape every render loop of the editor has: for each row of an
    enumerated list, append that row's instructions. */
module RenderOps {
  import opened Common

  datatype AnsiBasicColor =
    | Black | Red | Green | Yellow | Blue | Magenta | Cyan | White
    | DarkGrey | DarkRed | DarkGreen | DarkYellow | DarkBlue | DarkMagenta | DarkCyan | Grey

  datatype TuiColor = Basic(basic: AnsiBasicColor) | Rgb(red: nat, green: nat, blue: nat)

  /** A text style: colours and the one attribute the editor sets (reverse). */
  datatype Style = Style(colorFg: Option<TuiColor>, colorBg: Option<TuiColor>, reverse: bool)

  /** A run of text with one style, as produced by a highlighter. */
  datatype StyleSpan = StyleSpan(style: Style, text: string)

  datatype RenderOp =
    | MoveCursorPositionRelTo(origin: Position, position: Position)
    | ApplyColors(colors: Option<Style>)
    | PaintTextWithAttributes(text: string, attributes: Option<Style>)
    | ResetColor

  datatype ZOrder = Normal | High | Caret | Glass

  /** A render pipeline: batches of instructions, each at a z-order, in the
      order they were pushed. */
  datatype RenderPipeline = RenderPipeline(batches: seq<(ZOrder, seq<RenderOp>)>)
  {
    function Push(zOrder: ZOrder, ops: seq<RenderOp>): (p: RenderPipeline)
      ensures p.batches == batches + [(zOrder, ops)]
    {
      RenderPipeline(batches + [(zOrder, ops)])
    }
  }

  /** All instructions of a list of batches, batch after batch. */
  function Flatten(batches: seq<(ZOrder, seq<RenderOp>)>): seq<RenderOp>
  {
    if batches == [] then [] else Flatten(batches[..|batches| - 1]) + batches[|batches| - 1].1
  }

  /** The instructions a loop `for (i, row) in rows.enumerate()` appends when
      it appends `render(i, row)` for each row in turn. */
  function Enumerated<T>(rows: seq<T>, render: (nat, T) -> seq<RenderOp>): seq<RenderOp>
  {
    if rows == [] then []
    else Enumerated(rows[..|rows| - 1], render) + render(|rows| - 1, rows[|rows| - 1])
  }

  /** One more row appends that row's instructions. */
  lemma EnumeratedSnoc<T>(rows: seq<T>, i: nat, render: (nat, T) -> seq<RenderOp>)
    requires i < |rows|
    ensures Enumerated(rows[..i + 1], render) == Enumerated(rows[..i], render) + render(i, rows[i])
  {
    assert rows[..i + 1][..i] == rows[..i];
  }

  /** When every row yields exactly four instructions, the list holds 4 per row
      and the `j`-th instruction of row `i` sits at `4 * i + j`. */
  lemma {:induction false} EnumeratedFourEach<T>(rows: seq<T>, render: (nat, T) -> seq<RenderOp>, i: nat, j: nat)
    requires forall n :: 0 <= n < |rows| ==> |render(n, rows[n])| == 4
    requires i < |rows| && j < 4
    ensures |Enumerated(rows, render)| == 4 * |rows|
    ensures Enumerated(rows, render)[4 * i + j] == render(i, rows[i])[j]
    decreases |rows|
  {
    var m := |rows| - 1;
    var front := rows[..m];
    assert forall n :: 0 <= n < |front| ==> front[n] == rows[n];
    if m == 0 {
      assert Enumerated(front, render) == [];
    } else if i < m {
      EnumeratedFourEach(front, render, i, j);
    } else {
      EnumeratedFourEach(front, render, 0, 0);
    }
  }

  /** The number of instructions the first `i` rows append. */
  function ChunkStart<T>(rows: seq<T>, render: (nat, T) -> seq<RenderOp>, i: nat): nat
    requires i <= |rows|
  {
    |Enumerated(rows[..i], render)|
  }

  /** Whatever the size of each row's instructions, row `i`'s instructions sit
      unchanged and contiguous in the list, after those of the rows before it. */
  lemma {:induction false} EnumeratedChunk<T>(rows: seq<T>, render: (nat, T) -> seq<RenderOp>, i: nat)
    requires i < |rows|
    ensures ChunkStart(rows, render, i) + |render(i, rows[i])| <= |Enumerated(rows, render)|
    ensures Enumerated(rows, render)[ChunkStart(rows, render, i)..ChunkStart(rows, render, i) + |render(i, rows[i])|]
            == render(i, rows[i])
    decreases |rows|
  {
    var m := |rows| - 1;
    var front := rows[..m];
    assert rows[..|rows|] == rows;
    if i == m {
      assert rows[..i] == front;
    } else {
      EnumeratedChunk(front, render, i);
      assert front[..i] == rows[..i];
      assert front[i] == rows[i];
      var s := ChunkStart(rows, render, i);
      var e := s + |render(i, rows[i])|;
      assert Enumerated(rows, render)[s..e] == Enumerated(front, render)[s..e];
    }
  }

  /** Two renderers that agree on every row give the same list. */
  lemma {:induction false} EnumeratedPointwise<T>(rows: seq<T>, f: (nat, T) -> seq<RenderOp>, g: (nat, T) -> seq<RenderOp>)
    requires forall n :: 0 <= n < |rows| ==> f(n, rows[n]) == g(n, rows[n])
    ensures Enumerated(rows, f) == Enumerated(rows, g)
    decreases |rows|
  {
    if rows != [] {
      var front := rows[..|rows| - 1];
      assert forall n :: 0 <= n < |front| ==> front[n] == rows[n];
      EnumeratedPointwise(front, f, g);
    }
  }
}
