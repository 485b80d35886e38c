/**
 * The paint instructions `paint_preprocess` emits (`PaintInstruction` in
 * src/paint.rs) and a model of what replaying them does to the canvas:
 * which colour is active and which grid cells a line covers.
 */
module Instructions {
  import opened ColorOps
  import opened Palette
  import opened Pixels

  /**
   * `Line(sx, sy, ex, ey)` drags from cell `(sx, sy)` to `(ex, ey)`;
   * `PaletteColor(i)` clicks palette cell `i` (0..19 presets, 20..29 custom
   * slots); `ColorPrecise(c)` types `c` into the colour editor.
   */
  datatype Instruction =
    | Line(sx: int, sy: int, ex: int, ey: int)
    | PaletteColor(index: int)
    | ColorPrecise(color: Color)
    | SetMaxSize
    | SelectBrush

  /** A horizontal line drawn leftwards (or a single cell): the only shape the compiler emits. */
  predicate IsLeftwardRun(l: Instruction)
  {
    l.Line? && l.sy == l.ey && l.ex <= l.sx
  }

  /** The cells from `(sx, y)` leftwards to `(ex, y)`, in drawing order. */
  function LineCells(sx: int, y: int, ex: int): (cells: seq<Coord>)
    requires ex <= sx
    ensures |cells| == sx - ex + 1
    ensures forall k :: 0 <= k < |cells| ==> cells[k] == (sx - k, y)
    decreases sx - ex
  {
    if sx == ex then [(sx, y)] else [(sx, y)] + LineCells(sx - 1, y, ex)
  }

  /** Extending a run one cell to the left appends that cell. */
  lemma LineCellsExtend(sx: int, y: int, ex: int)
    requires ex <= sx
    ensures LineCells(sx, y, ex - 1) == LineCells(sx, y, ex) + [(ex - 1, y)]
  {
  }

  /** The cells a leftward run covers; other lines are outside this model of the canvas. */
  function Cells(l: Instruction): seq<Coord>
  {
    if IsLeftwardRun(l) then LineCells(l.sx, l.sy, l.ex) else []
  }

  /** All cells a list of instructions draws, in order. */
  function Expand(instrs: seq<Instruction>): seq<Coord>
  {
    if instrs == [] then [] else Cells(instrs[0]) + Expand(instrs[1..])
  }

  lemma {:induction false} ExpandAppend(a: seq<Instruction>, b: seq<Instruction>)
    ensures Expand(a + b) == Expand(a) + Expand(b)
  {
    if a == [] {
      assert a + b == b;
    } else {
      assert (a + b)[0] == a[0] && (a + b)[1..] == a[1..] + b;
      ExpandAppend(a[1..], b);
    }
  }

  /** Each cell paired with the colour it is painted with. */
  function Paint(cells: seq<Coord>, color: Color): (r: seq<(Color, Coord)>)
    ensures |r| == |cells|
    ensures forall k :: 0 <= k < |cells| ==> r[k] == (color, cells[k])
  {
    seq(|cells|, k requires 0 <= k < |cells| => (color, cells[k]))
  }

  lemma PaintAppend(a: seq<Coord>, b: seq<Coord>, color: Color)
    ensures Paint(a + b, color) == Paint(a, color) + Paint(b, color)
  {
  }

  /**
   * What the paint program holds between instructions: the custom palette
   * slots (cells 20 onwards, oldest first) and the active colour.
   */
  datatype Tool = Tool(slots: seq<Color>, active: Color)

  /**
   * Creating a custom colour (the colour editor's OK): it becomes the active
   * colour and enters the last custom slot, the others moving one slot
   * towards the front and the oldest dropping out.
   */
  function Create(slots: seq<Color>, c: Color): (r: seq<Color>)
    ensures |r| == |slots|
    ensures slots != [] ==> r == slots[1..] + [c]
  {
    if slots == [] then [] else slots[1..] + [c]
  }

  /** Creating `colors` one after another. */
  function CreateAll(slots: seq<Color>, colors: seq<Color>): (r: seq<Color>)
    ensures |r| == |slots|
    decreases |colors|
  {
    if colors == [] then slots else CreateAll(Create(slots, colors[0]), colors[1..])
  }

  /** Creating one more colour after a sequence of them is one more `Create` on the slots they left. */
  lemma {:induction false} CreateAllSnoc(slots: seq<Color>, colors: seq<Color>, c: Color)
    ensures CreateAll(slots, colors + [c]) == Create(CreateAll(slots, colors), c)
    decreases |colors|
  {
    if colors == [] {
      assert [] + [c] == [c];
    } else {
      assert (colors + [c])[0] == colors[0] && (colors + [c])[1..] == colors[1..] + [c];
      CreateAllSnoc(Create(slots, colors[0]), colors[1..], c);
    }
  }

  /** `create_color` for each of `colors` in turn, starting from `slots`. */
  method CreateEach(slots: seq<Color>, colors: seq<Color>) returns (after: seq<Color>)
    ensures after == CreateAll(slots, colors)
  {
    after := slots;
    for i := 0 to |colors|
      invariant after == CreateAll(slots, colors[..i])
    {
      CreateAllSnoc(slots, colors[..i], colors[i]);
      assert colors[..i + 1] == colors[..i] + [colors[i]];
      after := Create(after, colors[i]);
    }
    assert colors[..|colors|] == colors;
  }

  /** Creating `first` and then `second` is creating `first + second`. */
  lemma {:induction false} CreateAllAppend(slots: seq<Color>, first: seq<Color>, second: seq<Color>)
    ensures CreateAll(CreateAll(slots, first), second) == CreateAll(slots, first + second)
    decreases |first|
  {
    if first == [] {
      assert first + second == second;
    } else {
      assert (first + second)[0] == first[0] && (first + second)[1..] == first[1..] + second;
      CreateAllAppend(Create(slots, first[0]), first[1..], second);
    }
  }

  /** Creating three lists one after another is creating them all at once. */
  lemma CreateInStages(slots: seq<Color>, front: seq<Color>, first: seq<Color>, second: seq<Color>)
    ensures CreateAll(CreateAll(CreateAll(slots, front), first), second) == CreateAll(slots, front + (first + second))
  {
    CreateAllAppend(CreateAll(slots, front), first, second);
    CreateAllAppend(slots, front, first + second);
  }

  /** Creating as many colours as there are slots leaves exactly those colours in the slots, in order. */
  lemma {:induction false} CreateAllWindow(slots: seq<Color>, colors: seq<Color>)
    requires |colors| >= |slots|
    ensures CreateAll(slots, colors) == colors[|colors| - |slots|..]
    decreases |colors|
  {
    if colors != [] {
      if slots == [] {
        CreateAllEmpty(colors);
      } else {
        CreateAllShift(slots, colors);
      }
    }
  }

  lemma {:induction false} CreateAllEmpty(colors: seq<Color>)
    ensures CreateAll([], colors) == []
    decreases |colors|
  {
    if colors != [] {
      CreateAllEmpty(colors[1..]);
    }
  }

  /** Creating colours slides them in at the back: the slots become the last `|slots|` of `slots + colors`. */
  lemma {:induction false} CreateAllShift(slots: seq<Color>, colors: seq<Color>)
    ensures CreateAll(slots, colors) == (slots + colors)[|colors|..]
    decreases |colors|
  {
    if colors != [] {
      if slots == [] {
        CreateAllEmpty(colors);
        assert (slots + colors)[|colors|..] == [];
      } else {
        var next := Create(slots, colors[0]);
        CreateAllShift(next, colors[1..]);
        assert (next + colors[1..])[|colors| - 1..] == (slots + colors)[|colors|..];
      }
    }
  }

  /**
   * The colour a click on palette cell `index` selects: a preset, the
   * custom colour in that slot, or (off the palette) no change.
   */
  function SlotColor(index: int, slots: seq<Color>, active: Color): (c: Color)
    ensures 0 <= index < |Presets| ==> c == Presets[index]
    ensures 0 <= index - |Presets| < |slots| ==> c == slots[index - |Presets|]
  {
    if 0 <= index < |Presets| then Presets[index]
    else if |Presets| <= index < |Presets| + |slots| then slots[index - |Presets|]
    else active
  }

  /** The effect of one instruction on the tool state. */
  function Step(t: Tool, instr: Instruction): Tool
  {
    match instr
    case PaletteColor(i) => Tool(t.slots, SlotColor(i, t.slots, t.active))
    case ColorPrecise(c) => Tool(Create(t.slots, c), c)
    case _ => t
  }

  /** The tool state after replaying `instrs`. */
  function Final(instrs: seq<Instruction>, t: Tool): Tool
  {
    if instrs == [] then t else Final(instrs[1..], Step(t, instrs[0]))
  }

  /**
   * Replaying an instruction stream on the canvas: which cells get painted,
   * in order, and with which colour.
   */
  function Replay(instrs: seq<Instruction>, t: Tool): seq<(Color, Coord)>
  {
    if instrs == [] then []
    else Paint(Cells(instrs[0]), t.active) + Replay(instrs[1..], Step(t, instrs[0]))
  }

  lemma {:induction false} ReplayAppend(a: seq<Instruction>, b: seq<Instruction>, t: Tool)
    ensures Replay(a + b, t) == Replay(a, t) + Replay(b, Final(a, t))
    ensures Final(a + b, t) == Final(b, Final(a, t))
  {
    if a == [] {
      assert a + b == b;
    } else {
      assert (a + b)[0] == a[0] && (a + b)[1..] == a[1..] + b;
      ReplayAppend(a[1..], b, Step(t, a[0]));
    }
  }

  /** A list of lines keeps the tool state and paints exactly its expanded cells in the active colour. */
  lemma {:induction false} ReplayLines(lines: seq<Instruction>, t: Tool)
    requires forall l :: l in lines ==> l.Line?
    ensures Replay(lines, t) == Paint(Expand(lines), t.active)
    ensures Final(lines, t) == t
  {
    if lines != [] {
      assert lines[0] in lines;
      assert forall l :: l in lines[1..] ==> l in lines;
      ReplayLines(lines[1..], t);
      PaintAppend(Cells(lines[0]), Expand(lines[1..]), t.active);
    }
  }
}
