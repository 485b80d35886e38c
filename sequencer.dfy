/**
 * Instruction sequencing in `paint_preprocess` (src/paint.rs): the header,
 * one colour instruction plus the compiled runs for every non-empty preset
 * batch and then every non-empty custom batch, the list of custom colours to
 * register, and the custom-slot padding `paint_from_preprocess` creates
 * before replaying the stream.
 */
module Sequencer {
  import opened ColorOps
  import opened Palette
  import opened Pixels
  import opened Instructions
  import opened LineCompiler
  import opened Quantizer

  /** The number of custom palette slots (cells 20 to 29). */
  const CustomSlots: nat := 10

  /** Every stream starts by choosing the brush and setting it to its largest size. */
  const Header: seq<Instruction> := [SelectBrush, SetMaxSize]

  /** A non-empty batch becomes a colour instruction followed by its runs; an empty one emits nothing. */
  function Block(select: Instruction, batch: seq<Coord>): seq<Instruction>
  {
    if batch == [] then [] else [select] + Runs(batch)
  }

  /** The instructions for the preset batches, in preset order: batch `j` is painted after clicking cell `j`. */
  function PresetStream(batches: seq<seq<Coord>>): seq<Instruction>
  {
    if batches == [] then []
    else
      var n := |batches| - 1;
      PresetStream(batches[..n]) + Block(PaletteColor(n), batches[n])
  }

  /**
   * The custom colours registered in palette slots: the colour of each
   * non-empty custom batch, in order, until ten have been registered.
   */
  function Registered(custom: seq<CustomBatch>): (r: seq<Color>)
    ensures |r| <= CustomSlots
  {
    if custom == [] then []
    else
      var prior, last := Registered(custom[..|custom| - 1]), custom[|custom| - 1];
      if last.coords != [] && |prior| != CustomSlots then prior + [last.color] else prior
  }

  /**
   * How a non-empty custom batch selects its colour, given the colours
   * registered before it: the next free custom slot while there is one,
   * otherwise the colour typed in precisely.
   */
  function CustomSelect(registeredBefore: seq<Color>, b: CustomBatch): Instruction
  {
    if |registeredBefore| != CustomSlots then PaletteColor(|Presets| + |registeredBefore|)
    else ColorPrecise(b.color)
  }

  /** The instructions for the custom batches, in discovery order. */
  function CustomStream(custom: seq<CustomBatch>): seq<Instruction>
  {
    if custom == [] then []
    else
      var prior, last := custom[..|custom| - 1], custom[|custom| - 1];
      CustomStream(prior) + Block(CustomSelect(Registered(prior), last), last.coords)
  }

  /** The whole stream `paint_preprocess` returns for the batches it quantized. */
  function Stream(batches: seq<seq<Coord>>, custom: seq<CustomBatch>): seq<Instruction>
  {
    Header + PresetStream(batches) + CustomStream(custom)
  }

  /**
   * The colours `paint_from_preprocess` creates in the custom slots before
   * replaying: nothing without registered colours, otherwise the registered
   * colours followed by the first presets, ten in all.
   */
  function SlotRegistrations(initColors: seq<Color>): (r: seq<Color>)
    requires |initColors| <= CustomSlots
    ensures initColors == [] ==> r == []
    ensures initColors != [] ==> |r| == CustomSlots && r[..|initColors|] == initColors
    ensures initColors != [] ==> forall i :: |initColors| <= i < CustomSlots ==> r[i] == Presets[i - |initColors|]
  {
    if initColors == [] then [] else initColors + Presets[..CustomSlots - |initColors|]
  }

  /** The colours of the non-empty custom batches, in order. */
  function NonEmptyColors(custom: seq<CustomBatch>): seq<Color>
  {
    if custom == [] then []
    else
      var prior, last := NonEmptyColors(custom[..|custom| - 1]), custom[|custom| - 1];
      if last.coords != [] then prior + [last.color] else prior
  }

  /** The registered colours are the colours of the first ten non-empty custom batches. */
  lemma {:induction false} RegisteredFirstTen(custom: seq<CustomBatch>)
    ensures var colors := NonEmptyColors(custom);
            Registered(custom) == if |colors| <= CustomSlots then colors else colors[..CustomSlots]
  {
    if custom != [] {
      var prior := custom[..|custom| - 1];
      RegisteredFirstTen(prior);
      var colors := NonEmptyColors(prior);
      if |colors| > CustomSlots {
        assert (colors + [custom[|custom| - 1].color])[..CustomSlots] == colors[..CustomSlots];
      }
    }
  }

  /** How many colour instructions (palette clicks or typed colours) a list holds. */
  function Selects(instrs: seq<Instruction>): nat
  {
    if instrs == [] then 0
    else (if instrs[0].PaletteColor? || instrs[0].ColorPrecise? then 1 else 0) + Selects(instrs[1..])
  }

  lemma {:induction false} SelectsAppend(a: seq<Instruction>, b: seq<Instruction>)
    ensures Selects(a + b) == Selects(a) + Selects(b)
  {
    if a == [] {
      assert a + b == b;
    } else {
      assert (a + b)[0] == a[0] && (a + b)[1..] == a[1..] + b;
      SelectsAppend(a[1..], b);
    }
  }

  lemma {:induction false} LinesSelectNothing(lines: seq<Instruction>)
    requires forall l :: l in lines ==> l.Line?
    ensures Selects(lines) == 0
  {
    if lines != [] {
      assert lines[0] in lines;
      assert forall l :: l in lines[1..] ==> l in lines;
      LinesSelectNothing(lines[1..]);
    }
  }

  /** A block selects a colour exactly once when its batch is non-empty, and not at all otherwise. */
  lemma BlockSelects(select: Instruction, batch: seq<Coord>)
    requires select.PaletteColor? || select.ColorPrecise?
    ensures Selects(Block(select, batch)) == if batch == [] then 0 else 1
  {
    if batch != [] {
      SelectsAppend([select], Runs(batch));
      LinesSelectNothing(Runs(batch));
      assert [select][1..] == [];
    }
  }

  /** How many of `batches` are non-empty. */
  function NonEmptyCount(batches: seq<seq<Coord>>): nat
  {
    if batches == [] then 0
    else NonEmptyCount(batches[..|batches| - 1]) + (if batches[|batches| - 1] == [] then 0 else 1)
  }

  /** The stream selects a colour exactly once per non-empty batch, preset or custom. */
  lemma StreamSelects(batches: seq<seq<Coord>>, custom: seq<CustomBatch>)
    ensures Selects(Stream(batches, custom)) == NonEmptyCount(batches) + NonEmptyCount(CustomCoords(custom))
  {
    SelectsAppend(Header, PresetStream(batches));
    SelectsAppend(Header + PresetStream(batches), CustomStream(custom));
    assert Header[1..][1..] == [];
    PresetSelects(batches);
    CustomSelects(custom);
  }

  lemma {:induction false} PresetSelects(batches: seq<seq<Coord>>)
    ensures Selects(PresetStream(batches)) == NonEmptyCount(batches)
  {
    if batches != [] {
      var n := |batches| - 1;
      PresetSelects(batches[..n]);
      SelectsAppend(PresetStream(batches[..n]), Block(PaletteColor(n), batches[n]));
      BlockSelects(PaletteColor(n), batches[n]);
    }
  }

  lemma {:induction false} CustomSelects(custom: seq<CustomBatch>)
    ensures Selects(CustomStream(custom)) == NonEmptyCount(CustomCoords(custom))
  {
    if custom != [] {
      var prior, last := custom[..|custom| - 1], custom[|custom| - 1];
      CustomSelects(prior);
      var select := CustomSelect(Registered(prior), last);
      SelectsAppend(CustomStream(prior), Block(select, last.coords));
      BlockSelects(select, last.coords);
      CustomCoordsPrefix(custom, |custom| - 1);
    }
  }

  /** Every line in the stream is a horizontal run drawn leftwards. */
  lemma StreamLinesLeftward(batches: seq<seq<Coord>>, custom: seq<CustomBatch>)
    ensures forall l :: l in Stream(batches, custom) && l.Line? ==> IsLeftwardRun(l)
  {
    PresetLinesLeftward(batches);
    CustomLinesLeftward(custom);
  }

  lemma {:induction false} PresetLinesLeftward(batches: seq<seq<Coord>>)
    ensures forall l :: l in PresetStream(batches) && l.Line? ==> IsLeftwardRun(l)
  {
    if batches != [] {
      PresetLinesLeftward(batches[..|batches| - 1]);
    }
  }

  lemma {:induction false} CustomLinesLeftward(custom: seq<CustomBatch>)
    ensures forall l :: l in CustomStream(custom) && l.Line? ==> IsLeftwardRun(l)
  {
    if custom != [] {
      CustomLinesLeftward(custom[..|custom| - 1]);
    }
  }

  // ---------------------------------------------------------------------
  // What the stream paints

  /** The painting the preset batches call for: each cell of batch `j` in preset `j`. */
  function PresetPainting(batches: seq<seq<Coord>>): seq<(Color, Coord)>
    requires |batches| <= |Presets|
  {
    if batches == [] then []
    else
      var n := |batches| - 1;
      PresetPainting(batches[..n]) + Paint(batches[n], Presets[n])
  }

  /** The painting the custom batches call for: each cell in its batch's colour. */
  function CustomPainting(custom: seq<CustomBatch>): seq<(Color, Coord)>
  {
    if custom == [] then []
    else
      var last := custom[|custom| - 1];
      CustomPainting(custom[..|custom| - 1]) + Paint(last.coords, last.color)
  }

  /** Replaying a block paints the batch's cells in the colour its instruction selects. */
  lemma ReplayBlock(select: Instruction, batch: seq<Coord>, t: Tool)
    requires select.PaletteColor? || select.ColorPrecise?
    ensures Replay(Block(select, batch), t)
         == Paint(batch, if batch == [] then t.active else Step(t, select).active)
    ensures Final(Block(select, batch), t) == if batch == [] then t else Step(t, select)
  {
    if batch != [] {
      var lines := Runs(batch);
      var u := Step(t, select);
      assert [select] + lines == Block(select, batch);
      assert ([select] + lines)[0] == select && ([select] + lines)[1..] == lines;
      ReplayLines(lines, u);
      RunsCover(batch);
      assert Replay([select] + lines, t) == Paint(Cells(select), t.active) + Replay(lines, u);
      assert Cells(select) == [];
    }
  }

  /** Replaying the preset stream paints every preset batch in its own preset, whatever the tool state. */
  lemma {:induction false} ReplayPresets(batches: seq<seq<Coord>>, t: Tool)
    requires |batches| <= |Presets|
    ensures Replay(PresetStream(batches), t) == PresetPainting(batches)
    ensures Final(PresetStream(batches), t).slots == t.slots
  {
    if batches != [] {
      var n := |batches| - 1;
      ReplayPresets(batches[..n], t);
      var prior := PresetStream(batches[..n]);
      ReplayAppend(prior, Block(PaletteColor(n), batches[n]), t);
      ReplayBlock(PaletteColor(n), batches[n], Final(prior, t));
      if batches[n] == [] {
        assert Paint(batches[n], Presets[n]) == [];
      }
    }
  }

  /** Registration only ever appends, so the colours registered for a prefix start those registered for the whole. */
  lemma {:induction false} RegisteredPrefix(custom: seq<CustomBatch>, n: nat)
    requires n <= |custom|
    ensures Registered(custom[..n]) <= Registered(custom)
    decreases |custom| - n
  {
    if n < |custom| {
      var m := |custom| - 1;
      assert custom[..m][..n] == custom[..n];
      RegisteredPrefix(custom[..m], n);
      assert custom[..m] == custom[..|custom| - 1];
    } else {
      assert custom[..n] == custom;
    }
  }

  /**
   * Replaying the custom stream paints every custom batch in its own colour,
   * provided the custom slots start with the colours that will be registered:
   * a batch given slot `20 + r` finds its colour there, because slots only
   * move once the ten are used up, and from then on every batch types its
   * colour in.
   */
  lemma {:induction false} ReplayCustom(custom: seq<CustomBatch>, registered: seq<Color>, t: Tool)
    requires Registered(custom) <= registered
    requires registered <= t.slots
    ensures Replay(CustomStream(custom), t) == CustomPainting(custom)
    ensures |Registered(custom)| < CustomSlots ==> Final(CustomStream(custom), t).slots == t.slots
  {
    if custom != [] {
      RegisteredPrefix(custom, |custom| - 1);
      ReplayCustom(custom[..|custom| - 1], registered, t);
      ReplayCustomStep(custom, registered, t);
    }
  }

  /** The last custom batch is painted in its own colour once the batches before it were. */
  lemma ReplayCustomStep(custom: seq<CustomBatch>, registered: seq<Color>, t: Tool)
    requires custom != []
    requires Registered(custom) <= registered <= t.slots
    requires Replay(CustomStream(custom[..|custom| - 1]), t) == CustomPainting(custom[..|custom| - 1])
    requires |Registered(custom[..|custom| - 1])| < CustomSlots
             ==> Final(CustomStream(custom[..|custom| - 1]), t).slots == t.slots
    ensures Replay(CustomStream(custom), t) == CustomPainting(custom)
    ensures |Registered(custom)| < CustomSlots ==> Final(CustomStream(custom), t).slots == t.slots
  {
    var prior, last := custom[..|custom| - 1], custom[|custom| - 1];
    var r := Registered(prior);
    var mid := Final(CustomStream(prior), t);
    var select := CustomSelect(r, last);
    ReplayAppend(CustomStream(prior), Block(select, last.coords), t);
    ReplayBlock(select, last.coords, mid);
    if last.coords != [] {
      assert |r| < CustomSlots ==> |r| < |mid.slots| && mid.slots[|r|] == last.color by {
        if |r| < CustomSlots {
          assert Registered(custom) == r + [last.color];
          assert registered[|r|] == last.color;
        }
      }
      SelectActive(r, last, mid);
    } else {
      assert Paint(last.coords, last.color) == [];
    }
  }

  /** The selection a custom batch makes picks the batch's colour, from its slot or by typing it in. */
  lemma SelectActive(r: seq<Color>, last: CustomBatch, u: Tool)
    requires |r| <= CustomSlots
    requires |r| < CustomSlots ==> |r| < |u.slots| && u.slots[|r|] == last.color
    ensures Step(u, CustomSelect(r, last)).active == last.color
    ensures |r| < CustomSlots ==> Step(u, CustomSelect(r, last)).slots == u.slots
  {
  }

  /**
   * The end-to-end promise of the stream: once the custom slots hold the
   * registration list, replaying the stream paints every preset batch in
   * its preset and then every custom batch in its colour, each cell of a
   * batch exactly as often as it occurs in the batch.
   */
  lemma ReplayPaintsBatches(batches: seq<seq<Coord>>, custom: seq<CustomBatch>, t: Tool)
    requires |batches| <= |Presets|
    requires Registered(custom) <= t.slots
    ensures Replay(Stream(batches, custom), t) == PresetPainting(batches) + CustomPainting(custom)
  {
    var presets, customs := PresetStream(batches), CustomStream(custom);
    ReplayHeader(t);
    ReplayPresets(batches, t);
    var mid := Final(presets, t);
    ReplayAppend(Header, presets, t);
    assert Replay(Header + presets, t) == [] + PresetPainting(batches) == PresetPainting(batches);
    assert Final(Header + presets, t) == mid;
    ReplayCustom(custom, Registered(custom), mid);
    ReplayAppend(Header + presets, customs, t);
    assert Stream(batches, custom) == Header + presets + customs;
  }

  /** The header paints nothing and leaves the tool state as it was. */
  lemma ReplayHeader(t: Tool)
    ensures Replay(Header, t) == []
    ensures Final(Header, t) == t
  {
    var rest := [SetMaxSize];
    assert Header[0] == SelectBrush && Header[1..] == rest;
    assert rest[0] == SetMaxSize && rest[1..] == [];
    assert Cells(SelectBrush) == [] && Cells(SetMaxSize) == [];
    assert Step(t, SelectBrush) == t && Step(t, SetMaxSize) == t;
    assert Replay(rest, t) == Paint([], t.active) + Replay([], t) == [];
    assert Final(rest, t) == Final([], t) == t;
    assert Replay(Header, t) == Paint([], t.active) + Replay(rest, t);
  }

  /**
   * The custom slots `paint_from_preprocess` leaves before replaying the
   * stream: it creates the background colour twice (primary and secondary),
   * then, when there are registered colours, the ten-colour registration
   * list.
   */
  function SetUpSlots(slots: seq<Color>, background: Color, initColors: seq<Color>): seq<Color>
    requires |initColors| <= CustomSlots
  {
    CreateAll(slots, [background, background] + SlotRegistrations(initColors))
  }

  /**
   * The set-up `paint_from_preprocess` runs before replaying: the
   * background is typed in twice (as the primary and the secondary colour),
   * then, when there are registered colours, each of them is created,
   * followed by the first presets until ten colours have been created.
   */
  method SetUp(slots: seq<Color>, background: Color, initColors: seq<Color>) returns (after: seq<Color>)
    requires |initColors| <= CustomSlots
    ensures after == SetUpSlots(slots, background, initColors)
    ensures |slots| == CustomSlots ==> initColors <= after
  {
    after := Create(Create(slots, background), background);
    TypedTwice(slots, background);
    if initColors != [] {
      var registered := CreateEach(after, initColors);
      RegisteredThenPresets(after, slots, background, initColors);
      after := CreateEach(registered, Presets[..CustomSlots - |initColors|]);
    } else {
      NothingRegistered(slots, background);
    }
    if |slots| == CustomSlots {
      SetUpRegisters(slots, background, initColors);
    }
  }

  /** Without registered colours the set-up only types the background, twice. */
  lemma NothingRegistered(slots: seq<Color>, background: Color)
    ensures SetUpSlots(slots, background, []) == CreateAll(slots, [background, background])
  {
    assert [background, background] + SlotRegistrations([]) == [background, background];
  }

  /** Typing a colour twice is creating it twice. */
  lemma TypedTwice(slots: seq<Color>, c: Color)
    ensures Create(Create(slots, c), c) == CreateAll(slots, [c, c])
  {
    CreateAllSnoc(slots, [], c);
    CreateAllSnoc(slots, [c], c);
  }

  /** The two creation loops, run after the typed background, leave the slots `SetUpSlots` describes. */
  lemma RegisteredThenPresets(typed: seq<Color>, slots: seq<Color>, background: Color, initColors: seq<Color>)
    requires typed == CreateAll(slots, [background, background])
    requires initColors != [] && |initColors| <= CustomSlots
    ensures CreateAll(CreateAll(typed, initColors), Presets[..CustomSlots - |initColors|])
         == SetUpSlots(slots, background, initColors)
  {
    CreateInStages(slots, [background, background], initColors, Presets[..CustomSlots - |initColors|]);
  }

  /** Whatever the slots held before, after set-up they start with the registered colours, in order. */
  lemma SetUpRegisters(slots: seq<Color>, background: Color, initColors: seq<Color>)
    requires |slots| == CustomSlots && |initColors| <= CustomSlots
    ensures initColors <= SetUpSlots(slots, background, initColors)
  {
    if initColors != [] {
      var created := [background, background] + SlotRegistrations(initColors);
      CreateAllWindow(slots, created);
      assert created[|created| - |slots|..] == SlotRegistrations(initColors);
    }
  }

  // ---------------------------------------------------------------------
  // The compiler and the whole preprocess

  /**
   * Emits the stream: the header, then for each non-empty preset batch a
   * click on its palette cell and its runs, then for each non-empty custom
   * batch a click on the next custom slot while fewer than ten colours are
   * registered (registering its colour) or else its colour typed in, and
   * its runs.
   */
  method CompileInstructions(batches: seq<seq<Coord>>, custom: seq<CustomBatch>)
      returns (instrs: seq<Instruction>, initColors: seq<Color>)
    ensures instrs == Stream(batches, custom)
    ensures initColors == Registered(custom)
  {
    instrs := [SelectBrush, SetMaxSize];
    var presets := CompilePresetBatches(batches);
    var customs;
    customs, initColors := CompileCustomBatches(custom);
    instrs := instrs + presets + customs;
  }

  /** The preset part of the stream: a click on cell `i` and the runs of batch `i`, for each non-empty batch. */
  method CompilePresetBatches(batches: seq<seq<Coord>>) returns (instrs: seq<Instruction>)
    ensures instrs == PresetStream(batches)
  {
    instrs := [];
    for i := 0 to |batches|
      invariant instrs == PresetStream(batches[..i])
    {
      PresetStreamStep(batches, i);
      var batch := batches[i];
      if |batch| != 0 {
        var lines := CompileLines(batch);
        instrs := instrs + ([PaletteColor(i)] + lines);
      }
    }
    assert batches[..|batches|] == batches;
  }

  lemma PresetStreamStep(batches: seq<seq<Coord>>, i: nat)
    requires i < |batches|
    ensures PresetStream(batches[..i + 1]) == PresetStream(batches[..i]) + Block(PaletteColor(i), batches[i])
  {
    assert batches[..i + 1][..i] == batches[..i];
  }

  /**
   * The custom part of the stream: for each non-empty custom batch, the next
   * custom slot while fewer than ten colours are registered (registering the
   * colour), otherwise the colour typed in, then the batch's runs.
   */
  method CompileCustomBatches(custom: seq<CustomBatch>) returns (instrs: seq<Instruction>, initColors: seq<Color>)
    ensures instrs == CustomStream(custom)
    ensures initColors == Registered(custom)
  {
    instrs, initColors := [], [];
    for k := 0 to |custom|
      invariant instrs == CustomStream(custom[..k])
      invariant initColors == Registered(custom[..k])
    {
      CustomStep(custom, k);
      var b := custom[k];
      if |b.coords| != 0 {
        var select;
        if |initColors| != CustomSlots {
          select := PaletteColor(|Presets| + |initColors|);
          initColors := initColors + [b.color];
        } else {
          select := ColorPrecise(b.color);
        }
        var lines := CompileLines(b.coords);
        instrs := instrs + ([select] + lines);
      }
    }
    assert custom[..|custom|] == custom;
  }

  /** One more custom batch extends the stream by its block and the registered colours by at most its colour. */
  lemma CustomStep(custom: seq<CustomBatch>, k: nat)
    requires k < |custom|
    ensures var prior, b := custom[..k], custom[k];
            && CustomStream(custom[..k + 1]) == CustomStream(prior) + Block(CustomSelect(Registered(prior), b), b.coords)
            && Registered(custom[..k + 1])
               == if b.coords != [] && |Registered(prior)| != CustomSlots then Registered(prior) + [b.color] else Registered(prior)
  {
    assert custom[..k + 1][..k] == custom[..k];
  }

  /**
   * `paint_preprocess`: quantize the image, then compile the batches. The
   * batches themselves are internal to the source; here they are ghost
   * results, so that the contract can say which batches the stream paints.
   */
  method PaintPreprocess(image: seq<ImagePixel>, bound: nat, colorLimit: nat)
      returns (instrs: seq<Instruction>, initColors: seq<Color>, background: Color,
               ghost presetBatches: seq<seq<Coord>>, ghost custom: seq<CustomBatch>)
    requires |image| > 0
    ensures IsQuantization(image, bound, colorLimit, background, presetBatches, custom)
    ensures instrs == Stream(presetBatches, custom)
    ensures initColors == Registered(custom)
    ensures |initColors| <= CustomSlots
    ensures |instrs| >= 2 && instrs[0] == SelectBrush && instrs[1] == SetMaxSize
  {
    var batches, discovered;
    background, batches, discovered := Quantize(image, bound, colorLimit);
    instrs, initColors := CompileInstructions(batches, discovered);
    presetBatches, custom := batches, discovered;
  }

  /** The cells of a painting, with their colours dropped. */
  function PaintedCells(painting: seq<(Color, Coord)>): (r: seq<Coord>)
    ensures |r| == |painting|
    ensures forall i :: 0 <= i < |painting| ==> r[i] == painting[i].1
  {
    seq(|painting|, i requires 0 <= i < |painting| => painting[i].1)
  }

  lemma PaintedCellsAppend(a: seq<(Color, Coord)>, b: seq<(Color, Coord)>)
    ensures PaintedCells(a + b) == PaintedCells(a) + PaintedCells(b)
  {
  }

  lemma {:induction false} PresetPaintingCells(batches: seq<seq<Coord>>)
    requires |batches| <= |Presets|
    ensures multiset(PaintedCells(PresetPainting(batches))) == BatchesMultiset(batches)
  {
    if batches != [] {
      var n := |batches| - 1;
      PresetPaintingCells(batches[..n]);
      PaintedCellsAppend(PresetPainting(batches[..n]), Paint(batches[n], Presets[n]));
      assert PaintedCells(Paint(batches[n], Presets[n])) == batches[n];
    }
  }

  lemma {:induction false} CustomPaintingCells(custom: seq<CustomBatch>)
    ensures multiset(PaintedCells(CustomPainting(custom))) == BatchesMultiset(CustomCoords(custom))
  {
    if custom != [] {
      var prior, last := custom[..|custom| - 1], custom[|custom| - 1];
      CustomPaintingCells(prior);
      PaintedCellsAppend(CustomPainting(prior), Paint(last.coords, last.color));
      assert PaintedCells(Paint(last.coords, last.color)) == last.coords;
      CustomCoordsPrefix(custom, |custom| - 1);
    }
  }

  /**
   * The whole pipeline: after `paint_from_preprocess` sets up the custom
   * slots, replaying the stream paints each preset batch in its preset and
   * each custom batch in its colour, and the cells painted are exactly the
   * foreground cells, each once.
   */
  lemma PaintPreprocessPaintsForeground(image: seq<ImagePixel>, bound: nat, colorLimit: nat,
                                        background: Color, presetBatches: seq<seq<Coord>>,
                                        custom: seq<CustomBatch>, slots: seq<Color>, active: Color)
    requires IsQuantization(image, bound, colorLimit, background, presetBatches, custom)
    requires |slots| == CustomSlots
    ensures var t := Tool(SetUpSlots(slots, background, Registered(custom)), active);
            var painting := Replay(Stream(presetBatches, custom), t);
            && painting == PresetPainting(presetBatches) + CustomPainting(custom)
            && multiset(PaintedCells(painting)) == multiset(Coords(Foreground(image, background, bound)))
  {
    var t := Tool(SetUpSlots(slots, background, Registered(custom)), active);
    SetUpRegisters(slots, background, Registered(custom));
    ReplayPaintsBatches(presetBatches, custom, t);
    PaintedCellsAppend(PresetPainting(presetBatches), CustomPainting(custom));
    PresetPaintingCells(presetBatches);
    CustomPaintingCells(custom);
    QuantizePartition(image, bound, colorLimit, background, presetBatches, custom);
  }
}
