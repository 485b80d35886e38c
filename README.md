# A verified model of the artist's instruction compiler

`artist` paints an image in a desktop paint program by driving the mouse
and keyboard. Before it touches the screen, `Artist::paint_preprocess`
(src/paint.rs) works out everything it will draw. That preprocessing is the
part modelled here. It runs in these steps:

1. It composites every pixel onto white.
2. It finds the background colour by greedy online clustering under a
   colour tolerance.
3. It drops the pixels close to the background.
4. It assigns the remaining pixels to the nearest of the 20 preset palette
   colours. This is forced when `color_limit == 0`; otherwise a pixel is
   assigned only when it is within tolerance.
5. It discovers up to `color_limit - 1` custom colours by clustering the
   shrinking remainder again and again, then puts whatever is left into one
   overflow batch coloured by the truncated mean.
6. It compiles every non-empty batch into one colour instruction followed
   by horizontal `Line` runs. The first ten custom colours get palette
   slots 20..29; later ones are typed as `ColorPrecise`.

The painting side, `paint_from_preprocess`, is modelled only as far as its
effect on the palette: it creates the background colour twice and then the
ten-colour registration list. A small actuator model (`Instructions.Replay`)
then gives the meaning of an instruction stream: the list of (colour, cell)
pairs it paints. The main end-to-end result is
`Sequencer.PaintPreprocessPaintsForeground`. It states two things:

- Replaying the compiled stream, after that set-up, paints every preset
  batch in its preset colour and every custom batch in its own colour.
- The cells painted are exactly the foreground pixels, each painted once.

Modules, one per file:

- `ColorOps` (color_ops.dfy): colours, `color_difference`, `blend_with_white`, the tolerance bound.
- `Palette` (palette.dfy): the 20 presets and the nearest-preset scan.
- `Pixels` (pixels.dfy): pixels, coordinates, and the order-preserving split by distance.
- `Clusterer` (clusterer.dfy): the greedy clusterer over a `map<Color, nat>`.
- `Quantizer` (quantizer.dfy): background removal, the two preset passes (over an `array` of 20 batches), custom-colour discovery and the overflow mean.
- `Instructions` (instructions.dfy): `PaintInstruction`, line cells, and the tool-state replay.
- `LineCompiler` (line_compiler.dfy): the horizontal-run compiler.
- `Sequencer` (sequencer.dfy): the instruction list, the slot registrations, and the end-to-end lemmas.
- `Canvas` (canvas.dfy): corner calibration, the palette click position, the `#RRGGBB` text.
- `Optional` (optional.dfy): an `Option` datatype.

Some of the source's types are modelled as follows:

- A tolerance `t >= 0` is an integer bound on the summed absolute channel
  difference. Over exact reals, `sqrt(s) <= t` holds exactly when
  `s <= floor(t*t)`; see `ColorOps.SqrtComparison`. The `f32` rounding of
  `sqrt` near that boundary is not modelled.
- The `HashMap` iteration order is arbitrary. Every scan over the map picks
  keys with `:|`, so nothing proved depends on the order.
- The clusterer can therefore pick different winners on a tie. A pass is
  specified as a greedy run (`Clusterer.IsRun`): colour by colour, each
  colour founds a key when every key is farther than the bound, and
  otherwise joins a key at the smallest distance, with ties left open. The
  background and the custom colours are the top-count keys of such runs
  (`Clusterer.IsDominant`, `Quantizer.Round`, `Quantizer.Discovered`), not
  one fixed answer.

## Model

| member | source | states |
|---|---|---|
| ColorOps.Difference | src/paint.rs:405-407 | the distance is below the `f32::INFINITY` stand-in, and it is zero exactly when the two colours are equal |
| ColorOps.DifferenceSymmetric | src/paint.rs:405-407 | the distance does not depend on argument order |
| ColorOps.DifferenceMonotone | src/paint.rs:405-407 | a larger gap on every channel never gives a smaller distance |
| ColorOps.ToleranceBound | src/paint.rs:118 | the integer bound `n` of a tolerance `t` satisfies `n <= t*t < n+1` |
| ColorOps.SqrtComparison | src/paint.rs:118 | for a sum `s` with exact square root `root`, `root <= t` holds exactly when `s <= ToleranceBound(t)`: over exact reals the integer test decides as the square-root test does |
| ColorOps.BlendChannel | src/paint.rs:409-416 | compositing onto white never darkens a channel; an opaque pixel keeps its value and a transparent one becomes 255 |
| ColorOps.BlendWithWhite | src/paint.rs:409-416 | an opaque pixel keeps its colour, a fully transparent one becomes white, and no channel decreases |
| Palette.FirstNearest | src/paint.rs:133-141 | the scan with strict `<` over the first `n` colours of the palette returns a minimal-distance index that beats every earlier index strictly, so the lowest index wins ties |
| Palette.NearestPresetIndex | src/paint.rs:133-141 | the result is an index in 0..19 at minimal distance, with no earlier index at the same distance |
| Palette.NearestPresetUnique | src/paint.rs:146-154 | exactly one index is the lowest-index nearest preset |
| Palette.NearestPreset | src/paint.rs:146-154 | the loop returns the lowest-index nearest preset and its distance |
| Pixels.FarFrom | src/paint.rs:127-130 | only pixels farther than the bound from the reference survive, and there are never more than in the input |
| Pixels.NearTo | src/paint.rs:181-186 | only pixels within the bound of the reference are taken |
| Pixels.SplitByDistance | src/paint.rs:181-186 | the near and far parts together are the input, with multiplicity |
| Pixels.FarFromExact | src/paint.rs:127-130 | each pixel farther than the bound survives as many times as it occurs, and every other pixel is dropped |
| Pixels.NearToPresent | src/paint.rs:181-186 | when some remaining pixel has the reference colour exactly, the near part is non-empty and the far part strictly shorter |
| Pixels.ReverseMultiset | src/paint.rs:132 | reversing the push order loses and duplicates nothing |
| Clusterer.FoundPreserves | src/paint.rs:118-119 | a colour with no representative within the bound inserts a fresh key with count 1 and never resets an existing count; the clustering invariant still holds |
| Clusterer.JoinPreserves | src/paint.rs:120-121 | a colour within the bound of a representative adds one to that count only; the clustering invariant still holds |
| Clusterer.NearestRepresentative | src/paint.rs:109-117 | the map scan in any key order returns nothing exactly when the map is empty, and otherwise a key at minimal distance together with that distance |
| Clusterer.Cluster | src/paint.rs:107-123 | the pass is a greedy run: each colour founds a key when every key is farther than the bound and otherwise joins a nearest key, and the map counts those choices; hence every colour is within the bound of the key it joined, each count is the number of colours that joined that key, the map is empty only for an empty scan, and keys are pairwise farther apart than the bound |
| Clusterer.CountsOfSnoc | src/paint.rs:118-121 | founding a key adds it with count 1, and joining a key adds one to its count and changes nothing else |
| Clusterer.RunIsClustering | src/paint.rs:107-123 | every greedy run leaves a clustering: each colour within the bound of its key, counts equal to the number of joiners, every key founded by a scanned colour, keys pairwise farther apart than the bound |
| Clusterer.FirstChoice | src/paint.rs:118-119 | the first colour of a scan always founds its own key |
| Clusterer.ThreeShadesRun | src/paint.rs:107-123 | over black, (1,0,0) and (2,0,0) with tolerance 1 the only greedy run has the middle colour join black and (2,0,0) found its own key |
| Clusterer.ThreeShadesDominant | src/paint.rs:107-124 | on that scan the background is black, although (1,0,0) is within the tolerance of all three colours |
| Clusterer.ClusteringKeys | src/paint.rs:107-123 | every key of a finished pass is a scanned colour with a positive count, and a non-empty scan leaves at least one key |
| Clusterer.MostCommon | src/paint.rs:124 | `max_by_key` returns a key whose count no other key exceeds |
| Clusterer.Dominant | src/paint.rs:107-124 | over a non-empty scan, the result is a top-count key of a greedy run of the clusterer over that scan (which run depends only on how ties between equally near keys are visited) |
| Clusterer.DominantIsScanned | src/paint.rs:178 | the dominant colour occurs in the scan, at the returned index |
| Clusterer.ExactBoundDominantIsMode | src/paint.rs:107-124 | with a zero bound, the dominant colour is a most frequent colour of the scan |
| Quantizer.PresetGroup | src/paint.rs:142 | every pixel in preset group `j` has `j` as its nearest preset, and is within the bound unless the pass is forced |
| Quantizer.PresetPartition | src/paint.rs:131-159 | the preset batches plus the pixels left unassigned are exactly the pass's input cells |
| Quantizer.ForcedBatchesIgnoreBound | src/paint.rs:131-143 | with `color_limit == 0` the tolerance plays no part in the preset batches |
| Quantizer.AssignToNearest | src/paint.rs:131-143 | the reverse loop pushes each pixel onto its nearest preset's batch; the array ends equal to the forced preset batches of the input |
| Quantizer.AssignWithinTolerance | src/paint.rs:144-159 | the reverse loop with `remove(i)` pushes exactly the pixels within the bound of their nearest preset, and the remaining list is the rest in their original order |
| Quantizer.UnmatchedFarFromPresets | src/paint.rs:155-158 | every pixel left after the tolerance pass is farther than the bound from all 20 presets |
| Quantizer.TakeNear | src/paint.rs:181-187 | one discovery round removes exactly the pixels within the bound of the winner, keeps the rest in order, and returns the removed cells in reverse scan order |
| Quantizer.ChannelSumWithin | src/paint.rs:193-197 | when every channel value lies in `lo..hi`, the sum lies in `lo*n..hi*n` |
| Quantizer.DivWithin | src/paint.rs:198-201 | dividing such a sum by `n` lands back in `lo..hi`, so the truncated mean fits in a `u8` |
| Quantizer.MeanWithin | src/paint.rs:189-202 | each channel of the overflow colour lies between the least and greatest value of that channel among the left-over pixels |
| Quantizer.MeanOfUniform | src/paint.rs:189-202 | if all left-over pixels have one colour, the overflow colour is that colour |
| Quantizer.AverageColor | src/paint.rs:189-202 | the summing loop returns the per-channel truncated mean |
| Quantizer.DiscoveryStepsSnoc | src/paint.rs:160-188 | the rounds so far plus one more are valid exactly when the rounds so far are valid and the new round is valid on what they left |
| Quantizer.Discover | src/paint.rs:160-203 | the loop stops with each custom colour a top-count key of a greedy run over the pixels then left, and its batch exactly the pixels near it; either nothing is left, or exactly one overflow batch holds all the rest |
| Quantizer.DiscoveredPartition | src/paint.rs:160-203 | the custom batches hold exactly the pixels the preset pass left, each once |
| Quantizer.DiscoveredSeparated | src/paint.rs:160-188 | any two discovered (non-overflow) custom colours are farther apart than the bound |
| Quantizer.DiscoveredNonEmpty | src/paint.rs:160-203 | every custom batch is non-empty, since each round's winner takes at least the pixel that founded it |
| Quantizer.AfterShrinks | src/paint.rs:181-187 | a pixel still left after round `n` was left after every earlier round and is farther than the bound from every earlier custom colour |
| Quantizer.Quantize | src/paint.rs:103-204 | the background is a top-count key of a greedy run over the whole image; the preset batches are the nearest-preset groups of the foreground (forced when `color_limit == 0`); the custom batches are empty when `color_limit == 0` and otherwise a valid discovery over what the preset pass left |
| Quantizer.Assign | src/paint.rs:131-204 | the preset batches and custom batches are as described for `Quantize`, starting from the foreground |
| Quantizer.QuantizePartition | src/paint.rs:125-204 | every foreground pixel lies in exactly one batch, preset or custom |
| Quantizer.QuantizeCustomShape | src/paint.rs:160-203 | there are at most `color_limit` custom batches and none is empty |
| Instructions.LineCells | src/paint.rs:219 | a leftward line from `sx` to `ex` covers `sx - ex + 1` cells, from right to left |
| Instructions.CreateAllWindow | src/paint.rs:266-273 | creating at least as many colours as there are slots leaves the last ones created, in order |
| Instructions.CreateAllAppend | src/paint.rs:266-273 | creating one list of colours and then another is creating their concatenation |
| Instructions.CreateEach | src/paint.rs:266-272 | the `create_color` loop leaves the slots that creating its colours one after another leaves |
| Instructions.ReplayAppend | src/paint.rs:274-282 | replaying two streams one after the other paints what each paints, the second from the state the first leaves |
| Instructions.ReplayLines | src/paint.rs:274-282 | a run of lines paints its cells in the active colour and changes no tool state |
| LineCompiler.Runs | src/paint.rs:212-225 | the lines of a non-empty batch are non-empty and horizontal with `sx >= ex`, and the last ends at the batch's last cell |
| LineCompiler.RunsCover | src/paint.rs:212-225 | the lines cover exactly the batch's cells, in order, each once |
| LineCompiler.RunsCount | src/paint.rs:212-225 | the number of lines is 1 plus the number of adjacent pairs that are not "same row, x one less" |
| LineCompiler.RunsMaximal | src/paint.rs:237-250 | no two consecutive lines could have been joined into one |
| LineCompiler.CompileLines | src/paint.rs:237-250 | the loop over `line_x`, `line_y`, `line_length` emits exactly the maximal runs |
| Sequencer.Registered | src/paint.rs:230-233 | at most ten custom colours are registered |
| Sequencer.RegisteredFirstTen | src/paint.rs:228-236 | the registered colours are the colours of the first ten non-empty custom batches, in order |
| Sequencer.StreamSelects | src/paint.rs:209-252 | the stream holds exactly one colour instruction per non-empty batch, preset or custom |
| Sequencer.StreamLinesLeftward | src/paint.rs:209-252 | every line in the stream is horizontal and drawn leftwards |
| Sequencer.SetUpRegisters | src/paint.rs:262-273 | whatever the slots held, after set-up they begin with the registered custom colours, in order |
| Sequencer.SetUp | src/paint.rs:262-273 | the set-up creates the background twice, then (only when colours are registered) the registered colours and presets `0..10-len`; ten slots end beginning with the registered colours, in order |
| Sequencer.ReplayPresets | src/paint.rs:209-227 | the preset part of the stream paints each preset batch in its own preset colour and leaves the custom slots alone |
| Sequencer.ReplayCustom | src/paint.rs:228-252 | with the registered colours in the slots, the custom part of the stream paints each custom batch in its own colour |
| Sequencer.ReplayPaintsBatches | src/paint.rs:205-252 | the whole stream paints the preset batches in their presets, then the custom batches in their colours |
| Sequencer.CompilePresetBatches | src/paint.rs:209-227 | the loop over the 20 batches emits, for each non-empty one, `Color(i)` followed by its runs |
| Sequencer.CompileCustomBatches | src/paint.rs:228-252 | the loop emits, for each non-empty custom batch, `Color(20 + k)` while slots remain and `ColorPrecise` after, followed by its runs, and collects the registered colours |
| Sequencer.CompileInstructions | src/paint.rs:205-252 | the emitted list is the header followed by the preset and custom blocks, and `init_colors` is the registered list |
| Sequencer.PaintPreprocess | src/paint.rs:103-255 | the result is a valid quantization of the image, compiled into the stream and the registration list; the stream opens with the brush selection and the size setting, and at most ten colours are registered |
| Sequencer.PresetPaintingCells | src/paint.rs:209-227 | the cells the preset part paints are exactly the preset batches' cells |
| Sequencer.CustomPaintingCells | src/paint.rs:228-252 | the cells the custom part paints are exactly the custom batches' cells |
| Sequencer.PaintPreprocessPaintsForeground | src/paint.rs:257-283 | after the set-up, replaying the compiled stream paints each batch in its colour, and the painted cells are exactly the foreground pixels, each once |
| Canvas.DotsCovering | src/paint.rs:92-93 | the dot count is the least whole number of 5-pixel dots that covers the width |
| Canvas.Calibrate | src/paint.rs:84-93 | the corners are swapped so the grid starts at the smaller coordinate, and the grid covers both clicked corners with less than one dot to spare |
| Canvas.CalibrateSymmetric | src/paint.rs:84-89 | which corner is clicked first does not matter |
| Canvas.TruncDiv | src/paint.rs:335-336 | Rust's truncating quotient and remainder recompose the dividend |
| Canvas.PaletteCell | src/paint.rs:334-336 | column and row recompose the index, the column is within 10 of zero, and indices 0..29 give rows 0..2 |
| Canvas.PaletteClickInjective | src/paint.rs:334-338 | the 30 palette entries are clicked at 30 distinct screen positions |
| Canvas.HexColor | src/paint.rs:359 | the typed text is `#` followed by six upper-case hexadecimal digits |
| Canvas.HexColorRoundTrip | src/paint.rs:359 | reading the typed text back gives the colour again |
| Canvas.HexColorInjective | src/paint.rs:359 | distinct colours are typed as distinct texts |

## Left out

- Mouse and keyboard automation (`click`, `drag`, `draw_line`, `draw_square`, `select_square`, the keystrokes of `create_color`, `set_max_brush_size`, `select_brush`, `shortcut`, `alt_sequence`, `wait_for_keyup`), the sleeps, and the position-check panics: these are I/O through the `enigo` and `device_query` crates. The replay model stands in for their effect on the canvas.
- `screenshot`, the Gaussian `resize` in `Artist::new`/`new_image`, and the `GifArtist` frame loop: these are screen and image-library calls. Each frame runs the same preprocess again.
- src/main.rs is not part of this model; it only opens an image.
- The `canvas_selected` flag: it only affects the clicks, not what is painted.
- Instructions.Create: that a created colour enters the last custom slot, and the others shift forward, is an assumption about the paint program, which is not part of this model.
- `instructions`: the vector appended at line 253 is never filled, so the model omits it.
- The `i32`/`u32` casts of coordinates and the `as u8` casts: positions are `int` in the model, and the mean is proved to fit in a channel.
- ColorOps.SqrtComparison: the equivalence holds over exact reals. The source takes an `f32` square root, which can round across the tolerance; for example, with `t` the `f32` nearest to the square root of 2, the source accepts a sum of 2 where `s <= floor(t*t)` rejects it. Such boundary cases are not modelled.
- ColorOps.BlendWithWhite: exact rational arithmetic with `floor` replaces the `f32` computation, so one-off rounding differences of `f32` are not modelled.
- ColorOps.ToleranceBound: only a non-negative tolerance is modelled. With a negative tolerance every colour founds a new key, and `insert` on a key already present resets its count.
- Quantizer.AverageColor: the per-channel sum and division are exact integers, while the source uses `f32`. They agree while the sums stay within `f32`'s exact integer range (below 2^24).
- Canvas.DotsCovering: `ceil` of an `f32` quotient is modelled as an exact integer ceiling.
- Clusterer.MostCommon: which key wins a tie depends on the hash map's order, which is not modelled. The contract states only that the winner has a top count.
- Clusterer.NearestRepresentative: likewise, the key chosen among equally near representatives is not determined.
- The empty image: `unwrap` at line 124 panics on it, so `Quantize` and `PaintPreprocess` require a non-empty image.
- LineCompiler.CompileLines: the source writes the run loop out twice, for preset and for custom batches. The model has one method, used by both.
