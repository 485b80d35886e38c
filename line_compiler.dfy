/**
 * The horizontal-run line compiler of `paint_preprocess` (src/paint.rs):
 * a batch's cells, stored right to left, become `Line` instructions, one
 * per maximal run of cells on one row, each one column left of the last.
 */
module LineCompiler {
  import opened Pixels
  import opened Instructions

  /** `next` extends a run ending at `prev`: same row, one column to the left. */
  predicate Continues(prev: Coord, next: Coord)
  {
    next.1 == prev.1 && next.0 == prev.0 - 1
  }

  /** Two consecutive runs that could have been drawn as one. */
  predicate Joinable(l1: Instruction, l2: Instruction)
  {
    l1.Line? && l2.Line? && l2.sy == l1.ey && l2.sx == l1.ex - 1
  }

  /**
   * The runs of a batch, defined cell by cell from the back: a cell that
   * continues the previous one moves the last run's left end, any other
   * cell starts a new one-cell run.
   */
  function Runs(batch: seq<Coord>): (lines: seq<Instruction>)
    requires |batch| > 0
    ensures |lines| > 0
    ensures forall l :: l in lines ==> IsLeftwardRun(l)
    ensures IsLeftwardRun(lines[|lines| - 1])
    ensures (lines[|lines| - 1].ex, lines[|lines| - 1].ey) == batch[|batch| - 1]
    decreases |batch|
  {
    var n := |batch|;
    var cell := batch[n - 1];
    if n == 1 then [Line(cell.0, cell.1, cell.0, cell.1)]
    else
      var prefix := Runs(batch[..n - 1]);
      var last := prefix[|prefix| - 1];
      if Continues(batch[n - 2], cell) then
        assert last in prefix;
        prefix[..|prefix| - 1] + [Line(last.sx, last.sy, cell.0, last.ey)]
      else
        prefix + [Line(cell.0, cell.1, cell.0, cell.1)]
  }

  /** How many neighbouring cells of the batch do not continue a run. */
  function Breaks(batch: seq<Coord>): nat
  {
    if |batch| <= 1 then 0
    else Breaks(batch[..|batch| - 1]) + (if Continues(batch[|batch| - 2], batch[|batch| - 1]) then 0 else 1)
  }

  /** Drawing the runs covers exactly the batch's cells, in the batch's order, each once. */
  lemma {:induction false} RunsCover(batch: seq<Coord>)
    requires |batch| > 0
    ensures Expand(Runs(batch)) == batch
    decreases |batch|
  {
    if |batch| == 1 {
      RunsCoverOne(batch);
    } else {
      RunsCover(batch[..|batch| - 1]);
      RunsCoverStep(batch);
    }
  }

  lemma RunsCoverOne(batch: seq<Coord>)
    requires |batch| == 1
    ensures Expand(Runs(batch)) == batch
  {
    var cell := batch[0];
    var single := Line(cell.0, cell.1, cell.0, cell.1);
    ExpandSnoc([], single);
    assert [] + [single] == [single];
    assert batch == [cell];
  }

  lemma RunsCoverStep(batch: seq<Coord>)
    requires |batch| > 1
    requires Expand(Runs(batch[..|batch| - 1])) == batch[..|batch| - 1]
    ensures Expand(Runs(batch)) == batch
  {
    var n := |batch|;
    var front := batch[..n - 1];
    assert front[n - 2] == batch[n - 2];
    CoverStep(Runs(front), front, batch[n - 1]);
    SplitLast(batch);
  }

  /**
   * One more cell on the runs of `front`: moving the last run's left end
   * or starting a new run adds exactly that cell to what is drawn.
   */
  lemma CoverStep(prefix: seq<Instruction>, front: seq<Coord>, cell: Coord)
    requires |prefix| > 0 && |front| > 0 && Expand(prefix) == front
    requires IsLeftwardRun(prefix[|prefix| - 1])
    requires (prefix[|prefix| - 1].ex, prefix[|prefix| - 1].ey) == front[|front| - 1]
    ensures var m, last := |prefix|, prefix[|prefix| - 1];
            Expand(if Continues(front[|front| - 1], cell)
                   then prefix[..m - 1] + [Line(last.sx, last.sy, cell.0, last.ey)]
                   else prefix + [Line(cell.0, cell.1, cell.0, cell.1)])
            == front + [cell]
  {
    var m, last := |prefix|, prefix[|prefix| - 1];
    if Continues(front[|front| - 1], cell) {
      CoverMoved(prefix[..m - 1], last, cell);
      assert prefix == prefix[..m - 1] + [last];
    } else {
      var single := Line(cell.0, cell.1, cell.0, cell.1);
      ExpandSnoc(prefix, single);
      assert Cells(single) == [cell];
    }
  }

  /** Moving the last run's left end onto `cell` draws exactly `cell` more. */
  lemma CoverMoved(init: seq<Instruction>, last: Instruction, cell: Coord)
    requires IsLeftwardRun(last) && cell.0 == last.ex - 1 && cell.1 == last.sy
    ensures Expand(init + [Line(last.sx, last.sy, cell.0, last.ey)]) == Expand(init + [last]) + [cell]
  {
    var moved := Line(last.sx, last.sy, cell.0, last.ey);
    ExpandSnoc(init, last);
    ExpandSnoc(init, moved);
    MovedCells(last, cell);
    calc {
      Expand(init + [moved]);
      Expand(init) + Cells(moved);
      Expand(init) + (Cells(last) + [cell]);
      (Expand(init) + Cells(last)) + [cell];
      Expand(init + [last]) + [cell];
    }
  }

  /**
   * The compiling loop after the first `i` cells: `lines` holds the closed
   * runs and the open run reaches from column `start` to the last cell.
   */
  predicate OpenRun(batch: seq<Coord>, i: nat, lines: seq<Instruction>, start: int)
    requires 0 < i <= |batch|
  {
    Runs(batch[..i]) == lines + [Line(start, batch[i - 1].1, batch[i - 1].0, batch[i - 1].1)]
  }

  /**
   * One step of the compiling loop: cell `i` either moves the open run's
   * left end, or closes the run and opens a new one at the cell.
   */
  lemma CompileStep(batch: seq<Coord>, i: nat, lines: seq<Instruction>, start: int)
    requires 0 < i < |batch| && OpenRun(batch, i, lines, start)
    ensures Continues(batch[i - 1], batch[i]) ==> OpenRun(batch, i + 1, lines, start)
    ensures !Continues(batch[i - 1], batch[i]) ==>
              OpenRun(batch, i + 1, lines + [Line(start, batch[i - 1].1, batch[i - 1].0, batch[i - 1].1)], batch[i].0)
  {
    var s := batch[..i + 1];
    assert s[..i] == batch[..i] && s[i - 1] == batch[i - 1] && s[i] == batch[i];
    assert (lines + [Line(start, batch[i - 1].1, batch[i - 1].0, batch[i - 1].1)])[..|lines|] == lines;
  }

  /** Moving a run's left end one column further left adds exactly that cell. */
  lemma MovedCells(last: Instruction, cell: Coord)
    requires IsLeftwardRun(last) && cell.0 == last.ex - 1 && cell.1 == last.sy
    ensures Cells(Line(last.sx, last.sy, cell.0, last.ey)) == Cells(last) + [cell]
  {
    LineCellsExtend(last.sx, last.sy, last.ex);
  }

  lemma SplitLast(s: seq<Coord>)
    requires |s| > 0
    ensures s == s[..|s| - 1] + [s[|s| - 1]]
  {
  }

  lemma ExpandSnoc(lines: seq<Instruction>, l: Instruction)
    ensures Expand(lines + [l]) == Expand(lines) + Cells(l)
  {
    ExpandAppend(lines, [l]);
    assert Expand([l]) == Cells(l) + Expand([]);
  }

  /** One line per break, plus the first: the stream gets no longer than the batch's row structure needs. */
  lemma {:induction false} RunsCount(batch: seq<Coord>)
    requires |batch| > 0
    ensures |Runs(batch)| == 1 + Breaks(batch)
    decreases |batch|
  {
    if |batch| > 1 {
      RunsCount(batch[..|batch| - 1]);
    }
  }

  /** No two consecutive runs could be joined into one line. */
  lemma {:induction false} RunsMaximal(batch: seq<Coord>)
    requires |batch| > 0
    ensures forall i :: 0 <= i < |Runs(batch)| - 1 ==> !Joinable(Runs(batch)[i], Runs(batch)[i + 1])
    decreases |batch|
  {
    var n := |batch|;
    if n > 1 {
      RunsMaximal(batch[..n - 1]);
      var prefix := Runs(batch[..n - 1]);
      assert batch[..n - 1][n - 2] == batch[n - 2];
      var lines := Runs(batch);
      forall i | 0 <= i < |lines| - 1
        ensures !Joinable(lines[i], lines[i + 1])
      {
        assert lines[i] in lines && lines[i + 1] in lines;
        assert prefix[|prefix| - 1] in prefix;
        if i + 1 < |prefix| - 1 || (i + 1 == |prefix| - 1 && !Continues(batch[n - 2], batch[n - 1])) {
          assert lines[i] == prefix[i] && lines[i + 1] == prefix[i + 1];
        }
      }
    }
  }

  /**
   * The loop of `paint_preprocess` that walks a non-empty batch with
   * `line_x`, `line_y` and `line_length`, extending the current run while
   * cells continue it and emitting a `Line` whenever one does not.
   */
  method CompileLines(batch: seq<Coord>) returns (lines: seq<Instruction>)
    requires |batch| > 0
    ensures lines == Runs(batch)
  {
    var lineLength := 0;
    var lineX, lineY := batch[0].0, batch[0].1;
    lines := [];
    assert OpenRun(batch, 1, lines, lineX + lineLength);
    for i := 1 to |batch|
      invariant (lineX, lineY) == batch[i - 1]
      invariant OpenRun(batch, i, lines, lineX + lineLength)
    {
      var x, y := batch[i].0, batch[i].1;
      CompileStep(batch, i, lines, lineX + lineLength);
      if y == lineY && x == lineX - 1 {
        lineLength := lineLength + 1;
      } else {
        lines := lines + [Line(lineX + lineLength, lineY, lineX, lineY)];
        lineLength := 0;
      }
      lineX, lineY := x, y;
    }
    lines := lines + [Line(lineX + lineLength, lineY, lineX, lineY)];
    assert batch[..|batch|] == batch;
  }
}
