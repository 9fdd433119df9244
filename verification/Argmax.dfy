/**
 Greedy selection over the rows of a DOT4 matrix: the plain loop of
 src/cpu/q4_dot4.cpp and the split one of src/cpu/q4_dot4_prefill_avx512.cpp both
 keep the lowest-index winner.
 */
module Dot4Argmax {
  import opened Wrappers
  import opened Quantized
  import opened Matrices
  import opened Dot4Kernels

  /** Minus infinity, or a row's value. */
  datatype Extended = NegativeInfinity | Finite(value: real)

  datatype Best = Best(value: Extended, index: nat)

  predicate Exceeds(a: Extended, b: Extended) {
    a.Finite? && (b.NegativeInfinity? || a.value > b.value)
  }

  /** A repeated token's value is pushed towards losing. */
  function Adjusted(fp: Float, counts: Option<seq<int>>, penalty: real, index: nat, value: real): real
    requires counts.Some? ==> index < |counts.value|
  {
    if counts.Some? && counts.value[index] > 0 && penalty > 1.0 then
      if value > 0.0 then fp.over(value, penalty) else fp.times(value, penalty)
    else value
  }

  ghost predicate Divides(over: (real, real) -> real) {
    forall x, y | y != 0.0 :: over(x, y) == x / y
  }

  ghost predicate Multiplies(times: (real, real) -> real) {
    forall x, y :: times(x, y) == x * y
  }

  lemma PushedDown(value: real, penalty: real)
    requires penalty > 1.0
    ensures value > 0.0 ==> 0.0 < value / penalty < value
    ensures value < 0.0 ==> value * penalty < value
    ensures value == 0.0 ==> value * penalty == value
  {
    if value > 0.0 {
      var q := value / penalty;
      assert q * penalty == value;
      Grows(q, penalty);
    } else {
      Grows(-value, penalty);
      assert (-value) * penalty == -(value * penalty);
    }
  }

  lemma Grows(x: real, penalty: real)
    requires penalty > 1.0
    ensures x > 0.0 ==> x * penalty > x
    ensures x * penalty > 0.0 ==> x > 0.0
  {}

  /** A penalty above one lowers every nonzero repeated value, never across zero, and touches no other. */
  lemma RepeatedLoses(fp: Float, counts: Option<seq<int>>, penalty: real, index: nat, value: real)
    requires counts.Some? ==> index < |counts.value|
    requires Divides(fp.over) && Multiplies(fp.times)
    ensures var a, repeated := Adjusted(fp, counts, penalty, index, value),
                counts.Some? && counts.value[index] > 0 && penalty > 1.0;
            && (repeated && value != 0.0 ==> a < value)
            && (repeated && value > 0.0 ==> a > 0.0)
            && (!repeated || value == 0.0 ==> a == value)
  {
    if counts.Some? && counts.value[index] > 0 && penalty > 1.0 {
      PushedDown(value, penalty);
      assert value > 0.0 ==> fp.over(value, penalty) == value / penalty;
      assert fp.times(value, penalty) == value * penalty;
    }
  }

  /** The sequential scan. */
  function Scan(values: seq<real>, offset: nat): Best {
    if values == [] then Best(NegativeInfinity, offset)
    else
      var last := |values| - 1;
      var best := Scan(values[..last], offset);
      if Exceeds(Finite(values[last]), best.value) then Best(Finite(values[last]), offset + last) else best
  }

  /** The scan's winner is the first of the greatest values. */
  lemma {:induction false} ScanIsLowestMaximum(values: seq<real>, offset: nat)
    requires values != []
    ensures Scan(values, offset).value.Finite? && offset <= Scan(values, offset).index < offset + |values|
    ensures var i, m := Scan(values, offset).index - offset, Scan(values, offset).value.value;
            values[i] == m && (forall j | 0 <= j < |values| :: values[j] <= m) && forall j | 0 <= j < i :: values[j] < m
    decreases |values|
  {
    var last := |values| - 1;
    if last > 0 {
      ScanIsLowestMaximum(values[..last], offset);
    }
    assert forall j | 0 <= j < last :: values[..last][j] == values[j];
  }

  /** Scanning on from a best so far. */
  function ScanFrom(best: Best, values: seq<real>, offset: nat): Best {
    if values == [] then best
    else
      var last := |values| - 1;
      var b := ScanFrom(best, values[..last], offset);
      if Exceeds(Finite(values[last]), b.value) then Best(Finite(values[last]), offset + last) else b
  }

  lemma {:induction false} ScanConcat(a: seq<real>, b: seq<real>, offset: nat)
    ensures Scan(a + b, offset) == ScanFrom(Scan(a, offset), b, offset + |a|)
    decreases |b|
  {
    if b == [] {
      assert a + b == a;
    } else {
      var last := |b| - 1;
      assert (a + b)[..|a + b| - 1] == a + b[..last];
      ScanConcat(a, b[..last], offset);
    }
  }

  /** A tail scanned on its own only wins by being strictly greater. */
  lemma {:induction false} ScanOfTail(best: Best, values: seq<real>, offset: nat)
    ensures ScanFrom(best, values, offset) == if Exceeds(Scan(values, offset).value, best.value)
              then Scan(values, offset) else best
    decreases |values|
  {
    if values != [] {
      ScanOfTail(best, values[..|values| - 1], offset);
    }
  }

  // ----- the loops -----

  ghost predicate Countable(counts: Option<seq<int>>, offset: nat, rows: nat) {
    counts.Some? ==> offset + rows <= |counts.value|
  }

  /** Which values are right for a row. */
  type Right = (int, real) -> bool

  ghost predicate AreRight(right: Right, values: seq<real>) {
    forall r | 0 <= r < |values| :: right(r, values[r])
  }

  /** The value compared for row r: its cell, with the penalty. */
  ghost predicate IsValue(fp: Float, cell: Cells, counts: Option<seq<int>>, penalty: real, offset: nat, r: int,
                          value: real) {
    && r >= 0 && Countable(counts, offset, r + 1)
    && exists x :: cell(x, r, 0) && value == Adjusted(fp, counts, penalty, offset + r, x)
  }

  ghost function RightOf(fp: Float, cell: Cells, counts: Option<seq<int>>, penalty: real, offset: nat): Right {
    (r: int, value: real) => IsValue(fp, cell, counts, penalty, offset, r, value)
  }

  /** The values that are compared, row by row. */
  ghost function Penalised(fp: Float, matrix: Weights, vectors: Groups, blocks: nat, counts: Option<seq<int>>,
                           penalty: real, offset: nat, rows: nat): (values: seq<real>)
    requires Fit(matrix, vectors, 1, blocks) && |vectors| == 1 && rows <= 8 * |matrix| &&
               Countable(counts, offset, rows)
    ensures |values| == rows
  {
    seq(rows, r requires 0 <= r < rows => Adjusted(fp, counts, penalty, offset + r,
                                                   Cell(fp, matrix, vectors, 1, blocks, r, 0)))
  }

  /** There is only one sequence of right values. */
  lemma RightIsPenalised(fp: Float, matrix: Weights, vectors: Groups, blocks: nat, counts: Option<seq<int>>,
                         penalty: real, offset: nat, values: seq<real>)
    requires Fit(matrix, vectors, 1, blocks) && |vectors| == 1 && |values| <= 8 * |matrix| &&
               Countable(counts, offset, |values|)
    requires AreRight(RightOf(fp, CellsOf(fp, matrix, vectors, 1, blocks), counts, penalty, offset), values)
    ensures values == Penalised(fp, matrix, vectors, blocks, counts, penalty, offset, |values|)
  {
    var right := RightOf(fp, CellsOf(fp, matrix, vectors, 1, blocks), counts, penalty, offset);
    forall r | 0 <= r < |values|
      ensures values[r] == Penalised(fp, matrix, vectors, blocks, counts, penalty, offset, |values|)[r]
    {
      assert right(r, values[r]);
    }
  }

  lemma ScanGrows(values: seq<real>, x: real, offset: nat)
    ensures Scan(values + [x], offset) ==
            if Exceeds(Finite(x), Scan(values, offset).value) then Best(Finite(x), offset + |values|)
                else Scan(values, offset)
  {
    assert (values + [x])[..|values|] == values;
  }

  lemma AdjustedIsRight(x: real, fp: Float, cell: Cells, counts: Option<seq<int>>, penalty: real, offset: nat, r: nat)
    requires cell(x, r, 0) && Countable(counts, offset, r + 1)
    ensures RightOf(fp, cell, counts, penalty, offset)(r, Adjusted(fp, counts, penalty, offset + r, x))
  {}

  method RowValue(fp: Float, matrix: Weights, vectors: Groups, blocks: nat, counts: Option<seq<int>>, penalty: real,
                  offset: nat, r: nat)
    returns (value: real)
    requires Fit(matrix, vectors, 1, blocks) && |vectors| == 1 && r < 8 * |matrix| && Countable(counts, offset, r + 1)
    ensures RightOf(fp, CellsOf(fp, matrix, vectors, 1, blocks), counts, penalty, offset)(r, value)
  {
    var x := PlainCell(fp, matrix, vectors, 1, blocks, r, 0);
    value := Adjusted(fp, counts, penalty, offset + r, x);
    AdjustedIsRight(x, fp, CellsOf(fp, matrix, vectors, 1, blocks), counts, penalty, offset, r);
  }

  ghost predicate Covers(right: Right, exact: Right) {
    forall r, value | exact(r, value) :: right(r, value)
  }

  /** The plain loop. */
  method Argmax(fp: Float, matrix: Weights, vectors: Groups, blocks: nat, counts: Option<seq<int>>, penalty: real,
                offset: nat, rows: nat)
    returns (best: Best)
    requires Fit(matrix, vectors, 1, blocks) && |vectors| == 1 && rows <= 8 * |matrix| &&
               Countable(counts, offset, rows)
    ensures best == Scan(Penalised(fp, matrix, vectors, blocks, counts, penalty, offset, rows), offset)
  {
    ghost var right := RightOf(fp, CellsOf(fp, matrix, vectors, 1, blocks), counts, penalty, offset);
    ghost var values;
    best, values := PlainArgmax(fp, matrix, vectors, blocks, counts, penalty, offset, rows, right);
    RightIsPenalised(fp, matrix, vectors, blocks, counts, penalty, offset, values);
  }

  method PlainArgmax(fp: Float, matrix: Weights, vectors: Groups, blocks: nat, counts: Option<seq<int>>, penalty: real,
                     offset: nat, rows: nat, ghost right: Right)
    returns (best: Best, ghost values: seq<real>)
    requires Fit(matrix, vectors, 1, blocks) && |vectors| == 1 && rows <= 8 * |matrix| &&
               Countable(counts, offset, rows)
    requires Covers(right, RightOf(fp, CellsOf(fp, matrix, vectors, 1, blocks), counts, penalty, offset))
    ensures |values| == rows && AreRight(right, values) && best == Scan(values, offset)
  {
    best, values := Best(NegativeInfinity, offset), [];
    for r := 0 to rows
      invariant |values| == r && AreRight(right, values) && best == Scan(values, offset)
    {
      var value := RowValue(fp, matrix, vectors, blocks, counts, penalty, offset, r);
      best, values := Keep(right, value, offset, r, best, values);
    }
  }

  /** The comparison both loops make: only a strictly greater value replaces the best. */
  method Keep(ghost right: Right, value: real, offset: nat, r: nat, best: Best, ghost values: seq<real>)
    returns (now: Best, ghost longer: seq<real>)
    requires |values| == r && AreRight(right, values) && best == Scan(values, offset) && right(r, value)
    ensures |longer| == r + 1 && AreRight(right, longer) && now == Scan(longer, offset)
  {
    ScanGrows(values, value, offset);
    longer := values + [value];
    now := if Exceeds(Finite(value), best.value) then Best(Finite(value), offset + r) else best;
  }

  /** The rows of the pointed-to tile are later rows of the matrix. */
  lemma RowsMove(fp: Float, matrix: Weights, vectors: Groups, lanes: nat, blocks: nat, later: Weights, tile: nat,
                 row: nat)
    requires Fit(matrix, vectors, lanes, blocks) && tile <= |matrix| && later == matrix[tile..] && row == 8 * tile
    ensures Moves(CellsOf(fp, matrix, vectors, lanes, blocks), CellsOf(fp, later, vectors, lanes, blocks), row)
  {
    assert vectors == vectors[0..];
    PlacesMove(fp, matrix, vectors, lanes, blocks, later, vectors, tile, 0);
    PlacedRowsMove(PlacesOf(fp, matrix, vectors, lanes, blocks), PlacesOf(fp, later, vectors, lanes, blocks), lanes,
                   tile, row);
  }

  ghost predicate Moves(cell: Cells, later: Cells, row: nat) {
    forall x, q, t | later(x, q, t) :: q >= 0 && cell(x, row + q, t)
  }

  lemma PlacedRowsMove(places: Places, laterPlaces: Places, lanes: nat, tile: nat, row: nat)
    requires row == 8 * tile
    requires forall x, i, r, g, lane | laterPlaces(x, i, r, g, lane) :: places(x, tile + i, r, 0 + g, lane)
    ensures Moves(ByCell(places, lanes), ByCell(laterPlaces, lanes), row)
  {
    forall x, q, t | ByCell(laterPlaces, lanes)(x, q, t) ensures q >= 0 && ByCell(places, lanes)(x, row + q, t) {
      CoordinatesMove(tile, q, row, 8);
      var g, lane := Group(lanes, t), LaneIn(lanes, t);
      assert laterPlaces(x, q / 8, q % 8, g, lane);
      assert places(x, tile + q / 8, q % 8, 0 + g, lane);
    }
  }

  lemma ValueMoves(fp: Float, cell: Cells, later: Cells, counts: Option<seq<int>>, penalty: real, offset: nat, row: nat,
                   laterOffset: nat, q: int, r: int, value: real)
    requires Moves(cell, later, row) && laterOffset == offset + row && r == row + q
    requires IsValue(fp, later, counts, penalty, laterOffset, q, value)
    ensures IsValue(fp, cell, counts, penalty, offset, r, value)
  {
    var x :| later(x, q, 0) && value == Adjusted(fp, counts, penalty, laterOffset + q, x);
    assert cell(x, row + q, 0);
  }

  lemma RightMoves(fp: Float, cell: Cells, later: Cells, counts: Option<seq<int>>, penalty: real, offset: nat, row: nat,
                   laterOffset: nat, right: Right)
    requires Moves(cell, later, row) && laterOffset == offset + row
    requires Covers(right, RightOf(fp, cell, counts, penalty, offset))
    ensures Covers(Shifted(right, row), RightOf(fp, later, counts, penalty, laterOffset))
  {
    forall q, value | RightOf(fp, later, counts, penalty, laterOffset)(q, value) ensures right(row + q, value) {
      var r := row + q;
      ValueMoves(fp, cell, later, counts, penalty, offset, row, laterOffset, q, r, value);
      assert RightOf(fp, cell, counts, penalty, offset)(r, value);
    }
  }

  ghost function Shifted(right: Right, row: nat): Right {
    (q: int, value: real) => right(row + q, value)
  }

  lemma RightAppend(right: Right, values: seq<real>, tail: seq<real>, row: nat)
    requires |values| == row && AreRight(right, values) && AreRight(Shifted(right, row), tail)
    ensures AreRight(right, values + tail)
  {
    var now := values + tail;
    forall r | 0 <= r < |now| ensures right(r, now[r]) {
      if r >= row {
        var q := r - row;
        assert Shifted(right, row)(q, tail[q]);
        assert row + q == r;
      }
    }
  }

  /** Sixteen rows computed by one wide tile, then compared one by one. */
  method TileArgmax(fp: Float, matrix: Weights, vectors: Groups, blocks: nat, counts: Option<seq<int>>, penalty: real,
                    offset: nat, row: nat, ghost right: Right, best: Best, ghost values: seq<real>)
    returns (now: Best, ghost longer: seq<real>)
    requires Fit(matrix, vectors, 1, blocks) && HaveSums(vectors, 1, blocks) && |vectors| == 1
    requires row % 8 == 0 && row + 16 <= 8 * |matrix| && Countable(counts, offset, row + 16)
    requires Covers(right, RightOf(fp, CellsOf(fp, matrix, vectors, 1, blocks), counts, penalty, offset))
    requires |values| == row && AreRight(right, values) && best == Scan(values, offset)
    ensures |longer| == row + 16 && AreRight(right, longer) && now == Scan(longer, offset)
  {
    ghost var cell := CellsOf(fp, matrix, vectors, 1, blocks);
    var buffer := SixteenRows(fp, matrix, vectors, blocks, row, cell);
    now, longer := CompareBuffer(fp, cell, counts, penalty, offset, row, right, buffer, best, values);
  }

  method CompareBuffer(fp: Float, ghost cell: Cells, counts: Option<seq<int>>, penalty: real, offset: nat, row: nat,
                       ghost right: Right, buffer: seq<real>, best: Best, ghost values: seq<real>)
    returns (now: Best, ghost longer: seq<real>)
    requires |buffer| == 16 && (forall lane | 0 <= lane < 16 :: cell(buffer[lane], row + lane, 0)) &&
               Countable(counts, offset, row + 16)
    requires Covers(right, RightOf(fp, cell, counts, penalty, offset))
    requires |values| == row && AreRight(right, values) && best == Scan(values, offset)
    ensures |longer| == row + 16 && AreRight(right, longer) && now == Scan(longer, offset)
  {
    now, longer := best, values;
    for lane := 0 to 16
      invariant |longer| == row + lane && AreRight(right, longer) && now == Scan(longer, offset)
    {
      AdjustedIsRight(buffer[lane], fp, cell, counts, penalty, offset, row + lane);
      var value := Adjusted(fp, counts, penalty, offset + row + lane, buffer[lane]);
      now, longer := Keep(right, value, offset, row + lane, now, longer);
    }
  }

  method SixteenRows(fp: Float, matrix: Weights, vectors: Groups, blocks: nat, row: nat, ghost cell: Cells)
    returns (buffer: seq<real>)
    requires Fit(matrix, vectors, 1, blocks) && HaveSums(vectors, 1, blocks) && |vectors| == 1
    requires row % 8 == 0 && row + 16 <= 8 * |matrix| && cell == CellsOf(fp, matrix, vectors, 1, blocks)
    ensures |buffer| == 16
    ensures forall lane | 0 <= lane < 16 :: cell(buffer[lane], row + lane, 0)
  {
    var later := matrix[row / 8..];
    LaterFits(matrix, vectors, blocks, later, row / 8);
    var accs := Accumulate(fp, later, vectors, 1, blocks, 1);
    AccumulatedAreCells(fp, later, vectors, 1, blocks, accs, 0);
    buffer := accs[0];
    RowsMove(fp, matrix, vectors, 1, blocks, later, row / 8, row);
    BufferMoves(cell, CellsOf(fp, later, vectors, 1, blocks), row, buffer);
  }

  lemma LaterFits(matrix: Weights, vectors: Groups, blocks: nat, later: Weights, tile: nat)
    requires Fit(matrix, vectors, 1, blocks) && tile <= |matrix| && later == matrix[tile..]
    ensures Fit(later, vectors, 1, blocks)
  {}

  lemma BufferMoves(cell: Cells, later: Cells, row: nat, buffer: seq<real>)
    requires |buffer| == 16 && Moves(cell, later, row) && forall lane | 0 <= lane < 16 :: later(buffer[lane], lane, 0)
    ensures forall lane | 0 <= lane < 16 :: cell(buffer[lane], row + lane, 0)
  {
    forall lane | 0 <= lane < 16 ensures cell(buffer[lane], row + lane, 0) {
      var x, q := buffer[lane], lane;
      assert later(x, q, 0);
      assert cell(x, row + q, 0);
    }
  }

  /** The split loop: wide tiles, then the tail scanned on its own and compared once. */
  method WideArgmax(fp: Float, matrix: Weights, vectors: Groups, blocks: nat, counts: Option<seq<int>>, penalty: real,
                    offset: nat, rows: nat)
    returns (best: Best)
    requires Fit(matrix, vectors, 1, blocks) && HaveSums(vectors, 1, blocks) && |vectors| == 1
    requires rows <= 8 * |matrix| && Countable(counts, offset, rows)
    ensures best == Scan(Penalised(fp, matrix, vectors, blocks, counts, penalty, offset, rows), offset)
  {
    ghost var right := RightOf(fp, CellsOf(fp, matrix, vectors, 1, blocks), counts, penalty, offset);
    ghost var values;
    best, values := SplitArgmax(fp, matrix, vectors, blocks, counts, penalty, offset, rows, right);
    RightIsPenalised(fp, matrix, vectors, blocks, counts, penalty, offset, values);
  }

  method SplitArgmax(fp: Float, matrix: Weights, vectors: Groups, blocks: nat, counts: Option<seq<int>>, penalty: real,
                     offset: nat, rows: nat, ghost right: Right)
    returns (best: Best, ghost values: seq<real>)
    requires Fit(matrix, vectors, 1, blocks) && HaveSums(vectors, 1, blocks) && |vectors| == 1
    requires rows <= 8 * |matrix| && Countable(counts, offset, rows)
    requires Covers(right, RightOf(fp, CellsOf(fp, matrix, vectors, 1, blocks), counts, penalty, offset))
    ensures |values| == rows && AreRight(right, values) && best == Scan(values, offset)
  {
    best, values := Best(NegativeInfinity, offset), [];
    var row := 0;
    while row + 16 <= rows
      invariant row <= rows && row % 8 == 0
      invariant |values| == row && AreRight(right, values) && best == Scan(values, offset)
    {
      best, values := TileArgmax(fp, matrix, vectors, blocks, counts, penalty, offset, row, right, best, values);
      row := row + 16;
    }
    if row < rows {
      best, values := TailArgmax(fp, matrix, vectors, blocks, counts, penalty, offset, row, rows, right, best, values);
    }
  }

  /** The tail: scanned on its own with its own offset, it replaces the best so far only if it is greater. */
  method TailArgmax(fp: Float, matrix: Weights, vectors: Groups, blocks: nat, counts: Option<seq<int>>, penalty: real,
                    offset: nat, row: nat, rows: nat, ghost right: Right, best: Best, ghost values: seq<real>)
    returns (now: Best, ghost longer: seq<real>)
    requires Fit(matrix, vectors, 1, blocks) && |vectors| == 1 && row % 8 == 0 && row <= rows <= 8 * |matrix| &&
               Countable(counts, offset, rows)
    requires Covers(right, RightOf(fp, CellsOf(fp, matrix, vectors, 1, blocks), counts, penalty, offset))
    requires |values| == row && AreRight(right, values) && best == Scan(values, offset)
    ensures |longer| == rows && AreRight(right, longer) && now == Scan(longer, offset)
  {
    var later := matrix[row / 8..];
    LaterFits(matrix, vectors, blocks, later, row / 8);
    RowsMove(fp, matrix, vectors, 1, blocks, later, row / 8, row);
    RightMoves(fp, CellsOf(fp, matrix, vectors, 1, blocks), CellsOf(fp, later, vectors, 1, blocks), counts, penalty,
               offset, row, offset + row, right);
    var tail, tailValues := PlainArgmax(fp, later, vectors, blocks, counts, penalty, offset + row, rows - row,
                                        Shifted(right, row));
    TailWins(right, values, tailValues, row, offset, best, tail);
    now := if Exceeds(tail.value, best.value) then tail else best;
    longer := values + tailValues;
  }

  lemma TailWins(right: Right, values: seq<real>, tail: seq<real>, row: nat, offset: nat, best: Best, tailBest: Best)
    requires |values| == row && AreRight(right, values) && AreRight(Shifted(right, row), tail)
    requires best == Scan(values, offset) && tailBest == Scan(tail, offset + row)
    ensures AreRight(right, values + tail)
    ensures Scan(values + tail, offset) == if Exceeds(tailBest.value, best.value) then tailBest else best
  {
    RightAppend(right, values, tail, row);
    ScanConcat(values, tail, offset);
    ScanOfTail(best, tail, offset + row);
  }
}
