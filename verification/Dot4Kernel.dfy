/**
 The DOT4 dot products and the tiled matrix product of src/cpu/q4_dot4_prefill_avx512.cpp
 against the plain double loop. Scales are reals, and 512-bit instructions are their lanes.
 */
module Dot4Kernels {
  import opened Wrappers
  import opened Bytes
  import opened Quantized
  import opened Dot4Layouts
  import opened Matrices

  /**
   The floating point the kernels share, with whatever rounding it has: the value of a
   binary16 scale, fma(dot, weightScale * activationScale, accumulator), product and quotient.
   */
  datatype Float = Float(half: Half -> real, fuse: (int, real, real, real) -> real,
                         times: (real, real) -> real, over: (real, real) -> real)

  /** Row tiles by block column; token groups by block column. */
  type Weights = seq<seq<BlockX8>>
  type Groups = seq<seq<Prepared>>


  // ----- what a cell is -----

  ghost predicate AreBlocks(tile: seq<BlockX8>) {
    forall b | 0 <= b < |tile| :: IsBlockX8(tile[b])
  }

  ghost predicate ArePrepared(acts: seq<Prepared>, lanes: nat) {
    forall b | 0 <= b < |acts| :: IsPrepared(acts[b], lanes)
  }

  /** One row's share of one block, however it is laid out. */
  datatype RowBlock = RowBlock(d: Half, codes: seq<byte>)

  function PackedRowBlock(x: BlockX8, row: nat): RowBlock
    requires IsBlockX8(x) && row < 8
  {
    RowBlock(x.d[row], PackedCodes(x, row))
  }

  ghost function PackedRow(tile: seq<BlockX8>, row: nat): (r: seq<RowBlock>)
    requires AreBlocks(tile) && row < 8
    ensures |r| == |tile| && IsRow(r) && forall b | 0 <= b < |r| :: r[b] == PackedRowBlock(tile[b], row)
  {
    seq(|tile|, b requires 0 <= b < |tile| => PackedRowBlock(tile[b], row))
  }

  function PlainRowBlock(x: Block): RowBlock
    requires IsBlock(x)
  {
    RowBlock(x.d, Codes(x))
  }

  function PlainRow(blocks: seq<Block>): (r: seq<RowBlock>)
    requires forall b | 0 <= b < |blocks| :: IsBlock(blocks[b])
    ensures |r| == |blocks| && forall b | 0 <= b < |r| :: r[b] == PlainRowBlock(blocks[b])
  {
    seq(|blocks|, b requires 0 <= b < |blocks| => PlainRowBlock(blocks[b]))
  }

  /** Packing changes no row, so no dot product either. */
  lemma PackedRowIsPlain(tiles: seq<seq<Block>>, packed: seq<BlockX8>, plain: seq<Block>, row: nat)
    requires |tiles| == |packed| == |plain| && row < 8 && AreBlocks(packed)
    requires forall b | 0 <= b < |tiles| :: IsTile(tiles[b]) && IsPacked(packed[b], tiles[b]) &&
               plain[b] == tiles[b][row]
    ensures forall b | 0 <= b < |plain| :: IsBlock(plain[b])
    ensures PackedRow(packed, row) == PlainRow(plain)
  {
    forall b | 0 <= b < |tiles| ensures PackedRow(packed, row)[b] == PlainRow(plain)[b] {
      PackedKeepsCodes(packed[b], tiles[b], row);
    }
  }

  predicate IsRow(row: seq<RowBlock>) {
    forall b | 0 <= b < |row| :: |row[b].codes| == 32
  }

  function Fused(fp: Float, w: RowBlock, a: Prepared, lanes: nat, lane: nat, acc: real): real
    requires |w.codes| == 32 && IsPrepared(a, lanes) && lane < lanes
  {
    fp.fuse(BlockDot(w.codes, LaneCodes(a, lanes, lane)), fp.half(w.d), a.scales[lane], acc)
  }

  /** One row against one token, over the first n block columns in order. */
  ghost function Value(fp: Float, row: seq<RowBlock>, acts: seq<Prepared>, lanes: nat, lane: nat, n: nat): real
    requires IsRow(row) && ArePrepared(acts, lanes) && lane < lanes && n <= |row| && n <= |acts|
  {
    if n == 0 then 0.0 else Fused(fp, row[n - 1], acts[n - 1], lanes, lane, Value(fp, row, acts, lanes, lane, n - 1))
  }

  method ScalarDot(w: BlockX8, row: nat, a: Prepared, lanes: nat, lane: nat) returns (dot: int)
    requires IsBlockX8(w) && row < 8 && IsPrepared(a, lanes) && lane < lanes
    ensures dot == BlockDot(PackedCodes(w, row), LaneCodes(a, lanes, lane))
  {
    ghost var codes, qs := PackedCodes(w, row), LaneCodes(a, lanes, lane);
    dot := 0;
    for k := 0 to 32
      invariant dot == SignedDot(codes, qs, 0, k)
    {
      var u, x := PackedCode(w, row, k), a.qs[32 * lane + k];
      assert codes[k] == u && qs[k] == x;
      dot := dot + (u as int - 8) * x;
    }
  }

  /** The scalar loops over blocks and codes. */
  method ScalarRow(fp: Float, tile: seq<BlockX8>, row: nat, acts: seq<Prepared>, lanes: nat, lane: nat)
    returns (result: real)
    requires AreBlocks(tile) && row < 8 && ArePrepared(acts, lanes) && lane < lanes && |tile| == |acts|
    ensures result == Value(fp, PackedRow(tile, row), acts, lanes, lane, |tile|)
  {
    ghost var blocks := PackedRow(tile, row);
    result := 0.0;
    for b := 0 to |tile|
      invariant result == Value(fp, blocks, acts, lanes, lane, b)
    {
      var w, a := tile[b], acts[b];
      var dot := ScalarDot(w, row, a, lanes, lane);
      ValueStep(fp, tile, row, acts, lanes, lane, b, dot, result);
      result := fp.fuse(dot, fp.half(w.d[row]), a.scales[lane], result);
    }
  }

  lemma ValueStep(fp: Float, tile: seq<BlockX8>, row: nat, acts: seq<Prepared>, lanes: nat, lane: nat, b: nat, dot: int,
                  acc: real)
    requires AreBlocks(tile) && row < 8 && ArePrepared(acts, lanes) && lane < lanes && b < |tile| == |acts|
    requires acc == Value(fp, PackedRow(tile, row), acts, lanes, lane, b)
    requires dot == BlockDot(PackedCodes(tile[b], row), LaneCodes(acts[b], lanes, lane))
    ensures Value(fp, PackedRow(tile, row), acts, lanes, lane, b + 1) ==
              fp.fuse(dot, fp.half(tile[b].d[row]), acts[b].scales[lane], acc)
  {}

  // ----- one 32-bit lane of the wide kernel -----

  /** What one dpbusd adds to a lane: four unsigned bytes times four signed ones. */
  function FourProducts(u0: byte, u1: byte, u2: byte, u3: byte, acts: seq<Signed8>, k: nat): int
    requires k + 4 <= |acts|
  {
    u0 as int * acts[k] + u1 as int * acts[k + 1] + u2 as int * acts[k + 2] + u3 as int * acts[k + 3]
  }

  lemma UnsignedDotOne(codes: seq<byte>, acts: seq<Signed8>, k: nat)
    requires k < |codes| && k < |acts|
    ensures UnsignedDot(codes, acts, k + 1) == UnsignedDot(codes, acts, k) + codes[k] as int * acts[k]
  {}

  lemma UnsignedDotFour(codes: seq<byte>, acts: seq<Signed8>, k: nat)
    requires k + 4 <= |codes| && k + 4 <= |acts|
    ensures UnsignedDot(codes, acts, k + 4) ==
            UnsignedDot(codes, acts, k) + FourProducts(codes[k], codes[k + 1], codes[k + 2], codes[k + 3], acts, k)
  {
    UnsignedDotOne(codes, acts, k);
    UnsignedDotOne(codes, acts, k + 1);
    UnsignedDotOne(codes, acts, k + 2);
    UnsignedDotOne(codes, acts, k + 3);
  }

  /** One row of a tile: the low and the high nibbles summed apart, less eight times the ready sum. */
  method LaneDot(x: BlockX8, row: nat, a: Prepared, lanes: nat, lane: nat) returns (dot: int)
    requires IsBlockX8(x) && row < 8 && IsPrepared(a, lanes) && lane < lanes && SumsAreRight(a, lanes)
    ensures dot == BlockDot(PackedCodes(x, row), LaneCodes(a, lanes, lane))
  {
    ghost var codes := PackedCodes(x, row);
    var qs := LaneCodes(a, lanes, lane);
    var low, high := 0, 0;
    for part := 0 to 4
      invariant low + high == UnsignedDot(codes, qs, 8 * part)
    {
      PartAdds(x, row, part, qs);
      var u0, u1, u2, u3 := x.qs[Lane(part, row, 0)], x.qs[Lane(part, row, 1)], x.qs[Lane(part, row, 2)],
          x.qs[Lane(part, row, 3)];
      low := low + FourProducts(Low(u0), Low(u1), Low(u2), Low(u3), qs, 8 * part);
      high := high + FourProducts(High(u0), High(u1), High(u2), High(u3), qs, 8 * part + 4);
    }
    dot := low + high - 8 * a.sums[lane];
    UnsignedLessEightSums(codes, qs, |codes|);
  }

  lemma PartAdds(x: BlockX8, row: nat, part: nat, qs: seq<Signed8>)
    requires IsBlockX8(x) && row < 8 && part < 4 && |qs| == 32
    ensures var u0, u1, u2, u3 := x.qs[Lane(part, row, 0)], x.qs[Lane(part, row, 1)], x.qs[Lane(part, row, 2)],
              x.qs[Lane(part, row, 3)];
            UnsignedDot(PackedCodes(x, row), qs, 8 * (part + 1)) ==
            UnsignedDot(PackedCodes(x, row), qs, 8 * part) +
                FourProducts(Low(u0), Low(u1), Low(u2), Low(u3), qs, 8 * part)
            + FourProducts(High(u0), High(u1), High(u2), High(u3), qs, 8 * part + 4)
  {
    var codes := PackedCodes(x, row);
    PartCodes(x, row, part, 0);
    PartCodes(x, row, part, 1);
    PartCodes(x, row, part, 2);
    PartCodes(x, row, part, 3);
    UnsignedDotFour(codes, qs, 8 * part);
    UnsignedDotFour(codes, qs, 8 * part + 4);
  }

  /** The two codes byte j of a part holds for a row. */
  lemma PartCodes(x: BlockX8, row: nat, part: nat, j: nat)
    requires IsBlockX8(x) && row < 8 && part < 4 && j < 4
    ensures PackedCodes(x, row)[8 * part + j] == Low(x.qs[Lane(part, row, j)])
    ensures PackedCodes(x, row)[8 * part + 4 + j] == High(x.qs[Lane(part, row, j)])
  {
    PackedCodeAt(x, row, part, 0, j);
    PackedCodeAt(x, row, part, 1, j);
  }

  // ----- cells -----

  /** Whole row tiles and token groups, all `blocks` wide. */
  ghost predicate Fit(matrix: Weights, vectors: Groups, lanes: nat, blocks: nat) {
    && (lanes == 1 || lanes == 4)
    && (forall t | 0 <= t < |matrix| :: |matrix[t]| == blocks && AreBlocks(matrix[t]))
    && forall g | 0 <= g < |vectors| :: |vectors[g]| == blocks && ArePrepared(vectors[g], lanes)
  }

  function Group(lanes: nat, t: nat): nat {
    if lanes == 4 then t / 4 else t
  }

  function LaneIn(lanes: nat, t: nat): nat {
    if lanes == 4 then t % 4 else 0
  }

  /** Row r against token t over the first n block columns. */
  ghost function PartCell(fp: Float, matrix: Weights, vectors: Groups, lanes: nat, blocks: nat, r: nat, t: nat,
                          n: nat): real
    requires Fit(matrix, vectors, lanes, blocks) && r / 8 < |matrix| && Group(lanes, t) < |vectors| && n <= blocks
  {
    Value(fp, PackedRow(matrix[r / 8], r % 8), vectors[Group(lanes, t)], lanes, LaneIn(lanes, t), n)
  }

  /** Row r against token t. */
  ghost function Cell(fp: Float, matrix: Weights, vectors: Groups, lanes: nat, blocks: nat, r: nat, t: nat): real
    requires Fit(matrix, vectors, lanes, blocks) && r / 8 < |matrix| && Group(lanes, t) < |vectors|
  {
    PartCell(fp, matrix, vectors, lanes, blocks, r, t, blocks)
  }

  /** x is what row `row` of row tile i gives against lane `lane` of token group g. */
  ghost predicate PlacedAt(x: real, fp: Float, matrix: Weights, vectors: Groups, lanes: nat, blocks: nat, i: int,
                           row: int, g: int, lane: int) {
    && Fit(matrix, vectors, lanes, blocks) && 0 <= i < |matrix| && 0 <= g < |vectors| && 0 <= row < 8 &&
        0 <= lane < lanes
    && x == Value(fp, PackedRow(matrix[i], row), vectors[g], lanes, lane, blocks)
  }

  /** x is the cell of row r and token t. */
  ghost predicate CellIs(x: real, fp: Float, matrix: Weights, vectors: Groups, lanes: nat, blocks: nat, r: int,
                         t: int) {
    r >= 0 && t >= 0 && PlacedAt(x, fp, matrix, vectors, lanes, blocks, r / 8, r % 8, Group(lanes, t), LaneIn(lanes, t))
  }

  /** Which values are right for a row tile, row, token group and lane. */
  type Places = (real, int, int, int, int) -> bool

  /** Which values are right for a row and a token. */
  type Cells = (real, int, int) -> bool

  ghost function PlacesOf(fp: Float, matrix: Weights, vectors: Groups, lanes: nat, blocks: nat): Places {
    (x: real, i: int, row: int, g: int, lane: int) => PlacedAt(x, fp, matrix, vectors, lanes, blocks, i, row, g, lane)
  }

  ghost function ByCell(places: Places, lanes: nat): Cells {
    (x: real, r: int, t: int) => r >= 0 && t >= 0 && places(x, r / 8, r % 8, Group(lanes, t), LaneIn(lanes, t))
  }

  ghost function CellsOf(fp: Float, matrix: Weights, vectors: Groups, lanes: nat, blocks: nat): Cells {
    ByCell(PlacesOf(fp, matrix, vectors, lanes, blocks), lanes)
  }

  /** Kernels are handed pointers to a later row tile and a later token group. */
  lemma PlacesMove(fp: Float, matrix: Weights, vectors: Groups, lanes: nat, blocks: nat, later: Weights, others: Groups,
                   tile: nat, group: nat)
    requires Fit(matrix, vectors, lanes, blocks) && tile <= |matrix| && group <= |vectors| && later == matrix[tile..] &&
               others == vectors[group..]
    ensures var places, laterPlaces := PlacesOf(fp, matrix, vectors, lanes, blocks),
              PlacesOf(fp, later, others, lanes, blocks);
            forall x, i, row, g, lane | laterPlaces(x, i, row, g, lane) :: places(x, tile + i, row, group + g, lane)
  {
    forall x, i, row, g, lane | PlacedAt(x, fp, later, others, lanes, blocks, i, row, g, lane)
      ensures PlacedAt(x, fp, matrix, vectors, lanes, blocks, tile + i, row, group + g, lane)
    {
      assert later[i] == matrix[tile + i] && others[g] == vectors[group + g];
    }
  }

  lemma CellsMove(places: Places, laterPlaces: Places, lanes: nat, tile: nat, group: nat, row: nat, token: nat)
    requires row == 8 * tile && token == 4 * group && lanes == 4
    requires forall x, i, r, g, lane | laterPlaces(x, i, r, g, lane) :: places(x, tile + i, r, group + g, lane)
    ensures forall x, q, u | ByCell(laterPlaces, lanes)(x, q, u) :: ByCell(places, lanes)(x, row + q, token + u)
  {
    forall x, q, u | ByCell(laterPlaces, lanes)(x, q, u) ensures ByCell(places, lanes)(x, row + q, token + u) {
      CoordinatesMove(tile, q, row, 8);
      CoordinatesMove(group, u, token, 4);
      assert laterPlaces(x, q / 8, q % 8, u / 4, u % 4);
      assert places(x, tile + q / 8, q % 8, group + u / 4, u % 4);
      var r, t := row + q, token + u;
      assert r / 8 == tile + q / 8 && r % 8 == q % 8 && Group(lanes, t) == group + u / 4 && LaneIn(lanes, t) == u % 4;
    }
  }

  lemma CoordinatesMove(base: nat, i: nat, start: nat, size: nat)
    requires (size == 8 && start == 8 * base) || (size == 4 && start == 4 * base)
    ensures (start + i) / size == base + i / size && (start + i) % size == i % size
  {
    if size == 8 {
      assert (8 * base + i) / 8 == base + i / 8;
    } else {
      assert (4 * base + i) / 4 == base + i / 4;
    }
  }

  ghost predicate HaveSums(vectors: Groups, lanes: nat, blocks: nat) {
    forall g, b | 0 <= g < |vectors| && 0 <= b < blocks :: HasSums(vectors, lanes, g, b)
  }

  ghost predicate HasSums(vectors: Groups, lanes: nat, g: nat, b: nat) {
    g < |vectors| && b < |vectors[g]| && IsPrepared(vectors[g][b], lanes) && SumsAreRight(vectors[g][b], lanes)
  }

  // ----- writing cells -----

  /** How often each output cell has been written. */
  type Writes = (int, int) -> nat

  predicate InRectangle(t: int, r: int, token: int, tokens: int, row: int, rows: int) {
    token <= t < token + tokens && row <= r < row + rows
  }

  /**
   The rectangle, up to (done, part), holds the cells of the pointed-to tile and one more write
   each; nothing else has changed.
   */
  ghost predicate Written(cell: Cells, was: Matrix, now: Matrix, before: Writes, after: Writes, token: nat, tokens: nat,
                          row: nat, rows: nat, done: nat, part: nat)
  {
    && SameShape(was, now)
    && forall t, r | 0 <= t < |now| && 0 <= r < |now[t]| ::
         WrittenAt(cell, was, now, before, after, token, tokens, row, rows, done, part, t, r)
  }

  ghost predicate SameShape(was: Matrix, now: Matrix) {
    |was| == |now| && forall t | 0 <= t < |now| :: |now[t]| == |was[t]|
  }

  ghost predicate WrittenAt(cell: Cells, was: Matrix, now: Matrix, before: Writes, after: Writes, token: nat,
                            tokens: nat, row: nat, rows: nat, done: nat, part: nat, t: nat, r: nat)
    requires t < |now| && r < |now[t]| && SameShape(was, now)
  {
    if InRectangle(t, r, token, tokens, row, rows) && (t < token + done || (t == token + done && r < row + part))
    then cell(now[t][r], r - row, t - token) && after(t, r) == before(t, r) + 1
    else now[t][r] == was[t][r] && after(t, r) == before(t, r)
  }

  method StoreCell(output: array2<real>, t: nat, r: nat, x: real, ghost before: Writes) returns (ghost after: Writes)
    requires t < output.Length0 && r < output.Length1
    modifies output
    ensures Rows(output) == old(Rows(output))[t := old(Rows(output))[t][r := x]]
    ensures forall u, q :: after(u, q) == before(u, q) + if u == t && q == r then 1 else 0
  {
    StoreInRow(output, t, r, x);
    after := (u: int, q: int) => before(u, q) + if u == t && q == r then 1 else 0;
  }

  lemma CellStored(cell: Cells, was: Matrix, mid: Matrix, now: Matrix, before: Writes, midWrites: Writes, after: Writes,
                   token: nat, tokens: nat, row: nat, rows: nat, done: nat, part: nat, x: real)
    requires Written(cell, was, mid, before, midWrites, token, tokens, row, rows, done, part)
    requires done < tokens && part < rows && token + tokens <= |mid| && row + rows <= |mid[token + done]|
    requires cell(x, part, done)
    requires now == mid[token + done := mid[token + done][row + part := x]]
    requires forall u, q :: after(u, q) == midWrites(u, q) + if u == token + done && q == row + part then 1 else 0
    ensures Written(cell, was, now, before, after, token, tokens, row, rows, done, part + 1)
  {
    var next := part + 1;
    forall t, r | 0 <= t < |now| && 0 <= r < |now[t]|
      ensures WrittenAt(cell, was, now, before, after, token, tokens, row, rows, done, next, t, r)
    {
      assert WrittenAt(cell, was, mid, before, midWrites, token, tokens, row, rows, done, part, t, r);
      if t == token + done && r == row + part {
        assert now[t][r] == x && r - row == part && t - token == done;
        assert after(t, r) == midWrites(t, r) + 1 && midWrites(t, r) == before(t, r);
      } else {
        assert now[t][r] == mid[t][r] && after(t, r) == midWrites(t, r);
        assert (t < token + done || (t == token + done && r < row + part)) ==
            (t < token + done || (t == token + done && r < row + next));
      }
    }
  }

  method StoreNext(ghost cell: Cells, x: real, output: array2<real>, token: nat, ghost tokens: nat, row: nat,
                   ghost rows: nat, t: nat, r: nat, ghost was: Matrix, ghost before: Writes, ghost mid: Writes)
    returns (ghost after: Writes)
    requires t < tokens && r < rows && token + tokens <= output.Length0 && row + rows <= output.Length1 && cell(x, r, t)
    requires Written(cell, was, Rows(output), before, mid, token, tokens, row, rows, t, r)
    modifies output
    ensures Written(cell, was, Rows(output), before, after, token, tokens, row, rows, t, r + 1)
  {
    ghost var values := Rows(output);
    after := StoreCell(output, token + t, row + r, x, mid);
    CellStored(cell, was, values, Rows(output), before, mid, after, token, tokens, row, rows, t, r, x);
  }

  lemma TokenStored(cell: Cells, was: Matrix, now: Matrix, before: Writes, after: Writes, token: nat, tokens: nat,
                    row: nat, rows: nat, done: nat)
    requires Written(cell, was, now, before, after, token, tokens, row, rows, done, rows)
    ensures Written(cell, was, now, before, after, token, tokens, row, rows, done + 1, 0)
  {
    var next := done + 1;
    forall t, r | 0 <= t < |now| && 0 <= r < |now[t]|
      ensures WrittenAt(cell, was, now, before, after, token, tokens, row, rows, next, 0, t, r)
    {
      assert WrittenAt(cell, was, now, before, after, token, tokens, row, rows, done, rows, t, r);
    }
  }

  lemma NothingStored(cell: Cells, was: Matrix, writes: Writes, token: nat, tokens: nat, row: nat, rows: nat)
    ensures Written(cell, was, was, writes, writes, token, tokens, row, rows, 0, 0)
  {}

  method PlainCell(fp: Float, matrix: Weights, vectors: Groups, lanes: nat, blocks: nat, r: nat, t: nat)
    returns (x: real)
    requires Fit(matrix, vectors, lanes, blocks) && t < lanes * |vectors| && r < 8 * |matrix|
    ensures CellIs(x, fp, matrix, vectors, lanes, blocks, r, t)
  {
    GroupFits(lanes, t, |vectors|);
    x := ScalarRow(fp, matrix[r / 8], r % 8, vectors[Group(lanes, t)], lanes, LaneIn(lanes, t));
  }

  /** The plain double loop, which is also what the narrower kernels are taken to compute. */
  method PlainProduct(fp: Float, matrix: Weights, vectors: Groups, lanes: nat, blocks: nat, output: array2<real>,
                      token: nat, tokens: nat, row: nat, rows: nat, ghost before: Writes)
    returns (ghost after: Writes)
    requires Fit(matrix, vectors, lanes, blocks) && tokens <= lanes * |vectors| && rows <= 8 * |matrix|
    requires token + tokens <= output.Length0 && row + rows <= output.Length1
    modifies output
    ensures Written(CellsOf(fp, matrix, vectors, lanes, blocks), old(Rows(output)), Rows(output), before, after, token,
                    tokens, row, rows, tokens, 0)
  {
    ghost var was, cell := Rows(output), CellsOf(fp, matrix, vectors, lanes, blocks);
    after := before;
    NothingStored(cell, was, before, token, tokens, row, rows);
    for t := 0 to tokens
      invariant Written(cell, was, Rows(output), before, after, token, tokens, row, rows, t, 0)
    {
      after := PlainToken(fp, matrix, vectors, lanes, blocks, output, token, tokens, row, rows, t, cell, was, before,
                          after);
    }
  }

  /** The inner loop of the plain product. */
  method PlainToken(fp: Float, matrix: Weights, vectors: Groups, lanes: nat, blocks: nat, output: array2<real>,
                    token: nat, ghost tokens: nat, row: nat, rows: nat, t: nat, ghost cell: Cells, ghost was: Matrix,
                    ghost before: Writes, ghost mid: Writes)
    returns (ghost after: Writes)
    requires forall x, r, u | CellsOf(fp, matrix, vectors, lanes, blocks)(x, r, u) :: cell(x, r, u)
    requires Fit(matrix, vectors, lanes, blocks) && t < tokens <= lanes * |vectors| && rows <= 8 * |matrix|
    requires token + tokens <= output.Length0 && row + rows <= output.Length1
    requires Written(cell, was, Rows(output), before, mid, token, tokens, row, rows, t, 0)
    modifies output
    ensures Written(cell, was, Rows(output), before, after, token, tokens, row, rows, t + 1, 0)
  {
    after := mid;
    for r := 0 to rows
      invariant Written(cell, was, Rows(output), before, after, token, tokens, row, rows, t, r)
    {
      var x := PlainCell(fp, matrix, vectors, lanes, blocks, r, t);
      assert CellsOf(fp, matrix, vectors, lanes, blocks)(x, r, t);
      after := StoreNext(cell, x, output, token, tokens, row, rows, t, r, was, before, after);
    }
    TokenStored(cell, was, Rows(output), before, after, token, tokens, row, rows, t);
  }

  lemma GroupFits(lanes: nat, t: nat, groups: nat)
    requires (lanes == 1 || lanes == 4) && t < lanes * groups
    ensures Group(lanes, t) < groups && LaneIn(lanes, t) < lanes
  {}

  // ----- the wide tile -----

  /** One token's sixteen accumulators: eight rows from each of two row tiles. */
  method AccumulateToken(fp: Float, a: BlockX8, b: BlockX8, act: Prepared, lanes: nat, lane: nat, acc: seq<real>)
    returns (r: seq<real>)
    requires IsBlockX8(a) && IsBlockX8(b) && IsPrepared(act, lanes) && lane < lanes && SumsAreRight(act, lanes) &&
               |acc| == 16
    ensures |r| == 16
    ensures forall i | 0 <= i < 16 :: r[i] ==
              Fused(fp, PackedRowBlock(if i < 8 then a else b, i % 8), act, lanes, lane, acc[i])
  {
    r := acc;
    for i := 0 to 16
      invariant |r| == 16
      invariant forall j | 0 <= j < i :: r[j] ==
                  Fused(fp, PackedRowBlock(if j < 8 then a else b, j % 8), act, lanes, lane, acc[j])
      invariant forall j | i <= j < 16 :: r[j] == acc[j]
    {
      var w := if i < 8 then a else b;
      var dot := LaneDot(w, i % 8, act, lanes, lane);
      r := r[i := fp.fuse(dot, fp.half(w.d[i % 8]), act.scales[lane], r[i])];
    }
  }

  /** All tokens have `block` blocks accumulated, the first `upto` one more. */
  ghost predicate Accumulated(fp: Float, matrix: Weights, vectors: Groups, lanes: nat, blocks: nat,
                              accs: seq<seq<real>>, block: nat, upto: nat) {
    && Fit(matrix, vectors, lanes, blocks) && |matrix| >= 2 && |accs| <= lanes * |vectors|
    && block + (if upto > 0 then 1 else 0) <= blocks
    && forall t | 0 <= t < |accs| :: TokenAccumulated(fp, matrix, vectors, lanes, blocks, accs[t], t,
                                                      if t < upto then block + 1 else block)
  }

  ghost predicate TokenAccumulated(fp: Float, matrix: Weights, vectors: Groups, lanes: nat, blocks: nat, acc: seq<real>,
                                   t: nat, n: nat)
    requires Fit(matrix, vectors, lanes, blocks) && |matrix| >= 2 && t < lanes * |vectors|
  {
    GroupFits(lanes, t, |vectors|);
    |acc| == 16 && n <= blocks && forall i | 0 <= i < 16 ::
        acc[i] == PartCell(fp, matrix, vectors, lanes, blocks, i, t, n)
  }

  lemma TokenAdvances(fp: Float, matrix: Weights, vectors: Groups, lanes: nat, blocks: nat, acc: seq<real>,
                      now: seq<real>, t: nat, n: nat)
    requires Fit(matrix, vectors, lanes, blocks) && |matrix| >= 2 && t < lanes * |vectors| && n < blocks
    requires TokenAccumulated(fp, matrix, vectors, lanes, blocks, acc, t, n)
    requires Group(lanes, t) < |vectors| && LaneIn(lanes, t) < lanes && |now| == 16
    requires forall i | 0 <= i < 16 ::
      now[i] == Fused(fp, PackedRowBlock(matrix[if i < 8 then 0 else 1][n], i % 8), vectors[Group(lanes, t)][n], lanes,
                      LaneIn(lanes, t), acc[i])
    ensures TokenAccumulated(fp, matrix, vectors, lanes, blocks, now, t, n + 1)
  {
    forall i | 0 <= i < 16 ensures now[i] == PartCell(fp, matrix, vectors, lanes, blocks, i, t, n + 1) {
      assert i / 8 == if i < 8 then 0 else 1;
      assert acc[i] == PartCell(fp, matrix, vectors, lanes, blocks, i, t, n);
    }
  }

  /** Sixteen rows by `tokens` tokens: every block for every token, then the stores. */
  method Tile(fp: Float, matrix: Weights, vectors: Groups, lanes: nat, blocks: nat, output: array2<real>, token: nat,
              tokens: nat, row: nat, ghost before: Writes)
    returns (ghost after: Writes)
    requires Fit(matrix, vectors, lanes, blocks) && HaveSums(vectors, lanes, blocks) && |matrix| >= 2 &&
               tokens <= lanes * |vectors|
    requires token + tokens <= output.Length0 && row + 16 <= output.Length1
    modifies output
    ensures Written(CellsOf(fp, matrix, vectors, lanes, blocks), old(Rows(output)), Rows(output), before, after, token,
                    tokens, row, 16, tokens, 0)
  {
    var accs := Accumulate(fp, matrix, vectors, lanes, blocks, tokens);
    ghost var was, cell := Rows(output), CellsOf(fp, matrix, vectors, lanes, blocks);
    after := before;
    NothingStored(cell, was, before, token, tokens, row, 16);
    for t := 0 to tokens
      invariant Written(cell, was, Rows(output), before, after, token, tokens, row, 16, t, 0)
    {
      AccumulatedAreCells(fp, matrix, vectors, lanes, blocks, accs, t);
      after := StoreToken(cell, accs[t], output, token, tokens, row, t, was, before, after);
    }
  }

  lemma AccumulatedAreCells(fp: Float, matrix: Weights, vectors: Groups, lanes: nat, blocks: nat, accs: seq<seq<real>>,
                            t: nat)
    requires Accumulated(fp, matrix, vectors, lanes, blocks, accs, blocks, 0) && t < |accs|
    ensures |accs[t]| == 16 && forall r | 0 <= r < 16 :: CellsOf(fp, matrix, vectors, lanes, blocks)(accs[t][r], r, t)
  {
    assert TokenAccumulated(fp, matrix, vectors, lanes, blocks, accs[t], t, blocks);
    GroupFits(lanes, t, |vectors|);
    forall r | 0 <= r < 16 ensures CellIs(accs[t][r], fp, matrix, vectors, lanes, blocks, r, t) {
      assert accs[t][r] == PartCell(fp, matrix, vectors, lanes, blocks, r, t, blocks);
    }
  }

  /** One token's sixteen stores. */
  method StoreToken(ghost cell: Cells, acc: seq<real>, output: array2<real>, token: nat, tokens: nat, row: nat, t: nat,
                    ghost was: Matrix, ghost before: Writes, ghost mid: Writes)
    returns (ghost after: Writes)
    requires |acc| == 16 && forall r | 0 <= r < 16 :: cell(acc[r], r, t)
    requires t < tokens && token + tokens <= output.Length0 && row + 16 <= output.Length1
    requires Written(cell, was, Rows(output), before, mid, token, tokens, row, 16, t, 0)
    modifies output
    ensures Written(cell, was, Rows(output), before, after, token, tokens, row, 16, t + 1, 0)
  {
    after := mid;
    for r := 0 to 16
      invariant Written(cell, was, Rows(output), before, after, token, tokens, row, 16, t, r)
    {
      after := StoreNext(cell, acc[r], output, token, tokens, row, 16, t, r, was, before, after);
    }
    TokenStored(cell, was, Rows(output), before, after, token, tokens, row, 16, t);
  }

  method Accumulate(fp: Float, matrix: Weights, vectors: Groups, lanes: nat, blocks: nat, tokens: nat)
    returns (accs: seq<seq<real>>)
    requires Fit(matrix, vectors, lanes, blocks) && HaveSums(vectors, lanes, blocks) && |matrix| >= 2 &&
               tokens <= lanes * |vectors|
    ensures |accs| == tokens && Accumulated(fp, matrix, vectors, lanes, blocks, accs, blocks, 0)
  {
    accs := seq(tokens, t => seq(16, i => 0.0));
    for block := 0 to blocks
      invariant |accs| == tokens && Accumulated(fp, matrix, vectors, lanes, blocks, accs, block, 0)
    {
      for t := 0 to tokens
        invariant |accs| == tokens && Accumulated(fp, matrix, vectors, lanes, blocks, accs, block, t)
      {
        GroupFits(lanes, t, |vectors|);
        var g := Group(lanes, t);
        assert HasSums(vectors, lanes, g, block);
        assert TokenAccumulated(fp, matrix, vectors, lanes, blocks, accs[t], t, block);
        var now := AccumulateToken(fp, matrix[0][block], matrix[1][block], vectors[g][block], lanes, LaneIn(lanes, t),
                                   accs[t]);
        TokenAdvances(fp, matrix, vectors, lanes, blocks, accs[t], now, t, block);
        OneAccumulated(fp, matrix, vectors, lanes, blocks, accs, block, t, now);
        accs := accs[t := now];
      }
      AllAccumulated(fp, matrix, vectors, lanes, blocks, accs, block);
    }
  }

  lemma OneAccumulated(fp: Float, matrix: Weights, vectors: Groups, lanes: nat, blocks: nat, accs: seq<seq<real>>,
                       block: nat, t: nat, now: seq<real>)
    requires Accumulated(fp, matrix, vectors, lanes, blocks, accs, block, t) && t < |accs| && block < blocks
    requires TokenAccumulated(fp, matrix, vectors, lanes, blocks, now, t, block + 1)
    ensures Accumulated(fp, matrix, vectors, lanes, blocks, accs[t := now], block, t + 1)
  {
    var next := accs[t := now];
    forall u | 0 <= u < |accs|
      ensures TokenAccumulated(fp, matrix, vectors, lanes, blocks, next[u], u, if u < t + 1 then block + 1 else block)
    {
      assert TokenAccumulated(fp, matrix, vectors, lanes, blocks, accs[u], u, if u < t then block + 1 else block);
    }
  }

  lemma AllAccumulated(fp: Float, matrix: Weights, vectors: Groups, lanes: nat, blocks: nat, accs: seq<seq<real>>,
                       block: nat)
    requires Accumulated(fp, matrix, vectors, lanes, blocks, accs, block, |accs|) && block < blocks
    ensures Accumulated(fp, matrix, vectors, lanes, blocks, accs, block + 1, 0)
  {
    forall u | 0 <= u < |accs| ensures TokenAccumulated(fp, matrix, vectors, lanes, blocks, accs[u], u, block + 1) {
    }
  }

  // ----- the tiled product -----

  /**
   Row groups before `row` are finished, and in the group at `row` the tokens before `token`; each
   finished cell was written once.
   */
  ghost predicate Filled(cell: Cells, was: Matrix, now: Matrix, writes: Writes, rows: nat, count: nat, row: nat,
                         width: nat, token: nat)
  {
    && SameShape(was, now)
    && forall t, r | 0 <= t < |now| && 0 <= r < |now[t]| ::
        FilledAt(cell, was, now, writes, rows, count, row, width, token, t, r)
  }

  ghost predicate FilledAt(cell: Cells, was: Matrix, now: Matrix, writes: Writes, rows: nat, count: nat, row: nat,
                           width: nat, token: nat, t: nat, r: nat)
    requires t < |now| && r < |now[t]| && SameShape(was, now)
  {
    if t < count && r < rows && (r < row || (r < row + width && t < token))
    then cell(now[t][r], r, t) && writes(t, r) == 1
    else now[t][r] == was[t][r] && writes(t, r) == 0
  }

  /** A rectangle of fresh cells, computed from the pointed-to tile and group, extends what is finished. */
  lemma RectangleFills(cell: Cells, was: Matrix, mid: Matrix, now: Matrix, before: Writes, after: Writes, rows: nat,
                       count: nat, row: nat, width: nat, token: nat, tokens: nat, later: Cells)
    requires Filled(cell, was, mid, before, rows, count, row, width, token)
    requires token + tokens <= count && row + width <= rows
    requires Written(later, mid, now, before, after, token, tokens, row, width, tokens, 0)
    requires forall x, q, u | later(x, q, u) :: cell(x, row + q, token + u)
    ensures Filled(cell, was, now, after, rows, count, row, width, token + tokens)
  {
    var next := token + tokens;
    forall t, r | 0 <= t < |now| && 0 <= r < |now[t]|
      ensures FilledAt(cell, was, now, after, rows, count, row, width, next, t, r)
    {
      assert FilledAt(cell, was, mid, before, rows, count, row, width, token, t, r);
      assert WrittenAt(later, mid, now, before, after, token, tokens, row, width, tokens, 0, t, r);
      if InRectangle(t, r, token, tokens, row, width) {
        var x, q, u := now[t][r], r - row, t - token;
        assert later(x, q, u);
        assert cell(x, row + q, token + u);
        assert row + q == r && token + u == t && before(t, r) == 0;
      }
    }
  }

  lemma GroupFilled(cell: Cells, was: Matrix, now: Matrix, writes: Writes, rows: nat, count: nat, row: nat, width: nat,
                    next: nat)
    requires Filled(cell, was, now, writes, rows, count, row, width, count)
    ensures Filled(cell, was, now, writes, rows, count, row + width, next, 0)
  {
    var after := row + width;
    forall t, r | 0 <= t < |now| && 0 <= r < |now[t]|
      ensures FilledAt(cell, was, now, writes, rows, count, after, next, 0, t, r)
    {
      assert FilledAt(cell, was, now, writes, rows, count, row, width, count, t, r);
    }
  }

  lemma NothingFilled(cell: Cells, was: Matrix, writes: Writes, rows: nat, count: nat, width: nat)
    requires forall t, r :: writes(t, r) == 0
    ensures Filled(cell, was, was, writes, rows, count, 0, width, 0)
  {}

  /** A tile or a tail kernel, at the row tile and token group it is pointed to. */
  lemma PointedFills(fp: Float, matrix: Weights, vectors: Groups, blocks: nat, was: Matrix, mid: Matrix, now: Matrix,
                     before: Writes, after: Writes, rows: nat, count: nat, row: nat, width: nat, token: nat,
                     tokens: nat)
    requires Fit(matrix, vectors, 4, blocks) && row % 8 == 0 && token % 4 == 0 && row / 8 <= |matrix| &&
               token / 4 <= |vectors|
    requires Filled(CellsOf(fp, matrix, vectors, 4, blocks), was, mid, before, rows, count, row, width, token)
    requires token + tokens <= count && row + width <= rows
    requires Written(CellsOf(fp, matrix[row / 8..], vectors[token / 4..], 4, blocks), mid, now, before, after, token,
                     tokens, row, width, tokens, 0)
    ensures Filled(CellsOf(fp, matrix, vectors, 4, blocks), was, now, after, rows, count, row, width, token + tokens)
  {
    var cell, later := CellsOf(fp, matrix, vectors, 4, blocks),
        CellsOf(fp, matrix[row / 8..], vectors[token / 4..], 4, blocks);
    PointedCells(fp, matrix, vectors, 4, blocks, matrix[row / 8..], vectors[token / 4..], row / 8, token / 4, row,
                 token, cell, later);
    RectangleFills(cell, was, mid, now, before, after, rows, count, row, width, token, tokens, later);
  }

  lemma PointedCells(fp: Float, matrix: Weights, vectors: Groups, lanes: nat, blocks: nat, laterRows: Weights,
                     laterTokens: Groups, tile: nat, group: nat, row: nat, token: nat, cell: Cells, later: Cells)
    requires Fit(matrix, vectors, lanes, blocks) && tile <= |matrix| && group <= |vectors|
    requires laterRows == matrix[tile..] && laterTokens == vectors[group..] && row == 8 * tile && token == 4 * group &&
               lanes == 4
    requires cell == CellsOf(fp, matrix, vectors, lanes, blocks) &&
               later == CellsOf(fp, laterRows, laterTokens, lanes, blocks)
    ensures forall x, q, u | later(x, q, u) :: cell(x, row + q, token + u)
  {
    var places, laterPlaces := PlacesOf(fp, matrix, vectors, lanes, blocks),
        PlacesOf(fp, laterRows, laterTokens, lanes, blocks);
    PlacesMove(fp, matrix, vectors, lanes, blocks, laterRows, laterTokens, tile, group);
    CellsMove(places, laterPlaces, lanes, tile, group, row, token);
  }

  lemma PointedFit(matrix: Weights, vectors: Groups, blocks: nat, row: nat, token: nat)
    requires Fit(matrix, vectors, 4, blocks) && row / 8 <= |matrix| && token / 4 <= |vectors|
    ensures Fit(matrix[row / 8..], vectors[token / 4..], 4, blocks)
    ensures HaveSums(vectors, 4, blocks) ==> HaveSums(vectors[token / 4..], 4, blocks)
  {
    var others := vectors[token / 4..];
    if HaveSums(vectors, 4, blocks) {
      forall g, b | 0 <= g < |others| && 0 <= b < blocks ensures HasSums(others, 4, g, b) {
        assert HasSums(vectors, 4, token / 4 + g, b);
      }
    }
  }

  /** The tiles of `size` tokens of one group of sixteen rows. */
  method TokenTiles(fp: Float, matrix: Weights, vectors: Groups, blocks: nat, output: array2<real>, ghost rows: nat,
                    count: nat, row: nat, token: nat, size: nat, ghost was: Matrix, ghost before: Writes)
    returns (next: nat, ghost after: Writes)
    requires Fit(matrix, vectors, 4, blocks) && HaveSums(vectors, 4, blocks) && count <= 4 * |vectors| &&
               rows <= 8 * |matrix|
    requires count <= output.Length0 && rows <= output.Length1 && row % 8 == 0 && row + 16 <= rows
    requires token <= count && token % 4 == 0 && size > 0 && size % 4 == 0
    requires Filled(CellsOf(fp, matrix, vectors, 4, blocks), was, Rows(output), before, rows, count, row, 16, token)
    modifies output
    ensures token <= next <= count < next + size && next % 4 == 0
    ensures Filled(CellsOf(fp, matrix, vectors, 4, blocks), was, Rows(output), after, rows, count, row, 16, next)
  {
    next, after := token, before;
    while next + size <= count
      invariant token <= next <= count && next % 4 == 0
      invariant Filled(CellsOf(fp, matrix, vectors, 4, blocks), was, Rows(output), after, rows, count, row, 16, next)
    {
      ghost var mid, writes := Rows(output), after;
      PointedFit(matrix, vectors, blocks, row, next);
      after := Tile(fp, matrix[row / 8..], vectors[next / 4..], 4, blocks, output, next, size, row, after);
      PointedFills(fp, matrix, vectors, blocks, was, mid, Rows(output), writes, after, rows, count, row, 16, next,
                   size);
      next := next + size;
    }
  }

  /** All tokens of one group of sixteen rows: wide tiles, narrow tiles, then the rest. */
  method RowGroup(fp: Float, matrix: Weights, vectors: Groups, blocks: nat, output: array2<real>, ghost rows: nat,
                  count: nat, row: nat, ghost was: Matrix, ghost before: Writes)
    returns (ghost after: Writes)
    requires Fit(matrix, vectors, 4, blocks) && HaveSums(vectors, 4, blocks) && count <= 4 * |vectors| &&
               rows <= 8 * |matrix|
    requires count <= output.Length0 && rows <= output.Length1 && row % 8 == 0 && row + 16 <= rows
    requires Filled(CellsOf(fp, matrix, vectors, 4, blocks), was, Rows(output), before, rows, count, row, 16, 0)
    modifies output
    ensures Filled(CellsOf(fp, matrix, vectors, 4, blocks), was, Rows(output), after, rows, count, row + 16, 16, 0)
  {
    var token := 0;
    after := before;
    if count >= 64 {
      token, after := TokenTiles(fp, matrix, vectors, blocks, output, rows, count, row, token, 16, was, after);
    }
    token, after := TokenTiles(fp, matrix, vectors, blocks, output, rows, count, row, token, 8, was, after);
    if token < count {
      after := Rest(fp, matrix, vectors, blocks, output, rows, count, row, 16, token, was, after);
    }
    GroupFilled(CellsOf(fp, matrix, vectors, 4, blocks), was, Rows(output), after, rows, count, row, 16, 16);
  }

  /** The tail kernel, for the tokens that are left. */
  method Rest(fp: Float, matrix: Weights, vectors: Groups, blocks: nat, output: array2<real>, ghost rows: nat,
              count: nat, row: nat, width: nat, token: nat, ghost was: Matrix, ghost before: Writes)
    returns (ghost after: Writes)
    requires Fit(matrix, vectors, 4, blocks) && count <= 4 * |vectors| && rows <= 8 * |matrix|
    requires count <= output.Length0 && rows <= output.Length1 && row % 8 == 0 && row + width <= rows &&
               token % 4 == 0 && token <= count
    requires Filled(CellsOf(fp, matrix, vectors, 4, blocks), was, Rows(output), before, rows, count, row, width, token)
    modifies output
    ensures Filled(CellsOf(fp, matrix, vectors, 4, blocks), was, Rows(output), after, rows, count, row, width, count)
  {
    ghost var mid := Rows(output);
    PointedFit(matrix, vectors, blocks, row, token);
    after := PlainProduct(fp, matrix[row / 8..], vectors[token / 4..], 4, blocks, output, token, count - token, row,
                          width, before);
    PointedFills(fp, matrix, vectors, blocks, was, mid, Rows(output), before, after, rows, count, row, width, token,
                 count - token);
  }

  /** Every cell of the product is written exactly once, with its value; nothing else is touched. */
  method Product(fp: Float, matrix: Weights, vectors: Groups, blocks: nat, output: array2<real>, rows: nat, count: nat)
    returns (ghost writes: Writes)
    requires Fit(matrix, vectors, 4, blocks) && HaveSums(vectors, 4, blocks) && count <= 4 * |vectors| &&
               rows <= 8 * |matrix|
    requires count <= output.Length0 && rows <= output.Length1
    modifies output
    ensures forall t, r | 0 <= t < count && 0 <= r < rows ::
      CellIs(Rows(output)[t][r], fp, matrix, vectors, 4, blocks, r, t) && writes(t, r) == 1
    ensures forall t, r | 0 <= t < output.Length0 && 0 <= r < output.Length1 && !(t < count && r < rows) ::
      Rows(output)[t][r] == old(Rows(output))[t][r] && writes(t, r) == 0
  {
    ghost var was, cell := Rows(output), CellsOf(fp, matrix, vectors, 4, blocks);
    writes := (t: int, r: int) => 0;
    NothingFilled(cell, was, writes, rows, count, 16);
    var row := 0;
    while row + 16 <= rows
      invariant row <= rows && row % 8 == 0
      invariant Filled(cell, was, Rows(output), writes, rows, count, row, 16, 0)
    {
      writes := RowGroup(fp, matrix, vectors, blocks, output, rows, count, row, was, writes);
      row := row + 16;
    }
    if row < rows {
      GroupWidth(cell, was, Rows(output), writes, rows, count, row, 16, rows - row);
      writes := Rest(fp, matrix, vectors, blocks, output, rows, count, row, rows - row, 0, was, writes);
      GroupFilled(cell, was, Rows(output), writes, rows, count, row, rows - row, 16);
      row := rows;
    }
    AllFilled(cell, was, Rows(output), writes, rows, count, row, 16);
  }

  /** Before its first token a group has no width. */
  lemma GroupWidth(cell: Cells, was: Matrix, now: Matrix, writes: Writes, rows: nat, count: nat, row: nat, width: nat,
                   other: nat)
    requires Filled(cell, was, now, writes, rows, count, row, width, 0)
    ensures Filled(cell, was, now, writes, rows, count, row, other, 0)
  {
    forall t, r | 0 <= t < |now| && 0 <= r < |now[t]|
      ensures FilledAt(cell, was, now, writes, rows, count, row, other, 0, t, r)
    {
      assert FilledAt(cell, was, now, writes, rows, count, row, width, 0, t, r);
    }
  }

  lemma AllFilled(cell: Cells, was: Matrix, now: Matrix, writes: Writes, rows: nat, count: nat, row: nat, width: nat)
    requires Filled(cell, was, now, writes, rows, count, row, width, 0) && row == rows
    ensures forall t, r | 0 <= t < |now| && 0 <= r < |now[t]| ::
      if t < count && r < rows then cell(now[t][r], r, t) && writes(t, r) == 1
      else now[t][r] == was[t][r] && writes(t, r) == 0
  {
    forall t, r | 0 <= t < |now| && 0 <= r < |now[t]|
      ensures if t < count && r < rows then cell(now[t][r], r, t) && writes(t, r) == 1
              else now[t][r] == was[t][r] && writes(t, r) == 0
    {
      assert FilledAt(cell, was, now, writes, rows, count, row, width, 0, t, r);
    }
  }
}
