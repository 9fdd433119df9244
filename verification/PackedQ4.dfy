/**
 The canonical and the eight-row layouts of src/cpu/q4_0.cpp: what packing keeps,
 and the packed matrix product against the plain one.
 */
module PackedQ4 {
  import opened Wrappers
  import opened Bytes
  import opened Quantized
  import opened Matrices

  /**
   The value of a binary16 scale, and one accumulation of dot, weight scale and activation scale,
   rounding included.
   */
  datatype Float = Float(half: Half -> real, add: (int, real, real, real) -> real)

  // ----- layouts -----

  /** Where byte i of row `row` goes: chunks of eight bytes, row after row. */
  function Slot(row: nat, i: nat): (k: nat)
    requires row < 8 && i < 16
    ensures k < 128
  {
    i / 8 * 64 + row * 8 + i % 8
  }

  lemma SlotsDiffer(row: nat, i: nat, other: nat, j: nat)
    requires row < 8 && i < 16 && other < 8 && j < 16 && Slot(row, i) == Slot(other, j)
    ensures row == other && i == j
  {}

  ghost predicate IsTile(tile: seq<Block>) {
    |tile| == 8 && forall r | 0 <= r < 8 :: IsBlock(tile[r])
  }

  /** The first `rows` rows of the tile, and `bytes` bytes of the next, are in place. */
  ghost predicate RowsPacked(x: BlockX8, tile: seq<Block>, rows: nat, bytes: nat)
    requires IsTile(tile)
  {
    && IsBlockX8(x)
    && (forall r | 0 <= r < 8 && r < rows :: x.d[r] == tile[r].d)
    && forall r, i | 0 <= r < 8 && 0 <= i < 16 && (r < rows || (r == rows && i < bytes)) ::
        x.qs[Slot(r, i)] == tile[r].qs[i]
  }

  ghost predicate IsPacked(x: BlockX8, tile: seq<Block>)
    requires IsTile(tile)
  {
    RowsPacked(x, tile, 8, 0)
  }

  lemma BytePacked(x: BlockX8, tile: seq<Block>, row: nat, i: nat)
    requires IsTile(tile) && row < 8 && i < 16 && RowsPacked(x, tile, row, i)
    ensures RowsPacked(x.(qs := x.qs[Slot(row, i) := tile[row].qs[i]]), tile, row, i + 1)
  {
    var now := x.(qs := x.qs[Slot(row, i) := tile[row].qs[i]]);
    forall r, j | 0 <= r < 8 && 0 <= j < 16 &&
        (r < row || (r == row && j < i + 1)) ensures now.qs[Slot(r, j)] == tile[r].qs[j] {
      if Slot(r, j) == Slot(row, i) {
        SlotsDiffer(r, j, row, i);
      }
    }
  }

  /** The chunk and index loops of one tile. */
  method PackTile(tile: seq<Block>, was: BlockX8) returns (x: BlockX8)
    requires IsTile(tile) && IsBlockX8(was)
    ensures IsPacked(x, tile)
  {
    x := was;
    for row := 0 to 8
      invariant RowsPacked(x, tile, row, 0)
    {
      for chunk := 0 to 2
        invariant RowsPacked(x, tile, row, 8 * chunk)
      {
        for index := 0 to 8
          invariant RowsPacked(x, tile, row, 8 * chunk + index)
        {
          var i := chunk * 8 + index;
          assert i / 8 == chunk && i % 8 == index;
          BytePacked(x, tile, row, i);
          x := x.(qs := x.qs[chunk * 64 + row * 8 + index := tile[row].qs[i]]);
        }
      }
      x := x.(d := x.d[row := tile[row].d]);
    }
  }

  /** Two tiles that pack alike are alike. */
  lemma PackingLosesNothing(x: BlockX8, a: seq<Block>, b: seq<Block>)
    requires IsTile(a) && IsTile(b) && IsPacked(x, a) && IsPacked(x, b)
    ensures a == b
  {
    forall r | 0 <= r < 8 ensures a[r] == b[r] {
      forall i | 0 <= i < 16 ensures a[r].qs[i] == b[r].qs[i] {
        assert x.qs[Slot(r, i)] == a[r].qs[i];
        assert x.qs[Slot(r, i)] == b[r].qs[i];
      }
      assert a[r].qs == b[r].qs;
      assert x.d[r] == a[r].d && x.d[r] == b[r].d;
    }
  }

  /** The code of column k of a packed row. */
  function PackedCode(x: BlockX8, row: nat, k: nat): (r: byte)
    requires IsBlockX8(x) && row < 8 && k < 32
    ensures r < 16
  {
    if k < 16 then Low(x.qs[Slot(row, k)]) else High(x.qs[Slot(row, k - 16)])
  }

  lemma PackedKeepsCodes(x: BlockX8, tile: seq<Block>, row: nat, k: nat)
    requires IsTile(tile) && IsPacked(x, tile) && row < 8 && k < 32
    ensures PackedCode(x, row, k) == Codes(tile[row])[k]
  {
    if k < 16 {
      assert x.qs[Slot(row, k)] == tile[row].qs[k];
    } else {
      assert x.qs[Slot(row, k - 16)] == tile[row].qs[k - 16];
    }
  }

  /** Four activation blocks side by side, their scales turned into reals and their codes summed. */
  ghost predicate IsPackedX4(fp: Float, a: Prepared, acts: seq<Activations>) {
    && |acts| == 4 && IsPrepared(a, 4)
    && forall t | 0 <= t < 4 :: IsActivations(acts[t]) && LaneIs(fp, a, acts[t], t)
  }

  ghost predicate LaneIs(fp: Float, a: Prepared, act: Activations, t: nat)
    requires IsPrepared(a, 4) && t < 4 && IsActivations(act)
  {
    a.scales[t] == fp.half(act.d) && LaneCodes(a, 4, t) == act.qs && a.sums[t] == SumTo(act.qs, |act.qs|)
  }

  /** One token of the packed block: 32 codes copied and summed; the sum fits its sixteen bits. */
  method PackLane(fp: Float, act: Activations, t: nat, was: Prepared) returns (a: Prepared)
    requires IsActivations(act) && t < 4 && IsPrepared(was, 4)
    ensures IsPrepared(a, 4) && LaneIs(fp, a, act, t) && -0x8000 <= a.sums[t] < 0x8000
    ensures forall u | 0 <= u < 4 && u != t ::
      a.scales[u] == was.scales[u] && a.sums[u] == was.sums[u] && LaneCodes(a, 4, u) == LaneCodes(was, 4, u)
  {
    var qs := was.qs;
    var sum: int := 0;
    for k := 0 to 32
      invariant |qs| == 128 && sum == SumTo(act.qs, k)
      invariant forall i | 0 <= i < 128 :: qs[i] == if 32 * t <= i < 32 * t + k then act.qs[i - 32 * t] else was.qs[i]
    {
      qs := qs[t * 32 + k := act.qs[k]];
      sum := sum + act.qs[k] as int;
    }
    SumFits(act.qs, |act.qs|);
    a := Prepared(was.scales[t := fp.half(act.d)], was.sums[t := sum], qs);
    assert LaneCodes(a, 4, t) == act.qs;
  }

  lemma {:induction false} SumFits(acts: seq<Signed8>, end: nat)
    requires end <= |acts|
    ensures -128 * end <= SumTo(acts, end) <= 127 * end
    decreases end
  {
    if end > 0 {
      SumFits(acts, end - 1);
    }
  }

  method PackGroup(fp: Float, acts: seq<Activations>, was: Prepared) returns (a: Prepared)
    requires |acts| == 4 && (forall t | 0 <= t < 4 :: IsActivations(acts[t])) && IsPrepared(was, 4)
    ensures IsPackedX4(fp, a, acts)
  {
    a := was;
    for t := 0 to 4
      invariant IsPrepared(a, 4)
      invariant forall u | 0 <= u < t :: LaneIs(fp, a, acts[u], u)
    {
      a := PackLane(fp, acts[t], t, a);
    }
  }

  // ----- one row against one vector -----

  ghost predicate AreBlocks(row: seq<Block>) {
    forall b | 0 <= b < |row| :: IsBlock(row[b])
  }

  ghost predicate AreActivations(vec: seq<Activations>) {
    forall b | 0 <= b < |vec| :: IsActivations(vec[b])
  }

  /** The plain value, block after block. */
  ghost function Value(fp: Float, row: seq<Block>, vec: seq<Activations>, n: nat): real
    requires AreBlocks(row) && AreActivations(vec) && n <= |row| && n <= |vec|
  {
    if n == 0 then 0.0
    else fp.add(BlockDot(Codes(row[n - 1]), vec[n - 1].qs), fp.half(row[n - 1].d), fp.half(vec[n - 1].d),
                Value(fp, row, vec, n - 1))
  }

  lemma PairAdds(codes: seq<byte>, acts: seq<Signed8>, i: nat)
    requires |codes| == |acts| == 32 && i < 16
    ensures SignedDot(codes, acts, 0, i + 1) + SignedDot(codes, acts, 16, 16 + (i + 1)) ==
            SignedDot(codes, acts, 0, i) + SignedDot(codes, acts, 16, 16 + i)
            + (codes[i] as int - 8) * acts[i] + (codes[i + 16] as int - 8) * acts[i + 16]
  {}

  /** Both nibbles of a byte at a time. */
  method PairDot(w: Block, a: Activations) returns (dot: int)
    requires IsBlock(w) && IsActivations(a)
    ensures dot == BlockDot(Codes(w), a.qs)
  {
    ghost var codes := Codes(w);
    dot := 0;
    for i := 0 to 16
      invariant dot == SignedDot(codes, a.qs, 0, i) + SignedDot(codes, a.qs, 16, 16 + i)
    {
      PairAdds(codes, a.qs, i);
      assert codes[i] == Low(w.qs[i]) && codes[i + 16] == High(w.qs[i]);
      dot := dot + (Low(w.qs[i]) as int - 8) * a.qs[i];
      dot := dot + (High(w.qs[i]) as int - 8) * a.qs[i + 16];
    }
    SignedDotSplits(codes, a.qs, 0, 16, |codes|);
  }

  /** Chunk and position of byte i lead to the codes and activations of columns i and i + 16. */
  lemma PairRead(x: BlockX8, row: nat, a: Prepared, t: nat, i: nat)
    requires IsBlockX8(x) && row < 8 && IsPrepared(a, 4) && t < 4 && i < 16
    ensures 0 <= i / 8 * 64 + row * 8 + i % 8 < 128
    ensures 0 <= t * 32 + i / 8 * 8 + i % 8 < 128 && t * 32 + (i / 8 + 2) * 8 + i % 8 < 128
    ensures PackedCode(x, row, i) == Low(x.qs[i / 8 * 64 + row * 8 + i % 8])
    ensures PackedCode(x, row, i + 16) == High(x.qs[i / 8 * 64 + row * 8 + i % 8])
    ensures LaneCodes(a, 4, t)[i] == a.qs[t * 32 + i / 8 * 8 + i % 8]
    ensures LaneCodes(a, 4, t)[i + 16] == a.qs[t * 32 + (i / 8 + 2) * 8 + i % 8]
  {
    assert i / 8 * 8 + i % 8 == i && Slot(row, i) == i / 8 * 64 + row * 8 + i % 8;
  }

  method PackedPairDot(x: BlockX8, row: nat, a: Prepared, t: nat, ghost w: Block, ghost act: Activations)
    returns (dot: int)
    requires IsBlockX8(x) && row < 8 && IsPrepared(a, 4) && t < 4 && IsBlock(w) && IsActivations(act)
    requires (forall k | 0 <= k < 32 :: PackedCode(x, row, k) == Codes(w)[k]) && LaneCodes(a, 4, t) == act.qs
    ensures dot == BlockDot(Codes(w), act.qs)
  {
    ghost var codes := Codes(w);
    dot := 0;
    for i := 0 to 16
      invariant dot == SignedDot(codes, act.qs, 0, i) + SignedDot(codes, act.qs, 16, 16 + i)
    {
      PairAdds(codes, act.qs, i);
      PairRead(x, row, a, t, i);
      var packed := x.qs[i / 8 * 64 + row * 8 + i % 8];
      var low, high := a.qs[t * 32 + i / 8 * 8 + i % 8], a.qs[t * 32 + (i / 8 + 2) * 8 + i % 8];
      dot := dot + (Low(packed) as int - 8) * low;
      dot := dot + (High(packed) as int - 8) * high;
    }
    SignedDotSplits(codes, act.qs, 0, 16, |codes|);
  }

  // ----- the packed product -----

  /** Block b of each of eight rows. */
  function RowsAt(rows: seq<seq<Block>>, b: nat): (tile: seq<Block>)
    requires forall r | 0 <= r < |rows| :: b < |rows[r]|
    ensures |tile| == |rows| && forall r | 0 <= r < |rows| :: tile[r] == rows[r][b]
  {
    seq(|rows|, r requires 0 <= r < |rows| => rows[r][b])
  }

  function VectorsAt(vecs: seq<seq<Activations>>, b: nat): (acts: seq<Activations>)
    requires forall t | 0 <= t < |vecs| :: b < |vecs[t]|
    ensures |acts| == |vecs| && forall t | 0 <= t < |vecs| :: acts[t] == vecs[t][b]
  {
    seq(|vecs|, t requires 0 <= t < |vecs| => vecs[t][b])
  }

  /** A row tile is these eight rows, packed. */
  ghost predicate TileHolds(tile: seq<BlockX8>, rows: seq<seq<Block>>, blocks: nat) {
    && |rows| == 8 && |tile| == blocks
    && (forall r | 0 <= r < 8 :: |rows[r]| == blocks && AreBlocks(rows[r]))
    && forall b | 0 <= b < blocks :: IsTile(RowsAt(rows, b)) && IsPacked(tile[b], RowsAt(rows, b))
  }

  /** A vector group is these four vectors, packed. */
  ghost predicate GroupHolds(fp: Float, group: seq<Prepared>, vecs: seq<seq<Activations>>, blocks: nat) {
    && |vecs| == 4 && |group| == blocks
    && (forall t | 0 <= t < 4 :: |vecs[t]| == blocks && AreActivations(vecs[t]))
    && forall b | 0 <= b < blocks :: IsPackedX4(fp, group[b], VectorsAt(vecs, b))
  }

  /** Row i of a two-dimensional buffer. */
  ghost function BufferRow<T>(a: array2<T>, i: nat): (row: seq<T>)
    requires i < a.Length0
    reads a
    ensures |row| == a.Length1 && forall b | 0 <= b < a.Length1 :: row[b] == a[i, b]
  {
    seq(a.Length1, b requires 0 <= b < a.Length1 reads a => a[i, b])
  }

  /** The accumulators: `block` blocks are in, one more for the cells before (token, row). */
  ghost predicate Accumulated(fp: Float, rows: seq<seq<Block>>, vecs: seq<seq<Activations>>, blocks: nat,
                              accs: seq<seq<real>>, block: nat, token: nat, row: nat) {
    && |rows| == 8 && |vecs| == 4 && block + (if token > 0 || row > 0 then 1 else 0) <= blocks
    && (forall r | 0 <= r < 8 :: |rows[r]| == blocks && AreBlocks(rows[r]))
    && (forall t | 0 <= t < 4 :: |vecs[t]| == blocks && AreActivations(vecs[t]))
    && |accs| == 4 && (forall t | 0 <= t < 4 :: |accs[t]| == 8)
    && forall t, r | 0 <= t < 4 && 0 <= r < 8 ::
         accs[t][r] == Value(fp, rows[r], vecs[t], if t < token || (t == token && r < row) then block + 1 else block)
  }

  /** One block of one cell. */
  method AddBlock(fp: Float, w: BlockX8, a: Prepared, row: nat, t: nat, acc: real, ghost tile: seq<Block>,
                  ghost acts: seq<Activations>)
    returns (now: real)
    requires IsTile(tile) && IsPacked(w, tile) && IsPackedX4(fp, a, acts) && row < 8 && t < 4
    ensures now == fp.add(BlockDot(Codes(tile[row]), acts[t].qs), fp.half(tile[row].d), fp.half(acts[t].d), acc)
  {
    forall k | 0 <= k < 32 ensures PackedCode(w, row, k) == Codes(tile[row])[k] {
      PackedKeepsCodes(w, tile, row, k);
    }
    assert LaneIs(fp, a, acts[t], t);
    var dot := PackedPairDot(w, row, a, t, tile[row], acts[t]);
    now := fp.add(dot, fp.half(w.d[row]), a.scales[t], acc);
  }

  method TileSums(fp: Float, matrix: array2<BlockX8>, tile: nat, groups: array2<Prepared>, group: nat, blocks: nat,
                  ghost rows: seq<seq<Block>>, ghost vecs: seq<seq<Activations>>)
    returns (accs: seq<seq<real>>)
    requires tile < matrix.Length0 && group < groups.Length0
    requires TileHolds(BufferRow(matrix, tile), rows, blocks) && GroupHolds(fp, BufferRow(groups, group), vecs, blocks)
    ensures Accumulated(fp, rows, vecs, blocks, accs, blocks, 0, 0)
  {
    accs := seq(4, t => seq(8, r => 0.0));
    for block := 0 to blocks
      invariant Accumulated(fp, rows, vecs, blocks, accs, block, 0, 0)
    {
      assert matrix[tile, block] == BufferRow(matrix, tile)[block] &&
          groups[group, block] == BufferRow(groups, group)[block];
      accs := BlockSums(fp, matrix[tile, block], groups[group, block], blocks, block, accs, rows, vecs);
    }
  }

  /** One block added to all thirty-two sums. */
  method BlockSums(fp: Float, x: BlockX8, act: Prepared, blocks: nat, block: nat, before: seq<seq<real>>,
                   ghost rows: seq<seq<Block>>, ghost vecs: seq<seq<Activations>>)
    returns (accs: seq<seq<real>>)
    requires block < blocks && Accumulated(fp, rows, vecs, blocks, before, block, 0, 0)
    requires |rows| == 8 && |vecs| == 4 && (forall r | 0 <= r < 8 :: |rows[r]| == blocks)
    requires forall t | 0 <= t < 4 :: |vecs[t]| == blocks
    requires IsTile(RowsAt(rows, block)) && IsPacked(x, RowsAt(rows, block))
    requires IsPackedX4(fp, act, VectorsAt(vecs, block))
    ensures Accumulated(fp, rows, vecs, blocks, accs, block + 1, 0, 0)
  {
    accs := before;
    for t := 0 to 4
      invariant Accumulated(fp, rows, vecs, blocks, accs, block, t, 0)
    {
      for r := 0 to 8
        invariant Accumulated(fp, rows, vecs, blocks, accs, block, t, r)
      {
        var now := AddBlock(fp, x, act, r, t, accs[t][r], RowsAt(rows, block), VectorsAt(vecs, block));
        CellAccumulated(fp, rows, vecs, blocks, accs, block, t, r, now);
        accs := accs[t := accs[t][r := now]];
      }
      NextToken(fp, rows, vecs, blocks, accs, block, t);
    }
    NextBlock(fp, rows, vecs, blocks, accs, block);
  }

  lemma CellAccumulated(fp: Float, rows: seq<seq<Block>>, vecs: seq<seq<Activations>>, blocks: nat,
                        accs: seq<seq<real>>, block: nat, t: nat, r: nat, now: real)
    requires Accumulated(fp, rows, vecs, blocks, accs, block, t, r) && block < blocks && t < 4 && r < 8
    requires now == Value(fp, rows[r], vecs[t], block + 1)
    ensures Accumulated(fp, rows, vecs, blocks, accs[t := accs[t][r := now]], block, t, r + 1)
  {}

  lemma NextToken(fp: Float, rows: seq<seq<Block>>, vecs: seq<seq<Activations>>, blocks: nat, accs: seq<seq<real>>,
                  block: nat, t: nat)
    requires Accumulated(fp, rows, vecs, blocks, accs, block, t, 8)
    ensures Accumulated(fp, rows, vecs, blocks, accs, block, t + 1, 0)
  {}

  lemma NextBlock(fp: Float, rows: seq<seq<Block>>, vecs: seq<seq<Activations>>, blocks: nat, accs: seq<seq<real>>,
                  block: nat)
    requires Accumulated(fp, rows, vecs, blocks, accs, block, 4, 0)
    ensures Accumulated(fp, rows, vecs, blocks, accs, block + 1, 0, 0)
  {}

  // ----- whole products -----

  /** Which values are right for a row and a vector. */
  type Right = (real, int, int) -> bool

  ghost predicate RowsAreBlocks(plain: seq<seq<Block>>, blocks: nat) {
    forall r | 0 <= r < |plain| :: |plain[r]| == blocks && AreBlocks(plain[r])
  }

  ghost predicate VectorsAreBlocks(vecs: seq<seq<Activations>>, blocks: nat) {
    forall v | 0 <= v < |vecs| :: |vecs[v]| == blocks && AreActivations(vecs[v])
  }

  /** x is the plain value of row r against vector v. */
  ghost predicate CellIs(fp: Float, plain: seq<seq<Block>>, vecs: seq<seq<Activations>>, blocks: nat, x: real, r: int,
                         v: int) {
    && RowsAreBlocks(plain, blocks) && VectorsAreBlocks(vecs, blocks) && 0 <= r < |plain| && 0 <= v < |vecs|
    && x == Value(fp, plain[r], vecs[v], blocks)
  }

  ghost function RightFor(fp: Float, plain: seq<seq<Block>>, vecs: seq<seq<Activations>>, blocks: nat): Right {
    (x: real, r: int, v: int) => CellIs(fp, plain, vecs, blocks, x, r, v)
  }

  ghost predicate Covers(right: Right, exact: Right) {
    forall x, r, v | exact(x, r, v) :: right(x, r, v)
  }

  predicate InBox(v: int, r: int, v0: int, v1: int, r0: int, r1: int) {
    v0 <= v < v1 && r0 <= r < r1
  }

  /** The cells that pass `done` are right, all others are as they were. */
  ghost predicate CellsDone(right: Right, was: Matrix, now: Matrix, done: (int, int) -> bool) {
    && |was| == |now| && (forall v | 0 <= v < |now| :: |now[v]| == |was[v]|)
    && forall v, r | 0 <= v < |now| && 0 <= r < |now[v]| :: CellDone(right, was, now, done, v, r)
  }

  ghost predicate CellDone(right: Right, was: Matrix, now: Matrix, done: (int, int) -> bool, v: nat, r: nat)
    requires v < |was| == |now| && r < |now[v]| == |was[v]|
  {
    if done(v, r) then right(now[v][r], r, v) else now[v][r] == was[v][r]
  }

  lemma CellStored(right: Right, was: Matrix, mid: Matrix, now: Matrix, done: (int, int) -> bool,
                   later: (int, int) -> bool, v: nat, r: nat, x: real)
    requires CellsDone(right, was, mid, done) && v < |mid| && r < |mid[v]| && right(x, r, v)
    requires now == mid[v := mid[v][r := x]]
    requires forall w, q :: later(w, q) == (done(w, q) || (w == v && q == r))
    ensures CellsDone(right, was, now, later)
  {
    forall w, q | 0 <= w < |now| && 0 <= q < |now[w]| ensures CellDone(right, was, now, later, w, q) {
      assert CellDone(right, was, mid, done, w, q);
    }
  }

  lemma SameCells(right: Right, was: Matrix, now: Matrix, done: (int, int) -> bool, later: (int, int) -> bool)
    requires CellsDone(right, was, now, done)
    requires forall v, r | 0 <= v < |now| && 0 <= r < |now[v]| :: later(v, r) == done(v, r)
    ensures CellsDone(right, was, now, later)
  {
    forall v, r | 0 <= v < |now| && 0 <= r < |now[v]| ensures CellDone(right, was, now, later, v, r) {
      assert CellDone(right, was, now, done, v, r);
      assert later(v, r) == done(v, r);
    }
  }

  /** The scale arrays a caller may hand over in place of the blocks' own. */
  datatype Scales = Scales(rows: Option<seq<seq<real>>>, vectors: Option<seq<seq<real>>>)

  ghost predicate ScalesFit(scales: Scales, rows: nat, count: nat, blocks: nat) {
    && (scales.rows.Some? ==> rows <= |scales.rows.value| && forall r | 0 <= r < rows ::
        |scales.rows.value[r]| == blocks)
    && (scales.vectors.Some? ==> count <= |scales.vectors.value| && forall v | 0 <= v < count ::
        |scales.vectors.value[v]| == blocks)
  }

  function RowScale(fp: Float, scales: Scales, r: nat, b: nat, w: Block): real
    requires scales.rows.Some? ==> r < |scales.rows.value| && b < |scales.rows.value[r]|
  {
    if scales.rows.Some? then scales.rows.value[r][b] else fp.half(w.d)
  }

  function VectorScale(fp: Float, scales: Scales, v: nat, b: nat, a: Activations): real
    requires scales.vectors.Some? ==> v < |scales.vectors.value| && b < |scales.vectors.value[v]|
  {
    if scales.vectors.Some? then scales.vectors.value[v][b] else fp.half(a.d)
  }

  /** Row r against vector v over the first n blocks, with the scales in force. */
  ghost function ScaledValue(fp: Float, scales: Scales, plain: seq<seq<Block>>, vecs: seq<seq<Activations>>,
                             blocks: nat, r: nat, v: nat, n: nat): real
    requires RowsAreBlocks(plain, blocks) && VectorsAreBlocks(vecs, blocks) && r < |plain| && v < |vecs| && n <= blocks
    requires ScalesFit(scales, |plain|, |vecs|, blocks)
  {
    if n == 0 then 0.0
    else
      var w, a := plain[r][n - 1], vecs[v][n - 1];
      fp.add(BlockDot(Codes(w), a.qs), RowScale(fp, scales, r, n - 1, w), VectorScale(fp, scales, v, n - 1, a),
             ScaledValue(fp, scales, plain, vecs, blocks, r, v, n - 1))
  }

  /** Without scale arrays it is the plain value. */
  lemma {:induction false} OwnScalesArePlain(fp: Float, plain: seq<seq<Block>>, vecs: seq<seq<Activations>>,
                                             blocks: nat, r: nat, v: nat, n: nat)
    requires RowsAreBlocks(plain, blocks) && VectorsAreBlocks(vecs, blocks) && r < |plain| && v < |vecs| && n <= blocks
    ensures ScaledValue(fp, Scales(None, None), plain, vecs, blocks, r, v, n) == Value(fp, plain[r], vecs[v], n)
    decreases n
  {
    if n > 0 {
      OwnScalesArePlain(fp, plain, vecs, blocks, r, v, n - 1);
    }
  }

  ghost predicate ScaledCellIs(fp: Float, scales: Scales, plain: seq<seq<Block>>, vecs: seq<seq<Activations>>,
                               blocks: nat, x: real, r: int, v: int) {
    && RowsAreBlocks(plain, blocks) && VectorsAreBlocks(vecs, blocks) && 0 <= r < |plain| && 0 <= v < |vecs|
    && ScalesFit(scales, |plain|, |vecs|, blocks) && x == ScaledValue(fp, scales, plain, vecs, blocks, r, v, blocks)
  }

  ghost function RightWith(fp: Float, scales: Scales, plain: seq<seq<Block>>, vecs: seq<seq<Activations>>,
                           blocks: nat): Right {
    (x: real, r: int, v: int) => ScaledCellIs(fp, scales, plain, vecs, blocks, x, r, v)
  }

  /** Without scale arrays the plain product is the one the packed product computes. */
  lemma OwnScalesAreRight(fp: Float, plain: seq<seq<Block>>, vecs: seq<seq<Activations>>, blocks: nat, x: real, r: int,
                          v: int)
    ensures RightWith(fp, Scales(None, None), plain, vecs, blocks)(x, r, v) <==>
              RightFor(fp, plain, vecs, blocks)(x, r, v)
  {
    if RowsAreBlocks(plain, blocks) && VectorsAreBlocks(vecs, blocks) && 0 <= r < |plain| && 0 <= v < |vecs| {
      OwnScalesArePlain(fp, plain, vecs, blocks, r, v, blocks);
    }
  }

  /** The plain loops: rows outside, vectors inside. */
  method PlainProduct(fp: Float, scales: Scales, plain: seq<seq<Block>>, vecs: seq<seq<Activations>>, blocks: nat,
                      output: array2<real>)
    requires RowsAreBlocks(plain, blocks) && VectorsAreBlocks(vecs, blocks) &&
               ScalesFit(scales, |plain|, |vecs|, blocks)
    requires |vecs| <= output.Length0 && |plain| <= output.Length1
    modifies output
    ensures CellsDone(RightWith(fp, scales, plain, vecs, blocks), old(Rows(output)), Rows(output),
                      Box(0, |vecs|, 0, |plain|))
  {
    ghost var right, was := RightWith(fp, scales, plain, vecs, blocks), Rows(output);
    for row := 0 to |plain|
      invariant CellsDone(right, was, Rows(output), Box(0, |vecs|, 0, row))
    {
      PlainColumn(fp, scales, plain, vecs, blocks, output, row, right, was);
    }
  }

  /** The inner loop of the plain product: one row against every vector. */
  method PlainColumn(fp: Float, scales: Scales, plain: seq<seq<Block>>, vecs: seq<seq<Activations>>, blocks: nat,
                     output: array2<real>, row: nat, ghost right: Right, ghost was: Matrix)
    requires RowsAreBlocks(plain, blocks) && VectorsAreBlocks(vecs, blocks) && row < |plain| &&
               ScalesFit(scales, |plain|, |vecs|, blocks)
    requires |vecs| <= output.Length0 && |plain| <= output.Length1 &&
               Covers(right, RightWith(fp, scales, plain, vecs, blocks))
    requires CellsDone(right, was, Rows(output), Box(0, |vecs|, 0, row))
    modifies output
    ensures CellsDone(right, was, Rows(output), Box(0, |vecs|, 0, row + 1))
  {
    ColumnStarts(right, was, Rows(output), |vecs|, row);
    for v := 0 to |vecs|
      invariant CellsDone(right, was, Rows(output), ColumnThen(0, |vecs|, 0, row, v))
    {
      var x := PlainCell(fp, scales, plain, vecs, blocks, row, v);
      StoreNext(right, output, x, row, v, |vecs|, was);
    }
    ColumnEnds(right, was, Rows(output), |vecs|, row);
  }

  lemma ColumnStarts(right: Right, was: Matrix, now: Matrix, count: nat, row: nat)
    requires CellsDone(right, was, now, Box(0, count, 0, row))
    ensures CellsDone(right, was, now, ColumnThen(0, count, 0, row, 0))
  {
    SameCells(right, was, now, Box(0, count, 0, row), ColumnThen(0, count, 0, row, 0));
  }

  lemma ColumnEnds(right: Right, was: Matrix, now: Matrix, count: nat, row: nat)
    requires CellsDone(right, was, now, ColumnThen(0, count, 0, row, count))
    ensures CellsDone(right, was, now, Box(0, count, 0, row + 1))
  {
    SameCells(right, was, now, ColumnThen(0, count, 0, row, count), Box(0, count, 0, row + 1));
  }

  method PlainCell(fp: Float, scales: Scales, plain: seq<seq<Block>>, vecs: seq<seq<Activations>>, blocks: nat,
                   row: nat, v: nat)
    returns (x: real)
    requires RowsAreBlocks(plain, blocks) && VectorsAreBlocks(vecs, blocks) && row < |plain| && v < |vecs|
    requires ScalesFit(scales, |plain|, |vecs|, blocks)
    ensures RightWith(fp, scales, plain, vecs, blocks)(x, row, v)
  {
    x := RowSum(fp, scales, plain, vecs, blocks, row, v);
    SumIsRightWith(fp, scales, plain, vecs, blocks, x, row, v);
  }

  /** The block loop of one cell. */
  method RowSum(fp: Float, scales: Scales, plain: seq<seq<Block>>, vecs: seq<seq<Activations>>, blocks: nat, row: nat,
                v: nat)
    returns (x: real)
    requires RowsAreBlocks(plain, blocks) && VectorsAreBlocks(vecs, blocks) && row < |plain| && v < |vecs|
    requires ScalesFit(scales, |plain|, |vecs|, blocks)
    ensures x == ScaledValue(fp, scales, plain, vecs, blocks, row, v, blocks)
  {
    x := 0.0;
    for b := 0 to blocks
      invariant x == ScaledValue(fp, scales, plain, vecs, blocks, row, v, b)
    {
      x := AddPlainBlock(fp, scales, plain, vecs, blocks, row, v, b, x);
    }
  }

  method AddPlainBlock(fp: Float, scales: Scales, plain: seq<seq<Block>>, vecs: seq<seq<Activations>>, blocks: nat,
                       row: nat, v: nat, b: nat, acc: real)
    returns (x: real)
    requires RowsAreBlocks(plain, blocks) && VectorsAreBlocks(vecs, blocks) && row < |plain| && v < |vecs| && b < blocks
    requires ScalesFit(scales, |plain|, |vecs|, blocks) &&
               acc == ScaledValue(fp, scales, plain, vecs, blocks, row, v, b)
    ensures x == ScaledValue(fp, scales, plain, vecs, blocks, row, v, b + 1)
  {
    var w, a := plain[row][b], vecs[v][b];
    var dot := PairDot(w, a);
    x := fp.add(dot, RowScale(fp, scales, row, b, w), VectorScale(fp, scales, v, b, a), acc);
  }

  lemma SumIsRightWith(fp: Float, scales: Scales, plain: seq<seq<Block>>, vecs: seq<seq<Activations>>, blocks: nat,
                       x: real, r: nat, v: nat)
    requires RowsAreBlocks(plain, blocks) && VectorsAreBlocks(vecs, blocks) && r < |plain| && v < |vecs|
    requires ScalesFit(scales, |plain|, |vecs|, blocks) &&
               x == ScaledValue(fp, scales, plain, vecs, blocks, r, v, blocks)
    ensures RightWith(fp, scales, plain, vecs, blocks)(x, r, v)
  {}

  method StoreNext(ghost right: Right, output: array2<real>, x: real, row: nat, v: nat, ghost count: nat,
                   ghost was: Matrix)
    requires v < count <= output.Length0 && row < output.Length1 && right(x, row, v)
    requires CellsDone(right, was, Rows(output), ColumnThen(0, count, 0, row, v))
    modifies output
    ensures CellsDone(right, was, Rows(output), ColumnThen(0, count, 0, row, v + 1))
  {
    ghost var mid := Rows(output);
    StoreInRow(output, v, row, x);
    CellStored(right, was, mid, Rows(output), ColumnThen(0, count, 0, row, v), ColumnThen(0, count, 0, row, v + 1), v,
               row, x);
  }

  ghost function Box(v0: int, v1: int, r0: int, r1: int): (int, int) -> bool {
    (v: int, r: int) => InBox(v, r, v0, v1, r0, r1)
  }

  /** Whole rows before `row`, and of that row the vectors before `next`. */
  ghost function ColumnThen(v0: int, v1: int, r0: int, row: int, next: int): (int, int) -> bool {
    (v: int, r: int) => InBox(v, r, v0, v1, r0, row) || (r == row && v0 <= v < next)
  }

  /** Every whole tile of eight rows is packed. */
  ghost predicate MatrixHolds(matrix: array2<BlockX8>, plain: seq<seq<Block>>, blocks: nat)
    reads matrix
  {
    && RowsAreBlocks(plain, blocks) && |plain| / 8 <= matrix.Length0
    && forall i | 0 <= i < |plain| / 8 :: TileHolds(BufferRow(matrix, i), plain[8 * i..8 * i + 8], blocks)
  }

  /** Every whole group of four vectors is packed. */
  ghost predicate VectorsHold(fp: Float, groups: array2<Prepared>, vecs: seq<seq<Activations>>, blocks: nat)
    reads groups
  {
    && VectorsAreBlocks(vecs, blocks) && |vecs| / 4 <= groups.Length0
    && forall j | 0 <= j < |vecs| / 4 :: GroupHolds(fp, BufferRow(groups, j), vecs[4 * j..4 * j + 4], blocks)
  }

  /**
   Vector groups before `group` over all packed rows, then row tiles before `tile`, then of that
   tile the tokens before `t` and rows before `r`.
   */
  ghost function TilesThen(rows: int, group: int, tile: int, t: int, r: int): (int, int) -> bool {
    (v: int, q: int) =>
      InBox(v, q, 0, 4 * group, 0, rows) || InBox(v, q, 4 * group, 4 * group + 4, 0, 8 * tile)
      || InBox(v, q, 4 * group, 4 * group + t, 8 * tile, 8 * tile + 8) ||
          (v == 4 * group + t && 8 * tile <= q < 8 * tile + r)
  }

  /** One tile of accumulators stored. */
  method StoreTile(ghost right: Right, output: array2<real>, group: nat, tile: nat, ghost rows: nat,
                   accs: seq<seq<real>>, ghost was: Matrix)
    requires |accs| == 4 && (forall t | 0 <= t < 4 :: |accs[t]| == 8) && 8 * tile + 8 <= rows
    requires forall t, r | 0 <= t < 4 && 0 <= r < 8 :: right(accs[t][r], 8 * tile + r, 4 * group + t)
    requires 4 * group + 4 <= output.Length0 && rows <= output.Length1
    requires CellsDone(right, was, Rows(output), TilesThen(rows, group, tile, 0, 0))
    modifies output
    ensures CellsDone(right, was, Rows(output), TilesThen(rows, group, tile + 1, 0, 0))
  {
    for t := 0 to 4
      invariant CellsDone(right, was, Rows(output), TilesThen(rows, group, tile, t, 0))
    {
      for r := 0 to 8
        invariant CellsDone(right, was, Rows(output), TilesThen(rows, group, tile, t, r))
      {
        ghost var mid := Rows(output);
        StoreInRow(output, 4 * group + t, tile * 8 + r, accs[t][r]);
        CellStored(right, was, mid, Rows(output), TilesThen(rows, group, tile, t, r),
                   TilesThen(rows, group, tile, t, r + 1),
                   4 * group + t, 8 * tile + r, accs[t][r]);
      }
      SameCells(right, was, Rows(output), TilesThen(rows, group, tile, t, 8), TilesThen(rows, group, tile, t + 1, 0));
    }
    SameCells(right, was, Rows(output), TilesThen(rows, group, tile, 4, 0), TilesThen(rows, group, tile + 1, 0, 0));
  }

  lemma SumsAreRight(fp: Float, plain: seq<seq<Block>>, vecs: seq<seq<Activations>>, blocks: nat, accs: seq<seq<real>>,
                     tile: nat, group: nat, rows: seq<seq<Block>>, tokens: seq<seq<Activations>>, right: Right)
    requires RowsAreBlocks(plain, blocks) && VectorsAreBlocks(vecs, blocks) && 8 * tile + 8 <= |plain| &&
               4 * group + 4 <= |vecs|
    requires Accumulated(fp, rows, tokens, blocks, accs, blocks, 0, 0) && right == RightFor(fp, plain, vecs, blocks)
    requires rows == plain[8 * tile..8 * tile + 8] && tokens == vecs[4 * group..4 * group + 4]
    ensures forall t, r | 0 <= t < 4 && 0 <= r < 8 :: right(accs[t][r], 8 * tile + r, 4 * group + t)
  {
    forall t, r | 0 <= t < 4 && 0 <= r < 8
      ensures right(accs[t][r], 8 * tile + r, 4 * group + t)
    {
      AccIsRight(fp, plain, vecs, blocks, accs, rows, tokens, t, r, 8 * tile + r, 4 * group + t);
    }
  }

  lemma AccIsRight(fp: Float, plain: seq<seq<Block>>, vecs: seq<seq<Activations>>, blocks: nat, accs: seq<seq<real>>,
                   rows: seq<seq<Block>>, tokens: seq<seq<Activations>>, t: nat, r: nat, q: nat, v: nat)
    requires RowsAreBlocks(plain, blocks) && VectorsAreBlocks(vecs, blocks) && q < |plain| && v < |vecs| && t < 4 &&
               r < 8
    requires Accumulated(fp, rows, tokens, blocks, accs, blocks, 0, 0) && rows[r] == plain[q] && tokens[t] == vecs[v]
    ensures RightFor(fp, plain, vecs, blocks)(accs[t][r], q, v)
  {
    assert accs[t][r] == Value(fp, rows[r], tokens[t], blocks);
  }

  lemma SumIsRight(fp: Float, plain: seq<seq<Block>>, vecs: seq<seq<Activations>>, blocks: nat, x: real,
                   row: seq<Block>, vec: seq<Activations>, r: nat, v: nat)
    requires RowsAreBlocks(plain, blocks) && VectorsAreBlocks(vecs, blocks) && r < |plain| && v < |vecs|
    requires row == plain[r] && vec == vecs[v] && |row| == |vec| == blocks && AreBlocks(row) && AreActivations(vec)
    requires x == Value(fp, row, vec, blocks)
    ensures RightFor(fp, plain, vecs, blocks)(x, r, v)
  {}

  /** The packed loops give the plain product on all whole tiles, and touch nothing else. */
  method PackedProduct(fp: Float, matrix: array2<BlockX8>, groups: array2<Prepared>, blocks: nat, output: array2<real>,
                       rows: nat, count: nat, ghost plain: seq<seq<Block>>, ghost vecs: seq<seq<Activations>>)
    requires MatrixHolds(matrix, plain, blocks) && VectorsHold(fp, groups, vecs, blocks) && |plain| == rows &&
               |vecs| == count
    requires count <= output.Length0 && rows <= output.Length1
    modifies output
    ensures CellsDone(RightFor(fp, plain, vecs, blocks), old(Rows(output)), Rows(output),
                      Box(0, count / 4 * 4, 0, rows / 8 * 8))
  {
    var tiles := rows / 8;
    ghost var right, was, packed := RightFor(fp, plain, vecs, blocks), Rows(output), 8 * tiles;
    GroupsStart(right, was, packed);
    for group := 0 to count / 4
      invariant CellsDone(right, was, Rows(output), TilesThen(packed, group, 0, 0, 0))
    {
      for tile := 0 to tiles
        invariant CellsDone(right, was, Rows(output), TilesThen(packed, group, tile, 0, 0))
      {
        PackedTile(fp, matrix, tile, groups, group, blocks, output, packed, plain, vecs, right, was);
      }
      GroupEnds(right, was, Rows(output), packed, tiles, group);
    }
    GroupsEnd(right, was, Rows(output), packed, count / 4);
  }

  /** One tile of eight rows against one group of four vectors. */
  method PackedTile(fp: Float, matrix: array2<BlockX8>, tile: nat, groups: array2<Prepared>, group: nat, blocks: nat,
                    output: array2<real>, ghost packed: nat, ghost plain: seq<seq<Block>>,
                    ghost vecs: seq<seq<Activations>>, ghost right: Right, ghost was: Matrix)
    requires MatrixHolds(matrix, plain, blocks) && VectorsHold(fp, groups, vecs, blocks)
    requires 8 * tile + 8 <= packed <= |plain| <= output.Length1 && 4 * group + 4 <= |vecs| <= output.Length0
    requires right == RightFor(fp, plain, vecs, blocks)
    requires CellsDone(right, was, Rows(output), TilesThen(packed, group, tile, 0, 0))
    modifies output
    ensures CellsDone(right, was, Rows(output), TilesThen(packed, group, tile + 1, 0, 0))
  {
    ghost var rows, tokens := plain[8 * tile..8 * tile + 8], vecs[4 * group..4 * group + 4];
    var accs := TileSums(fp, matrix, tile, groups, group, blocks, rows, tokens);
    SumsAreRight(fp, plain, vecs, blocks, accs, tile, group, rows, tokens, right);
    StoreTile(right, output, group, tile, packed, accs, was);
  }

  lemma GroupsStart(right: Right, was: Matrix, rows: nat)
    ensures CellsDone(right, was, was, TilesThen(rows, 0, 0, 0, 0))
  {
    var done := TilesThen(rows, 0, 0, 0, 0);
    forall v, r | 0 <= v < |was| && 0 <= r < |was[v]| ensures CellDone(right, was, was, done, v, r) {
      assert !done(v, r);
    }
  }

  lemma GroupEnds(right: Right, was: Matrix, now: Matrix, rows: nat, tiles: nat, group: nat)
    requires rows == 8 * tiles && CellsDone(right, was, now, TilesThen(rows, group, tiles, 0, 0))
    ensures CellsDone(right, was, now, TilesThen(rows, group + 1, 0, 0, 0))
  {
    var done, later := TilesThen(rows, group, tiles, 0, 0), TilesThen(rows, group + 1, 0, 0, 0);
    forall v, r | 0 <= v < |now| && 0 <= r < |now[v]| ensures later(v, r) == done(v, r) {}
    SameCells(right, was, now, done, later);
  }

  lemma GroupsEnd(right: Right, was: Matrix, now: Matrix, rows: nat, groups: nat)
    requires CellsDone(right, was, now, TilesThen(rows, groups, 0, 0, 0))
    ensures CellsDone(right, was, now, Box(0, 4 * groups, 0, rows))
  {
    var done, later := TilesThen(rows, groups, 0, 0, 0), Box(0, 4 * groups, 0, rows);
    forall v, r | 0 <= v < |now| && 0 <= r < |now[v]| ensures later(v, r) == done(v, r) {}
    SameCells(right, was, now, done, later);
  }

  // ----- whole packing -----

  /** The tile and block loops of the packing: every whole tile is packed, the rest of the buffer is as it was. */
  method PackRows(plain: seq<seq<Block>>, packed: array2<BlockX8>, blocks: nat)
    requires RowsAreBlocks(plain, blocks) && |plain| / 8 <= packed.Length0 && packed.Length1 == blocks
    requires forall i, b | 0 <= i < packed.Length0 && 0 <= b < packed.Length1 :: IsBlockX8(packed[i, b])
    modifies packed
    ensures MatrixHolds(packed, plain, blocks)
    ensures forall i, b | |plain| / 8 <= i < packed.Length0 && 0 <= b < blocks :: packed[i, b] == old(packed[i, b])
  {
    for tile := 0 to |plain| / 8
      invariant forall i, b | 0 <= i < tile && 0 <= b < blocks :: TilePacked(plain, packed[i, b], i, b)
      invariant forall i, b | tile <= i < packed.Length0 && 0 <= b < blocks :: packed[i, b] == old(packed[i, b])
    {
      for block := 0 to blocks
        invariant forall i, b | 0 <= i < tile && 0 <= b < blocks :: TilePacked(plain, packed[i, b], i, b)
        invariant forall b | 0 <= b < block :: TilePacked(plain, packed[tile, b], tile, b)
        invariant forall i, b | tile <= i < packed.Length0 && 0 <= b < blocks && !(i == tile && b < block) ::
          packed[i, b] == old(packed[i, b])
      {
        var rows := plain[8 * tile..8 * tile + 8];
        TileOfRows(plain, blocks, tile, block);
        packed[tile, block] := PackTile(RowsAt(rows, block), packed[tile, block]);
      }
    }
    forall i | 0 <= i < |plain| / 8 ensures TileHolds(BufferRow(packed, i), plain[8 * i..8 * i + 8], blocks) {
      forall b | 0 <= b < blocks
        ensures IsTile(RowsAt(plain[8 * i..8 * i + 8], b)) &&
                  IsPacked(BufferRow(packed, i)[b], RowsAt(plain[8 * i..8 * i + 8], b))
      {
        assert TilePacked(plain, packed[i, b], i, b);
      }
    }
  }

  /** The eight rows of a tile. */
  function TileRows(plain: seq<seq<Block>>, tile: nat): (rows: seq<seq<Block>>)
    requires 8 * tile + 8 <= |plain|
    ensures |rows| == 8
  {
    plain[8 * tile..8 * tile + 8]
  }

  ghost predicate TilePacked(plain: seq<seq<Block>>, x: BlockX8, tile: nat, b: nat) {
    && 8 * tile + 8 <= |plain| && (forall r | 8 * tile <= r < 8 * tile + 8 :: b < |plain[r]|)
    && (forall r | 0 <= r < 8 :: b < |TileRows(plain, tile)[r]|)
    && IsTile(RowsAt(TileRows(plain, tile), b)) && IsPacked(x, RowsAt(TileRows(plain, tile), b))
  }

  lemma TileOfRows(plain: seq<seq<Block>>, blocks: nat, tile: nat, b: nat)
    requires RowsAreBlocks(plain, blocks) && 8 * tile + 8 <= |plain| && b < blocks
    ensures (forall r | 0 <= r < 8 :: b < |TileRows(plain, tile)[r]|) && IsTile(RowsAt(TileRows(plain, tile), b))
  {
    var rows := TileRows(plain, tile);
    forall r | 0 <= r < 8 ensures b < |rows[r]| && IsBlock(rows[r][b]) {
      assert rows[r] == plain[8 * tile + r];
    }
  }

  /** The group and block loops of the activation packing. */
  method PackVectors(fp: Float, vecs: seq<seq<Activations>>, packed: array2<Prepared>, blocks: nat)
    requires VectorsAreBlocks(vecs, blocks) && |vecs| / 4 <= packed.Length0 && packed.Length1 == blocks
    requires forall j, b | 0 <= j < packed.Length0 && 0 <= b < packed.Length1 :: IsPrepared(packed[j, b], 4)
    modifies packed
    ensures VectorsHold(fp, packed, vecs, blocks)
    ensures forall j, b | |vecs| / 4 <= j < packed.Length0 && 0 <= b < blocks :: packed[j, b] == old(packed[j, b])
  {
    for group := 0 to |vecs| / 4
      invariant forall j, b | 0 <= j < group && 0 <= b < blocks :: GroupPacked(fp, vecs, packed[j, b], j, b)
      invariant forall j, b | group <= j < packed.Length0 && 0 <= b < blocks :: packed[j, b] == old(packed[j, b])
    {
      for block := 0 to blocks
        invariant forall j, b | 0 <= j < group && 0 <= b < blocks :: GroupPacked(fp, vecs, packed[j, b], j, b)
        invariant forall b | 0 <= b < block :: GroupPacked(fp, vecs, packed[group, b], group, b)
        invariant forall j, b | group <= j < packed.Length0 && 0 <= b < blocks && !(j == group && b < block) ::
          packed[j, b] == old(packed[j, b])
      {
        var four := vecs[4 * group..4 * group + 4];
        GroupOfVectors(vecs, blocks, group, block);
        packed[group, block] := PackGroup(fp, VectorsAt(four, block), packed[group, block]);
      }
    }
    forall j | 0 <= j < |vecs| / 4 ensures GroupHolds(fp, BufferRow(packed, j), vecs[4 * j..4 * j + 4], blocks) {
      forall b | 0 <= b < blocks ensures IsPackedX4(fp, BufferRow(packed, j)[b], VectorsAt(vecs[4 * j..4 * j + 4], b)) {
        assert GroupPacked(fp, vecs, packed[j, b], j, b);
      }
    }
  }

  /** The four vectors of a group. */
  function GroupVectors(vecs: seq<seq<Activations>>, group: nat): (four: seq<seq<Activations>>)
    requires 4 * group + 4 <= |vecs|
    ensures |four| == 4
  {
    vecs[4 * group..4 * group + 4]
  }

  ghost predicate GroupPacked(fp: Float, vecs: seq<seq<Activations>>, a: Prepared, group: nat, b: nat) {
    && 4 * group + 4 <= |vecs| && (forall t | 0 <= t < 4 :: b < |GroupVectors(vecs, group)[t]|)
    && IsPackedX4(fp, a, VectorsAt(GroupVectors(vecs, group), b))
  }

  lemma GroupOfVectors(vecs: seq<seq<Activations>>, blocks: nat, group: nat, b: nat)
    requires VectorsAreBlocks(vecs, blocks) && 4 * group + 4 <= |vecs| && b < blocks
    ensures forall t | 0 <= t < 4 :: b < |GroupVectors(vecs, group)[t]| &&
              IsActivations(GroupVectors(vecs, group)[t][b])
  {
    var four := GroupVectors(vecs, group);
    forall t | 0 <= t < 4 ensures b < |four[t]| && IsActivations(four[t][b]) {
      assert four[t] == vecs[4 * group + t];
    }
  }
}
