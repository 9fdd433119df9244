/**
 The DOT4 layout of src/cpu/q4_dot4.cpp: eight rows interleaved so that four
 neighbouring codes of one row share a 32-bit lane.
 */
module Dot4Layouts {
  import opened Bytes
  import opened Quantized

  /** Byte j of the lane of `row` in part t. */
  function Lane(t: nat, row: nat, j: nat): (i: nat)
    requires t < 4 && row < 8 && j < 4
    ensures i < 128
  {
    32 * t + 4 * row + j
  }

  /** Column j of half h (0 or 1) of part t. */
  function Column(t: nat, h: nat, j: nat): (k: nat)
    requires t < 4 && h < 2 && j < 4
    ensures k < 32
  {
    8 * t + 4 * h + j
  }

  lemma LaneParts(i: nat)
    requires i < 128
    ensures i / 32 < 4 && i % 32 / 4 < 8 && i % 4 < 4 && i == Lane(i / 32, i % 32 / 4, i % 4)
  {}

  lemma ColumnParts(k: nat)
    requires k < 32
    ensures k / 8 < 4 && k % 8 / 4 < 2 && k % 4 < 4 && k == Column(k / 8, k % 8 / 4, k % 4)
  {}

  lemma ColumnPartsOf(t: nat, h: nat, j: nat)
    requires t < 4 && h < 2 && j < 4
    ensures Column(t, h, j) / 8 == t && Column(t, h, j) % 8 / 4 == h && Column(t, h, j) % 4 == j
  {}

  /** The code of column k of a row. */
  function PackedCode(x: BlockX8, row: nat, k: nat): (r: byte)
    requires IsBlockX8(x) && row < 8 && k < 32
    ensures r < 16
  {
    ColumnParts(k);
    var packed := x.qs[Lane(k / 8, row, k % 4)];
    if k % 8 / 4 == 0 then Low(packed) else High(packed)
  }

  function PackedCodes(x: BlockX8, row: nat): (r: seq<byte>)
    requires IsBlockX8(x) && row < 8
    ensures |r| == 32 && forall k | 0 <= k < 32 :: r[k] == PackedCode(x, row, k) < 16
  {
    seq(32, k requires 0 <= k < 32 => PackedCode(x, row, k))
  }

  lemma PackedCodeAt(x: BlockX8, row: nat, t: nat, h: nat, j: nat)
    requires IsBlockX8(x) && row < 8 && t < 4 && h < 2 && j < 4
    ensures PackedCodes(x, row)[Column(t, h, j)] == if h == 0 then Low(x.qs[Lane(t, row, j)])
              else High(x.qs[Lane(t, row, j)])
  {
    ColumnPartsOf(t, h, j);
  }

  ghost predicate IsTile(tile: seq<Block>) {
    |tile| == 8 && forall r | 0 <= r < 8 :: IsBlock(tile[r])
  }

  /** The byte that holds columns 8t + j and 8t + 4 + j of a block. */
  function LaneByte(b: Block, t: nat, j: nat): byte
    requires IsBlock(b) && t < 4 && j < 4
  {
    Pair(Codes(b)[Column(t, 0, j)], Codes(b)[Column(t, 1, j)])
  }

  /** x is the eight rows of one block column, packed. */
  ghost predicate IsPacked(x: BlockX8, tile: seq<Block>)
    requires IsTile(tile)
  {
    && IsBlockX8(x)
    && (forall r | 0 <= r < 8 :: x.d[r] == tile[r].d)
    && forall t, r, j | 0 <= t < 4 && 0 <= r < 8 && 0 <= j < 4 :: x.qs[Lane(t, r, j)] == LaneByte(tile[r], t, j)
  }

  /** b is row `row` of a packed tile as a plain block. */
  ghost predicate IsUnpacked(b: Block, x: BlockX8, row: nat)
    requires IsBlockX8(x) && row < 8
  {
    && IsBlock(b) && b.d == x.d[row]
    && forall i | 0 <= i < 16 :: b.qs[i] == Pair(PackedCodes(x, row)[i], PackedCodes(x, row)[i + 16])
  }

  /** Packing keeps every row's codes. */
  lemma PackedKeepsCodes(x: BlockX8, tile: seq<Block>, row: nat)
    requires IsTile(tile) && IsPacked(x, tile) && row < 8
    ensures PackedCodes(x, row) == Codes(tile[row])
  {
    forall k | 0 <= k < 32 ensures PackedCodes(x, row)[k] == Codes(tile[row])[k] {
      ColumnParts(k);
      var t, h, j := k / 8, k % 8 / 4, k % 4;
      PackedCodeAt(x, row, t, h, j);
      assert x.qs[Lane(t, row, j)] == LaneByte(tile[row], t, j);
    }
  }

  /** Byte 32t + 4r + j of a packed tile: columns 8t + j and 8t + 4 + j of row r, a column being a nibble of Q4_0. */
  lemma PackedBytes(x: BlockX8, tile: seq<Block>, i: nat)
    requires IsTile(tile) && IsPacked(x, tile) && i < 128
    ensures var t, r, j := i / 32, i % 32 / 4, i % 4;
            var low, high := 8 * t + j, 8 * t + 4 + j;
            var qs := tile[r].qs;
            x.qs[i] == (if low < 16 then qs[low] % 16 else qs[low - 16] / 16) +
                       16 * (if high < 16 then qs[high] % 16 else qs[high - 16] / 16)
  {
    LaneParts(i);
    PackedByteAt(x, tile, i / 32, i % 32 / 4, i % 4);
  }

  lemma PackedByteAt(x: BlockX8, tile: seq<Block>, t: nat, r: nat, j: nat)
    requires IsTile(tile) && IsPacked(x, tile) && t < 4 && r < 8 && j < 4
    ensures var low, high := 8 * t + j, 8 * t + 4 + j;
            var qs := tile[r].qs;
            x.qs[Lane(t, r, j)] == (if low < 16 then qs[low] % 16 else qs[low - 16] / 16) +
                                   16 * (if high < 16 then qs[high] % 16 else qs[high - 16] / 16)
  {
    assert x.qs[Lane(t, r, j)] == LaneByte(tile[r], t, j);
  }

  /** And unpacking keeps them. */
  lemma UnpackedKeepsCodes(b: Block, x: BlockX8, row: nat)
    requires IsBlockX8(x) && row < 8 && IsUnpacked(b, x, row)
    ensures Codes(b) == PackedCodes(x, row)
  {
    var codes := PackedCodes(x, row);
    forall k | 0 <= k < 32 ensures Codes(b)[k] == codes[k] {
      if k < 16 {
        assert b.qs[k] == Pair(codes[k], codes[k + 16]);
      } else {
        assert b.qs[k - 16] == Pair(codes[k - 16], codes[k - 16 + 16]);
      }
    }
  }

  /** Unpacking what was packed gives every row back. */
  lemma UnpackAfterPack(tile: seq<Block>, x: BlockX8, row: nat, b: Block)
    requires IsTile(tile) && IsPacked(x, tile) && row < 8 && IsUnpacked(b, x, row)
    ensures b == tile[row]
  {
    PackedKeepsCodes(x, tile, row);
    UnpackedKeepsCodes(b, x, row);
    CodesDetermine(b, tile[row]);
  }

  /** Packing what was unpacked gives the tile back. */
  lemma PackAfterUnpack(x: BlockX8, tile: seq<Block>, again: BlockX8)
    requires IsBlockX8(x) && IsTile(tile) && (forall r | 0 <= r < 8 :: IsUnpacked(tile[r], x, r)) &&
               IsPacked(again, tile)
    ensures again == x
  {
    assert forall r | 0 <= r < 8 :: again.d[r] == tile[r].d == x.d[r];
    forall i | 0 <= i < 128 ensures again.qs[i] == x.qs[i] {
      LaneParts(i);
      var t, row, j := i / 32, i % 32 / 4, i % 4;
      UnpackedKeepsCodes(tile[row], x, row);
      assert again.qs[Lane(t, row, j)] == LaneByte(tile[row], t, j);
      PackedCodeAt(x, row, t, 0, j);
      PackedCodeAt(x, row, t, 1, j);
      PairOfNibbles(x.qs[i]);
    }
  }

  // ----- the packing loops -----

  /** The tile of eight rows that starts at row 8 * rowTile. */
  ghost function TileOf(source: array2<Block>, rowTile: nat, b: nat): (tile: seq<Block>)
    requires 8 * rowTile + 8 <= source.Length0 && b < source.Length1
    reads source
    ensures |tile| == 8 && forall r | 0 <= r < 8 :: tile[r] == source[8 * rowTile + r, b]
  {
    seq(8, r requires 0 <= r < 8 reads source => source[8 * rowTile + r, b])
  }

  lemma LanesDiffer(t: nat, r: nat, j: nat, u: nat, q: nat, l: nat)
    requires t < 4 && r < 8 && j < 4 && u < 4 && q < 8 && l < 4 && Lane(t, r, j) == Lane(u, q, l)
    ensures t == u && r == q && j == l
  {}

  /** The lanes of one row, up to byte `j` of part `t`, hold its codes; every other byte is as it was. */
  ghost predicate RowPacked(src: Block, row: nat, was: seq<byte>, now: seq<byte>, t: nat, j: nat)
    requires IsBlock(src) && row < 8
  {
    && |was| == |now| == 128
    && forall u, q, l | 0 <= u < 4 && 0 <= q < 8 && 0 <= l < 4 ::
         now[Lane(u, q, l)] == if q == row && (u < t || (u == t && l < j)) then LaneByte(src, u, l)
             else was[Lane(u, q, l)]
  }

  lemma OneBytePacked(src: Block, row: nat, was: seq<byte>, mid: seq<byte>, t: nat, j: nat)
    requires IsBlock(src) && row < 8 && t < 4 && j < 4 && RowPacked(src, row, was, mid, t, j)
    ensures RowPacked(src, row, was, mid[Lane(t, row, j) := LaneByte(src, t, j)], t, j + 1)
  {
    var now := mid[Lane(t, row, j) := LaneByte(src, t, j)];
    forall u, q, l | 0 <= u < 4 && 0 <= q < 8 && 0 <= l < 4
      ensures now[Lane(u, q, l)] == if q == row && (u < t || (u == t && l < j + 1)) then LaneByte(src, u, l)
                else was[Lane(u, q, l)]
    {
      if Lane(u, q, l) == Lane(t, row, j) {
        LanesDiffer(u, q, l, t, row, j);
      }
    }
  }

  /** One row of a tile spread over its lanes. */
  method PackRow(src: Block, row: nat, qs: seq<byte>) returns (now: seq<byte>)
    requires IsBlock(src) && row < 8 && |qs| == 128
    ensures RowPacked(src, row, qs, now, 4, 0)
  {
    now := qs;
    var codes := Codes(src);
    for t := 0 to 4
      invariant RowPacked(src, row, qs, now, t, 0)
    {
      for j := 0 to 4
        invariant RowPacked(src, row, qs, now, t, j)
      {
        OneBytePacked(src, row, qs, now, t, j);
        now := now[32 * t + 4 * row + j := Pair(codes[8 * t + j], codes[8 * t + 4 + j])];
      }
    }
  }

  method PackRows(source: array2<Block>, output: array2<BlockX8>, rows: nat)
    requires rows <= source.Length0 && rows / 8 <= output.Length0 && source.Length1 == output.Length1
    requires forall r, b | 0 <= r < source.Length0 && 0 <= b < source.Length1 :: IsBlock(source[r, b])
    requires forall t, b | 0 <= t < output.Length0 && 0 <= b < output.Length1 :: IsBlockX8(output[t, b])
    modifies output
    ensures forall t, b | 0 <= t < rows / 8 && 0 <= b < source.Length1 :: IsPacked(output[t, b], TileOf(source, t, b))
    ensures forall t, b | rows / 8 <= t < output.Length0 && 0 <= b < output.Length1 :: output[t, b] == old(output[t, b])
  {
    for rowTile := 0 to rows / 8
      invariant forall t, b | 0 <= t < rowTile && 0 <= b < source.Length1 ::
                  IsPacked(output[t, b], TileOf(source, t, b))
      invariant forall t, b | rowTile <= t < output.Length0 && 0 <= b < output.Length1 ::
                  output[t, b] == old(output[t, b])
    {
      for b := 0 to source.Length1
        invariant forall t, c | 0 <= t < rowTile && 0 <= c < source.Length1 ::
                    IsPacked(output[t, c], TileOf(source, t, c))
        invariant forall c | 0 <= c < b :: IsPacked(output[rowTile, c], TileOf(source, rowTile, c))
        invariant forall t, c | rowTile <= t < output.Length0 && 0 <= c < output.Length1 && !(t == rowTile && c < b) ::
          output[t, c] == old(output[t, c])
      {
        output[rowTile, b] := PackTile(source, rowTile, b, output[rowTile, b]);
      }
    }
  }

  /** The row loop of one tile: every byte of the destination is overwritten. */
  method PackTile(source: array2<Block>, rowTile: nat, b: nat, was: BlockX8) returns (dst: BlockX8)
    requires 8 * rowTile + 8 <= source.Length0 && b < source.Length1 && IsBlockX8(was) &&
               IsTile(TileOf(source, rowTile, b))
    ensures IsPacked(dst, TileOf(source, rowTile, b))
  {
    ghost var tile := TileOf(source, rowTile, b);
    dst := was;
    for r := 0 to 8
      invariant TilePacked(dst, tile, r)
    {
      var src := source[rowTile * 8 + r, b];
      assert src == tile[r];
      var qs := PackRow(src, r, dst.qs);
      dst := dst.(d := dst.d[r := src.d], qs := qs);
    }
  }

  /** The first `rows` rows are packed. */
  ghost predicate TilePacked(x: BlockX8, tile: seq<Block>, rows: nat)
    requires IsTile(tile) && rows <= 8
  {
    && IsBlockX8(x)
    && (forall r | 0 <= r < rows :: x.d[r] == tile[r].d)
    && forall t, r, j | 0 <= t < 4 && 0 <= r < rows && 0 <= j < 4 :: x.qs[Lane(t, r, j)] == LaneByte(tile[r], t, j)
  }

  /** The column loop of one row: each code is or-ed into its half of a zeroed byte. */
  method UnpackBlock(src: BlockX8, row: nat) returns (dst: Block)
    requires IsBlockX8(src) && row < 8
    ensures IsUnpacked(dst, src, row)
  {
    var qs: seq<byte> := seq(16, i => 0);
    ghost var codes := PackedCodes(src, row);
    for k := 0 to 32
      invariant UnpackedTo(codes, qs, k)
    {
      var u := PackedCode(src, row, k);
      assert u == codes[k];
      OrCode(codes, qs, k);
      qs := qs[k % 16 := Ored(qs[k % 16], u, k)];
    }
    dst := Block(src.d[row], qs);
    forall i | 0 <= i < 16 ensures dst.qs[i] == Pair(codes[i], codes[i + 16]) {
      assert qs[i] == Part(codes, i, 32) + 16 * Part(codes, i + 16, 32);
    }
  }

  /** The byte is still zero in the half where code k goes. */
  lemma OrCode(codes: seq<byte>, qs: seq<byte>, k: nat)
    requires k < 32 && UnpackedTo(codes, qs, k) && codes[k] < 16 && codes[k % 16] < 16
    ensures Ored(qs[k % 16], codes[k], k) < 256
    ensures UnpackedTo(codes, qs[k % 16 := Ored(qs[k % 16], codes[k], k)], k + 1)
  {
    var at := if k < 16 then k else k - 16;
    assert k % 16 == at;
    assert qs[at] == Part(codes, at, k) + 16 * Part(codes, at + 16, k);
    var x := Ored(qs[at], codes[k], k);
    assert x == Part(codes, at, k + 1) + 16 * Part(codes, at + 16, k + 1) < 256;
    var now: seq<byte> := qs[at := x];
    forall i | 0 <= i < 16 ensures now[i] == Part(codes, i, k + 1) + 16 * Part(codes, i + 16, k + 1) {
      assert qs[i] == Part(codes, i, k) + 16 * Part(codes, i + 16, k);
      assert i != at ==> i != k && i + 16 != k;
    }
  }

  /** Or-ing code k into its half of a byte that is zero there. */
  function Ored(q: byte, u: byte, k: nat): (x: int)
    ensures x >= 0
  {
    if k < 16 then q as int + u as int else q as int + 16 * u as int
  }

  /** Code i, once the first k are unpacked. */
  function Part(codes: seq<byte>, i: nat, k: nat): int
    requires i < |codes|
  {
    if i < k then codes[i] else 0
  }

  ghost predicate UnpackedTo(codes: seq<byte>, qs: seq<byte>, k: nat) {
    && |codes| == 32 && |qs| == 16
    && forall i | 0 <= i < 16 :: qs[i] == Part(codes, i, k) + 16 * Part(codes, i + 16, k)
  }

  method UnpackRows(source: array2<BlockX8>, output: array2<Block>, rows: nat)
    requires rows <= output.Length0 && rows <= 8 * source.Length0 && source.Length1 == output.Length1
    requires forall t, b | 0 <= t < source.Length0 && 0 <= b < source.Length1 :: IsBlockX8(source[t, b])
    modifies output
    ensures forall r, b | 0 <= r < rows && 0 <= b < source.Length1 :: IsUnpacked(output[r, b], source[r / 8, b], r % 8)
    ensures forall r, b | rows <= r < output.Length0 && 0 <= b < output.Length1 :: output[r, b] == old(output[r, b])
  {
    for row := 0 to rows
      invariant forall r, b | 0 <= r < row && 0 <= b < source.Length1 ::
                  IsUnpacked(output[r, b], source[r / 8, b], r % 8)
      invariant forall r, b | row <= r < output.Length0 && 0 <= b < output.Length1 :: output[r, b] == old(output[r, b])
    {
      for b := 0 to source.Length1
        invariant forall r, c | 0 <= r < row && 0 <= c < source.Length1 ::
                    IsUnpacked(output[r, c], source[r / 8, c], r % 8)
        invariant forall c | 0 <= c < b :: IsUnpacked(output[row, c], source[row / 8, c], row % 8)
        invariant forall r, c | row <= r < output.Length0 && 0 <= c < output.Length1 && !(r == row && c < b) ::
          output[r, c] == old(output[r, c])
      {
        output[row, b] := UnpackBlock(source[row / 8, b], row % 8);
      }
    }
  }
}
