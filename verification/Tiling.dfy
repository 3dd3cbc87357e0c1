/** How a file is cut into chunks. */
module Tiling {
  import opened Gf256
  import opened Catalog
  import RS = ReedSolomon

  const INLINE_THRESHOLD := 128 * 1024
  const BLOCK_SIZE := 32 * 1024 * 1024
  const BYTES_PER_MB := 1024 * 1024
  const SHARD_INDEX_WHOLE := -1

  /** One chunk: its place in the file and the bytes that are shipped. */
  datatype Piece = Piece(kind: MachineType, blockIndex: nat, shardIndex: int, bytes: seq<Byte>,
    logicalOffset: nat, logicalSize: nat)

  /** The blocks of the file that are erasure coded. */
  function FullBlocks(size: nat): nat {
    if size < INLINE_THRESHOLD then 0 else size / BLOCK_SIZE
  }

  predicate HasTail(size: nat) {
    size < INLINE_THRESHOLD || size % BLOCK_SIZE > 0
  }

  function BlockCount(size: nat): nat {
    FullBlocks(size) + if HasTail(size) then 1 else 0
  }

  function PieceCount(size: nat): nat {
    RS.TOTAL_SHARDS * FullBlocks(size) + if HasTail(size) then 1 else 0
  }

  lemma FullBlocksFit(size: nat)
    ensures FullBlocks(size) * BLOCK_SIZE <= size
    ensures size - FullBlocks(size) * BLOCK_SIZE < BLOCK_SIZE
    ensures HasTail(size) || size == FullBlocks(size) * BLOCK_SIZE
  {}

  /** Block k of the file: 32MB, except that the last one may be shorter. */
  function BlockOf(data: seq<Byte>, k: nat): (block: seq<Byte>)
    requires k < BlockCount(|data|)
    ensures k < FullBlocks(|data|) ==> |block| == BLOCK_SIZE
    ensures k == FullBlocks(|data|) ==> |block| == |data| - k * BLOCK_SIZE
  {
    FullBlocksFit(|data|);
    if k < FullBlocks(|data|) then data[k * BLOCK_SIZE..(k + 1) * BLOCK_SIZE] else data[k * BLOCK_SIZE..]
  }

  /** Shard s of full block k. */
  function StripePiece(data: seq<Byte>, k: nat, s: nat): Piece
    requires k < FullBlocks(|data|) && s < RS.TOTAL_SHARDS
  {
    Piece(Block, k, s, RS.StripeOf(BlockOf(data, k))[s], k * BLOCK_SIZE, BLOCK_SIZE)
  }

  /** The machines that a file goes to. */
  function KindOf(size: nat): MachineType {
    if size < INLINE_THRESHOLD then Inline else Block
  }

  /** What remains after the full blocks, as one chunk. */
  function TailPiece(data: seq<Byte>): Piece
    requires HasTail(|data|)
  {
    var k := FullBlocks(|data|);
    var block := BlockOf(data, k);
    Piece(KindOf(|data|), k, SHARD_INDEX_WHOLE, block, k * BLOCK_SIZE, |block|)
  }

  /** Chunk i of the file. */
  function PieceAt(data: seq<Byte>, i: nat): Piece
    requires i < PieceCount(|data|)
  {
    if i < RS.TOTAL_SHARDS * FullBlocks(|data|) then StripePiece(data, i / RS.TOTAL_SHARDS, i % RS.TOTAL_SHARDS)
    else TailPiece(data)
  }

  lemma ShardSize(data: seq<Byte>, i: nat)
    requires i < RS.TOTAL_SHARDS * FullBlocks(|data|)
    ensures |PieceAt(data, i).bytes| == BLOCK_SIZE / RS.DATA_SHARDS
  {
    hide RS.StripeOf, BlockOf, RS.IsCodeColumn;
    RS.StripeOfIsStripe(BlockOf(data, i / RS.TOTAL_SHARDS));
  }

  /** Where chunk i belongs; no chunk of a non-empty file is empty. */
  lemma PiecePlace(data: seq<Byte>, i: nat)
    requires data != [] && i < PieceCount(|data|)
    ensures var p, full := PieceAt(data, i), RS.TOTAL_SHARDS * FullBlocks(|data|);
      && p.bytes != []
      && p.blockIndex == i / RS.TOTAL_SHARDS && p.kind == KindOf(|data|)
      && (if i < full then p.shardIndex == i % RS.TOTAL_SHARDS && p.kind == Block
          else i == full && p.shardIndex == SHARD_INDEX_WHOLE && i % RS.TOTAL_SHARDS == 0)
  {
    FullBlocksFit(|data|);
    PieceOfWhich(data, i);
    hide BlockOf, RS.StripeOf;
    if i < RS.TOTAL_SHARDS * FullBlocks(|data|) {
      ShardSize(data, i);
    }
  }

  lemma PieceOfWhich(data: seq<Byte>, i: nat)
    requires i < PieceCount(|data|)
    ensures FullBlocks(|data|) > 0 ==> KindOf(|data|) == Block
    ensures i >= RS.TOTAL_SHARDS * FullBlocks(|data|) ==>
      i == RS.TOTAL_SHARDS * FullBlocks(|data|) && HasTail(|data|)
  {}

  /** Files below 128KB go to inline machines, all others to block machines; blocks of
      32MB are erasure coded into shards of 4MB. */
  lemma Routing(data: seq<Byte>, i: nat)
    requires data != [] && i < PieceCount(|data|)
    ensures var p := PieceAt(data, i);
      && p.kind == (if |data| < 131_072 then Inline else Block)
      && p.logicalOffset == p.blockIndex * 33_554_432 && p.logicalOffset + p.logicalSize <= |data|
      && (if p.shardIndex == -1 then p.bytes == data[p.logicalOffset..] && p.logicalSize == |p.bytes| < 33_554_432
          else |data| >= 131_072 && p.logicalSize == 33_554_432 && |p.bytes| == 4_194_304)
  {
    PiecePlace(data, i);
    FullBlocksFit(|data|);
    if i < RS.TOTAL_SHARDS * FullBlocks(|data|) {
      ShardSize(data, i);
    }
  }

  // What the chunks add up to.

  /** Position p of the file is in exactly one block, at its place. */
  lemma BlocksPartition(data: seq<Byte>, p: nat, k: nat)
    requires p < |data| && k < BlockCount(|data|)
    ensures (if |data| < 131_072 then 0 else p / 33_554_432) < BlockCount(|data|)
    ensures k * BLOCK_SIZE <= p < k * BLOCK_SIZE + |BlockOf(data, k)| <==>
      k == (if |data| < 131_072 then 0 else p / 33_554_432)
    ensures k * BLOCK_SIZE <= p < k * BLOCK_SIZE + |BlockOf(data, k)| ==>
      BlockOf(data, k)[p - k * BLOCK_SIZE] == data[p]
  {
    FullBlocksFit(|data|);
  }

  function ShardIndexes(data: seq<Byte>, k: nat): (s: set<int>) {
    set i | 0 <= i < PieceCount(|data|) && PieceAt(data, i).blockIndex == k :: PieceAt(data, i).shardIndex
  }

  /** A full block has the shards 0 to 11, the tail is whole. */
  lemma ShardIndexesOfBlock(data: seq<Byte>, k: nat, s: int)
    requires data != [] && k < BlockCount(|data|)
    ensures s in ShardIndexes(data, k) <==>
      if k < FullBlocks(|data|) then 0 <= s < RS.TOTAL_SHARDS else s == SHARD_INDEX_WHOLE
  {
    hide PieceAt;
    if s in ShardIndexes(data, k) {
      var i :| 0 <= i < PieceCount(|data|) && PieceAt(data, i).blockIndex == k && PieceAt(data, i).shardIndex == s;
      PiecePlace(data, i);
    }
    if 0 <= s < RS.TOTAL_SHARDS && k < FullBlocks(|data|) {
      PiecePlace(data, RS.TOTAL_SHARDS * k + s);
      assert PieceAt(data, RS.TOTAL_SHARDS * k + s).shardIndex == s;
    } else if s == SHARD_INDEX_WHOLE && k == FullBlocks(|data|) {
      PiecePlace(data, RS.TOTAL_SHARDS * k);
      assert PieceAt(data, RS.TOTAL_SHARDS * k).shardIndex == s;
    }
  }

  function BytesShipped(data: seq<Byte>, n: nat): nat
    requires n <= PieceCount(|data|)
  {
    if n == 0 then 0 else BytesShipped(data, n - 1) + |PieceAt(data, n - 1).bytes|
  }

  lemma {:induction false} ShardBytesShipped(data: seq<Byte>, n: nat)
    requires n <= RS.TOTAL_SHARDS * FullBlocks(|data|)
    ensures BytesShipped(data, n) == n * (BLOCK_SIZE / RS.DATA_SHARDS)
  {
    hide PieceAt, FullBlocks;
    if n > 0 {
      ShardBytesShipped(data, n - 1);
      ShardSize(data, n - 1);
    }
  }

  lemma TailBytesShipped(data: seq<Byte>)
    requires HasTail(|data|)
    ensures var n := RS.TOTAL_SHARDS * FullBlocks(|data|);
      BytesShipped(data, n + 1) == BytesShipped(data, n) + |data| - FullBlocks(|data|) * BLOCK_SIZE
  {
    hide RS.StripeOf;
    FullBlocksFit(|data|);
  }

  /** What a file costs: one chunk below 128KB; above, 12 chunks and 16MB on top for
      every 32MB, and one chunk for the rest. */
  lemma StorageCost(data: seq<Byte>)
    requires data != []
    ensures |data| < 131_072 ==> PieceCount(|data|) == 1 && BytesShipped(data, 1) == |data|
    ensures |data| >= 131_072 ==>
      && PieceCount(|data|) == 12 * (|data| / 33_554_432) + (if |data| % 33_554_432 > 0 then 1 else 0)
      && BytesShipped(data, PieceCount(|data|)) == |data| + 16_777_216 * (|data| / 33_554_432)
  {
    hide PieceAt, BytesShipped;
    ShardBytesShipped(data, RS.TOTAL_SHARDS * FullBlocks(|data|));
    if HasTail(|data|) {
      TailBytesShipped(data);
    }
  }
}
