/** When a blob can be read: exactly if every whole block and eight shards of every
    stripe are intact. */
module ReadPath {
  import opened Wrappers
  import opened Gf256
  import opened Catalog
  import opened Sequences
  import opened Tiling
  import opened Retrieval
  import RS = ReedSolomon

  /** The row describes the chunk. */
  ghost predicate RowMatches(h: Hash, row: Row, p: Piece) {
    && row.blockIndex == p.blockIndex && row.shardIndex == p.shardIndex
    && row.checksum == h(p.bytes) && row.size == |p.bytes|
    && row.logicalOffset == p.logicalOffset && row.logicalSize == p.logicalSize
  }

  /** base lists the chunks of the file in the order in which they were stored. */
  ghost predicate Describes(h: Hash, data: seq<Byte>, base: seq<Location>) {
    && |base| == PieceCount(|data|)
    && forall i :: 0 <= i < |base| ==> RowMatches(h, base[i].row, PieceAt(data, i))
  }

  /** No answer has the checksum of the chunk it stands for without being that chunk. */
  ghost predicate NoCollision(h: Hash, ans: Answers, data: seq<Byte>, base: seq<Location>)
    requires |base| == PieceCount(|data|)
  {
    forall i :: 0 <= i < |base| ==>
      ans(base[i]).Some? && h(ans(base[i]).value) == h(PieceAt(data, i).bytes) ==>
        ans(base[i]).value == PieceAt(data, i).bytes
  }

  ghost predicate Intact(ans: Answers, data: seq<Byte>, base: seq<Location>, i: nat)
    requires |base| == PieceCount(|data|) && i < |base|
  {
    ans(base[i]) == Some(PieceAt(data, i).bytes)
  }

  ghost predicate IntactShard(ans: Answers, data: seq<Byte>, base: seq<Location>, k: nat, s: nat)
    requires |base| == PieceCount(|data|) && k < FullBlocks(|data|) && s < RS.TOTAL_SHARDS
  {
    Intact(ans, data, base, RS.TOTAL_SHARDS * k + s)
  }

  ghost function IntactShards(ans: Answers, data: seq<Byte>, base: seq<Location>, k: nat): (r: set<nat>)
    requires |base| == PieceCount(|data|) && k < FullBlocks(|data|)
  {
    set s: nat | s < RS.TOTAL_SHARDS && IntactShard(ans, data, base, k, s)
  }

  /** Block k can be rebuilt: it is a whole chunk that is intact, or a stripe with at
      least eight intact shards. */
  ghost predicate BlockSurvives(ans: Answers, data: seq<Byte>, base: seq<Location>, k: nat)
    requires |base| == PieceCount(|data|) && k < BlockCount(|data|)
  {
    if k < FullBlocks(|data|) then |IntactShards(ans, data, base, k)| >= RS.DATA_SHARDS
    else Intact(ans, data, base, RS.TOTAL_SHARDS * k)
  }

  ghost predicate Survives(ans: Answers, data: seq<Byte>, base: seq<Location>)
    requires |base| == PieceCount(|data|)
  {
    forall k :: 0 <= k < BlockCount(|data|) ==> BlockSurvives(ans, data, base, k)
  }

  /** The error of a block that does not survive. */
  function LossOf(size: nat, k: nat): ReadError {
    if k < FullBlocks(size) then TooFewShards else ChunkUnreadable
  }

  /** The error is that of the first of n blocks that does not survive. */
  ghost predicate IsFirstLoss(ans: Answers, data: seq<Byte>, base: seq<Location>, n: nat, e: ReadError)
    requires |base| == PieceCount(|data|) && n <= BlockCount(|data|)
  {
    exists k: nat :: k < n && IsFirstLost(ans, data, base, k) && e == LossOf(|data|, k)
  }

  ghost predicate IsFirstLost(ans: Answers, data: seq<Byte>, base: seq<Location>, k: nat)
    requires |base| == PieceCount(|data|) && k < BlockCount(|data|)
  {
    !BlockSurvives(ans, data, base, k) && forall j :: 0 <= j < k ==> BlockSurvives(ans, data, base, j)
  }

  lemma LossStays(ans: Answers, data: seq<Byte>, base: seq<Location>, n: nat, e: ReadError)
    requires |base| == PieceCount(|data|) && n < BlockCount(|data|)
    ensures IsFirstLoss(ans, data, base, n, e) ==> IsFirstLoss(ans, data, base, n + 1, e)
    ensures IsFirstLost(ans, data, base, n) ==> IsFirstLoss(ans, data, base, n + 1, LossOf(|data|, n))
    ensures IsFirstLost(ans, data, base, n) <==>
      !BlockSurvives(ans, data, base, n) && forall j :: 0 <= j < n ==> BlockSurvives(ans, data, base, j)
  {
    hide BlockSurvives, FullBlocks, BlockCount, PieceCount;
  }

  // Permutations of rows.

  lemma {:induction false} GroupCount(locs: seq<Location>, block: int, x: Location)
    ensures multiset(Group(locs, block))[x] == if x.row.blockIndex == block then multiset(locs)[x] else 0
  {
    if locs != [] {
      var n := |locs| - 1;
      assert locs == locs[..n] + [locs[n]];
      GroupCount(locs[..n], block, x);
    }
  }

  lemma GroupOfPermutation(locs: seq<Location>, base: seq<Location>, block: int)
    requires multiset(locs) == multiset(base)
    ensures multiset(Group(locs, block)) == multiset(Group(base, block))
  {
    forall x ensures multiset(Group(locs, block))[x] == multiset(Group(base, block))[x] {
      GroupCount(locs, block, x);
      GroupCount(base, block, x);
    }
  }

  lemma {:induction false} GroupConcat(a: seq<Location>, b: seq<Location>, block: int)
    ensures Group(a + b, block) == Group(a, block) + Group(b, block)
  {
    if b == [] {
      assert a + b == a;
    } else {
      var n := |b| - 1;
      assert (a + b)[..|a + b| - 1] == a + b[..n];
      GroupConcat(a, b[..n], block);
    }
  }

  lemma {:induction false} GroupAll(a: seq<Location>, block: int)
    requires forall l :: l in a ==> l.row.blockIndex == block
    ensures Group(a, block) == a
  {
    if a != [] {
      var n := |a| - 1;
      assert a == a[..n] + [a[n]];
      GroupAll(a[..n], block);
    }
  }

  lemma {:induction false} GroupNone(a: seq<Location>, block: int)
    requires forall l :: l in a ==> l.row.blockIndex != block
    ensures Group(a, block) == []
  {
    if a != [] {
      GroupNone(a[..|a| - 1], block);
    }
  }

  lemma GroupIsSlice(base: seq<Location>, lo: nat, hi: nat, block: int)
    requires lo <= hi <= |base|
    requires forall i :: 0 <= i < |base| ==> (base[i].row.blockIndex == block <==> lo <= i < hi)
    ensures Group(base, block) == base[lo..hi]
  {
    hide Group;
    GroupNone(base[..lo], block);
    GroupAll(base[lo..hi], block);
    GroupNone(base[hi..], block);
    GroupConcat(base[..lo], base[lo..hi], block);
    GroupConcat(base[..hi], base[hi..], block);
    assert base[..hi] == base[..lo] + base[lo..hi];
    assert base == base[..hi] + base[hi..];
  }

  /** Where the shard indexes of the rows are all different, so are those of any
      permutation of the rows. */
  lemma ShardsStayDistinct(g: seq<Location>, base: seq<Location>, i: nat, j: nat)
    requires multiset(g) == multiset(base) && i < j < |g|
    requires forall a, b :: 0 <= a < b < |base| ==> base[a].row.shardIndex != base[b].row.shardIndex
    ensures g[i].row.shardIndex != g[j].row.shardIndex
  {
    PermutationStaysDistinct(base, g);
    var a := SameElements(g, base, i);
    var b := SameElements(g, base, j);
  }

  // One stripe.

  ghost predicate DistinctShards(g: seq<Location>) {
    && (forall i :: 0 <= i < |g| ==> 0 <= g[i].row.shardIndex < RS.TOTAL_SHARDS)
    && (forall i, j :: 0 <= i < j < |g| ==> g[i].row.shardIndex != g[j].row.shardIndex)
  }

  function Value(h: Hash, ans: Answers, loc: Location): seq<Byte> {
    var r := ReadVerified(h, ans, loc);
    if r.Some? then r.value else []
  }

  /** Every chunk that could be read is at its index, and nothing is anywhere else. */
  ghost predicate Placed(h: Hash, ans: Answers, g: seq<Location>, shards: seq<seq<Byte>>)
    requires DistinctShards(g)
  {
    && |shards| == RS.TOTAL_SHARDS
    && (forall i :: 0 <= i < |g| ==> shards[g[i].row.shardIndex] == Value(h, ans, g[i]))
    && (forall s :: 0 <= s < RS.TOTAL_SHARDS && shards[s] != [] ==> HasShard(g, s))
  }

  ghost predicate HasShard(g: seq<Location>, s: int) {
    exists i :: 0 <= i < |g| && g[i].row.shardIndex == s
  }

  lemma PlacedStep(h: Hash, ans: Answers, g: seq<Location>, shards: seq<seq<Byte>>)
    requires g != [] && DistinctShards(g) && DistinctShards(g[..|g| - 1])
    requires Placed(h, ans, g[..|g| - 1], shards)
    ensures var loc := g[|g| - 1];
      && shards[loc.row.shardIndex] == []
      && Placed(h, ans, g, shards[loc.row.shardIndex := Value(h, ans, loc)])
  {
    hide Value;
    var n := |g| - 1;
    var before, s := g[..n], g[n].row.shardIndex;
    assert !HasShard(before, s);
    var after := shards[s := Value(h, ans, g[n])];
    forall i | 0 <= i < |g| ensures after[g[i].row.shardIndex] == Value(h, ans, g[i]) {
      assert i < n ==> before[i] == g[i];
    }
    forall t | 0 <= t < RS.TOTAL_SHARDS && after[t] != [] ensures HasShard(g, t) {
      if t != s {
        var i :| 0 <= i < |before| && before[i].row.shardIndex == t;
        assert g[i] == before[i];
      } else {
        assert g[n].row.shardIndex == s;
      }
    }
  }

  lemma PresentStep(shards: seq<seq<Byte>>, s: nat, bytes: seq<Byte>)
    requires s < |shards| && shards[s] == [] && bytes != []
    ensures |RS.PresentSet(shards[s := bytes])| == |RS.PresentSet(shards)| + 1
  {
    assert RS.PresentSet(shards[s := bytes]) == RS.PresentSet(shards) + {s};
  }

  /** Gathering the rows of a stripe, in any order, puts every chunk that could be read
      at its index and counts the chunks. */
  lemma {:induction false} GatherDistinct(h: Hash, ans: Answers, g: seq<Location>)
    requires DistinctShards(g) && forall i :: 0 <= i < |g| ==> g[i].row.size > 0
    ensures Gather(h, ans, g).Success?
    ensures var r := Gather(h, ans, g).value;
      r.available == |RS.PresentSet(r.shards)| && Placed(h, ans, g, r.shards)
  {
    if g == [] {
      GatherNothing(h, ans);
    } else {
      hide Placed, RS.PresentSet;
      var n := |g| - 1;
      var loc := g[n];
      GatherDistinct(h, ans, g[..n]);
      var before := Gather(h, ans, g[..n]).value;
      PlacedStep(h, ans, g, before.shards);
      if ReadVerified(h, ans, loc).Some? {
        PresentStep(before.shards, loc.row.shardIndex, Value(h, ans, loc));
      } else {
        assert before.shards[loc.row.shardIndex := []] == before.shards;
      }
    }
  }

  /** The rows of a stripe in index order, and the block it encodes. */
  ghost predicate IsStripeOf(h: Hash, base: seq<Location>, block: seq<Byte>) {
    && block != [] && |base| == RS.TOTAL_SHARDS
    && forall s :: 0 <= s < RS.TOTAL_SHARDS ==>
        var row := base[s].row;
        && row.shardIndex == s && row.size == RS.ShardLength(|block|) && row.logicalSize == |block|
        && row.checksum == h(RS.StripeOf(block)[s])
  }

  ghost predicate NoShardCollision(h: Hash, ans: Answers, base: seq<Location>, block: seq<Byte>)
    requires |base| == RS.TOTAL_SHARDS
  {
    forall s :: 0 <= s < RS.TOTAL_SHARDS ==>
      ans(base[s]).Some? && h(ans(base[s]).value) == h(RS.StripeOf(block)[s]) ==>
        ans(base[s]).value == RS.StripeOf(block)[s]
  }

  ghost function IntactOf(ans: Answers, base: seq<Location>, block: seq<Byte>): set<nat>
    requires |base| == RS.TOTAL_SHARDS
  {
    set s: nat | s < RS.TOTAL_SHARDS && ans(base[s]) == Some(RS.StripeOf(block)[s])
  }

  lemma PermutationOfStripe(h: Hash, g: seq<Location>, base: seq<Location>, block: seq<Byte>)
    requires IsStripeOf(h, base, block) && multiset(g) == multiset(base)
    ensures |g| == RS.TOTAL_SHARDS && DistinctShards(g)
    ensures forall i :: 0 <= i < |g| ==> g[i] == base[g[i].row.shardIndex]
    ensures forall s :: 0 <= s < RS.TOTAL_SHARDS ==> HasShard(g, s)
  {
    hide RS.StripeOf, RS.ShardLength;
    assert |g| == |multiset(g)| == |multiset(base)| == |base|;
    forall i | 0 <= i < |g| ensures 0 <= g[i].row.shardIndex < RS.TOTAL_SHARDS && g[i] == base[g[i].row.shardIndex] {
      assert g[i] in multiset(g);
      assert g[i] in base;
    }
    forall i, j | 0 <= i < j < |g| ensures g[i].row.shardIndex != g[j].row.shardIndex {
      ShardsStayDistinct(g, base, i, j);
    }
    forall s | 0 <= s < RS.TOTAL_SHARDS ensures HasShard(g, s) {
      assert base[s] in multiset(base);
      assert base[s] in g;
      var i :| 0 <= i < |g| && g[i] == base[s];
      assert g[i].row.shardIndex == s;
    }
  }

  /** What is gathered from a stripe are its intact shards. */
  lemma GatheredAreIntact(h: Hash, ans: Answers, g: seq<Location>, base: seq<Location>, block: seq<Byte>,
      shards: seq<seq<Byte>>)
    requires IsStripeOf(h, base, block) && multiset(g) == multiset(base) && NoShardCollision(h, ans, base, block)
    requires DistinctShards(g) && Placed(h, ans, g, shards)
    ensures RS.SurvivorsOf(shards, RS.StripeOf(block))
    ensures RS.PresentSet(shards) == IntactOf(ans, base, block)
  {
    var W := RS.StripeOf(block);
    RS.StripeOfIsStripe(block);
    PermutationOfStripe(h, g, base, block);
    hide RS.StripeOf, RS.ShardLength, RS.IsCodeColumn;
    forall s | 0 <= s < RS.TOTAL_SHARDS
      ensures shards[s] == [] || shards[s] == W[s]
      ensures shards[s] != [] <==> ans(base[s]) == Some(W[s])
    {
      assert HasShard(g, s);
      var i :| 0 <= i < |g| && g[i].row.shardIndex == s;
      assert shards[s] == Value(h, ans, base[s]);
      assert W[s] != [];
    }
  }

  /** What was gathered assembles to the block exactly if eight shards are present. */
  lemma AssembleStripe(block: seq<Byte>, shards: seq<seq<Byte>>)
    requires block != [] && RS.SurvivorsOf(shards, RS.StripeOf(block))
    ensures Assemble(Gathered(shards, |RS.PresentSet(shards)|), |block|) ==
      if |RS.PresentSet(shards)| >= RS.DATA_SHARDS then Success(block) else Failure(TooFewShards)
  {
    hide RS.StripeOf, RS.Reconstruct, RS.Join, RS.PresentSet;
    var available := |RS.PresentSet(shards)|;
    if available >= RS.DATA_SHARDS {
      RS.AnyEightRecover(block, shards);
      if available >= RS.TOTAL_SHARDS {
        AllPresent(shards, RS.StripeOf(block));
      }
    }
  }

  /** A stripe reads back exactly if eight of its shards are intact. */
  lemma ReadStripe(h: Hash, ans: Answers, g: seq<Location>, base: seq<Location>, block: seq<Byte>)
    requires IsStripeOf(h, base, block) && multiset(g) == multiset(base) && NoShardCollision(h, ans, base, block)
    ensures g != []
    ensures ReadBlock(h, ans, g) ==
      if |IntactOf(ans, base, block)| >= RS.DATA_SHARDS then Success(block) else Failure(TooFewShards)
  {
    PermutationOfStripe(h, g, base, block);
    hide RS.StripeOf, RS.ShardLength, RS.SurvivorsOf, RS.PresentSet, Gather, Assemble, Placed, NoShardCollision,
      IntactOf;
    GatherDistinct(h, ans, g);
    var shards := Gather(h, ans, g).value.shards;
    GatheredAreIntact(h, ans, g, base, block, shards);
    AssembleStripe(block, shards);
  }

  lemma {:induction false} CountBelow(s: set<nat>, n: nat)
    requires forall x :: x in s ==> x < n
    ensures |s| <= n
    ensures |s| == n ==> forall x :: 0 <= x < n ==> x in s
    decreases n
  {
    if n == 0 {
      assert s == {};
    } else {
      var rest := s - {n - 1};
      CountBelow(rest, n - 1);
      assert s == rest + if n - 1 in s then {n - 1} else {};
      if |s| == n {
        forall x | 0 <= x < n ensures x in s {
          assert x < n - 1 ==> x in rest;
        }
      }
    }
  }

  lemma AllPresent(shards: seq<seq<Byte>>, W: seq<seq<Byte>>)
    requires |W| == RS.TOTAL_SHARDS && RS.SurvivorsOf(shards, W) && |RS.PresentSet(shards)| >= RS.TOTAL_SHARDS
    ensures shards == W
  {
    CountBelow(RS.PresentSet(shards), RS.TOTAL_SHARDS);
    forall i | 0 <= i < |W| ensures shards[i] == W[i] {
      assert i in RS.PresentSet(shards);
    }
  }

  // The whole blob.

  function SliceStart(k: nat): nat {
    RS.TOTAL_SHARDS * k
  }

  function SliceEnd(size: nat, k: nat): nat {
    if k < FullBlocks(size) then RS.TOTAL_SHARDS * k + RS.TOTAL_SHARDS else RS.TOTAL_SHARDS * k + 1
  }

  /** Chunk i belongs to block k exactly if i lies in the block's slice. */
  lemma PieceBlock(data: seq<Byte>, i: nat, k: nat)
    requires i < PieceCount(|data|) && k < BlockCount(|data|)
    ensures SliceStart(k) <= SliceEnd(|data|, k) <= PieceCount(|data|)
    ensures PieceAt(data, i).blockIndex == k <==> SliceStart(k) <= i < SliceEnd(|data|, k)
  {}

  lemma GroupOfBlock(h: Hash, data: seq<Byte>, base: seq<Location>, locs: seq<Location>, k: nat)
    requires Describes(h, data, base) && multiset(locs) == multiset(base) && k < BlockCount(|data|)
    ensures SliceEnd(|data|, k) <= |base|
    ensures multiset(Group(locs, k)) == multiset(base[SliceStart(k)..SliceEnd(|data|, k)])
  {
    hide PieceAt, Group, SliceEnd, BlockCount;
    forall i | 0 <= i < |base|
      ensures SliceEnd(|data|, k) <= |base|
      ensures base[i].row.blockIndex == k <==> SliceStart(k) <= i < SliceEnd(|data|, k)
    {
      PieceBlock(data, i, k);
    }
    PieceBlock(data, 0, k);
    GroupIsSlice(base, SliceStart(k), SliceEnd(|data|, k), k);
    GroupOfPermutation(locs, base, k);
  }

  lemma PieceOfStripe(data: seq<Byte>, k: nat, s: nat)
    requires k < FullBlocks(|data|) && s < RS.TOTAL_SHARDS
    ensures RS.TOTAL_SHARDS * k + s < PieceCount(|data|)
    ensures PieceAt(data, RS.TOTAL_SHARDS * k + s) == StripePiece(data, k, s)
  {
    hide StripePiece, TailPiece, HasTail, FullBlocks;
    var i := RS.TOTAL_SHARDS * k + s;
    assert i / RS.TOTAL_SHARDS == k && i % RS.TOTAL_SHARDS == s;
  }

  lemma SliceIsStripe(h: Hash, data: seq<Byte>, base: seq<Location>, k: nat)
    requires Describes(h, data, base) && k < FullBlocks(|data|)
    ensures SliceEnd(|data|, k) <= |base|
    ensures IsStripeOf(h, base[SliceStart(k)..SliceEnd(|data|, k)], BlockOf(data, k))
  {
    PieceOfStripe(data, k, RS.TOTAL_SHARDS - 1);
    var slice, block := base[SliceStart(k)..SliceEnd(|data|, k)], BlockOf(data, k);
    RS.StripeOfIsStripe(block);
    hide RS.StripeOf, BlockOf, RS.IsCodeColumn, HasTail, PieceAt, PieceCount, FullBlocks;
    forall s | 0 <= s < RS.TOTAL_SHARDS
      ensures RS.TOTAL_SHARDS * k + s < |base| && slice[s] == base[RS.TOTAL_SHARDS * k + s]
      ensures RowMatches(h, slice[s].row, StripePiece(data, k, s))
    {
      PieceOfStripe(data, k, s);
    }
  }

  lemma StripeSlice(h: Hash, ans: Answers, data: seq<Byte>, base: seq<Location>, k: nat)
    requires Describes(h, data, base) && NoCollision(h, ans, data, base) && k < FullBlocks(|data|)
    ensures SliceEnd(|data|, k) <= |base|
    ensures var slice := base[SliceStart(k)..SliceEnd(|data|, k)];
      && IsStripeOf(h, slice, BlockOf(data, k))
      && NoShardCollision(h, ans, slice, BlockOf(data, k))
      && IntactOf(ans, slice, BlockOf(data, k)) == IntactShards(ans, data, base, k)
  {
    SliceIsStripe(h, data, base, k);
    var slice, block := base[SliceStart(k)..SliceEnd(|data|, k)], BlockOf(data, k);
    hide RS.StripeOf, BlockOf, HasTail, PieceAt, PieceCount, FullBlocks, IntactShards, IntactOf, IsStripeOf;
    forall s | 0 <= s < RS.TOTAL_SHARDS
      ensures RS.TOTAL_SHARDS * k + s < |base| && slice[s] == base[RS.TOTAL_SHARDS * k + s]
      ensures IntactShard(ans, data, base, k, s) <==> ans(slice[s]) == Some(RS.StripeOf(block)[s])
      ensures ans(slice[s]).Some? && h(ans(slice[s]).value) == h(RS.StripeOf(block)[s]) ==>
        ans(slice[s]).value == RS.StripeOf(block)[s]
    {
      PieceOfStripe(data, k, s);
    }
    SameShards(ans, data, base, slice, k);
  }

  lemma SameShards(ans: Answers, data: seq<Byte>, base: seq<Location>, slice: seq<Location>, k: nat)
    requires |base| == PieceCount(|data|) && k < FullBlocks(|data|) && |slice| == RS.TOTAL_SHARDS
    requires forall s: nat :: s < RS.TOTAL_SHARDS ==>
      (IntactShard(ans, data, base, k, s) <==> ans(slice[s]) == Some(RS.StripeOf(BlockOf(data, k))[s]))
    ensures IntactOf(ans, slice, BlockOf(data, k)) == IntactShards(ans, data, base, k)
  {}

  lemma SingletonPermutation<T>(g: seq<T>, x: T)
    requires multiset(g) == multiset([x])
    ensures g == [x]
  {}

  lemma ReadWholeBlock(h: Hash, ans: Answers, data: seq<Byte>, base: seq<Location>, g: seq<Location>, k: nat)
    requires data != [] && Describes(h, data, base) && NoCollision(h, ans, data, base)
    requires FullBlocks(|data|) <= k < BlockCount(|data|) && RS.TOTAL_SHARDS * k < |base|
    requires g == [base[RS.TOTAL_SHARDS * k]]
    ensures ReadBlock(h, ans, g) ==
      if Intact(ans, data, base, RS.TOTAL_SHARDS * k) then Success(BlockOf(data, k)) else Failure(ChunkUnreadable)
  {}

  /** One block reads back exactly if it survives. */
  lemma ReadOneBlock(h: Hash, ans: Answers, data: seq<Byte>, base: seq<Location>, locs: seq<Location>, k: nat)
    requires data != [] && Describes(h, data, base) && multiset(locs) == multiset(base)
    requires NoCollision(h, ans, data, base) && k < BlockCount(|data|)
    ensures Group(locs, k) != []
    ensures var r := ReadBlock(h, ans, Group(locs, k));
      r == if BlockSurvives(ans, data, base, k) then Success(BlockOf(data, k)) else Failure(LossOf(|data|, k))
  {
    hide ReadBlock, BlockOf, Group, Describes, NoCollision, Intact, IntactShards, FullBlocks, BlockCount;
    GroupOfBlock(h, data, base, locs, k);
    var g := Group(locs, k);
    if k < FullBlocks(|data|) {
      StripeSlice(h, ans, data, base, k);
      ReadStripe(h, ans, g, base[SliceStart(k)..SliceEnd(|data|, k)], BlockOf(data, k));
    } else {
      var i := SliceStart(k);
      assert base[i..i + 1] == [base[i]];
      SingletonPermutation(g, base[i]);
      ReadWholeBlock(h, ans, data, base, g, k);
    }
  }

  function FirstBlocks(n: nat): (idx: seq<int>)
    ensures |idx| == n && forall i :: 0 <= i < n ==> idx[i] == i
  {
    seq(n, i => i)
  }

  lemma BlocksPresent(h: Hash, data: seq<Byte>, base: seq<Location>, locs: seq<Location>)
    requires Describes(h, data, base) && multiset(locs) == multiset(base)
    ensures forall k: int :: k in BlockIndexes(locs) <==> 0 <= k < BlockCount(|data|)
  {
    hide RS.StripeOf, BlockOf, FullBlocks;
    forall k: int ensures k in BlockIndexes(locs) <==> 0 <= k < BlockCount(|data|) {
      if k in BlockIndexes(locs) {
        var l :| l in locs && l.row.blockIndex == k;
        assert l in multiset(locs);
        assert l in base;
        var i :| 0 <= i < |base| && base[i] == l;
      } else if 0 <= k < BlockCount(|data|) {
        var i := SliceStart(k);
        assert base[i] in multiset(base);
        assert base[i] in locs;
        PieceBlock(data, i, k);
      }
    }
  }

  lemma AppendBlock(data: seq<Byte>, n: nat)
    requires n < BlockCount(|data|)
    ensures n * BLOCK_SIZE <= |data|
    ensures Prefix(data, n + 1) == Prefix(data, n) + BlockOf(data, n)
  {}

  /** The first n blocks of the file. */
  function Prefix(data: seq<Byte>, n: nat): seq<Byte> {
    if n * BLOCK_SIZE <= |data| then data[..n * BLOCK_SIZE] else data
  }

  lemma ReadBlocksStep(h: Hash, ans: Answers, locs: seq<Location>, n: nat)
    requires forall k :: 0 <= k <= n ==> k in BlockIndexes(locs)
    ensures forall k :: k in FirstBlocks(n + 1) ==> k in BlockIndexes(locs)
    ensures Group(locs, n) != []
    ensures ReadBlocks(h, ans, locs, FirstBlocks(n + 1)) ==
      var rest := ReadBlocks(h, ans, locs, FirstBlocks(n));
      if rest.Failure? then rest
      else
        var block := ReadBlock(h, ans, Group(locs, n));
        if block.Failure? then block else Success(rest.value + block.value)
  {
    hide ReadBlock, Group, BlockIndexes;
    assert FirstBlocks(n + 1)[..n] == FirstBlocks(n);
    GroupNotEmpty(locs, n);
  }

  lemma {:induction false} ReadFirstBlocks(h: Hash, ans: Answers, data: seq<Byte>, base: seq<Location>,
      locs: seq<Location>, n: nat)
    requires data != [] && Describes(h, data, base) && multiset(locs) == multiset(base)
    requires NoCollision(h, ans, data, base) && n <= BlockCount(|data|)
    ensures forall k :: k in FirstBlocks(n) ==> k in BlockIndexes(locs)
    ensures var r := ReadBlocks(h, ans, locs, FirstBlocks(n));
      if forall k :: 0 <= k < n ==> BlockSurvives(ans, data, base, k) then r == Success(Prefix(data, n))
      else r.Failure? && IsFirstLoss(ans, data, base, n, r.error)
  {
    hide *;
    BlocksPresent(h, data, base, locs);
    if n == 0 {
      PrefixOfNothing(data);
      ReadNoBlocks(h, ans, locs);
    } else {
      ReadFirstBlocks(h, ans, data, base, locs, n - 1);
      var r := ReadBlocks(h, ans, locs, FirstBlocks(n - 1));
      ReadOneBlock(h, ans, data, base, locs, n - 1);
      AppendBlock(data, n - 1);
      DescribesAll(h, data, base);
      LossStays(ans, data, base, n - 1, if r.Failure? then r.error else TooFewShards);
      ReadBlocksStep(h, ans, locs, n - 1);
    }
  }

  lemma DescribesAll(h: Hash, data: seq<Byte>, base: seq<Location>)
    requires Describes(h, data, base)
    ensures |base| == PieceCount(|data|)
  {}

  lemma ReadNoBlocks(h: Hash, ans: Answers, locs: seq<Location>)
    ensures ReadBlocks(h, ans, locs, FirstBlocks(0)) == Success([])
  {}

  lemma PrefixOfNothing(data: seq<Byte>)
    ensures Prefix(data, 0) == []
  {}

  lemma AllBlocks(data: seq<Byte>)
    requires data != []
    ensures Prefix(data, BlockCount(|data|)) == data && BlockCount(|data|) > 0
  {}

  /** The exact read condition, for the rows in any order. */
  lemma ReadIsExact(h: Hash, ans: Answers, data: seq<Byte>, base: seq<Location>, locs: seq<Location>,
      idx: seq<int>, blob: Blob)
    requires data != [] && Describes(h, data, base) && NoCollision(h, ans, data, base)
    requires multiset(locs) == multiset(base) && Enumerates(idx, BlockIndexes(locs))
    requires blob.size == |data| && blob.checksum == h(data)
    ensures var r := Retrieve(h, ans, locs, idx, blob);
      if Survives(ans, data, base) then r == Success(data)
      else r.Failure? && IsFirstLoss(ans, data, base, BlockCount(|data|), r.error)
  {
    var B := BlockCount(|data|);
    BlocksPresent(h, data, base, locs);
    assert Enumerates(FirstBlocks(B), BlockIndexes(locs)) by {
      forall x ensures x in BlockIndexes(locs) <==> x in FirstBlocks(B) {
        if 0 <= x < B {
          assert FirstBlocks(B)[x] == x;
        }
      }
    }
    EnumerationIsUnique(idx, FirstBlocks(B), BlockIndexes(locs));
    ReadFirstBlocks(h, ans, data, base, locs, B);
    AllBlocks(data);
    assert 0 in BlockIndexes(locs);
  }

  // The order of the rows.

  /** What is placed at each index depends on the rows, not on their order. */
  lemma PlacedIsUnique(h: Hash, ans: Answers, g: seq<Location>, g': seq<Location>, shards: seq<seq<Byte>>,
      shards': seq<seq<Byte>>)
    requires DistinctShards(g) && DistinctShards(g') && multiset(g) == multiset(g')
    requires Placed(h, ans, g, shards) && Placed(h, ans, g', shards')
    ensures shards == shards'
  {
    hide Value;
    forall s | 0 <= s < RS.TOTAL_SHARDS ensures shards[s] == shards'[s] {
      if i :| 0 <= i < |g| && g[i].row.shardIndex == s {
        var j := SameElements(g, g', i);
      } else if i :| 0 <= i < |g'| && g'[i].row.shardIndex == s {
        var j := SameElements(g', g, i);
        assert false;
      } else {
        assert !HasShard(g, s) && !HasShard(g', s);
      }
    }
  }

  lemma StripeIgnoresOrder(h: Hash, ans: Answers, g: seq<Location>, base: seq<Location>, block: seq<Byte>)
    requires IsStripeOf(h, base, block) && multiset(g) == multiset(base)
    ensures g != [] && ReadBlock(h, ans, g) == ReadBlock(h, ans, base)
  {
    PermutationOfStripe(h, g, base, block);
    PermutationOfStripe(h, base, base, block);
    RS.StripeOfIsStripe(block);
    hide RS.StripeOf, RS.IsCodeColumn, RS.PresentSet, Gather, Assemble, Placed;
    GatherDistinct(h, ans, g);
    GatherDistinct(h, ans, base);
    PlacedIsUnique(h, ans, g, base, Gather(h, ans, g).value.shards, Gather(h, ans, base).value.shards);
  }

  lemma BlockIgnoresOrder(h: Hash, ans: Answers, data: seq<Byte>, base: seq<Location>, locs: seq<Location>, k: nat)
    requires data != [] && Describes(h, data, base) && multiset(locs) == multiset(base) && k < BlockCount(|data|)
    ensures Group(locs, k) != [] && Group(base, k) != []
    ensures ReadBlock(h, ans, Group(locs, k)) == ReadBlock(h, ans, Group(base, k))
  {
    hide ReadBlock, BlockOf, Group, Describes, IsStripeOf, FullBlocks, BlockCount;
    GroupOfBlock(h, data, base, locs, k);
    GroupOfBlock(h, data, base, base, k);
    var slice := base[SliceStart(k)..SliceEnd(|data|, k)];
    if k < FullBlocks(|data|) {
      SliceIsStripe(h, data, base, k);
      StripeIgnoresOrder(h, ans, Group(locs, k), slice, BlockOf(data, k));
      StripeIgnoresOrder(h, ans, Group(base, k), slice, BlockOf(data, k));
    } else {
      var i := SliceStart(k);
      assert slice == [base[i]];
      SingletonPermutation(Group(locs, k), base[i]);
      SingletonPermutation(Group(base, k), base[i]);
    }
  }

  lemma {:induction false} BlocksIgnoreOrder(h: Hash, ans: Answers, data: seq<Byte>, base: seq<Location>,
      locs: seq<Location>, idx: seq<int>)
    requires data != [] && Describes(h, data, base) && multiset(locs) == multiset(base)
    requires forall k :: k in idx ==> 0 <= k < BlockCount(|data|)
    ensures forall k :: k in idx ==> k in BlockIndexes(locs) && k in BlockIndexes(base)
    ensures ReadBlocks(h, ans, locs, idx) == ReadBlocks(h, ans, base, idx)
  {
    hide Describes, BlockCount, BlockIndexes, ReadBlock, Group;
    BlocksPresent(h, data, base, locs);
    BlocksPresent(h, data, base, base);
    if idx != [] {
      var n := |idx| - 1;
      assert idx[n] in idx && forall k :: k in idx[..n] ==> k in idx;
      BlocksIgnoreOrder(h, ans, data, base, locs, idx[..n]);
      BlockIgnoresOrder(h, ans, data, base, locs, idx[n]);
    }
  }

  /** Whatever the workers answer, a blob's rows give the same result in any order. */
  lemma RetrieveIgnoresOrder(h: Hash, ans: Answers, data: seq<Byte>, base: seq<Location>, locs: seq<Location>,
      idx: seq<int>, idx': seq<int>, blob: Blob)
    requires data != [] && Describes(h, data, base) && multiset(locs) == multiset(base)
    requires Enumerates(idx, BlockIndexes(locs)) && Enumerates(idx', BlockIndexes(base))
    ensures Retrieve(h, ans, locs, idx, blob) == Retrieve(h, ans, base, idx', blob)
  {
    hide Describes, BlockCount, BlockIndexes, ReadBlocks;
    BlocksPresent(h, data, base, locs);
    BlocksPresent(h, data, base, base);
    forall k ensures k in BlockIndexes(locs) <==> k in BlockIndexes(base) {}
    assert BlockIndexes(locs) == BlockIndexes(base);
    EnumerationIsUnique(idx, idx', BlockIndexes(base));
    BlocksIgnoreOrder(h, ans, data, base, locs, idx);
    assert |locs| == |multiset(locs)| == |base|;
  }
}
