/** Reading a blob back: what RetrieveBlob computes from the workers' answers, and when
    it returns the file. */
module Retrieval {
  import opened Wrappers
  import opened Gf256
  import opened Catalog
  import opened Sequences
  import RS = ReedSolomon

  datatype ReadError =
    | NoChunks
    | ChunkUnreadable
    | InvalidShardIndex
    | TooFewShards
    | ReconstructionFailed
    | JoinFailed
    | SizeMismatch
    | ChecksumMismatch

  /** What each worker answers when it is asked for a chunk: nothing, or some bytes. */
  type Answers = Location -> Option<seq<Byte>>

  /** readChunkVerified: an answer of the wrong length or with the wrong checksum counts
      as no answer. */
  function ReadVerified(h: Hash, ans: Answers, loc: Location): (r: Option<seq<Byte>>)
    ensures r.Some? ==> |r.value| == loc.row.size && h(r.value) == loc.row.checksum && ans(loc) == r
  {
    var a := ans(loc);
    if a.Some? && |a.value| == loc.row.size && h(a.value) == loc.row.checksum then a else None
  }

  datatype Gathered = Gathered(shards: seq<seq<Byte>>, available: nat)

  /** The loop of readBlock over the rows of a stripe. */
  function Gather(h: Hash, ans: Answers, group: seq<Location>): (r: Result<Gathered, ReadError>)
    ensures r.Success? ==> |r.value.shards| == RS.TOTAL_SHARDS
  {
    if group == [] then Success(Gathered(seq(RS.TOTAL_SHARDS, _ => []), 0))
    else
      var loc := group[|group| - 1];
      var rest := Gather(h, ans, group[..|group| - 1]);
      if rest.Failure? then rest
      else if loc.row.shardIndex < 0 || loc.row.shardIndex >= RS.TOTAL_SHARDS then Failure(InvalidShardIndex)
      else
        var data := ReadVerified(h, ans, loc);
        if data.None? then rest
        else Success(Gathered(rest.value.shards[loc.row.shardIndex := data.value], rest.value.available + 1))
  }

  function ReadBlock(h: Hash, ans: Answers, group: seq<Location>): Result<seq<Byte>, ReadError>
    requires group != []
  {
    if |group| == 1 && group[0].row.shardIndex == -1 then
      var data := ReadVerified(h, ans, group[0]);
      if data.Some? then Success(data.value) else Failure(ChunkUnreadable)
    else
      var g := Gather(h, ans, group);
      if g.Failure? then Failure(g.error)
      else Assemble(g.value, group[0].row.logicalSize)
  }

  function Assemble(g: Gathered, size: nat): Result<seq<Byte>, ReadError> {
    if g.available < RS.DATA_SHARDS then Failure(TooFewShards)
    else
      var full := if g.available < RS.TOTAL_SHARDS then RS.Reconstruct(g.shards) else Some(g.shards);
      if full.None? then Failure(ReconstructionFailed)
      else
        var joined := RS.Join(full.value, size);
        if joined.None? then Failure(JoinFailed) else Success(joined.value)
  }

  function BlockIndexes(locs: seq<Location>): set<int> {
    set l | l in locs :: l.row.blockIndex
  }

  /** The rows of one block, in the order given. */
  function Group(locs: seq<Location>, block: int): (g: seq<Location>)
    ensures forall l :: l in g <==> l in locs && l.row.blockIndex == block
  {
    if locs == [] then []
    else
      var rest := Group(locs[..|locs| - 1], block);
      var loc := locs[|locs| - 1];
      if loc.row.blockIndex == block then rest + [loc] else rest
  }

  lemma GroupNotEmpty(locs: seq<Location>, block: int)
    requires block in BlockIndexes(locs)
    ensures Group(locs, block) != []
  {}

  /** The elements of a set in ascending order. */
  ghost predicate Enumerates(idx: seq<int>, s: set<int>) {
    && (forall i, j :: 0 <= i < j < |idx| ==> idx[i] < idx[j])
    && (forall x :: x in s <==> x in idx)
  }

  /** The blocks read and appended in the order of idx. */
  function ReadBlocks(h: Hash, ans: Answers, locs: seq<Location>, idx: seq<int>): Result<seq<Byte>, ReadError>
    requires forall k :: k in idx ==> k in BlockIndexes(locs)
  {
    if idx == [] then Success([])
    else
      var k := idx[|idx| - 1];
      var rest := ReadBlocks(h, ans, locs, idx[..|idx| - 1]);
      if rest.Failure? then rest
      else
        assert k in idx;
        GroupNotEmpty(locs, k);
        var block := ReadBlock(h, ans, Group(locs, k));
        if block.Failure? then block else Success(rest.value + block.value)
  }

  /** RetrieveBlob, for the joined rows in any order; idx lists their blocks. */
  function Retrieve(h: Hash, ans: Answers, locs: seq<Location>, idx: seq<int>, blob: Blob):
      (r: Result<seq<Byte>, ReadError>)
    requires forall k :: k in idx ==> k in BlockIndexes(locs)
    ensures r.Success? ==> |r.value| == blob.size && h(r.value) == blob.checksum
  {
    if locs == [] then Failure(NoChunks)
    else
      var out := ReadBlocks(h, ans, locs, idx);
      if out.Failure? then out
      else if |out.value| != blob.size then Failure(SizeMismatch)
      else if h(out.value) != blob.checksum then Failure(ChecksumMismatch)
      else out
  }

  lemma EmptyEnumeration(a: seq<int>, s: set<int>)
    requires Enumerates(a, s)
    ensures a == [] <==> s == {}
  {
    if a != [] {
      assert a[0] in a;
    } else {
      assert forall x :: x in s ==> x in a;
    }
  }

  lemma {:induction false} EnumerationIsUnique(a: seq<int>, b: seq<int>, s: set<int>)
    requires Enumerates(a, s) && Enumerates(b, s)
    ensures a == b
  {
    EmptyEnumeration(a, s);
    EmptyEnumeration(b, s);
    if s != {} {
      var m, n := |a| - 1, |b| - 1;
      assert a[m] in a && a[m] in b;
      assert b[n] in b && b[n] in a;
      assert a[m] == b[n];
      EnumerationWithoutLast(a, s);
      EnumerationWithoutLast(b, s);
      EnumerationIsUnique(a[..m], b[..n], s - {a[m]});
    }
  }

  lemma EnumerationWithoutLast(a: seq<int>, s: set<int>)
    requires Enumerates(a, s) && a != []
    ensures Enumerates(a[..|a| - 1], s - {a[|a| - 1]})
  {}

  // The loops stop at the first failure.

  lemma NextGather(h: Hash, ans: Answers, group: seq<Location>, i: nat)
    requires i < |group| && Gather(h, ans, group[..i]).Success?
    ensures var g, loc := Gather(h, ans, group[..i]).value, group[i];
      var data := ReadVerified(h, ans, loc);
      Gather(h, ans, group[..i + 1]) ==
        if loc.row.shardIndex < 0 || loc.row.shardIndex >= RS.TOTAL_SHARDS then Failure(InvalidShardIndex)
        else if data.None? then Success(g)
        else Success(Gathered(g.shards[loc.row.shardIndex := data.value], g.available + 1))
  {
    assert group[..i + 1][..i] == group[..i];
  }

  lemma GatherNothing(h: Hash, ans: Answers)
    ensures Gather(h, ans, []) == Success(Gathered(seq(RS.TOTAL_SHARDS, _ => []), 0))
  {}

  lemma {:induction false} GatherFails(h: Hash, ans: Answers, group: seq<Location>, i: nat)
    requires i <= |group| && Gather(h, ans, group[..i]).Failure?
    ensures Gather(h, ans, group) == Gather(h, ans, group[..i])
  {
    var n := |group| - 1;
    if i <= n {
      assert group[..n][..i] == group[..i];
      GatherFails(h, ans, group[..n], i);
    } else {
      assert group[..i] == group;
    }
  }

  lemma {:induction false} ReadBlocksFails(h: Hash, ans: Answers, locs: seq<Location>, idx: seq<int>, i: nat)
    requires i <= |idx| && forall k :: k in idx ==> k in BlockIndexes(locs)
    requires ReadBlocks(h, ans, locs, idx[..i]).Failure?
    ensures ReadBlocks(h, ans, locs, idx) == ReadBlocks(h, ans, locs, idx[..i])
  {
    hide BlockIndexes, Group, ReadBlock;
    var n := |idx| - 1;
    if i <= n {
      assert idx[..n][..i] == idx[..i];
      ReadBlocksFails(h, ans, locs, idx[..n], i);
    } else {
      assert idx[..i] == idx;
    }
  }

  // Sorting the block indexes.

  /** Sorting indexes that are all different enumerates their set. */
  lemma SortedEnumerates(s: seq<int>, r: seq<int>, all: set<int>)
    requires Ascending(r) && multiset(r) == multiset(s) && Distinct(s)
    requires forall x :: x in all <==> x in s
    ensures Enumerates(r, all)
  {
    PermutationStaysDistinct(s, r);
    forall x ensures x in all <==> x in r {
      assert x in multiset(s) <==> x in multiset(r);
    }
  }

  lemma NextGroup(locs: seq<Location>, i: nat)
    requires i < |locs|
    ensures BlockIndexes(locs[..i + 1]) == BlockIndexes(locs[..i]) + {locs[i].row.blockIndex}
    ensures forall k ::
      Group(locs[..i + 1], k) ==
        if locs[i].row.blockIndex == k then Group(locs[..i], k) + [locs[i]] else Group(locs[..i], k)
  {
    assert locs[..i + 1] == locs[..i] + [locs[i]];
    assert locs[..i + 1][..i] == locs[..i];
  }

  lemma NoGroup(locs: seq<Location>, k: int)
    requires k !in BlockIndexes(locs)
    ensures Group(locs, k) == []
  {}
}
