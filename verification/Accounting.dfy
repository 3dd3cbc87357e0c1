/** The usage ledger over whole runs: it always agrees with the catalog, and one store
    after the other overcommits a disc by a bounded amount at most. */
module Accounting {
  import opened Gf256
  import opened Catalog
  import opened Tiling
  import opened Placement
  import opened Ledger
  import opened ReadPath
  import opened UploadProtocol
  import opened CommitSafety
  import RS = ReedSolomon

  // Conservation.

  lemma CataloguedRowIsServed(h: Hash, w: World, k: nat)
    requires Consistent(h, w) && k < |w.rows|
    ensures Served(w.top, w.rows[k])
  {
    hide PieceAt, PieceCount, RowMatches, Fetch, StripesApart, TargetsOk, KeysOk, IsCluster, Balanced;
    var v := w.rows[k].blob;
    RowsOfHas(w.rows, k);
    assert UploadOk(h, w.top, w.files, w.nextId, v, w.uploads[v]);
    var i :| 0 <= i < |w.uploads[v].rows| && w.uploads[v].rows[i] == w.rows[k];
    assert RowStored(h, w.top, w.files, v, w.rows[k], PieceAt(w.uploads[v].data, i));
  }

  /** In every reachable world, for every disc and every worker: the bytes used are
      those of the catalogued chunks, the megabytes are the bytes rounded down, and a
      worker's bytes are those of the discs of its machines. */
  lemma LedgerIsConserved(h: Hash, w0: World, steps: seq<Step>, w: World)
    requires Fresh(w0) && Leads(h, w0, steps, w)
    ensures Balanced(w.top, w.rows)
    ensures forall x :: x in w.top.workers ==>
      w.top.workers[x].usedBytes == SumOver((d: Id) => UsedBytes(w.top, d), DiscsBehind(w.top, x))
  {
    hide Run, Legal, Fresh, UploadsOk, KeysOk, CatalogOk, IsCluster, Balanced, DiscsBehind;
    FreshIsConsistent(h, w0);
    RunKeepsConsistent(h, w0, steps);
    forall k | 0 <= k < |w.rows| ensures Served(w.top, w.rows[k]) {
      CataloguedRowIsServed(h, w, k);
    }
    forall x | x in w.top.workers
      ensures w.top.workers[x].usedBytes == SumOver((d: Id) => UsedBytes(w.top, d), DiscsBehind(w.top, x))
    {
      WorkersBalanceDiscs(w.top, w.rows, x);
    }
  }

  // Overcommitment.

  const SHARD_BYTES := BLOCK_SIZE / RS.DATA_SHARDS

  /** At least the space that placement asks for is free. */
  predicate Fits(top: Topology, d: Id, size: nat) {
    d in top.discs && FreeMB(top, d) >= RequiredMB(size)
  }

  predicate Bounded(disc: Disc, blocks: nat) {
    disc.usedBytes > 0 ==> disc.usedBytes < (disc.capacityMB + 1) * BYTES_PER_MB + blocks * SHARD_BYTES
  }

  /** The upload ships to discs with enough space, by the ledger as it is now. */
  ghost predicate Frugal(top: Topology, up: Upload, blocks: nat) {
    && FullBlocks(|up.data|) <= blocks
    && (forall i :: 0 <= i < |up.rows| ==> Fits(top, up.rows[i].disc, up.rows[i].size))
    && (|up.rows| < PieceCount(|up.data|) ==>
          forall t :: t in up.targets ==> Fits(top, t.disc, |PieceAt(up.data, |up.rows|).bytes|))
  }

  ghost predicate AllBounded(w: World, blocks: nat) {
    && (forall d :: d in w.top.discs ==> Bounded(w.top.discs[d], blocks))
    && (forall u :: IsRunning(w, u) ==> Frugal(w.top, w.uploads[u], blocks))
    && (forall u, v :: IsRunning(w, u) && IsRunning(w, v) ==> u == v)
  }

  /** No upload starts before the previous one has ended, and none has more than the
      given number of full blocks. */
  ghost predicate Sequential(h: Hash, w: World, steps: seq<Step>, blocks: nat)
    requires Legal(h, w, steps)
    decreases |steps|
  {
    steps == [] ||
      (&& (steps[0].Start? ==> FullBlocks(|steps[0].data|) <= blocks && forall u :: !IsRunning(w, u))
       && Sequential(h, Apply(h, w, steps[0]), steps[1..], blocks))
  }

  predicate Hosts(rows: seq<Row>, lo: nat, hi: nat, d: Id)
    requires hi <= |rows|
  {
    exists i :: lo <= i < hi && rows[i].disc == d
  }

  lemma NextRow(rows: seq<Row>, n: nat, d: Id)
    requires n < |rows|
    ensures DiscSum(rows[..n + 1], d) == DiscSum(rows[..n], d) + if rows[n].disc == d then rows[n].size else 0
  {
    assert rows[..n + 1][..n] == rows[..n];
  }

  /** A disc takes at most one shard of a stripe. */
  lemma {:induction false} ShardsOfStripe(data: seq<Byte>, rows: seq<Row>, first: nat, n: nat, d: Id)
    requires StripesApart(data, rows) && first % RS.TOTAL_SHARDS == 0
    requires first <= n <= first + RS.TOTAL_SHARDS <= RS.TOTAL_SHARDS * FullBlocks(|data|) && n <= |rows|
    requires forall i :: 0 <= i < n ==> rows[i].size == SHARD_BYTES
    ensures DiscSum(rows[..n], d) == DiscSum(rows[..first], d) + if Hosts(rows, first, n, d) then SHARD_BYTES else 0
  {
    hide DiscSum, FullBlocks, StripesApart;
    if n > first {
      ShardsOfStripe(data, rows, first, n - 1, d);
      NextRow(rows, n - 1, d);
      if rows[n - 1].disc == d && Hosts(rows, first, n - 1, d) {
        var i :| first <= i < n - 1 && rows[i].disc == d;
        ApartInStripe(data, rows, first, i, n - 1);
        assert false;
      }
      assert Hosts(rows, first, n, d) <==> rows[n - 1].disc == d || Hosts(rows, first, n - 1, d);
    }
  }

  lemma ApartInStripe(data: seq<Byte>, rows: seq<Row>, first: nat, i: nat, j: nat)
    requires StripesApart(data, rows) && first % RS.TOTAL_SHARDS == 0 && first <= i < j < first + RS.TOTAL_SHARDS
    requires j < |rows| && j < RS.TOTAL_SHARDS * FullBlocks(|data|)
    ensures rows[i].disc != rows[j].disc
  {}

  lemma {:induction false} ShardsOfStripes(data: seq<Byte>, rows: seq<Row>, j: nat, d: Id)
    requires StripesApart(data, rows) && j <= FullBlocks(|data|) && RS.TOTAL_SHARDS * j <= |rows|
    requires forall i :: 0 <= i < RS.TOTAL_SHARDS * j ==> rows[i].size == SHARD_BYTES
    ensures DiscSum(rows[..RS.TOTAL_SHARDS * j], d) <= j * SHARD_BYTES
    ensures DiscSum(rows[..RS.TOTAL_SHARDS * j], d) > 0 ==> Hosts(rows, 0, RS.TOTAL_SHARDS * j, d)
  {
    hide FullBlocks, StripesApart;
    if j > 0 {
      hide DiscSum;
      var first, n := RS.TOTAL_SHARDS * (j - 1), RS.TOTAL_SHARDS * j;
      ShardsOfStripes(data, rows, j - 1, d);
      ShardsOfStripe(data, rows, first, n, d);
      assert Hosts(rows, 0, first, d) || Hosts(rows, first, n, d) ==> Hosts(rows, 0, n, d);
      assert j * SHARD_BYTES == (j - 1) * SHARD_BYTES + SHARD_BYTES;
    }
  }

  /** What a complete upload brings to a disc: a shard per stripe at most, and the tail. */
  lemma UploadLoad(h: Hash, top: Topology, files: Files, nextId: Id, u: Id, up: Upload, d: Id)
    requires UploadOk(h, top, files, nextId, u, up) && |up.rows| == PieceCount(|up.data|)
    ensures var full := FullBlocks(|up.data|);
      var stripes := RS.TOTAL_SHARDS * full;
      && (forall i :: 0 <= i < stripes ==> up.rows[i].size == SHARD_BYTES)
      && DiscSum(up.rows[..stripes], d) <= full * SHARD_BYTES
      && (DiscSum(up.rows[..stripes], d) > 0 ==> Hosts(up.rows, 0, stripes, d))
      && DiscSum(up.rows, d) == DiscSum(up.rows[..stripes], d) +
           if |up.rows| > stripes && up.rows[stripes].disc == d then up.rows[stripes].size else 0
  {
    hide PieceAt, StripesApart, TargetsOk, FullBlocks, RowStored, DiscSum;
    var stripes := RS.TOTAL_SHARDS * FullBlocks(|up.data|);
    forall i | 0 <= i < stripes ensures up.rows[i].size == SHARD_BYTES {
      ShardSize(up.data, i);
      StoredSize(h, top, files, u, up.rows[i], PieceAt(up.data, i));
    }
    ShardsOfStripes(up.data, up.rows, FullBlocks(|up.data|), d);
    if |up.rows| == stripes {
      assert up.rows[..stripes] == up.rows;
    } else {
      assert |up.rows| == stripes + 1 && up.rows[..stripes + 1] == up.rows;
      NextRow(up.rows, stripes, d);
    }
  }

  lemma StoredSize(h: Hash, top: Topology, files: Files, u: Id, row: Row, p: Piece)
    requires RowStored(h, top, files, u, row, p)
    ensures row.size == |p.bytes|
  {}

  /** What a disc has after it was charged. */
  lemma ChargedBytes(top: Topology, rows: seq<Row>, d: Id)
    requires d in top.discs
    ensures d in Charge(top, rows).discs
    ensures var disc := Charge(top, rows).discs[d];
      disc.usedBytes == top.discs[d].usedBytes + DiscSum(rows, d) && disc.capacityMB == top.discs[d].capacityMB
  {}

  /** The arithmetic: what fits by the rounded ledger, and a shard per stripe. */
  lemma LoadBound(disc: Disc, stripes: nat, tail: nat, blocks: nat)
    requires disc.usedMB == disc.usedBytes / BYTES_PER_MB && stripes <= blocks * SHARD_BYTES
    requires if tail > 0 then disc.capacityMB - disc.usedMB >= RequiredMB(tail)
             else disc.capacityMB - disc.usedMB >= RequiredMB(SHARD_BYTES)
    ensures disc.usedBytes + stripes + tail < (disc.capacityMB + 1) * BYTES_PER_MB + blocks * SHARD_BYTES
  {}

  /** A disc that a complete upload brought bytes to ends below its capacity, plus 1MB,
      plus 4MB for every full block of the file. */
  lemma CommitBound(h: Hash, w: World, u: Id, d: Id)
    requires u in w.uploads && UploadOk(h, w.top, w.files, w.nextId, u, w.uploads[u]) && Balanced(w.top, w.rows)
    requires |w.uploads[u].rows| == PieceCount(|w.uploads[u].data|)
    requires Frugal(w.top, w.uploads[u], FullBlocks(|w.uploads[u].data|))
    requires d in w.top.discs && DiscSum(w.uploads[u].rows, d) > 0
    ensures var disc := Charge(w.top, w.uploads[u].rows).discs[d];
      disc.usedBytes < (disc.capacityMB + 1) * BYTES_PER_MB + FullBlocks(|w.uploads[u].data|) * SHARD_BYTES
  {
    hide PieceAt, FullBlocks, UploadOk, DiscSum, WorkerSum, RequiredMB, Charge;
    var up, disc := w.uploads[u], w.top.discs[d];
    var full := FullBlocks(|up.data|);
    var stripes := RS.TOTAL_SHARDS * full;
    UploadLoad(h, w.top, w.files, w.nextId, u, up, d);
    ChargedBytes(w.top, up.rows, d);
    var tail := DiscSum(up.rows, d) - DiscSum(up.rows[..stripes], d);
    if tail > 0 {
      assert Fits(w.top, up.rows[stripes].disc, up.rows[stripes].size);
      LoadBound(disc, DiscSum(up.rows[..stripes], d), tail, full);
    } else {
      var i :| 0 <= i < stripes && up.rows[i].disc == d;
      assert Fits(w.top, up.rows[i].disc, up.rows[i].size);
      LoadBound(disc, DiscSum(up.rows[..stripes], d), 0, full);
    }
  }

  /** Selected discs have the space that the chunk needs. */
  lemma SelectedFit(top: Topology, p: Piece, targets: seq<Target>)
    requires Suits(top, p, targets) && (p.shardIndex != SHARD_INDEX_WHOLE ==> p.kind == Block)
    ensures forall t :: t in targets ==> Fits(top, t.disc, |p.bytes|)
  {
    hide NoneEmptier, RequiredMB;
    if p.shardIndex == SHARD_INDEX_WHOLE {
      assert targets == [targets[0]];
    }
  }

  lemma SelectIsFrugal(w: World, u: Id, targets: seq<Target>, blocks: nat)
    requires Enabled(w, Select(u, targets)) && w.uploads[u].data != [] && Frugal(w.top, w.uploads[u], blocks)
    ensures Frugal(w.top, w.uploads[u].(targets := targets), blocks)
  {
    PiecePlace(w.uploads[u].data, |w.uploads[u].rows|);
    hide PieceAt, PieceCount, FullBlocks, Suits, Fits;
    SelectedFit(w.top, NextPiece(w, u), targets);
  }

  /** Within a stripe all chunks have the same size. */
  lemma NextShardSize(data: seq<Byte>, n: nat)
    requires data != [] && n + 1 < PieceCount(|data|) && !EndsBlock(PieceAt(data, n))
    ensures |PieceAt(data, n + 1).bytes| == |PieceAt(data, n).bytes|
  {
    hide PieceAt, FullBlocks, PieceCount;
    PiecePlace(data, n);
    InnerShard(n, RS.TOTAL_SHARDS * FullBlocks(|data|));
    ShardSize(data, n);
    ShardSize(data, n + 1);
  }

  lemma InnerShard(n: nat, full: nat)
    requires n < full && full % RS.TOTAL_SHARDS == 0 && n % RS.TOTAL_SHARDS != RS.TOTAL_SHARDS - 1
    ensures n + 1 < full
  {}

  lemma PushIsFrugal(h: Hash, w: World, u: Id, blocks: nat)
    requires CanPush(w, u) && w.uploads[u].data != [] && Frugal(w.top, w.uploads[u], blocks)
    ensures Frugal(w.top, Apply(h, w, Push(u)).uploads[u], blocks)
  {
    hide PieceAt, PieceCount, FullBlocks, Written, OffsetOf, KeyFor, Fits, EndsBlock, TargetIndex;
    var up := w.uploads[u];
    if |up.rows| + 1 < PieceCount(|up.data|) && !EndsBlock(NextPiece(w, u)) {
      NextShardSize(up.data, |up.rows|);
    }
    assert NextTarget(w, u) in up.targets;
  }

  lemma NotEmpty(h: Hash, w: World, u: Id)
    requires Consistent(h, w) && u in w.uploads
    ensures w.uploads[u].data != [] && UploadOk(h, w.top, w.files, w.nextId, u, w.uploads[u])
  {}

  lemma FrugalForItsSize(top: Topology, up: Upload, blocks: nat)
    requires Frugal(top, up, blocks)
    ensures FullBlocks(|up.data|) <= blocks && Frugal(top, up, FullBlocks(|up.data|))
  {}

  lemma CommitIsBounded(h: Hash, w: World, u: Id, blocks: nat)
    requires Consistent(h, w) && Enabled(w, Commit(u)) && AllBounded(w, blocks)
    ensures AllBounded(Apply(h, w, Commit(u)), blocks)
  {
    hide PieceAt, PieceCount, UploadOk, IsCluster, KeysOk, CatalogOk, Balanced, FilesOk, Frugal, Charge, DiscSum,
      FullBlocks;
    var w', up := Apply(h, w, Commit(u)), w.uploads[u];
    ChargeKeepsShape(w.top, up.rows);
    NotEmpty(h, w, u);
    assert forall v :: IsRunning(w', v) ==> IsRunning(w, v) && v != u;
    assert IsRunning(w, u);
    FrugalForItsSize(w.top, up, blocks);
    forall d | d in w.top.discs
      ensures d in Charge(w.top, up.rows).discs && Bounded(Charge(w.top, up.rows).discs[d], blocks)
    {
      ChargedBytes(w.top, up.rows, d);
      if DiscSum(up.rows, d) > 0 {
        CommitBound(h, w, u, d);
        assert FullBlocks(|up.data|) * SHARD_BYTES <= blocks * SHARD_BYTES;
      }
    }
  }

  lemma StepIsBounded(h: Hash, w: World, step: Step, blocks: nat)
    requires Consistent(h, w) && Enabled(w, step) && AllBounded(w, blocks)
    requires step.Start? ==> FullBlocks(|step.data|) <= blocks && forall u :: !IsRunning(w, u)
    ensures AllBounded(Apply(h, w, step), blocks)
  {
    hide Consistent, PieceAt, PieceCount, FullBlocks, Frugal, Bounded, Suits, CanPush, Written, FilesOk;
    match step
    case Start(data) =>
      StartIsFrugal(w.top, data, blocks);
      forall u | IsRunning(Apply(h, w, step), u) ensures u == w.nextId {
        assert !IsRunning(w, u);
      }
    case Select(u, targets) =>
      NotEmpty(h, w, u);
      SelectIsFrugal(w, u, targets, blocks);
      OthersStayFrugal(w, Apply(h, w, step), u, blocks);
    case Push(u) =>
      PushRuns(w, u);
      NotEmpty(h, w, u);
      PushIsFrugal(h, w, u, blocks);
      OthersStayFrugal(w, Apply(h, w, step), u, blocks);
    case PushFails(u, written) =>
      PushRuns(w, u);
      OthersStayFrugal(w, Apply(h, w, step), u, blocks);
    case Commit(u) =>
      CommitIsBounded(h, w, u, blocks);
    case Abort(u) =>
      OthersStayFrugal(w, Apply(h, w, step), u, blocks);
    case Delete(_) =>
      assert forall u :: IsRunning(Apply(h, w, step), u) ==> IsRunning(w, u);
  }

  lemma PushRuns(w: World, u: Id)
    requires CanPush(w, u)
    ensures IsRunning(w, u)
  {}

  lemma OthersStayFrugal(w: World, w': World, u: Id, blocks: nat)
    requires AllBounded(w, blocks) && IsRunning(w, u) && w'.top == w.top
    requires u in w'.uploads && w'.uploads == w.uploads[u := w'.uploads[u]]
    requires IsRunning(w', u) ==> Frugal(w.top, w'.uploads[u], blocks)
    ensures AllBounded(w', blocks)
  {
    hide Frugal, Bounded;
    forall v | IsRunning(w', v) ensures IsRunning(w, v) {}
  }

  lemma StartIsFrugal(top: Topology, data: seq<Byte>, blocks: nat)
    requires FullBlocks(|data|) <= blocks
    ensures Frugal(top, Upload(data, [], [], Running), blocks)
  {}

  lemma FreshIsBounded(w: World, blocks: nat)
    requires Fresh(w)
    ensures AllBounded(w, blocks)
  {
    hide KeysOk, IsCluster;
  }

  lemma {:induction false} RunIsBounded(h: Hash, w: World, steps: seq<Step>, blocks: nat)
    requires Consistent(h, w) && AllBounded(w, blocks) && Legal(h, w, steps) && Sequential(h, w, steps, blocks)
    ensures AllBounded(Run(h, w, steps), blocks)
    decreases |steps|
  {
    hide Consistent, Apply, Enabled, AllBounded;
    if steps != [] {
      StepKeepsConsistent(h, w, steps[0]);
      StepIsBounded(h, w, steps[0], blocks);
      RunIsBounded(h, Apply(h, w, steps[0]), steps[1..], blocks);
    }
  }

  /** Stores that follow one another, each of at most so many full blocks, leave every
      disc that took a chunk below its capacity plus 1MB plus 4MB per block. */
  lemma OvercommitIsBounded(h: Hash, w0: World, steps: seq<Step>, w: World, blocks: nat)
    requires Fresh(w0) && Leads(h, w0, steps, w) && Sequential(h, w0, steps, blocks)
    ensures forall d :: d in w.top.discs && w.top.discs[d].usedBytes > 0 ==>
      w.top.discs[d].usedBytes < (w.top.discs[d].capacityMB + 1) * (1024 * 1024) + blocks * (4 * 1024 * 1024)
  {
    hide Run, Legal, Sequential, Consistent, IsCluster;
    FreshIsConsistent(h, w0);
    FreshIsBounded(w0, blocks);
    RunIsBounded(h, w0, steps, blocks);
  }

  /** The same for each store by itself: in a run of stores one after the other, of
      whatever sizes, the disc that a commit charges ends below its capacity plus 1MB
      plus 4MB for every full block of that very file. */
  lemma EachStoreIsBounded(h: Hash, w0: World, steps: seq<Step>, w: World, blocks: nat, u: Id, d: Id)
    requires Fresh(w0) && Leads(h, w0, steps, w) && Sequential(h, w0, steps, blocks) && Enabled(w, Commit(u))
    requires d in w.top.discs && DiscSum(w.uploads[u].rows, d) > 0
    ensures var top := Apply(h, w, Commit(u)).top;
      && d in top.discs
      && top.discs[d].usedBytes <
           (top.discs[d].capacityMB + 1) * (1024 * 1024) + FullBlocks(|w.uploads[u].data|) * (4 * 1024 * 1024)
  {
    hide Run, Legal, Sequential, UploadOk, IsCluster, KeysOk, CatalogOk, Frugal, Charge, DiscSum, FullBlocks, PieceAt,
      PieceCount;
    FreshIsConsistent(h, w0);
    FreshIsBounded(w0, blocks);
    RunKeepsConsistent(h, w0, steps);
    RunIsBounded(h, w0, steps, blocks);
    NotEmpty(h, w, u);
    assert IsRunning(w, u);
    FrugalForItsSize(w.top, w.uploads[u], blocks);
    ChargedBytes(w.top, w.uploads[u].rows, d);
    CommitBound(h, w, u, d);
  }
}
