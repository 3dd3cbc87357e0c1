/** Exactly when a commit keeps a disc within its capacity, or within any bound beyond it,
    whatever other uploads run at the same time. */
module Headroom {
  import opened Catalog
  import opened Tiling
  import opened Placement
  import opened Ledger
  import opened UploadProtocol
  import opened CommitSafety
  import opened Accounting
  import RS = ReedSolomon

  const SHARD_MB := SHARD_BYTES / BYTES_PER_MB

  // What an upload brings to a disc.

  function CountOn(rows: seq<Row>, d: Id): nat {
    if rows == [] then 0
    else CountOn(rows[..|rows| - 1], d) + if rows[|rows| - 1].disc == d then 1 else 0
  }

  function StripeRows(up: Upload): seq<Row> {
    var n := RS.TOTAL_SHARDS * FullBlocks(|up.data|);
    if n <= |up.rows| then up.rows[..n] else up.rows
  }

  /** How many shards of the upload are on the disc. */
  function ShardsOn(up: Upload, d: Id): nat {
    CountOn(StripeRows(up), d)
  }

  /** The bytes of the upload's last chunk, if that is on the disc and not a shard. */
  function TailOn(up: Upload, d: Id): nat {
    var n := RS.TOTAL_SHARDS * FullBlocks(|up.data|);
    if n < |up.rows| && up.rows[n].disc == d then up.rows[n].size else 0
  }

  lemma {:induction false} EqualSizes(rows: seq<Row>, d: Id, size: nat)
    requires forall i :: 0 <= i < |rows| ==> rows[i].size == size
    ensures DiscSum(rows, d) == CountOn(rows, d) * size
  {
    if rows != [] {
      EqualSizes(rows[..|rows| - 1], d, size);
    }
  }

  lemma LoadIs(h: Hash, top: Topology, files: Files, nextId: Id, u: Id, up: Upload, d: Id)
    requires UploadOk(h, top, files, nextId, u, up) && |up.rows| == PieceCount(|up.data|)
    ensures DiscSum(up.rows, d) == ShardsOn(up, d) * SHARD_BYTES + TailOn(up, d)
    ensures ShardsOn(up, d) <= FullBlocks(|up.data|)
  {
    hide UploadOk, DiscSum, CountOn, FullBlocks, PieceCount, Hosts;
    UploadLoad(h, top, files, nextId, u, up, d);
    StripesFit(|up.data|);
    assert StripeRows(up) == up.rows[..RS.TOTAL_SHARDS * FullBlocks(|up.data|)];
    EqualSizes(StripeRows(up), d, SHARD_BYTES);
    Factor(ShardsOn(up, d), FullBlocks(|up.data|));
  }

  lemma StripesFit(size: nat)
    ensures RS.TOTAL_SHARDS * FullBlocks(size) <= PieceCount(size)
  {}

  lemma Factor(a: nat, b: nat)
    ensures a * SHARD_BYTES <= b * SHARD_BYTES ==> a <= b
  {}

  // The arithmetic of rounded megabytes.

  function CeilMB(n: int): int {
    -((-n) / BYTES_PER_MB)
  }

  /** By the ledger, the disc can take the shards and the tail and end at most the given
      number of bytes beyond its capacity. */
  predicate HasRoom(disc: Disc, shards: nat, tail: nat, over: nat) {
    disc.capacityMB - disc.usedMB >= shards * SHARD_MB + CeilMB(disc.usedBytes % BYTES_PER_MB + tail - over)
  }

  lemma RoomIsExact(disc: Disc, shards: nat, tail: nat, over: nat)
    requires disc.usedMB == disc.usedBytes / BYTES_PER_MB
    ensures HasRoom(disc, shards, tail, over) <==>
      disc.usedBytes + (shards * SHARD_BYTES + tail) <= disc.capacityMB * BYTES_PER_MB + over
  {
    hide CeilMB;
    var n, k := disc.usedBytes % BYTES_PER_MB + tail - over, disc.capacityMB - disc.usedMB - shards * SHARD_MB;
    CeilAtMost(n, k);
    assert disc.usedBytes == disc.usedMB * BYTES_PER_MB + disc.usedBytes % BYTES_PER_MB;
    assert SHARD_BYTES == 4 * BYTES_PER_MB && SHARD_MB == 4;
  }

  /** Room within the capacity: as many free megabytes as the shards have, and as it takes
      to hold the tail along with what is used beyond whole megabytes. */
  lemma RoomForCapacity(disc: Disc, shards: nat, tail: nat)
    ensures HasRoom(disc, shards, tail, 0) <==>
      disc.capacityMB - disc.usedMB >= shards * 4 + RequiredMB(disc.usedBytes % BYTES_PER_MB + tail)
  {}

  /** The most that a disc may have beyond its capacity within the bound for stores one
      after the other. */
  function Beyond(blocks: nat): nat {
    BYTES_PER_MB + blocks * SHARD_BYTES - 1
  }

  /** Room within the bound: shards that are not on the disc count in its favour. */
  lemma RoomForBound(disc: Disc, shards: nat, tail: nat, blocks: nat)
    ensures HasRoom(disc, shards, tail, Beyond(blocks)) <==>
      disc.capacityMB - disc.usedMB + 4 * (blocks - shards) >= (disc.usedBytes % BYTES_PER_MB + tail) / BYTES_PER_MB
  {
    hide CeilMB;
    var x, k := disc.usedBytes % BYTES_PER_MB + tail, disc.capacityMB - disc.usedMB - shards * SHARD_MB;
    var above := k + 4 * blocks + 1;
    assert SHARD_BYTES == 4 * BYTES_PER_MB && SHARD_MB == 4;
    CeilAtMost(x - Beyond(blocks), k);
    assert x - Beyond(blocks) <= k * BYTES_PER_MB <==> x < above * BYTES_PER_MB;
    FloorBelow(x, above);
  }

  lemma CeilAtMost(n: int, k: int)
    ensures CeilMB(n) <= k <==> n <= k * BYTES_PER_MB
  {}

  lemma FloorBelow(n: int, k: int)
    ensures n / BYTES_PER_MB < k <==> n < k * BYTES_PER_MB
  {}

  // One commit.

  lemma CommitFitsExactly(h: Hash, w: World, u: Id, d: Id, over: nat)
    requires Consistent(h, w) && Enabled(w, Commit(u)) && d in w.top.discs
    ensures var disc, up, top := w.top.discs[d], w.uploads[u], Apply(h, w, Commit(u)).top;
      && d in top.discs
      && top.discs[d].usedBytes == disc.usedBytes + DiscSum(up.rows, d) >= DiscSum(up.rows, d)
      && top.discs[d].capacityMB == disc.capacityMB
      && (top.discs[d].usedBytes <= disc.capacityMB * BYTES_PER_MB + over <==>
            HasRoom(disc, ShardsOn(up, d), TailOn(up, d), over))
  {
    hide PieceCount, FullBlocks, UploadOk, IsCluster, KeysOk, CatalogOk, FilesOk, Charge, DiscSum, HasRoom, ShardsOn,
      TailOn;
    NotEmpty(h, w, u);
    var disc, up := w.top.discs[d], w.uploads[u];
    LoadIs(h, w.top, w.files, w.nextId, u, up, d);
    ChargedBytes(w.top, up.rows, d);
    RoomIsExact(disc, ShardsOn(up, d), TailOn(up, d), over);
  }

  /** A commit at any point of any run, among any other uploads. With s shards and a tail
      of t bytes on the disc, it stays within capacity, and below the bound for stores
      one after the other, exactly if the ledger leaves room for them. */
  lemma CommitStaysWithin(h: Hash, w0: World, steps: seq<Step>, w: World, u: Id, d: Id)
    requires Fresh(w0) && Leads(h, w0, steps, w) && Enabled(w, Commit(u)) && d in w.top.discs
    ensures d in Apply(h, w, Commit(u)).top.discs
    ensures var up, disc, used := w.uploads[u], w.top.discs[d], Apply(h, w, Commit(u)).top.discs[d].usedBytes;
      var s, t, full := ShardsOn(up, d), TailOn(up, d), FullBlocks(|up.data|);
      && DiscSum(up.rows, d) == s * (4 * 1024 * 1024) + t && s <= full
      && (used <= disc.capacityMB * (1024 * 1024) <==>
            disc.capacityMB - disc.usedMB >= s * 4 + RequiredMB(disc.usedBytes % (1024 * 1024) + t))
      && (used < (disc.capacityMB + 1) * (1024 * 1024) + full * (4 * 1024 * 1024) <==>
            disc.capacityMB - disc.usedMB + 4 * (full - s) >= (disc.usedBytes % (1024 * 1024) + t) / (1024 * 1024))
  {
    hide Run, Legal, UploadOk, IsCluster, KeysOk, CatalogOk, FilesOk, Balanced, Charge, DiscSum, FullBlocks, PieceCount,
      HasRoom, ShardsOn, TailOn, RequiredMB;
    FreshIsConsistent(h, w0);
    RunKeepsConsistent(h, w0, steps);
    NotEmpty(h, w, u);
    var up, disc := w.uploads[u], w.top.discs[d];
    var s, t, full := ShardsOn(up, d), TailOn(up, d), FullBlocks(|up.data|);
    LoadIs(h, w.top, w.files, w.nextId, u, up, d);
    CommitFitsExactly(h, w, u, d, 0);
    CommitFitsExactly(h, w, u, d, Beyond(full));
    RoomForCapacity(disc, s, t);
    RoomForBound(disc, s, t, full);
  }

  // Runs.

  /** No used disc has more than the given number of bytes beyond its capacity. */
  predicate AllWithin(top: Topology, over: nat) {
    forall d :: d in top.discs && top.discs[d].usedBytes > 0 ==>
      top.discs[d].usedBytes <= top.discs[d].capacityMB * BYTES_PER_MB + over
  }

  ghost predicate CommitHasRoom(w: World, u: Id, over: nat)
    requires u in w.uploads
  {
    var up := w.uploads[u];
    forall d :: d in w.top.discs && DiscSum(up.rows, d) > 0 ==>
      HasRoom(w.top.discs[d], ShardsOn(up, d), TailOn(up, d), over)
  }

  /** Whenever an upload commits, the discs that it is charged to have room. */
  ghost predicate RoomAtCommits(h: Hash, w: World, steps: seq<Step>, over: nat)
    requires Legal(h, w, steps)
    decreases |steps|
  {
    steps == [] ||
      (&& (steps[0].Commit? ==> CommitHasRoom(w, steps[0].u, over))
       && RoomAtCommits(h, Apply(h, w, steps[0]), steps[1..], over))
  }

  /** Usage never goes down. */
  predicate UsesMore(a: Topology, b: Topology) {
    a.discs.Keys == b.discs.Keys &&
    forall d :: d in a.discs ==>
      b.discs[d].usedBytes >= a.discs[d].usedBytes && b.discs[d].capacityMB == a.discs[d].capacityMB
  }

  lemma StepUsesMore(h: Hash, w: World, step: Step)
    requires Enabled(w, step)
    ensures UsesMore(w.top, Apply(h, w, step).top)
  {
    hide UsesMore, Charge;
    if step.Commit? {
      ChargedAll(w.top, w.uploads[step.u].rows);
    } else {
      OtherStepsChargeNothing(h, w, step);
      SameUse(w.top);
    }
  }

  lemma SameUse(top: Topology)
    ensures UsesMore(top, top)
  {}

  lemma ChargedAll(top: Topology, rows: seq<Row>)
    ensures UsesMore(top, Charge(top, rows))
  {
    hide DiscSum, WorkerSum, Charge;
    ChargeKeepsShape(top, rows);
    forall d | d in top.discs
      ensures d in Charge(top, rows).discs
      ensures Charge(top, rows).discs[d].usedBytes >= top.discs[d].usedBytes
      ensures Charge(top, rows).discs[d].capacityMB == top.discs[d].capacityMB
    {
      ChargedBytes(top, rows, d);
    }
  }

  lemma {:induction false} RunUsesMore(h: Hash, w: World, steps: seq<Step>)
    requires Legal(h, w, steps)
    ensures UsesMore(w.top, Run(h, w, steps).top)
    decreases |steps|
  {
    hide Apply, Enabled;
    if steps != [] {
      StepUsesMore(h, w, steps[0]);
      RunUsesMore(h, Apply(h, w, steps[0]), steps[1..]);
    }
  }

  lemma CommitWithinExactly(h: Hash, w: World, u: Id, over: nat)
    requires Consistent(h, w) && Enabled(w, Commit(u)) && AllWithin(w.top, over)
    ensures AllWithin(Apply(h, w, Commit(u)).top, over) <==> CommitHasRoom(w, u, over)
  {
    hide Apply, Consistent, HasRoom, ShardsOn, TailOn, DiscSum;
    var top, up := Apply(h, w, Commit(u)).top, w.uploads[u];
    StepUsesMore(h, w, Commit(u));
    forall d | d in w.top.discs
      ensures DiscSum(up.rows, d) == 0 ==> top.discs[d].usedBytes == w.top.discs[d].usedBytes
      ensures DiscSum(up.rows, d) > 0 ==> top.discs[d].usedBytes > 0
      ensures top.discs[d].usedBytes <= w.top.discs[d].capacityMB * BYTES_PER_MB + over <==>
        HasRoom(w.top.discs[d], ShardsOn(up, d), TailOn(up, d), over)
    {
      CommitFitsExactly(h, w, u, d, over);
    }
  }

  lemma OtherStepsChargeNothing(h: Hash, w: World, step: Step)
    requires Enabled(w, step) && !step.Commit?
    ensures Apply(h, w, step).top == w.top
  {}

  lemma {:induction false} WithinExactly(h: Hash, w: World, steps: seq<Step>, over: nat)
    requires Consistent(h, w) && Legal(h, w, steps) && AllWithin(w.top, over)
    ensures AllWithin(Run(h, w, steps).top, over) <==> RoomAtCommits(h, w, steps, over)
    decreases |steps|
  {
    hide Consistent, Apply, CommitHasRoom;
    if steps != [] {
      var w1 := Apply(h, w, steps[0]);
      StepKeepsConsistent(h, w, steps[0]);
      if steps[0].Commit? {
        CommitWithinExactly(h, w, steps[0].u, over);
      } else {
        OtherStepsChargeNothing(h, w, steps[0]);
      }
      if AllWithin(w1.top, over) {
        WithinExactly(h, w1, steps[1..], over);
      } else {
        RunUsesMore(h, w1, steps[1..]);
      }
    }
  }

  /** For every run of uploads at the same time: used space is within capacity at the end
      exactly if at every commit the discs had room for it. */
  lemma CapacityIsKeptExactly(h: Hash, w0: World, steps: seq<Step>, w: World)
    requires Fresh(w0) && Leads(h, w0, steps, w)
    ensures (forall d :: d in w.top.discs && w.top.discs[d].usedBytes > 0 ==>
      w.top.discs[d].usedBytes <= w.top.discs[d].capacityMB * (1024 * 1024)) <==> RoomAtCommits(h, w0, steps, 0)
  {
    hide Run, Legal, Consistent, IsCluster, RoomAtCommits;
    FreshIsConsistent(h, w0);
    NothingUsed(w0, 0);
    WithinExactly(h, w0, steps, 0);
  }

  /** For every run of uploads at the same time: the bound for stores one after the other
      holds exactly if at every commit the discs had room within it. */
  lemma SequentialBoundExactly(h: Hash, w0: World, steps: seq<Step>, w: World, blocks: nat)
    requires Fresh(w0) && Leads(h, w0, steps, w)
    ensures (forall d :: d in w.top.discs && w.top.discs[d].usedBytes > 0 ==>
      w.top.discs[d].usedBytes < (w.top.discs[d].capacityMB + 1) * (1024 * 1024) + blocks * (4 * 1024 * 1024)) <==>
      RoomAtCommits(h, w0, steps, Beyond(blocks))
  {
    hide Run, Legal, Consistent, IsCluster, RoomAtCommits;
    FreshIsConsistent(h, w0);
    NothingUsed(w0, Beyond(blocks));
    WithinExactly(h, w0, steps, Beyond(blocks));
  }

  lemma NothingUsed(w: World, over: nat)
    requires Fresh(w)
    ensures AllWithin(w.top, over)
  {
    hide KeysOk, IsCluster;
  }

  // A single chunk.

  /** The arithmetic of one chunk that fits by the rounded ledger. */
  lemma RoundedFit(used: nat, capacityMB: int, size: nat)
    requires size > 0 && capacityMB - used / BYTES_PER_MB >= RequiredMB(size)
    ensures capacityMB - used / BYTES_PER_MB >= RequiredMB(used % BYTES_PER_MB + size) <==>
      || capacityMB - used / BYTES_PER_MB > RequiredMB(size)
      || used % BYTES_PER_MB + size <= RequiredMB(size) * BYTES_PER_MB
  {}

  /** When a store of a single chunk keeps within capacity, among stores one after the
      other: exactly if a megabyte is to spare when it selects, or what is used beyond
      whole megabytes fits in what the chunk leaves of its last one. */
  lemma SingleChunkStaysWithin(h: Hash, w0: World, steps: seq<Step>, w: World, blocks: nat, u: Id)
    requires Fresh(w0) && Leads(h, w0, steps, w) && Sequential(h, w0, steps, blocks)
    requires Enabled(w, Commit(u)) && |w.uploads[u].rows| == 1
    ensures var row, top := w.uploads[u].rows[0], Apply(h, w, Commit(u)).top;
      && row.disc in w.top.discs && row.disc in top.discs
      && var disc := w.top.discs[row.disc];
      (top.discs[row.disc].usedBytes <= disc.capacityMB * BYTES_PER_MB <==>
        || disc.capacityMB - disc.usedMB > RequiredMB(row.size)
        || disc.usedBytes % BYTES_PER_MB + row.size <= RequiredMB(row.size) * BYTES_PER_MB)
  {
    hide Run, Legal, Sequential, IsCluster, KeysOk, CatalogOk, Charge, PieceAt, RequiredMB;
    FreshIsConsistent(h, w0);
    FreshIsBounded(w0, blocks);
    RunKeepsConsistent(h, w0, steps);
    RunIsBounded(h, w0, steps, blocks);
    SingleRow(h, w, u);
    assert IsRunning(w, u);
    var row := w.uploads[u].rows[0];
    assert Fits(w.top, row.disc, row.size);
    CommitStaysWithin(h, w0, steps, w, u, row.disc);
    var disc := w.top.discs[row.disc];
    RoundedFit(disc.usedBytes, disc.capacityMB, row.size);
  }

  lemma GuardAtCommit(disc: Disc, size: nat)
    requires size > 0
    ensures disc.capacityMB - disc.usedMB >= (disc.usedBytes % BYTES_PER_MB + size) / BYTES_PER_MB <==>
      || disc.capacityMB - disc.usedMB >= RequiredMB(size)
      || (&& disc.capacityMB - disc.usedMB == RequiredMB(size) - 1
          && disc.usedBytes % BYTES_PER_MB + size < RequiredMB(size) * BYTES_PER_MB)
  {}

  /** A single chunk at any point of any run: the disc ends below its capacity plus 1MB
      exactly if the guard of the selection still holds at the commit, or fails by one
      megabyte that the rounding covers. */
  lemma SingleChunkBoundExactly(h: Hash, w0: World, steps: seq<Step>, w: World, u: Id)
    requires Fresh(w0) && Leads(h, w0, steps, w) && Enabled(w, Commit(u)) && |w.uploads[u].rows| == 1
    ensures var row, top := w.uploads[u].rows[0], Apply(h, w, Commit(u)).top;
      && row.disc in w.top.discs && row.disc in top.discs
      && var disc := w.top.discs[row.disc];
      (top.discs[row.disc].usedBytes < (disc.capacityMB + 1) * (1024 * 1024) <==>
        || Fits(w.top, row.disc, row.size)
        || (&& disc.capacityMB - disc.usedMB == RequiredMB(row.size) - 1
            && disc.usedBytes % (1024 * 1024) + row.size < RequiredMB(row.size) * (1024 * 1024)))
  {
    hide Run, Legal, Consistent, Apply, PieceCount, RequiredMB, ShardsOn, TailOn, FullBlocks, DiscSum;
    FreshIsConsistent(h, w0);
    RunKeepsConsistent(h, w0, steps);
    SingleRow(h, w, u);
    var row := w.uploads[u].rows[0];
    CommitStaysWithin(h, w0, steps, w, u, row.disc);
    GuardAtCommit(w.top.discs[row.disc], row.size);
  }

  lemma SingleRow(h: Hash, w: World, u: Id)
    requires Consistent(h, w) && Enabled(w, Commit(u)) && |w.uploads[u].rows| == 1
    ensures var up := w.uploads[u];
      && up.rows[0].disc in w.top.discs && up.rows[0].size > 0
      && FullBlocks(|up.data|) == 0 && ShardsOn(up, up.rows[0].disc) == 0
      && TailOn(up, up.rows[0].disc) == up.rows[0].size
  {
    hide IsCluster, KeysOk, CatalogOk, FilesOk, Balanced;
    NotEmpty(h, w, u);
    var up := w.uploads[u];
    PiecePlace(up.data, 0);
    hide PieceAt, StripesApart, TargetsOk;
    assert RowStored(h, w.top, w.files, u, up.rows[0], PieceAt(up.data, 0));
  }
}
