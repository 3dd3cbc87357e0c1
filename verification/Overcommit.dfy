/** How far uploads that run at the same time can overcommit a disc, and that they can. */
module Overcommit {
  import opened Gf256
  import opened Catalog
  import opened Sequences
  import opened Tiling
  import opened Placement
  import opened Ledger
  import opened UploadProtocol
  import opened CommitSafety
  import opened Accounting
  import RS = ReedSolomon

  // The bound.

  /** The upload has shipped to the disc, or has selected it. */
  ghost predicate Touches(up: Upload, d: Id) {
    (exists i :: 0 <= i < |up.rows| && up.rows[i].disc == d) || (exists t :: t in up.targets && t.disc == d)
  }

  function Running(w: World): set<Id> {
    set u | u in w.uploads && w.uploads[u].status == Status.Running
  }

  ghost function Holders(w: World, d: Id): set<Id> {
    set u | u in Running(w) && Touches(w.uploads[u], d)
  }

  /** The most that one upload can bring to a disc: a shard per full block, and a tail. */
  function Load(blocks: nat): nat {
    blocks * SHARD_BYTES + BLOCK_SIZE
  }

  /** Every upload that can still charge the disc has its load set aside. */
  ghost predicate Reserved(disc: Disc, holders: nat, n: nat, blocks: nat) {
    holders > 0 || disc.usedBytes > 0 ==>
      disc.usedBytes < disc.capacityMB * BYTES_PER_MB + (n - holders) * Load(blocks)
  }

  ghost predicate AllReserved(w: World, n: nat, blocks: nat) {
    && |Running(w)| <= n
    && (forall u :: u in Running(w) ==> FullBlocks(|w.uploads[u].data|) <= blocks)
    && (forall d :: d in w.top.discs ==> Reserved(w.top.discs[d], |Holders(w, d)|, n, blocks))
  }

  /** At most n uploads run at once, and none has more than the given full blocks. */
  ghost predicate Limited(h: Hash, w: World, steps: seq<Step>, n: nat, blocks: nat)
    requires Legal(h, w, steps)
    decreases |steps|
  {
    steps == [] ||
      (&& (steps[0].Start? ==> FullBlocks(|steps[0].data|) <= blocks && |Running(w)| < n)
       && Limited(h, Apply(h, w, steps[0]), steps[1..], n, blocks))
  }

  lemma FewerHolders(disc: Disc, holders: nat, holders': nat, n: nat, blocks: nat)
    requires Reserved(disc, holders, n, blocks) && holders' <= holders
    ensures Reserved(disc, holders', n, blocks)
  {
    if holders' < holders {
      assert (n - holders') * Load(blocks) >= (n - holders) * Load(blocks);
    }
  }

  /** Steps that leave the ledger as it is and add no holder to any disc. */
  lemma NoNewHolders(w: World, w': World, n: nat, blocks: nat)
    requires AllReserved(w, n, blocks) && w'.top == w.top && |Running(w')| <= n
    requires forall u :: u in Running(w') ==> FullBlocks(|w'.uploads[u].data|) <= blocks
    requires forall u, d :: u in Running(w') && Touches(w'.uploads[u], d) ==>
      u in Running(w) && Touches(w.uploads[u], d)
    ensures AllReserved(w', n, blocks)
  {
    hide Reserved, Touches, Load;
    forall d | d in w'.top.discs ensures Reserved(w'.top.discs[d], |Holders(w', d)|, n, blocks) {
      SubsetCardinality(Holders(w', d), Holders(w, d));
      FewerHolders(w.top.discs[d], |Holders(w, d)|, |Holders(w', d)|, n, blocks);
    }
  }

  /** Within a bound, what is free is free: a disc that can be selected is below its
      capacity. */
  lemma SelectableIsBelow(disc: Disc, holders: nat, n: nat, blocks: nat)
    requires disc.usedMB == disc.usedBytes / BYTES_PER_MB && disc.usedMB < disc.capacityMB && holders <= n
    ensures Reserved(disc, holders, n, blocks)
  {
    assert (n - holders) * Load(blocks) >= 0;
  }

  lemma SelectHolders(w: World, w': World, u: Id, targets: seq<Target>, d: Id)
    requires u in w.uploads && w'.uploads == w.uploads[u := w.uploads[u].(targets := targets)]
    requires w.uploads[u].targets == [] && forall t :: t in targets ==> t.disc != d
    ensures Holders(w', d) == Holders(w, d)
  {}

  lemma SelectIsReserved(h: Hash, w: World, u: Id, targets: seq<Target>, n: nat, blocks: nat)
    requires Enabled(w, Select(u, targets)) && Balanced(w.top, w.rows) && w.uploads[u].data != []
    requires AllReserved(w, n, blocks)
    ensures AllReserved(Apply(h, w, Select(u, targets)), n, blocks)
  {
    hide PieceAt, PieceCount, Suits, Load, Reserved, FullBlocks, Holders, RequiredMB;
    PiecePlace(w.uploads[u].data, |w.uploads[u].rows|);
    SelectedFit(w.top, NextPiece(w, u), targets);
    var w' := Apply(h, w, Select(u, targets));
    assert Running(w') == Running(w);
    forall d | d in w'.top.discs ensures Reserved(w'.top.discs[d], |Holders(w', d)|, n, blocks) {
      if t :| t in targets && t.disc == d {
        HoldersRun(w', d);
        SelectableIsBelow(w.top.discs[d], |Holders(w', d)|, n, blocks);
      } else {
        SelectHolders(w, w', u, targets, d);
      }
    }
  }

  lemma HoldersRun(w: World, d: Id)
    ensures |Holders(w, d)| <= |Running(w)|
  {
    SubsetCardinality(Holders(w, d), Running(w));
  }

  /** What is shipped goes to a disc that was selected. */
  lemma PushTouches(h: Hash, w: World, u: Id, d: Id)
    requires CanPush(w, u) && Touches(Apply(h, w, Push(u)).uploads[u], d)
    ensures Touches(w.uploads[u], d)
  {
    hide PieceAt, PieceCount, Written, OffsetOf, KeyFor, EndsBlock, TargetIndex;
    var up, up' := w.uploads[u], Apply(h, w, Push(u)).uploads[u];
    assert NextTarget(w, u) in up.targets;
    if i :| 0 <= i < |up'.rows| && up'.rows[i].disc == d {
      if i < |up.rows| {
        assert up.rows[i].disc == d;
      }
    }
  }

  lemma PushIsReserved(h: Hash, w: World, u: Id, n: nat, blocks: nat)
    requires CanPush(w, u) && AllReserved(w, n, blocks)
    ensures AllReserved(Apply(h, w, Push(u)), n, blocks)
  {
    hide PieceAt, PieceCount, Written, RowFor, KeyFor, EndsBlock, TargetIndex, Reserved, FullBlocks, Touches;
    var w' := Apply(h, w, Push(u));
    assert Running(w') == Running(w);
    forall d | Touches(w'.uploads[u], d) ensures Touches(w.uploads[u], d) {
      PushTouches(h, w, u, d);
    }
    NoNewHolders(w, w', n, blocks);
  }

  /** An upload that ends without committing. */
  lemma EndIsReserved(w: World, w': World, u: Id, n: nat, blocks: nat)
    requires AllReserved(w, n, blocks) && w'.top == w.top && IsRunning(w, u)
    requires w'.uploads == w.uploads[u := w.uploads[u].(status := Aborted)]
    ensures AllReserved(w', n, blocks)
  {
    hide Reserved, FullBlocks, Touches;
    assert Running(w') <= Running(w);
    SubsetCardinality(Running(w'), Running(w));
    NoNewHolders(w, w', n, blocks);
  }

  // The commit.

  lemma TailIsShort(h: Hash, top: Topology, files: Files, nextId: Id, u: Id, up: Upload)
    requires UploadOk(h, top, files, nextId, u, up)
    requires |up.rows| == PieceCount(|up.data|) && |up.rows| > RS.TOTAL_SHARDS * FullBlocks(|up.data|)
    ensures up.rows[RS.TOTAL_SHARDS * FullBlocks(|up.data|)].size < BLOCK_SIZE
  {
    var i := RS.TOTAL_SHARDS * FullBlocks(|up.data|);
    FullBlocksFit(|up.data|);
    assert |PieceAt(up.data, i).bytes| < BLOCK_SIZE;
    hide PieceAt, FullBlocks, StripesApart, TargetsOk;
    StoredSize(h, top, files, u, up.rows[i], PieceAt(up.data, i));
  }

  lemma Monotone(a: nat, b: nat)
    requires a <= b
    ensures a * SHARD_BYTES + BLOCK_SIZE <= Load(b)
  {}

  lemma UploadLoadIsBounded(h: Hash, top: Topology, files: Files, nextId: Id, u: Id, up: Upload, d: Id, blocks: nat)
    requires UploadOk(h, top, files, nextId, u, up) && |up.rows| == PieceCount(|up.data|)
    requires FullBlocks(|up.data|) <= blocks
    ensures DiscSum(up.rows, d) < Load(blocks)
    ensures DiscSum(up.rows, d) > 0 ==> Touches(up, d)
  {
    hide PieceAt, PieceCount, FullBlocks, UploadOk, DiscSum, Load;
    var full := FullBlocks(|up.data|);
    UploadLoad(h, top, files, nextId, u, up, d);
    UntouchedSums(up.rows, d);
    if |up.rows| > RS.TOTAL_SHARDS * full {
      TailIsShort(h, top, files, nextId, u, up);
    }
    Monotone(full, blocks);
    if DiscSum(up.rows, d) > 0 {
      var r :| r in up.rows && r.disc == d;
    }
  }

  /** The committed load comes out of what was set aside for it. */
  lemma ChargedIsReserved(disc: Disc, disc': Disc, load: nat, holders: nat, n: nat, blocks: nat)
    requires Reserved(disc, holders, n, blocks) && holders > 0 && load < Load(blocks)
    requires disc'.capacityMB == disc.capacityMB && disc'.usedBytes == disc.usedBytes + load
    ensures Reserved(disc', holders - 1, n, blocks)
  {
    assert (n - (holders - 1)) * Load(blocks) == (n - holders) * Load(blocks) + Load(blocks);
  }

  lemma CommitIsReserved(h: Hash, w: World, u: Id, n: nat, blocks: nat)
    requires Consistent(h, w) && Enabled(w, Commit(u)) && AllReserved(w, n, blocks)
    ensures AllReserved(Apply(h, w, Commit(u)), n, blocks)
  {
    hide Consistent, PieceAt, PieceCount, FullBlocks, UploadOk, Reserved, Charge, Touches, Holders, DiscSum, Load;
    var w', up := Apply(h, w, Commit(u)), w.uploads[u];
    NotEmpty(h, w, u);
    ChargeKeepsShape(w.top, up.rows);
    assert Running(w') <= Running(w);
    SubsetCardinality(Running(w'), Running(w));
    assert u in Running(w);
    forall d | d in w'.top.discs ensures Reserved(w'.top.discs[d], |Holders(w', d)|, n, blocks) {
      UploadLoadIsBounded(h, w.top, w.files, w.nextId, u, up, d, blocks);
      ChargedBytes(w.top, up.rows, d);
      CommitHolders(w, w', u, d);
      var disc, holders := w.top.discs[d], |Holders(w, d)|;
      if u in Holders(w, d) {
        ChargedIsReserved(disc, w'.top.discs[d], DiscSum(up.rows, d), holders, n, blocks);
      } else {
        Recharged(disc, w'.top.discs[d], holders, n, blocks);
      }
    }
  }

  lemma Recharged(disc: Disc, disc': Disc, holders: nat, n: nat, blocks: nat)
    requires Reserved(disc, holders, n, blocks)
    requires disc'.capacityMB == disc.capacityMB && disc'.usedBytes == disc.usedBytes
    ensures Reserved(disc', holders, n, blocks)
  {}

  lemma CommitHolders(w: World, w': World, u: Id, d: Id)
    requires u in Running(w) && w'.uploads == w.uploads[u := w.uploads[u].(status := Committed)]
    ensures u in Holders(w, d) <==> Touches(w.uploads[u], d)
    ensures |Holders(w', d)| == |Holders(w, d)| - if u in Holders(w, d) then 1 else 0
  {
    assert Holders(w', d) == Holders(w, d) - {u};
  }

  lemma StepIsReserved(h: Hash, w: World, step: Step, n: nat, blocks: nat)
    requires Consistent(h, w) && Enabled(w, step) && AllReserved(w, n, blocks)
    requires step.Start? ==> FullBlocks(|step.data|) <= blocks && |Running(w)| < n
    ensures AllReserved(Apply(h, w, step), n, blocks)
  {
    hide PieceAt, PieceCount, FullBlocks, UploadsOk, KeysOk, CatalogOk, IsCluster, FilesOk, Balanced, Reserved, Touches,
      CanPush, Suits, Written;
    match step
    case Start(data) => StartIsReserved(h, w, data, n, blocks);
    case Select(u, targets) =>
      NotEmpty(h, w, u);
      SelectIsReserved(h, w, u, targets, n, blocks);
    case Push(u) => PushIsReserved(h, w, u, n, blocks);
    case PushFails(u, _) =>
      PushRuns(w, u);
      EndIsReserved(w, Apply(h, w, step), u, n, blocks);
    case Commit(u) => CommitIsReserved(h, w, u, n, blocks);
    case Abort(u) => EndIsReserved(w, Apply(h, w, step), u, n, blocks);
    case Delete(_) => NoNewHolders(w, Apply(h, w, step), n, blocks);
  }

  lemma StartIsReserved(h: Hash, w: World, data: seq<Byte>, n: nat, blocks: nat)
    requires Consistent(h, w) && data != [] && AllReserved(w, n, blocks)
    requires FullBlocks(|data|) <= blocks && |Running(w)| < n
    ensures AllReserved(Apply(h, w, Start(data)), n, blocks)
  {
    hide Consistent, Reserved, FullBlocks;
    NextIsNew(h, w);
    var w' := Apply(h, w, Start(data));
    assert Running(w') == Running(w) + {w.nextId};
    NoNewHolders(w, w', n, blocks);
  }

  lemma {:induction false} RunIsReserved(h: Hash, w: World, steps: seq<Step>, n: nat, blocks: nat)
    requires Consistent(h, w) && AllReserved(w, n, blocks) && Legal(h, w, steps) && Limited(h, w, steps, n, blocks)
    ensures AllReserved(Run(h, w, steps), n, blocks)
    decreases |steps|
  {
    hide Consistent, Apply, Enabled, AllReserved;
    if steps != [] {
      StepKeepsConsistent(h, w, steps[0]);
      StepIsReserved(h, w, steps[0], n, blocks);
      RunIsReserved(h, Apply(h, w, steps[0]), steps[1..], n, blocks);
    }
  }

  /** With at most n uploads at once, each of at most so many full blocks, every disc that
      took a chunk stays below its capacity plus n times 4MB per block and 32MB. */
  lemma ConcurrentOvercommitIsBounded(h: Hash, w0: World, steps: seq<Step>, w: World, n: nat, blocks: nat)
    requires Fresh(w0) && Leads(h, w0, steps, w) && Limited(h, w0, steps, n, blocks)
    ensures forall d :: d in w.top.discs && w.top.discs[d].usedBytes > 0 ==>
      w.top.discs[d].usedBytes <
        w.top.discs[d].capacityMB * (1024 * 1024) + n * (blocks * (4 * 1024 * 1024) + 32 * 1024 * 1024)
  {
    hide Run, Legal, Limited, Consistent, IsCluster;
    FreshIsConsistent(h, w0);
    assert AllReserved(w0, n, blocks) by {
      NobodyRuns(w0, n, blocks);
    }
    RunIsReserved(h, w0, steps, n, blocks);
    forall d | d in w.top.discs && w.top.discs[d].usedBytes > 0
      ensures w.top.discs[d].usedBytes < w.top.discs[d].capacityMB * BYTES_PER_MB + n * Load(blocks)
    {
      HoldersRun(w, d);
      assert (n - |Holders(w, d)|) * Load(blocks) <= n * Load(blocks);
    }
  }

  lemma NobodyRuns(w: World, n: nat, blocks: nat)
    requires Fresh(w)
    ensures AllReserved(w, n, blocks)
  {
    hide KeysOk, IsCluster;
    assert Running(w) == {};
    forall d ensures Holders(w, d) == {} {}
  }

  // That it happens: a cluster of one block machine with a disc of 1MB.

  function Tiny(used: nat): Topology {
    Topology(
      map[0 := Worker("wkr10", "localhost", 1, used / BYTES_PER_MB, used, true, false)],
      map[0 := Machine("machine", Block, 0, false)],
      map[0 := Disc("SN", 0, 1, used / BYTES_PER_MB, used, true)])
  }

  const EMPTY := World(Tiny(0), map[], [], map[], map[], 0)

  /** The one machine there is. */
  function Only(used: nat): Target {
    Target(0, "machine", Block, 0, 0, "localhost", 1 - used / BYTES_PER_MB)
  }

  /** A file that is one chunk and fits a whole megabyte. */
  predicate IsSmall(data: seq<Byte>) {
    INLINE_THRESHOLD <= |data| <= BYTES_PER_MB
  }

  /** Upload u of the file is running, with these rows and targets. */
  ghost predicate Has(w: World, u: Id, data: seq<Byte>, rows: seq<Row>, targets: seq<Target>) {
    u in w.uploads && w.uploads[u] == Upload(data, rows, targets, Status.Running)
  }

  lemma EmptyIsFresh()
    ensures Fresh(EMPTY)
  {}

  lemma SmallIsOneChunk(data: seq<Byte>)
    requires IsSmall(data)
    ensures PieceCount(|data|) == 1
    ensures PieceAt(data, 0) == Piece(Block, 0, SHARD_INDEX_WHOLE, data, 0, |data|)
  {
    assert data[0..] == data;
  }

  lemma OnlyIsBest(used: nat)
    requires used < BYTES_PER_MB
    ensures IsBest(Tiny(used), Block, 1, Only(used))
  {
    assert Eligible(Tiny(used), Block, 1) == {0};
  }

  lemma CanSelectOnly(w: World, u: Id, data: seq<Byte>, used: nat)
    requires w.top == Tiny(used) && used < BYTES_PER_MB && IsSmall(data) && Has(w, u, data, [], [])
    ensures Enabled(w, Select(u, [Only(used)]))
  {
    SmallIsOneChunk(data);
    OnlyIsBest(used);
    hide PieceAt, PieceCount, IsBest, Tiny;
    assert RequiredMB(|data|) == 1;
  }

  /** The row of the one chunk. */
  function OnlyRow(h: Hash, files: Files, u: Id, id: Id, data: seq<Byte>, used: nat): Row {
    RowFor(h, files, u, id, Piece(Block, 0, SHARD_INDEX_WHOLE, data, 0, |data|), Only(used))
  }

  lemma CanPushOnly(h: Hash, w: World, u: Id, data: seq<Byte>, used: nat)
    requires IsSmall(data) && Has(w, u, data, [], [Only(used)])
    ensures CanPush(w, u)
    ensures Has(Apply(h, w, Push(u)), u, data, [OnlyRow(h, w.files, u, w.nextId, data, used)], [])
  {
    SmallIsOneChunk(data);
    hide PieceAt, PieceCount, Written;
    assert [] + [OnlyRow(h, w.files, u, w.nextId, data, used)] == [OnlyRow(h, w.files, u, w.nextId, data, used)];
  }

  lemma ChargeOnly(row: Row, used: nat)
    requires row.disc == 0 && row.worker == 0
    ensures Charge(Tiny(used), [row]) == Tiny(used + row.size)
  {
    assert [row][..0] == [];
    assert DiscSum([row], 0) == row.size && WorkerSum([row], 0) == row.size;
    assert row in [row];
    assert 0 in DiscsOf([row]) && 0 in WorkersOf([row]);
  }

  lemma CanCommitOnly(h: Hash, w: World, u: Id, data: seq<Byte>, row: Row, used: nat)
    requires w.top == Tiny(used) && IsSmall(data) && Has(w, u, data, [row], [])
    requires row.disc == 0 && row.worker == 0 && row.size == |data|
    ensures Enabled(w, Commit(u))
    ensures Apply(h, w, Commit(u)).top == Tiny(used + |data|)
  {
    SmallIsOneChunk(data);
    ChargeOnly(row, used);
    hide PieceAt, PieceCount, Tiny, Charge;
  }

  /** One store after the other, as far as the list goes. */
  ghost predicate LeadsInSequence(h: Hash, w: World, steps: seq<Step>, w': World) {
    Leads(h, w, steps, w') && Sequential(h, w, steps, 0)
  }

  lemma FirstInSequence(h: Hash, w: World, step: Step, rest: seq<Step>, w': World)
    requires Enabled(w, step) && LeadsInSequence(h, Apply(h, w, step), rest, w')
    requires step.Start? ==> FullBlocks(|step.data|) == 0 && forall u :: !IsRunning(w, u)
    ensures LeadsInSequence(h, w, [step] + rest, w')
  {
    hide Enabled, Apply, IsRunning, FullBlocks;
    assert ([step] + rest)[1..] == rest;
  }

  lemma {:induction false} SequencesCompose(h: Hash, w: World, a: seq<Step>, w': World, b: seq<Step>, w'': World)
    requires LeadsInSequence(h, w, a, w') && LeadsInSequence(h, w', b, w'')
    ensures LeadsInSequence(h, w, a + b, w'')
    decreases |a|
  {
    hide Enabled, Apply, IsRunning, FullBlocks;
    if a == [] {
      assert a + b == b;
    } else {
      SequencesCompose(h, Apply(h, w, a[0]), a[1..], w', b, w'');
      assert (a + b)[0] == a[0] && (a + b)[1..] == a[1..] + b;
      LeadsOn(h, w, a, w', b, w'');
    }
  }

  ghost predicate Idle(w: World) {
    forall u :: !IsRunning(w, u)
  }

  /** While the disc counts as empty, a small file can be stored. */
  lemma StoreOnly(h: Hash, w: World, data: seq<Byte>, used: nat) returns (steps: seq<Step>, w': World)
    requires w.top == Tiny(used) && used < BYTES_PER_MB && IsSmall(data) && Idle(w)
    ensures LeadsInSequence(h, w, steps, w') && w'.top == Tiny(used + |data|) && Idle(w')
  {
    hide PieceAt, PieceCount, Tiny, Charge, Written, CanPush;
    var u, row := w.nextId, OnlyRow(h, w.files, w.nextId, w.nextId + 1, data, used);
    var w1 := Apply(h, w, Start(data));
    CanSelectOnly(w1, u, data, used);
    var w2 := Apply(h, w1, Select(u, [Only(used)]));
    CanPushOnly(h, w2, u, data, used);
    var w3 := Apply(h, w2, Push(u));
    CanCommitOnly(h, w3, u, data, row, used);
    w' := Apply(h, w3, Commit(u));
    assert Idle(w') by {
      assert forall v :: IsRunning(w', v) ==> IsRunning(w, v);
    }
    hide Enabled, Apply, IsRunning;
    assert LeadsInSequence(h, w', [], w');
    FirstInSequence(h, w3, Commit(u), [], w');
    FirstInSequence(h, w2, Push(u), [Commit(u)] + [], w');
    FirstInSequence(h, w1, Select(u, [Only(used)]), [Push(u)] + ([Commit(u)] + []), w');
    steps := [Start(data)] + ([Select(u, [Only(used)])] + ([Push(u)] + ([Commit(u)] + [])));
    FirstInSequence(h, w, Start(data), [Select(u, [Only(used)])] + ([Push(u)] + ([Commit(u)] + [])), w');
  }

  /** Used space can exceed capacity, even if stores follow one another: on a disc of 1MB,
      a file one byte short of 1MB and then one of 1MB fit. */
  lemma CapacityIsExceeded(h: Hash) returns (steps: seq<Step>, w: World)
    ensures Fresh(EMPTY) && Leads(h, EMPTY, steps, w) && Sequential(h, EMPTY, steps, 0)
    ensures 0 in w.top.discs && w.top.discs[0].usedBytes > w.top.discs[0].capacityMB * BYTES_PER_MB
  {
    EmptyIsFresh();
    assert Idle(EMPTY);
    var a, w1 := StoreOnly(h, EMPTY, RS.Zeros(BYTES_PER_MB - 1), 0);
    var b, w2 := StoreOnly(h, w1, RS.Zeros(BYTES_PER_MB), BYTES_PER_MB - 1);
    SequencesCompose(h, EMPTY, a, w1, b, w2);
    steps, w := a + b, w2;
  }

  /** Two uploads at most at a time, as far as the list goes. */
  ghost predicate LeadsInPairs(h: Hash, w: World, steps: seq<Step>, w': World) {
    Leads(h, w, steps, w') && Limited(h, w, steps, 2, 0)
  }

  lemma FirstInPairs(h: Hash, w: World, step: Step, rest: seq<Step>, w': World)
    requires Enabled(w, step) && LeadsInPairs(h, Apply(h, w, step), rest, w')
    requires step.Start? ==> FullBlocks(|step.data|) == 0 && |Running(w)| < 2
    ensures LeadsInPairs(h, w, [step] + rest, w')
  {
    hide Enabled, Apply, Running, FullBlocks;
    assert ([step] + rest)[1..] == rest;
  }

  lemma {:induction false} PairsCompose(h: Hash, w: World, a: seq<Step>, w': World, b: seq<Step>, w'': World)
    requires LeadsInPairs(h, w, a, w') && LeadsInPairs(h, w', b, w'')
    ensures LeadsInPairs(h, w, a + b, w'')
    decreases |a|
  {
    hide Enabled, Apply, Running, FullBlocks;
    if a == [] {
      assert a + b == b;
    } else {
      PairsCompose(h, Apply(h, w, a[0]), a[1..], w', b, w'');
      assert (a + b)[0] == a[0] && (a + b)[1..] == a[1..] + b;
      LeadsOn(h, w, a, w', b, w'');
    }
  }

  /** An upload that starts and selects, whatever another one has done. */
  lemma StartAndSelect(h: Hash, w: World, data: seq<Byte>) returns (w': World)
    requires w.top == Tiny(0) && IsSmall(data) && |Running(w)| < 2
    ensures LeadsInPairs(h, w, [Start(data), Select(w.nextId, [Only(0)])], w')
    ensures w'.top == Tiny(0) && Has(w', w.nextId, data, [], [Only(0)]) && w'.nextId == w.nextId + 1
    ensures w'.uploads.Keys == w.uploads.Keys + {w.nextId}
    ensures forall v :: v in w.uploads && v != w.nextId ==> w'.uploads[v] == w.uploads[v]
  {
    hide PieceAt, PieceCount, Tiny;
    var u, select := w.nextId, Select(w.nextId, [Only(0)]);
    var w1 := Apply(h, w, Start(data));
    CanSelectOnly(w1, u, data, 0);
    w' := Apply(h, w1, select);
    hide Enabled, Apply, Running;
    assert LeadsInPairs(h, w', [], w');
    FirstInPairs(h, w1, select, [], w');
    FirstInPairs(h, w, Start(data), [select] + [], w');
    assert [Start(data)] + ([select] + []) == [Start(data), select];
  }

  /** An upload that has selected pushes and commits, however full the disc is by now. */
  lemma PushAndCommit(h: Hash, w: World, u: Id, data: seq<Byte>, used: nat) returns (w': World)
    requires w.top == Tiny(used) && IsSmall(data) && Has(w, u, data, [], [Only(0)])
    ensures LeadsInPairs(h, w, [Push(u), Commit(u)], w')
    ensures w'.top == Tiny(used + |data|)
    ensures forall v :: v in w.uploads && v != u ==> v in w'.uploads && w'.uploads[v] == w.uploads[v]
  {
    hide PieceAt, PieceCount, Tiny, Charge, Written, CanPush;
    CanPushOnly(h, w, u, data, 0);
    var w1 := Apply(h, w, Push(u));
    CanCommitOnly(h, w1, u, data, OnlyRow(h, w.files, u, w.nextId, data, 0), used);
    w' := Apply(h, w1, Commit(u));
    hide Enabled, Apply, Running;
    assert LeadsInPairs(h, w', [], w');
    FirstInPairs(h, w1, Commit(u), [], w');
    FirstInPairs(h, w, Push(u), [Commit(u)] + [], w');
    assert [Push(u)] + ([Commit(u)] + []) == [Push(u), Commit(u)];
  }

  lemma BothSelect(h: Hash, data: seq<Byte>) returns (w1: World, w2: World)
    requires IsSmall(data)
    ensures LeadsInPairs(h, EMPTY, [Start(data), Select(0, [Only(0)])], w1)
    ensures LeadsInPairs(h, w1, [Start(data), Select(1, [Only(0)])], w2)
    ensures w2.top == Tiny(0) && Has(w2, 0, data, [], [Only(0)]) && Has(w2, 1, data, [], [Only(0)])
  {
    hide LeadsInPairs, Tiny, Only, Running, IsSmall;
    FewRun(EMPTY, {});
    w1 := StartAndSelect(h, EMPTY, data);
    FewRun(w1, {0});
    w2 := StartAndSelect(h, w1, data);
  }

  lemma FewRun(w: World, us: set<Id>)
    requires w.uploads.Keys == us
    ensures |Running(w)| <= |us|
  {
    SubsetCardinality(Running(w), us);
  }

  lemma BothCommit(h: Hash, w: World, data: seq<Byte>) returns (w1: World, w2: World)
    requires IsSmall(data) && w.top == Tiny(0) && Has(w, 0, data, [], [Only(0)]) && Has(w, 1, data, [], [Only(0)])
    ensures LeadsInPairs(h, w, [Push(0), Commit(0)], w1) && LeadsInPairs(h, w1, [Push(1), Commit(1)], w2)
    ensures w2.top == Tiny(2 * |data|)
  {
    hide LeadsInPairs, Tiny, Only;
    w1 := PushAndCommit(h, w, 0, data, 0);
    w2 := PushAndCommit(h, w1, 1, data, |data|);
  }

  /** For stores at the same time, the bound of stores one after the other fails: two
      files of 1MB each select a disc of 1MB before either commits. */
  lemma SequentialBoundFails(h: Hash) returns (steps: seq<Step>, w: World)
    ensures Fresh(EMPTY) && Leads(h, EMPTY, steps, w) && Limited(h, EMPTY, steps, 2, 0)
    ensures 0 in w.top.discs
    ensures w.top.discs[0].usedBytes >= (w.top.discs[0].capacityMB + 1) * BYTES_PER_MB
  {
    hide LeadsInPairs, Only, RS.Zeros;
    var data := RS.Zeros(BYTES_PER_MB);
    EmptyIsFresh();
    var w1, w2 := BothSelect(h, data);
    var w3, w4 := BothCommit(h, w2, data);
    var a, b := [Start(data), Select(0, [Only(0)])], [Start(data), Select(1, [Only(0)])];
    var c, d := [Push(0), Commit(0)], [Push(1), Commit(1)];
    PairsCompose(h, EMPTY, a, w1, b, w2);
    PairsCompose(h, w2, c, w3, d, w4);
    PairsCompose(h, EMPTY, a + b, w2, c + d, w4);
    steps, w := a + b + (c + d), w4;
    ThatIs(h, EMPTY, steps, w);
  }

  lemma ThatIs(h: Hash, w: World, steps: seq<Step>, w': World)
    requires LeadsInPairs(h, w, steps, w')
    ensures Leads(h, w, steps, w') && Limited(h, w, steps, 2, 0)
  {}
}
