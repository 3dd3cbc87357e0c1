/** Storing a file: the loop of the gateway, as steps of the protocol. */
module StorageService {
  import opened Wrappers
  import opened Gf256
  import opened Catalog
  import opened Tiling
  import opened Placement
  import opened Ledger
  import opened Sequences
  import opened Slices
  import opened UploadProtocol
  import opened ErasureService
  import opened Retrieval
  import opened ReadPath
  import opened CommitSafety
  import opened Durability
  import RS = ReedSolomon
  import Encoder
  import O = Outages

  datatype StoreError = EmptyFile | ReadFailed | EncodingFailed | QueryFailed | NoPlacement | PushFailed | CommitFailed

  /** The upload is the caller's own, is running, and has shipped these chunks. */
  ghost predicate Shipping(w: World, u: Id, data: seq<Byte>, chunks: seq<Row>, targets: seq<Target>) {
    && u in w.uploads && u < w.nextId && u !in w.blobs
    && w.uploads[u] == Upload(data, chunks, targets, Running)
  }

  /** The upload has failed and is not listed. */
  ghost predicate Failed(w: World, u: Id, data: seq<Byte>) {
    && u in w.uploads && u < w.nextId && u !in w.blobs
    && w.uploads[u].data == data && w.uploads[u].status == Aborted
  }

  /** There are too few machines for the chunk, or for its stripe. */
  ghost predicate TooFew(top: Topology, p: Piece) {
    |Serving(top, p.kind, RequiredMB(|p.bytes|))| < if p.shardIndex == SHARD_INDEX_WHOLE then 1 else RS.TOTAL_SHARDS
  }

  /** On the way from w to w' there were too few machines for a chunk of the file. */
  ghost predicate WasShort(h: Hash, w: World, w': World, data: seq<Byte>) {
    exists v: World, i: nat :: IsShortAt(h, w, v, w', data, i)
  }

  ghost predicate IsShortAt(h: Hash, w: World, v: World, w': World, data: seq<Byte>, i: nat) {
    Evolves(h, w, v) && Evolves(h, v, w') && i < PieceCount(|data|) && TooFew(v.top, PieceAt(data, i))
  }

  /** The only reasons for which a store may fail. */
  ghost predicate IsExcused(h: Hash, w: World, w': World, data: seq<Byte>, calm: bool, e: StoreError) {
    match e
    case EmptyFile => data == []
    case NoPlacement => WasShort(h, w, w', data)
    case EncodingFailed => false
    case _ => !calm
  }

  lemma ShortBefore(h: Hash, w: World, w1: World, w2: World, data: seq<Byte>)
    requires Evolves(h, w, w1) && WasShort(h, w1, w2, data)
    ensures WasShort(h, w, w2, data)
  {
    hide Evolves, PieceAt, PieceCount, TooFew;
    var v: World, i: nat :| IsShortAt(h, w1, v, w2, data, i);
    EvolvesOn(h, w, w1, v);
    assert IsShortAt(h, w, v, w2, data, i);
  }

  /** What was an excuse for a part is one for the whole. */
  lemma ExcusedBefore(h: Hash, w: World, w1: World, w2: World, data: seq<Byte>, calm: bool, calmAll: bool,
      e: StoreError)
    requires Evolves(h, w, w1) && IsExcused(h, w1, w2, data, calm, e) && (calmAll ==> calm)
    ensures IsExcused(h, w, w2, data, calmAll, e)
  {
    hide Evolves, WasShort;
    if e == NoPlacement {
      ShortBefore(h, w, w1, w2, data);
    }
  }

  lemma EvolutionKeepsConsistent(h: Hash, w: World, w': World)
    requires Consistent(h, w) && Evolves(h, w, w')
    ensures Consistent(h, w')
  {
    hide Consistent, Legal, Run;
    var steps :| Leads(h, w, steps, w');
    RunKeepsConsistent(h, w, steps);
  }

  lemma OthersLeaveShipping(h: Hash, w: World, w': World, u: Id, data: seq<Byte>, chunks: seq<Row>,
      targets: seq<Target>)
    requires Shipping(w, u, data, chunks, targets) && OthersEvolve(h, w, w', u)
    ensures Shipping(w', u, data, chunks, targets) && Evolves(h, w, w')
  {
    var steps :| Leads(h, w, steps, w') && forall i :: 0 <= i < |steps| ==> ByOther(steps[i], u);
    hide Legal, Run, ByOther;
    OthersLeaveUploadInRun(h, w, steps, u);
  }

  /** Machines selected for the first shard of a stripe suit the stripe. */
  lemma StripeTargetsSuit(top: Topology, content: seq<Byte>, k: nat, size: nat, targets: seq<Target>)
    requires k < FullBlocks(|content|) && size == |RS.StripeOf(BlockOf(content, k))[0]|
    requires IsSelection(top, Block, RequiredMB(size), RS.TOTAL_SHARDS, targets)
    ensures |targets| == RS.TOTAL_SHARDS
    ensures RS.TOTAL_SHARDS * k < PieceCount(|content|)
    ensures Suits(top, PieceAt(content, RS.TOTAL_SHARDS * k), targets)
  {
    hide PieceAt, PieceCount, FullBlocks, BlockOf, RS.StripeOf, IsSelection;
    PieceOfStripe(content, k, 0);
    SelectionSize(top, RequiredMB(size), targets);
  }

  /** Too few machines for the first shard are too few for the stripe. */
  lemma StripeIsShort(top: Topology, content: seq<Byte>, k: nat, size: nat)
    requires k < FullBlocks(|content|) && size == |RS.StripeOf(BlockOf(content, k))[0]|
    requires |Serving(top, Block, RequiredMB(size))| < RS.TOTAL_SHARDS
    ensures RS.TOTAL_SHARDS * k < PieceCount(|content|)
    ensures TooFew(top, PieceAt(content, RS.TOTAL_SHARDS * k))
  {
    hide PieceAt, PieceCount, FullBlocks, BlockOf, RS.StripeOf, Serving;
    PieceOfStripe(content, k, 0);
  }

  lemma SelectionSize(top: Topology, requiredMB: nat, targets: seq<Target>)
    requires IsSelection(top, Block, requiredMB, RS.TOTAL_SHARDS, targets)
    ensures |targets| == RS.TOTAL_SHARDS
  {}

  /** How far the loop over the blocks has come. */
  ghost predicate Progress(size: nat, blockIndex: nat, logicalOffset: nat, count: nat) {
    if blockIndex <= FullBlocks(size)
    then logicalOffset == blockIndex * BLOCK_SIZE <= size && count == RS.TOTAL_SHARDS * blockIndex
    else logicalOffset == size && count == PieceCount(size)
  }

  /** The next 32MB of the file, or what there is. */
  function ReadAhead(staged: seq<Byte>, offset: nat): seq<Byte>
    requires offset <= |staged|
  {
    if BLOCK_SIZE <= |staged| - offset then staged[offset..offset + BLOCK_SIZE] else staged[offset..]
  }

  /** What is read at the start of block k is block k. */
  lemma BlockIsRead(staged: seq<Byte>, k: nat, offset: nat, count: nat)
    requires |staged| >= INLINE_THRESHOLD && Progress(|staged|, k, offset, count) && offset < |staged|
    ensures k < BlockCount(|staged|) && ReadAhead(staged, offset) == BlockOf(staged, k)
    ensures offset == k * BLOCK_SIZE && count == RS.TOTAL_SHARDS * k < PieceCount(|staged|)
    ensures |BlockOf(staged, k)| == BLOCK_SIZE <==> k < FullBlocks(|staged|)
    ensures k == FullBlocks(|staged|) ==> PieceAt(staged, count) == TailPiece(staged) && TailPiece(staged).kind == Block
    ensures Progress(|staged|, k + 1, offset + |BlockOf(staged, k)|,
      if k < FullBlocks(|staged|) then count + RS.TOTAL_SHARDS else count + 1)
  {}

  lemma NoProgressYet(size: nat)
    ensures Progress(size, 0, 0, 0)
  {}

  lemma AllBlocksStored(size: nat, blockIndex: nat, count: nat)
    requires size >= INLINE_THRESHOLD && Progress(size, blockIndex, size, count)
    ensures count == PieceCount(size)
  {}

  class StorageService {
    const h: Hash
    const erasure: ErasureService
    const outages: O.Outages
    /** The database and the workers, which all gateways share. */
    var world: World

    constructor (h: Hash, erasure: ErasureService, outages: O.Outages, world: World)
      ensures this.h == h && this.erasure == erasure && this.outages == outages && this.world == world
    {
      this.h, this.erasure, this.outages, this.world := h, erasure, outages, world;
    }

    /** The place of any steps that other uploads take meanwhile. Only what it ensures is
        known to its callers; the body is the quiet case. */
    method Others(u: Id)
      modifies this
      ensures OthersEvolve(h, old(world), world, u)
    {
      NothingHappens(h, world, u);
    }

    method Pause(u: Id, ghost data: seq<Byte>, ghost chunks: seq<Row>, ghost targets: seq<Target>)
      requires Shipping(world, u, data, chunks, targets)
      modifies this
      ensures Shipping(world, u, data, chunks, targets) && Evolves(h, old(world), world)
    {
      hide Shipping, OthersEvolve, Evolves;
      Others(u);
      OthersLeaveShipping(h, old(world), world, u, data, chunks, targets);
    }

    /** Giving up: the rows built so far are dropped. */
    method Abort(u: Id, ghost data: seq<Byte>, ghost chunks: seq<Row>, ghost targets: seq<Target>)
      requires Shipping(world, u, data, chunks, targets)
      modifies this
      ensures Failed(world, u, data) && Evolves(h, old(world), world)
    {
      NothingHappens(h, world, u);
      EvolvesByStep(h, world, world, Step.Abort(u));
      world := Apply(h, world, Step.Abort(u));
    }

    /** A push that fails after any part of the chunk was written. */
    method LeavePart(u: Id, target: Target, bytes: seq<Byte>, ghost content: seq<Byte>, ghost chunks: seq<Row>,
        ghost targets: seq<Target>)
      requires Shipping(world, u, content, chunks, targets) && CanPush(world, u)
      requires NextTarget(world, u) == target && NextPiece(world, u).bytes == bytes
      modifies this
      ensures Failed(world, u, content) && Evolves(h, old(world), world)
    {
      hide PieceAt, PieceCount, Evolves, TargetIndex;
      NothingHappens(h, world, u);
      var written: nat :| written <= |bytes|;
      EvolvesByStep(h, world, world, PushFails(u, written));
      world := world.(
        files := Written(world.files, KeyFor(target, world.nextId), bytes[..written]),
        uploads := world.uploads[u := world.uploads[u].(status := Aborted)],
        nextId := world.nextId + 1);
    }

    /** pushChunk: the bytes go to the target's engine, and the row is built from what
        was shipped and where it went. A push may fail with nothing written, or after any
        part was written. */
    method PushChunk(u: Id, target: Target, data: Slice, blockIndex: nat, shardIndex: int, logicalOffset: nat,
        logicalSize: nat, ghost content: seq<Byte>, ghost chunks: seq<Row>, ghost targets: seq<Target>)
      returns (r: Result<Row, StoreError>)
      requires data.Valid()
      requires Shipping(world, u, content, chunks, targets) && CanPush(world, u)
      requires NextTarget(world, u) == target
      requires var p := NextPiece(world, u);
        p == Piece(p.kind, blockIndex, shardIndex, data.Bytes(), logicalOffset, logicalSize)
      modifies this, outages
      ensures Evolves(h, old(world), world)
      ensures r.Success? ==>
        Shipping(world, u, content, chunks + [r.value], if EndsBlock(old(NextPiece(world, u))) then [] else targets)
      ensures r.Failure? ==> Failed(world, u, content)
      ensures r.Failure? ==>
        IsExcused(h, old(world), world, content, outages.Calm(old(outages.attempts)), r.error)
      ensures outages.attempts >= old(outages.attempts)
    {
      hide PieceAt, PieceCount, Evolves, TargetIndex, WasShort;
      NothingHappens(h, world, u);
      var bytes := data.Bytes();
      var id, key := world.nextId, KeyFor(target, world.nextId);
      var offset := OffsetOf(world.files, key);
      var reached := outages.Attempt();
      if !reached {
        // The worker was not reached, or refused: nothing was written.
        Abort(u, content, chunks, targets);
        return Failure(PushFailed);
      }
      var completed := outages.Attempt();
      if !completed {
        LeavePart(u, target, bytes, content, chunks, targets);
        return Failure(PushFailed);
      }
      var row := Row(id, u, target.disc, target.worker, h(bytes), data.Len(), logicalOffset, logicalSize,
        blockIndex, shardIndex, key.path, offset);
      EvolvesByStep(h, world, world, Push(u));
      ghost var after := Apply(h, world, Push(u));
      world := world.(
        files := Written(world.files, key, bytes),
        uploads := world.uploads[u := world.uploads[u].(
          rows := world.uploads[u].rows + [row],
          targets := if shardIndex in {SHARD_INDEX_WHOLE, RS.TOTAL_SHARDS - 1} then [] else world.uploads[u].targets)],
        nextId := id + 1);
      assert world == after;
      return Success(row);
    }

    /** Noting the selected targets is local to the upload. */
    method Keep(u: Id, targets: seq<Target>, ghost content: seq<Byte>, ghost chunks: seq<Row>)
      requires Shipping(world, u, content, chunks, []) && |chunks| < PieceCount(|content|)
      requires Suits(world.top, PieceAt(content, |chunks|), targets)
      modifies this
      ensures Shipping(world, u, content, chunks, targets) && Evolves(h, old(world), world)
    {
      hide PieceAt, PieceCount, Evolves, Suits;
      NothingHappens(h, world, u);
      EvolvesByStep(h, world, world, Select(u, targets));
      world := world.(uploads := world.uploads[u := world.uploads[u].(targets := targets)]);
    }

    /** storeWholeBlock: one chunk, verbatim, on the emptiest machine of the kind. */
    method StoreWholeBlock(u: Id, kind: MachineType, data: Slice, blockIndex: nat, logicalOffset: nat,
        ghost content: seq<Byte>, ghost chunks: seq<Row>)
      returns (r: Result<Row, StoreError>)
      requires data.Valid()
      requires Shipping(world, u, content, chunks, []) && |chunks| < PieceCount(|content|)
      requires PieceAt(content, |chunks|) ==
        Piece(kind, blockIndex, SHARD_INDEX_WHOLE, data.Bytes(), logicalOffset, data.Len())
      modifies this, outages
      ensures Evolves(h, old(world), world)
      ensures r.Success? ==> Shipping(world, u, content, chunks + [r.value], [])
      ensures r.Failure? ==> Failed(world, u, content)
      ensures r.Failure? ==>
        IsExcused(h, old(world), world, content, outages.Calm(old(outages.attempts)), r.error)
      ensures outages.attempts >= old(outages.attempts)
    {
      hide PieceAt, PieceCount, Evolves, IsBest, IsSelection;
      Pause(u, content, chunks, []);
      var answered := outages.Attempt();
      if !answered {
        ghost var w0 := world;
        Abort(u, content, chunks, []);
        EvolvesOn(h, old(world), w0, world);
        return Failure(QueryFailed);
      }
      var selected := SelectMachine(world.top, kind, RequiredMB(data.Len()));
      ghost var w1 := world;
      if selected.Failure? {
        Abort(u, content, chunks, []);
        EvolvesOn(h, old(world), w1, world);
        assert IsShortAt(h, old(world), w1, world, content, |chunks|);
        return Failure(NoPlacement);
      }
      var target := selected.value;
      Keep(u, [target], content, chunks);
      ghost var w2 := world;
      EvolvesOn(h, old(world), w1, w2);
      Pause(u, content, chunks, [target]);
      ghost var w3, before := world, outages.attempts;
      EvolvesOn(h, old(world), w2, w3);
      r := PushChunk(u, target, data, blockIndex, SHARD_INDEX_WHOLE, logicalOffset, data.Len(), content, chunks,
        [target]);
      EvolvesOn(h, old(world), w3, world);
      if r.Failure? {
        ExcusedBefore(h, old(world), w3, world, content, outages.Calm(before), outages.Calm(old(outages.attempts)),
          r.error);
      }
    }

    /** One shard of a stripe goes to its machine. */
    method PushShard(u: Id, targets: seq<Target>, data: Slice, blockIndex: nat, shardIndex: nat, logicalOffset: nat,
        logicalSize: nat, ghost content: seq<Byte>, ghost chunks: seq<Row>)
      returns (r: Result<Row, StoreError>)
      requires data.Valid() && blockIndex < FullBlocks(|content|) && shardIndex < RS.TOTAL_SHARDS == |targets|
      requires |chunks| == RS.TOTAL_SHARDS * blockIndex + shardIndex
      requires data.Bytes() == RS.StripeOf(BlockOf(content, blockIndex))[shardIndex]
      requires logicalOffset == blockIndex * BLOCK_SIZE && logicalSize == BLOCK_SIZE
      requires Shipping(world, u, content, chunks, targets)
      modifies this, outages
      ensures Evolves(h, old(world), world)
      ensures r.Success? ==>
        Shipping(world, u, content, chunks + [r.value], if shardIndex + 1 == RS.TOTAL_SHARDS then [] else targets)
      ensures r.Failure? ==> Failed(world, u, content)
      ensures r.Failure? ==>
        IsExcused(h, old(world), world, content, outages.Calm(old(outages.attempts)), r.error)
      ensures outages.attempts >= old(outages.attempts)
    {
      hide PieceAt, PieceCount, FullBlocks, BlockOf, RS.StripeOf, Evolves, Failed;
      PieceOfStripe(content, blockIndex, shardIndex);
      Pause(u, content, chunks, targets);
      ghost var w1, before := world, outages.attempts;
      r := PushChunk(u, targets[shardIndex], data, blockIndex, shardIndex, logicalOffset, logicalSize,
        content, chunks, targets);
      EvolvesOn(h, old(world), w1, world);
      if r.Failure? {
        ExcusedBefore(h, old(world), w1, world, content, outages.Calm(before), outages.Calm(old(outages.attempts)),
          r.error);
      }
    }

    /** The twelve shards of a block go out one after the other. */
    method PushStripe(u: Id, targets: seq<Target>, shards: array<Slice>, blockIndex: nat, logicalOffset: nat,
        ghost content: seq<Byte>, ghost chunks: seq<Row>)
      returns (r: Result<seq<Row>, StoreError>)
      requires blockIndex < FullBlocks(|content|) && |targets| == RS.TOTAL_SHARDS
      requires Hold(shards[..], RS.StripeOf(BlockOf(content, blockIndex)))
      requires logicalOffset == blockIndex * BLOCK_SIZE && |chunks| == RS.TOTAL_SHARDS * blockIndex
      requires Shipping(world, u, content, chunks, targets)
      modifies this, outages
      ensures Evolves(h, old(world), world)
      ensures r.Success? ==> |r.value| == RS.TOTAL_SHARDS && Shipping(world, u, content, chunks + r.value, [])
      ensures r.Failure? ==> Failed(world, u, content)
      ensures r.Failure? ==>
        IsExcused(h, old(world), world, content, outages.Calm(old(outages.attempts)), r.error)
      ensures outages.attempts >= old(outages.attempts)
    {
      hide FullBlocks, BlockOf, RS.StripeOf, Evolves, Shipping, Failed;
      ghost var stripe := RS.StripeOf(BlockOf(content, blockIndex));
      ghost var start := world;
      NothingHappens(h, start, u);
      var out: seq<Row> := [];
      assert chunks + out == chunks;
      for shardIndex := 0 to RS.TOTAL_SHARDS
        invariant |out| == shardIndex
        invariant Shipping(world, u, content, chunks + out, if shardIndex == RS.TOTAL_SHARDS then [] else targets)
        invariant Evolves(h, start, world)
        invariant Hold(shards[..], stripe)
        invariant outages.attempts >= old(outages.attempts)
      {
        ghost var before, since := world, outages.attempts;
        var chunk := PushShard(u, targets, shards[shardIndex], blockIndex, shardIndex, logicalOffset, BLOCK_SIZE,
          content, chunks + out);
        EvolvesOn(h, start, before, world);
        if chunk.Failure? {
          ExcusedBefore(h, start, before, world, content, outages.Calm(since), outages.Calm(old(outages.attempts)),
            chunk.error);
          return Failure(chunk.error);
        }
        assert chunks + out + [chunk.value] == chunks + (out + [chunk.value]);
        out := out + [chunk.value];
      }
      return Success(out);
    }

    /** Twelve machines for the shards of a block. */
    method SelectForStripe(u: Id, shardLength: nat, ghost blockIndex: nat, ghost content: seq<Byte>,
        ghost chunks: seq<Row>)
      returns (r: Result<seq<Target>, StoreError>)
      requires blockIndex < FullBlocks(|content|) && |chunks| == RS.TOTAL_SHARDS * blockIndex
      requires shardLength == |RS.StripeOf(BlockOf(content, blockIndex))[0]|
      requires Shipping(world, u, content, chunks, [])
      modifies this, outages
      ensures Evolves(h, old(world), world)
      ensures r.Success? ==> |r.value| == RS.TOTAL_SHARDS && Shipping(world, u, content, chunks, r.value)
      ensures r.Failure? ==> Failed(world, u, content)
      ensures r.Failure? ==>
        IsExcused(h, old(world), world, content, outages.Calm(old(outages.attempts)), r.error)
      ensures outages.attempts >= old(outages.attempts)
    {
      hide FullBlocks, PieceAt, PieceCount, BlockOf, RS.StripeOf, Evolves, IsSelection, Shipping, Failed, Suits,
        Serving, Qualifies, TooFew;
      Pause(u, content, chunks, []);
      ghost var w1 := world;
      var answered := outages.Attempt();
      if !answered {
        Abort(u, content, chunks, []);
        EvolvesOn(h, old(world), w1, world);
        return Failure(QueryFailed);
      }
      var draws: nat -> nat := *;
      var selected, cs := SelectMachinesForEC(world.top, RS.TOTAL_SHARDS, RequiredMB(shardLength), draws);
      if selected.Failure? {
        Abort(u, content, chunks, []);
        EvolvesOn(h, old(world), w1, world);
        StripeIsShort(w1.top, content, blockIndex, shardLength);
        assert IsShortAt(h, old(world), w1, world, content, |chunks|);
        return Failure(NoPlacement);
      }
      StripeTargetsSuit(world.top, content, blockIndex, shardLength, selected.value);
      Keep(u, selected.value, content, chunks);
      EvolvesOn(h, old(world), w1, world);
      return Success(selected.value);
    }

    /** storeErasureBlock: the block is encoded and checked, twelve machines are selected,
        and each shard goes to its own. */
    method StoreErasureBlock(u: Id, block: Slice, blockIndex: nat, logicalOffset: nat,
        ghost content: seq<Byte>, ghost chunks: seq<Row>)
      returns (r: Result<seq<Row>, StoreError>)
      requires block.Valid() && blockIndex < FullBlocks(|content|) && block.Bytes() == BlockOf(content, blockIndex)
      requires logicalOffset == blockIndex * BLOCK_SIZE && |chunks| == RS.TOTAL_SHARDS * blockIndex
      requires Shipping(world, u, content, chunks, [])
      modifies this, outages
      ensures Evolves(h, old(world), world)
      ensures r.Success? ==> |r.value| == RS.TOTAL_SHARDS && Shipping(world, u, content, chunks + r.value, [])
      ensures r.Failure? ==> Failed(world, u, content)
      ensures r.Failure? ==>
        IsExcused(h, old(world), world, content, outages.Calm(old(outages.attempts)), r.error)
      ensures outages.attempts >= old(outages.attempts)
    {
      hide FullBlocks, PieceAt, PieceCount, BlockOf, RS.StripeOf, Evolves, Shipping, Failed, WasShort;
      var encoded := erasure.EncodeAndBracket(block);
      if encoded.Failure? {
        // A block that is not empty is never refused.
        assert false;
        return Failure(EncodingFailed);
      }
      var selected := SelectForStripe(u, encoded.value[0].Len(), blockIndex, content, chunks);
      if selected.Failure? {
        return Failure(selected.error);
      }
      ghost var w1, before := world, outages.attempts;
      r := PushStripe(u, selected.value, encoded.value, blockIndex, logicalOffset, content, chunks);
      EvolvesOn(h, old(world), w1, world);
      if r.Failure? {
        ExcusedBefore(h, old(world), w1, world, content, outages.Calm(before), outages.Calm(old(outages.attempts)),
          r.error);
      }
    }

    /** io.ReadFull into the one buffer, or an I/O error. */
    method ReadFull(staged: seq<Byte>, pos: nat, buf: array<Byte>) returns (ok: bool, n: nat)
      requires pos < |staged| && buf.Length == BLOCK_SIZE
      modifies buf, outages
      ensures outages.attempts >= old(outages.attempts) && (outages.Calm(old(outages.attempts)) ==> ok)
      ensures ok ==> 0 < n <= buf.Length && n <= |staged| - pos && buf[..n] == ReadAhead(staged, pos)
    {
      n := if buf.Length <= |staged| - pos then buf.Length else |staged| - pos;
      ok := outages.Attempt();
      if ok {
        forall i | 0 <= i < n {
          buf[i] := staged[pos + i];
        }
        assert buf[..n] == staged[pos..pos + n];
      }
    }

    /** One block: a stripe if it is full, a whole chunk otherwise. */
    method StoreBlock(u: Id, block: Slice, blockIndex: nat, logicalOffset: nat, ghost staged: seq<Byte>,
        ghost chunks: seq<Row>)
      returns (r: Result<seq<Row>, StoreError>)
      requires block.Valid() && |staged| >= INLINE_THRESHOLD
      requires Progress(|staged|, blockIndex, logicalOffset, |chunks|) && logicalOffset < |staged|
      requires block.Bytes() == ReadAhead(staged, logicalOffset)
      requires Shipping(world, u, staged, chunks, [])
      modifies this, outages
      ensures Evolves(h, old(world), world)
      ensures r.Success? ==> Shipping(world, u, staged, chunks + r.value, [])
      ensures r.Success? ==> Progress(|staged|, blockIndex + 1, logicalOffset + block.Len(), |chunks + r.value|)
      ensures r.Failure? ==> Failed(world, u, staged)
      ensures r.Failure? ==>
        IsExcused(h, old(world), world, staged, outages.Calm(old(outages.attempts)), r.error)
      ensures outages.attempts >= old(outages.attempts)
    {
      hide PieceAt, PieceCount, BlockOf, FullBlocks, RS.StripeOf, Evolves, Shipping, Failed, Progress, ReadAhead;
      BlockIsRead(staged, blockIndex, logicalOffset, |chunks|);
      if block.Len() == BLOCK_SIZE {
        r := StoreErasureBlock(u, block, blockIndex, logicalOffset, staged, chunks);
      } else {
        var chunk := StoreWholeBlock(u, Block, block, blockIndex, logicalOffset, staged, chunks);
        r := if chunk.Success? then Success([chunk.value]) else Failure(chunk.error);
      }
    }

    /** The loop over the blocks of a file of at least 128KB. */
    method StoreBlocks(u: Id, staged: seq<Byte>) returns (r: Result<seq<Row>, StoreError>)
      requires |staged| >= INLINE_THRESHOLD && Shipping(world, u, staged, [], [])
      modifies this, outages
      ensures Evolves(h, old(world), world)
      ensures r.Success? ==> |r.value| == PieceCount(|staged|) && Shipping(world, u, staged, r.value, [])
      ensures r.Failure? ==> Failed(world, u, staged)
      ensures r.Failure? ==>
        IsExcused(h, old(world), world, staged, outages.Calm(old(outages.attempts)), r.error)
      ensures outages.attempts >= old(outages.attempts)
    {
      hide PieceCount, Evolves, Shipping, Failed, Progress, WasShort, ReadAhead;
      ghost var start := world;
      NothingHappens(h, start, u);
      NoProgressYet(|staged|);
      var chunks: seq<Row> := [];
      var buf := new Byte[BLOCK_SIZE];
      var logicalOffset, blockIndex := 0, 0;
      while logicalOffset < |staged|
        invariant logicalOffset <= |staged| && Progress(|staged|, blockIndex, logicalOffset, |chunks|)
        invariant Evolves(h, start, world) && Shipping(world, u, staged, chunks, [])
        invariant outages.attempts >= old(outages.attempts)
        decreases |staged| - logicalOffset
      {
        ghost var before := world;
        var ok, n := ReadFull(staged, logicalOffset, buf);
        if !ok {
          Abort(u, staged, chunks, []);
          EvolvesOn(h, start, before, world);
          return Failure(ReadFailed);
        }
        ghost var since := outages.attempts;
        var stored := StoreBlock(u, Slice(buf, 0, n), blockIndex, logicalOffset, staged, chunks);
        EvolvesOn(h, start, before, world);
        if stored.Failure? {
          ExcusedBefore(h, start, before, world, staged, outages.Calm(since), outages.Calm(old(outages.attempts)),
            stored.error);
          return stored;
        }
        chunks := chunks + stored.value;
        logicalOffset := logicalOffset + n;
        blockIndex := blockIndex + 1;
      }
      AllBlocksStored(|staged|, blockIndex, |chunks|);
      return Success(chunks);
    }

    /** A file below 128KB is one chunk on an inline machine. */
    method StoreInline(u: Id, staged: seq<Byte>) returns (r: Result<seq<Row>, StoreError>)
      requires 0 < |staged| < INLINE_THRESHOLD && Shipping(world, u, staged, [], [])
      modifies this, outages
      ensures Evolves(h, old(world), world)
      ensures r.Success? ==> |r.value| == PieceCount(|staged|) && Shipping(world, u, staged, r.value, [])
      ensures r.Failure? ==> Failed(world, u, staged)
      ensures r.Failure? ==>
        IsExcused(h, old(world), world, staged, outages.Calm(old(outages.attempts)), r.error)
      ensures outages.attempts >= old(outages.attempts)
    {
      hide Evolves, Shipping, Failed, WasShort;
      var ok := outages.Attempt();
      if !ok {
        Abort(u, staged, [], []);
        return Failure(ReadFailed);
      }
      NothingHappens(h, world, u);
      ghost var since := outages.attempts;
      var payload := FromBytes(staged);
      var chunk := StoreWholeBlock(u, Inline, payload, 0, 0, staged, []);
      if chunk.Failure? {
        ExcusedBefore(h, old(world), old(world), world, staged, outages.Calm(since),
          outages.Calm(old(outages.attempts)), chunk.error);
        return Failure(chunk.error);
      }
      assert [] + [chunk.value] == [chunk.value];
      return Success([chunk.value]);
    }

    /** The transaction: the blob, its rows and the usage become visible together, or
        not at all. */
    method CommitCatalog(u: Id, chunks: seq<Row>, size: nat, checksum: Digest, ghost content: seq<Byte>)
      returns (ok: bool)
      requires Shipping(world, u, content, chunks, []) && |chunks| == PieceCount(|content|)
      requires size == |content| && checksum == h(content)
      modifies this, outages
      ensures Evolves(h, old(world), world)
      ensures ok ==> Listed(h, world, u, content) && Visible(world, u)
      ensures !ok ==> Failed(world, u, content)
      ensures outages.attempts >= old(outages.attempts) && (outages.Calm(old(outages.attempts)) ==> ok)
    {
      hide Evolves, PieceCount, Charge;
      ok := outages.Attempt();
      if !ok {
        Abort(u, content, chunks, []);
        return;
      }
      NothingHappens(h, world, u);
      EvolvesByStep(h, world, world, Commit(u));
      var tx := new Tables(world.top);
      tx.ChargeUsage(chunks);
      world := world.(
        top := tx.top,
        blobs := world.blobs[u := Blob(size, checksum, false)],
        rows := world.rows + chunks,
        uploads := world.uploads[u := world.uploads[u].(status := Committed)]);
    }

    /** StoreFile. It takes steps of the protocol only, among any steps of other uploads.
        If it succeeds, the file is listed and visible under the identifier returned; if
        it fails after it has begun, its upload never is. It succeeds whenever the file is
        not empty, nothing fails and there are machines for every chunk when it asks. */
    method StoreFile(staged: seq<Byte>) returns (r: Result<Id, StoreError>, ghost begun: Option<Id>)
      requires Consistent(h, world)
      modifies this, outages
      ensures Consistent(h, world) && Evolves(h, old(world), world)
      ensures staged == [] ==> r.Failure? && (outages.Calm(old(outages.attempts)) ==> r == Failure(EmptyFile))
      ensures staged != [] && outages.Calm(old(outages.attempts)) && !WasShort(h, old(world), world, staged) ==>
        r.Success?
      ensures r.Failure? ==>
        IsExcused(h, old(world), world, staged, outages.Calm(old(outages.attempts)), r.error)
      ensures outages.attempts >= old(outages.attempts)
      ensures r.Success? ==> Listed(h, world, r.value, staged) && Visible(world, r.value)
      ensures r.Success? ==> r.value !in old(world.blobs)
      ensures r.Failure? ==> if begun.Some? then Failed(world, begun.value, staged) else world == old(world)
    {
      hide Consistent, Evolves, Shipping, Failed, Listed, Visible, WasShort;
      ghost var start := world;
      begun := None;
      NothingHappens(h, start, world.nextId);
      var readable := outages.Attempt();
      if !readable {
        return Failure(ReadFailed), begun;
      }
      if |staged| == 0 {
        return Failure(EmptyFile), begun;
      }
      var checksum := h(staged);
      var u := Begin(staged);
      begun := Some(u);
      ghost var w1, since := world, outages.attempts;
      var stored;
      if |staged| < INLINE_THRESHOLD {
        stored := StoreInline(u, staged);
      } else {
        stored := StoreBlocks(u, staged);
      }
      ghost var w2 := world;
      EvolvesOn(h, start, w1, w2);
      if stored.Failure? {
        EvolutionKeepsConsistent(h, start, world);
        ExcusedBefore(h, start, w1, world, staged, outages.Calm(since), outages.Calm(old(outages.attempts)),
          stored.error);
        return Failure(stored.error), begun;
      }
      Pause(u, staged, stored.value, []);
      ghost var w3 := world;
      EvolvesOn(h, start, w2, w3);
      var ok := CommitCatalog(u, stored.value, |staged|, checksum, staged);
      EvolvesOn(h, start, w3, world);
      EvolutionKeepsConsistent(h, start, world);
      return if ok then Success(u) else Failure(CommitFailed), begun;
    }

    /** A new identifier for the blob. */
    method Begin(staged: seq<Byte>) returns (u: Id)
      requires Consistent(h, world) && staged != []
      modifies this
      ensures Shipping(world, u, staged, [], []) && Evolves(h, old(world), world) && u !in old(world.blobs)
    {
      hide Evolves, UploadOk, Balanced, KeysOk, IsCluster, FilesOk, PieceCount;
      u := world.nextId;
      UploadIsOld(h, world);
      NothingHappens(h, world, u);
      EvolvesByStep(h, world, world, Start(staged));
      world := Apply(h, world, Start(staged));
    }

    // Reading.

    /** readChunkVerified. */
    method ReadChunkVerified(loc: Location, ans: Answers) returns (r: Option<Slice>)
      ensures r.Some? <==> ReadVerified(h, ans, loc).Some?
      ensures r.Some? ==> r.value.Slice? && r.value.Valid() && fresh(r.value.buf)
      ensures r.Some? ==> r.value.Bytes() == ReadVerified(h, ans, loc).value
    {
      var answer := ans(loc);
      if answer.None? || |answer.value| != loc.row.size || h(answer.value) != loc.row.checksum {
        return None;
      }
      var data := FromBytes(answer.value);
      return Some(data);
    }

    method PutShard(shards: array<Slice>, s: nat, data: Slice, ghost v: seq<seq<Byte>>)
      requires s < shards.Length && data.Valid() && Hold(shards[..], v)
      modifies shards
      ensures Hold(shards[..], v[s := data.Bytes()])
    {
      ghost var before, bytes := shards[..], data.Bytes();
      shards[s] := data;
      forall i | 0 <= i < |v| ensures shards[..][i].Valid() && shards[..][i].Bytes() == v[s := bytes][i] {
        if i != s {
          assert shards[..][i] == before[i];
        }
      }
    }

    /** A chunk of a stripe, read into its place if it can be read. */
    method ReadInto(shards: array<Slice>, loc: Location, ans: Answers, ghost v: seq<seq<Byte>>) returns (got: bool)
      requires 0 <= loc.row.shardIndex < shards.Length && Hold(shards[..], v)
      modifies shards
      ensures got == ReadVerified(h, ans, loc).Some?
      ensures Hold(shards[..], if got then v[loc.row.shardIndex := ReadVerified(h, ans, loc).value] else v)
    {
      hide ReadVerified;
      var data := ReadChunkVerified(loc, ans);
      got := data.Some?;
      if got {
        PutShard(shards, loc.row.shardIndex, data.value, v);
      }
    }

    /** The chunks of a stripe that can be read, each at its index. */
    method GatherShards(group: seq<Location>, ans: Answers) returns (ok: bool, shards: array<Slice>, available: nat)
      ensures fresh(shards)
      ensures ok == Gather(h, ans, group).Success?
      ensures ok ==>
        Hold(shards[..], Gather(h, ans, group).value.shards) && available == Gather(h, ans, group).value.available
      ensures !ok ==> Gather(h, ans, group) == Failure(InvalidShardIndex)
    {
      hide ReadVerified, Gather;
      Retrieval.GatherNothing(h, ans);
      shards := new Slice[RS.TOTAL_SHARDS](_ => Nil);
      available := 0;
      for i := 0 to |group|
        invariant Gather(h, ans, group[..i]).Success?
        invariant Hold(shards[..], Gather(h, ans, group[..i]).value.shards)
        invariant available == Gather(h, ans, group[..i]).value.available
      {
        NextGather(h, ans, group, i);
        if group[i].row.shardIndex < 0 || group[i].row.shardIndex >= RS.TOTAL_SHARDS {
          GatherFails(h, ans, group, i + 1);
          return false, shards, available;
        }
        var got := ReadInto(shards, group[i], ans, Gather(h, ans, group[..i]).value.shards);
        available := available + if got then 1 else 0;
      }
      assert group[..|group|] == group;
      return true, shards, available;
    }

    /** readBlock. */
    method ReadBlock(group: seq<Location>, ans: Answers) returns (r: Result<seq<Byte>, ReadError>)
      requires group != []
      ensures r == Retrieval.ReadBlock(h, ans, group)
    {
      hide RS.Reconstruct, RS.Join, Gather, ReadVerified;
      if |group| == 1 && group[0].row.shardIndex == SHARD_INDEX_WHOLE {
        var data := ReadChunkVerified(group[0], ans);
        return if data.Some? then Success(data.value.Bytes()) else Failure(ChunkUnreadable);
      }
      var ok, shards, available := GatherShards(group, ans);
      if !ok {
        return Failure(InvalidShardIndex);
      }
      if available < RS.DATA_SHARDS {
        return Failure(TooFewShards);
      }
      ghost var full := Gather(h, ans, group).value.shards;
      if available < RS.TOTAL_SHARDS {
        ok := Encoder.Reconstruct(shards, full);
        if !ok {
          return Failure(ReconstructionFailed);
        }
        full := RS.Reconstruct(full).value;
      }
      var joined := Encoder.Join(shards, group[0].row.logicalSize, full);
      return if joined.Some? then Success(joined.value) else Failure(ReadError.JoinFailed);
    }

    /** The query joins a blob's rows with their machines and workers; the proofs below
        hold whatever the order of its result. */
    method Query(b: Id) returns (locations: seq<Location>)
      ensures multiset(locations) == multiset(Locations(world.top, world.rows, b))
    {
      locations := Locations(world.top, world.rows, b);
    }

    /** The rows of each block, and the blocks in the order of their first rows. */
    method GroupByBlock(locations: seq<Location>) returns (blocks: map<int, seq<Location>>, blockIndexes: seq<int>)
      ensures blocks == map k | k in BlockIndexes(locations) :: Group(locations, k)
      ensures forall k :: k in BlockIndexes(locations) <==> k in blockIndexes
      ensures Distinct(blockIndexes)
    {
      hide BlockIndexes, Group;
      blocks, blockIndexes := map[], [];
      assert BlockIndexes([]) == {} by { NoBlocks(); }
      for i := 0 to |locations|
        invariant blocks == map k | k in BlockIndexes(locations[..i]) :: Group(locations[..i], k)
        invariant forall k :: k in BlockIndexes(locations[..i]) <==> k in blockIndexes
        invariant Distinct(blockIndexes)
      {
        var k := locations[i].row.blockIndex;
        NextGroup(locations, i);
        if k !in blocks {
          NoGroup(locations[..i], k);
          blockIndexes := blockIndexes + [k];
        }
        blocks := blocks[k := (if k in blocks then blocks[k] else []) + [locations[i]]];
      }
      assert locations[..|locations|] == locations;
    }

    /** RetrieveBlob. */
    method RetrieveBlob(b: Id, blob: Blob, ans: Answers) returns (r: Result<seq<Byte>, ReadError>)
      ensures IsReadResult(h, ans, world, b, blob, r)
    {
      hide Group, Retrieval.ReadBlock, Locations, BlockIndexes;
      var locs := Query(b);
      var blocks, blockIndexes := GroupByBlock(locs);
      var sorted := SortInts(blockIndexes);
      SortedEnumerates(blockIndexes, sorted, BlockIndexes(locs));
      assert IsReadOf(world, b, locs, sorted);
      if |locs| == 0 {
        r := Failure(NoChunks);
        assert Retrieve(h, ans, locs, sorted, blob) == r;
        return;
      }
      var out := AppendBlocks(locs, blocks, sorted, ans);
      r := if out.Failure? then out
           else if |out.value| != blob.size then Failure(SizeMismatch)
           else if h(out.value) != blob.checksum then Failure(ChecksumMismatch)
           else out;
      assert Retrieve(h, ans, locs, sorted, blob) == r;
    }

    /** The loop over the blocks in ascending order. */
    method AppendBlocks(locs: seq<Location>, blocks: map<int, seq<Location>>, sorted: seq<int>, ans: Answers)
      returns (r: Result<seq<Byte>, ReadError>)
      requires blocks == map k | k in BlockIndexes(locs) :: Group(locs, k)
      requires forall k :: k in sorted ==> k in BlockIndexes(locs)
      ensures r == ReadBlocks(h, ans, locs, sorted)
    {
      hide Group, Retrieval.ReadBlock, BlockIndexes;
      var out: seq<Byte> := [];
      for i := 0 to |sorted|
        invariant ReadBlocks(h, ans, locs, sorted[..i]) == Success(out)
      {
        assert sorted[..i + 1][..i] == sorted[..i];
        assert sorted[i] in sorted;
        GroupNotEmpty(locs, sorted[i]);
        var data := ReadBlock(blocks[sorted[i]], ans);
        if data.Failure? {
          ReadBlocksFails(h, ans, locs, sorted, i + 1);
          return data;
        }
        out := out + data.value;
      }
      assert sorted[..|sorted|] == sorted;
      return Success(out);
    }
  }

  lemma NoBlocks()
    ensures BlockIndexes([]) == {}
  {}
}
