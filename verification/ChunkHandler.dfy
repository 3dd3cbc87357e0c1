/** The worker's requests: the checks that turn a partial transfer into an error. */
module ChunkHandler {
  import opened Wrappers
  import opened Gf256
  import opened Catalog
  import opened ClusterRoot
  import opened Decimal
  import opened WorkerRefinement
  import BE = BlockEngine
  import IE = InlineEngine
  import UP = UploadProtocol
  import WP = WorkerProtocol

  datatype Reply =
    | Stored(path: Path, offset: nat, written: nat)
    | Bytes(data: seq<Byte>)
    | BadRequest
    | NotFound
    | ServerError

  /** parseChunkSize: the header is required, and is a non-negative 64-bit integer. */
  function ParseChunkSize(raw: string): (r: Option<nat>)
    ensures raw == "" ==> r == None
    ensures r.Some? ==> r.value < INT64_LIMIT
  {
    var size := ParseInt(raw);
    if raw == "" || size.None? || size.value < 0 then None else Some(size.value)
  }

  /** The size that the gateway declares is the size that the worker parses. */
  lemma DeclaredSizeIsParsed(n: nat)
    requires n < 9_223_372_036_854_775_808
    ensures ParseChunkSize(Numeral(n)) == Some(n)
  {
    ParseNumeral(n);
  }

  class ChunkHandler {
    const root: ClusterRoot
    const blocks: BE.BlockEngine
    const inlines: IE.InlineEngine

    /** Both engines work below the same cluster root. */
    ghost predicate Valid()
      reads inlines, root
    {
      blocks.root == root && inlines.root == root && WP.Valid(inlines.State())
    }

    /** The files without the bytes of appends that are still going on. */
    ghost function Settled(): Files
      reads inlines, inlines.root, root
    {
      SettledFiles(root.address, inlines.State())
    }

    constructor (root: ClusterRoot)
      ensures Valid() && this.root == root && fresh(blocks) && fresh(inlines)
      ensures inlines.State() == WP.Started(root.volumes, root.chunks)
    {
      this.root := root;
      blocks := new BE.BlockEngine(root);
      inlines := new IE.InlineEngine(root);
    }

    /** A chunk of a block machine. The chunk is stored exactly if as much arrived as was
        declared; otherwise some beginning of the body may be left in its file. */
    method WriteBlockChunk(namespace: string, id: Option<Id>, rawSize: string, body: seq<Byte>)
      returns (reply: Reply, ghost arrived: nat)
      requires Valid()
      modifies root, root.outages
      ensures root.outages.attempts >= old(root.outages.attempts)
      ensures id.Some? && ParseChunkSize(rawSize) == Some(|body|) && root.outages.Calm(old(root.outages.attempts)) ==>
        reply.Stored?
      ensures Valid() && arrived <= |body| && root.volumes == old(root.volumes)
      ensures id.None? || ParseChunkSize(rawSize).None? ==> reply == BadRequest && root.chunks == old(root.chunks)
      ensures reply == BadRequest ==> id.None? || ParseChunkSize(rawSize) != Some(|body|)
      ensures reply == ServerError ==> !root.outages.Calm(old(root.outages.attempts))
      ensures reply != NotFound
      ensures reply.Stored? ==>
        && id.Some? && ParseChunkSize(rawSize) == Some(|body|)
        && reply == Stored(ChunkFile(id.value), 0, |body|)
        && root.chunks == old(root.chunks)[ChunkKey(namespace, id.value) := body]
      ensures
        || root.chunks == old(root.chunks)
        || (id.Some? && root.chunks == old(root.chunks)[ChunkKey(namespace, id.value) := body[..arrived]])
      ensures !reply.Bytes?
    {
      hide WP.Valid;
      arrived := 0;
      if id.None? {
        return BadRequest, arrived;
      }
      var size := ParseChunkSize(rawSize);
      if size.None? {
        return BadRequest, arrived;
      }
      ghost var before := inlines.State();
      var r;
      r, arrived := blocks.StreamWrite(namespace, id.value, body);
      WP.ChunksDoNotMatter(before, root.chunks);
      if r.Failure? {
        return ServerError, arrived;
      }
      if r.value.written != size.value {
        return BadRequest, arrived;
      }
      assert body[..|body|] == body;
      return Stored(r.value.path, r.value.offset, r.value.written), arrived;
    }

    /** A chunk of an inline machine, appended as call t, among any steps of others. */
    method AppendInlineChunk(t: WP.Tid, namespace: string, id: Option<Id>, rawSize: string, body: seq<Byte>)
      returns (reply: Reply)
      requires Valid() && t !in inlines.calls
      modifies inlines, root, root.outages
      ensures root.outages.attempts >= old(root.outages.attempts)
      ensures id.Some? && ParseChunkSize(rawSize) == Some(|body|) && root.outages.Calm(old(root.outages.attempts)) ==>
        reply.Stored? || inlines.Waits(t, namespace)
      ensures Valid() && IsPushedInPart(old(Settled()), Settled(), t, body)
      ensures id.None? || ParseChunkSize(rawSize).None? ==> reply == BadRequest && root.Files() == old(root.Files())
      ensures reply == BadRequest ==> id.None? || ParseChunkSize(rawSize) != Some(|body|)
      ensures reply == ServerError ==> !root.outages.Calm(old(root.outages.attempts)) || inlines.Waits(t, namespace)
      ensures reply != NotFound
      ensures reply.Stored? ==>
        && id.Some? && ParseChunkSize(rawSize) == Some(|body|) && reply == Stored(Volume, reply.offset, |body|)
        && IsPushed(old(Settled()), Settled(), t, VolumeKey(root.address, namespace), body, reply.offset)
        && Holds(root.Files(), VolumeKey(root.address, namespace), reply.offset, body)
      ensures !reply.Bytes?
    {
      hide WP.Valid, SettledFiles, IsPushedInPart, IsPushed, WP.Evolves, Holds, FilesOf;
      NothingIsPushed(Settled(), t, body);
      if id.None? {
        return BadRequest;
      }
      var size := ParseChunkSize(rawSize);
      if size.None? {
        return BadRequest;
      }
      ghost var before := inlines.State();
      var r := inlines.StreamWrite(t, namespace, body);
      CallIsPush(root.address, before, inlines.State(), t, body);
      if r.Failure? {
        return ServerError;
      }
      if r.value.written != size.value {
        return BadRequest;
      }
      PushedIsHeld(SettledFiles(root.address, before), Settled(), t, VolumeKey(root.address, namespace), body,
        r.value.offset);
      SettledIsLess(root.address, inlines.State());
      HeldInMore(Settled(), root.Files(), VolumeKey(root.address, namespace), r.value.offset, body);
      return Stored(Volume, r.value.offset, r.value.written);
    }

    /** ReadChunk serves the files of both engines. It answers with exactly the bytes
        asked for, or with an error. */
    method ReadChunk(namespace: string, path: Option<Path>, offset: int, size: int) returns (reply: Reply)
      requires Valid()
      ensures reply.Bytes? <==>
        && path.Some? && offset >= 0 && size > 0
        && var key := FileKey(root.address, namespace, path.value);
        && key in root.Files() && offset + size <= |root.Files()[key]|
      ensures reply.Bytes? ==>
        reply.data == root.Files()[FileKey(root.address, namespace, path.value)][offset..offset + size]
      ensures reply == BadRequest <==> path.None? || offset < 0 || size <= 0
      ensures reply == NotFound ==> path.Some? && FileKey(root.address, namespace, path.value) !in root.Files()
      ensures reply == ServerError ==>
        && path.Some? && var key := FileKey(root.address, namespace, path.value);
        key in root.Files() && offset + size > |root.Files()[key]|
      ensures !reply.Stored?
    {
      hide WP.Valid, FilesOf;
      if path.None? || offset < 0 || size <= 0 {
        return BadRequest;
      }
      var r := blocks.Read(namespace, path.value, offset, size);
      if r.Failure? {
        return NotFound;
      }
      if |r.value| != size {
        return ServerError;
      }
      return Bytes(r.value);
    }
  }

  class WorkerClient {
    const worker: ChunkHandler

    constructor (worker: ChunkHandler)
      ensures this.worker == worker
    {
      this.worker := worker;
    }

    /** ReadChunk: for a row of the catalog, of a block or an inline machine, the answer
        is the one of the model for the worker's files. */
    method ReadChunk(loc: Location) returns (data: Option<seq<Byte>>)
      requires worker.Valid() && loc.address == worker.root.address
      ensures data == Fetch(worker.root.Files(), loc)
    {
      hide WP.Valid, FilesOf;
      var reply := worker.ReadChunk(loc.namespace, Some(loc.row.path), loc.row.offset, loc.row.size);
      data := if reply.Bytes? then Some(reply.data) else None;
    }

    /** How much of the body reaches the worker. */
    method Send(data: seq<Byte>) returns (sent: nat)
      modifies worker.root.outages
      ensures worker.root.outages.attempts >= old(worker.root.outages.attempts) && sent <= |data|
      ensures worker.root.outages.Calm(old(worker.root.outages.attempts)) ==> sent == |data|
    {
      var ok := worker.root.outages.Attempt();
      if ok {
        return |data|;
      }
      sent :| sent <= |data|;
    }

    /** WriteBlock: the whole chunk is declared, some beginning of it arrives. What becomes
        of the files is what the protocol's push does, or its failed push, or nothing. */
    method WriteBlock(namespace: string, id: Id, data: seq<Byte>) returns (ok: bool, ghost arrived: nat)
      requires worker.Valid() && |data| < 9_223_372_036_854_775_808
      modifies worker.root, worker.root.outages
      ensures worker.root.outages.attempts >= old(worker.root.outages.attempts)
      ensures worker.root.outages.Calm(old(worker.root.outages.attempts)) ==> ok
      ensures worker.Valid() && arrived <= |data|
      ensures var key := FileKey(worker.root.address, namespace, ChunkFile(id));
        if ok then worker.root.Files() == UP.Written(old(worker.root.Files()), key, data)
        else
          || worker.root.Files() == old(worker.root.Files())
          || worker.root.Files() == UP.Written(old(worker.root.Files()), key, data[..arrived])
      ensures var key := FileKey(worker.root.address, namespace, ChunkFile(id));
        if ok then worker.Settled() == UP.Written(old(worker.Settled()), key, data)
        else
          || worker.Settled() == old(worker.Settled())
          || worker.Settled() == UP.Written(old(worker.Settled()), key, data[..arrived])
    {
      hide WP.Valid, FilesOf, SettledVolumes, UP.Written;
      var sent := Send(data);
      DeclaredSizeIsParsed(|data|);
      ghost var address, volumes, chunks := worker.root.address, worker.root.volumes, worker.root.chunks;
      ghost var s := worker.inlines.State();
      var reply;
      reply, arrived := worker.WriteBlockChunk(namespace, Some(id), Numeral(|data|), data[..sent]);
      var replied := worker.root.outages.Attempt();
      ok := reply.Stored? && replied;
      assert data[..sent][..arrived] == data[..arrived];
      assert sent == |data| ==> data[..sent] == data;
      ghost var bytes := if ok then data else data[..arrived];
      SettledIgnoresChunks(s, worker.root.chunks);
      ChunkWritten(address, volumes, chunks, ChunkKey(namespace, id), bytes);
      ChunkWritten(address, SettledVolumes(s), chunks, ChunkKey(namespace, id), bytes);
    }

    /** AppendInline, as call t. Among the pushes of other requests, the files change by
        the protocol's push of the data to the volume if the client reports success, and
        otherwise by a push of some beginning of the data, or not at all. */
    method AppendInline(t: WP.Tid, namespace: string, id: Id, data: seq<Byte>) returns (r: Option<nat>)
      requires worker.Valid() && |data| < 9_223_372_036_854_775_808 && t !in worker.inlines.calls
      modifies worker.inlines, worker.root, worker.root.outages
      ensures worker.root.outages.attempts >= old(worker.root.outages.attempts)
      ensures worker.root.outages.Calm(old(worker.root.outages.attempts)) ==>
        r.Some? || worker.inlines.Waits(t, namespace)
      ensures worker.Valid()
      ensures r.Some? ==>
        IsPushed(old(worker.Settled()), worker.Settled(), t, VolumeKey(worker.root.address, namespace), data, r.value)
      ensures r.None? ==> IsPushedInPart(old(worker.Settled()), worker.Settled(), t, data)
    {
      hide WP.Valid, SettledFiles, IsPushed;
      var sent := Send(data);
      DeclaredSizeIsParsed(|data|);
      var reply := worker.AppendInlineChunk(t, namespace, Some(id), Numeral(|data|), data[..sent]);
      BeginningIsPushedInPart(old(worker.Settled()), worker.Settled(), t, data[..sent], data);
      assert sent == |data| ==> data[..sent] == data;
      var replied := worker.root.outages.Attempt();
      r := if reply.Stored? && replied then Some(reply.offset) else None;
    }
  }
}
