/** One file per chunk, and reads of both engines' files. */
module BlockEngine {
  import opened Wrappers
  import opened Gf256
  import opened Catalog
  import opened ClusterRoot

  datatype EngineError = OpenFailed | StreamFailed

  datatype Written = Written(path: Path, offset: nat, written: nat)

  /** file.ReadAt into a buffer of the given size: what is there, up to the size. */
  function ReadAt(file: seq<Byte>, offset: nat, size: nat): (data: seq<Byte>)
    ensures |data| == size <==> size == 0 || offset + size <= |file|
    ensures offset + size <= |file| ==> data == file[offset..offset + size]
    ensures data != [] ==> offset + |data| <= |file| && data == file[offset..offset + |data|]
  {
    if offset >= |file| then []
    else if offset + size <= |file| then file[offset..offset + size]
    else file[offset..]
  }

  class BlockEngine {
    /** The files, which are shared with the inline engine. */
    const root: ClusterRoot

    constructor (root: ClusterRoot)
      ensures this.root == root
    {
      this.root := root;
    }

    /** StreamWrite: the file is created or truncated, then filled from the reader. A
        failure leaves some beginning of what was read. */
    method StreamWrite(namespace: string, id: Id, reader: seq<Byte>)
      returns (r: Result<Written, EngineError>, ghost arrived: nat)
      modifies root, root.outages
      ensures root.outages.attempts >= old(root.outages.attempts)
      ensures root.outages.Calm(old(root.outages.attempts)) ==> r.Success?
      ensures root.volumes == old(root.volumes)
      ensures r.Success? ==> r.value == Written(ChunkFile(id), 0, |reader|) && arrived == |reader|
      ensures arrived <= |reader|
      ensures
        || root.chunks == old(root.chunks)[ChunkKey(namespace, id) := reader[..arrived]]
        || (r.Failure? && root.chunks == old(root.chunks))
    {
      var chunk := ChunkKey(namespace, id);
      arrived := 0;
      var ok := root.outages.Attempt();
      if !ok {
        return Failure(OpenFailed), arrived;
      }
      root.chunks := root.chunks[chunk := []];
      var written := 0;
      while written < |reader|
        invariant arrived == written <= |reader| && root.outages.attempts >= old(root.outages.attempts)
        invariant root.volumes == old(root.volumes)
        invariant root.chunks == old(root.chunks)[chunk := reader[..written]]
      {
        ok := root.outages.Attempt();
        if !ok {
          return Failure(StreamFailed), arrived;
        }
        var n: nat :| 0 < n <= |reader| - written;
        root.chunks := root.chunks[chunk := root.chunks[chunk] + reader[written..written + n]];
        assert reader[..written] + reader[written..written + n] == reader[..written + n];
        written := written + n;
        arrived := written;
      }
      ok := root.outages.Attempt();
      if !ok {
        return Failure(StreamFailed), arrived;
      }
      return Success(Written(ChunkFile(id), 0, written)), arrived;
    }

    /** Read. The path leads to a chunk file or to a volume alike. */
    method Read(namespace: string, path: Path, offset: nat, size: nat) returns (r: Result<seq<Byte>, EngineError>)
      ensures var key := FileKey(root.address, namespace, path);
        r == if key in root.Files() then Success(ReadAt(root.Files()[key], offset, size)) else Failure(OpenFailed)
    {
      FilesOfAt(root.address, root.volumes, root.chunks, FileKey(root.address, namespace, path));
      if !HasFile(root.volumes, root.chunks, namespace, path) {
        return Failure(OpenFailed);
      }
      return Success(ReadAt(FileAt(root.volumes, root.chunks, namespace, path), offset, size));
    }
  }
}
