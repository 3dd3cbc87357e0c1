/** What users see of the catalog: files that are listed, downloaded and deleted. */
module FileController {
  import opened Wrappers
  import opened Gf256
  import opened Catalog
  import opened Retrieval
  import opened UploadProtocol
  import opened CommitSafety
  import opened Durability
  import SS = StorageService

  datatype FileError = NotFound | Unreadable(error: ReadError)

  /** Only lost machines answer from anything but their files, and none of them holds a
      whole chunk of the blob. */
  ghost predicate MayLose(w: World, b: Id, lost: set<string>, ans: Answers) {
    var base := Locations(w.top, w.rows, b);
    OnlyLost(w.files, lost, ans, base) && WholeChunksSafe(base, lost)
  }

  class FileController {
    const storage: SS.StorageService

    constructor (storage: SS.StorageService)
      ensures this.storage == storage
    {
      this.storage := storage;
    }

    /** ListFiles: exactly the files that are visible, each once, in any order of time. */
    method ListFiles() returns (files: seq<Id>)
      ensures forall b :: b in files <==> b in storage.world.blobs && !storage.world.blobs[b].deleted
      ensures forall i, j :: 0 <= i < j < |files| ==> files[i] != files[j]
    {
      var rest := storage.world.blobs.Keys;
      files := [];
      while rest != {}
        invariant rest <= storage.world.blobs.Keys
        invariant forall b :: b in files <==>
          b in storage.world.blobs && b !in rest && !storage.world.blobs[b].deleted
        invariant forall i, j :: 0 <= i < j < |files| ==> files[i] != files[j]
        decreases |rest|
      {
        var b :| b in rest;
        if !storage.world.blobs[b].deleted {
          files := files + [b];
        }
        rest := rest - {b};
      }
    }

    /** DownloadFile: a file that is not there or was deleted is not found; any other is
        what RetrieveBlob makes of the workers' answers. That is the file that was stored,
        also if up to four machines are lost, none of which holds a whole chunk of it,
        unless an answer is a collision. */
    method DownloadFile(b: Id, ans: Answers) returns (r: Result<seq<Byte>, FileError>)
      ensures r == Failure(NotFound) <==> !Visible(storage.world, b)
      ensures r.Success? ==> IsReadResult(storage.h, ans, storage.world, b, storage.world.blobs[b], Success(r.value))
      ensures r.Failure? && r.error.Unreadable? ==>
        IsReadResult(storage.h, ans, storage.world, b, storage.world.blobs[b], Failure(r.error.error))
      ensures forall data, lost: set<string> ::
        (&& Consistent(storage.h, storage.world) && Listed(storage.h, storage.world, b, data) && |lost| <= 4
         && Visible(storage.world, b) && MayLose(storage.world, b, lost, ans)) ==>
        r == Success(data) || Forged(storage.h, ans, data, Locations(storage.world.top, storage.world.rows, b))
    {
      hide IsReadResult, Consistent, Listed, Forged, Locations, OnlyLost, WholeChunksSafe;
      if b !in storage.world.blobs || storage.world.blobs[b].deleted {
        return Failure(NotFound);
      }
      var data := storage.RetrieveBlob(b, storage.world.blobs[b], ans);
      r := if data.Success? then Success(data.value) else Failure(Unreadable(data.error));
      ghost var h, w := storage.h, storage.world;
      forall file, lost: set<string> |
        Consistent(h, w) && Listed(h, w, b, file) && |lost| <= 4 && MayLose(w, b, lost, ans)
        ensures r == Success(file) || Forged(h, ans, file, Locations(w.top, w.rows, b))
      {
        StoredFileSurvives(h, w, b, file, lost, ans);
      }
    }

    /** DeleteFile: the file is marked, and nothing else changes, on the workers least of
        all. What is not visible stays as it is. */
    method DeleteFile(b: Id)
      requires Consistent(storage.h, storage.world)
      modifies storage
      ensures Consistent(storage.h, storage.world) && Evolves(storage.h, old(storage.world), storage.world)
      ensures !Visible(storage.world, b)
      ensures forall c :: c != b ==> (Visible(storage.world, c) <==> Visible(old(storage.world), c))
      ensures storage.world.(blobs := map[]) == old(storage.world).(blobs := map[])
    {
      hide Consistent, Evolves;
      NothingHappens(storage.h, storage.world, 0);
      if b in storage.world.blobs && !storage.world.blobs[b].deleted {
        EvolvesByStep(storage.h, storage.world, storage.world, Delete(b));
        DeleteKeepsConsistent(storage.h, storage.world, b);
        storage.world := Apply(storage.h, storage.world, Delete(b));
      }
    }
  }
}
