/** The requests of an upload in parts, and the client that makes them. */
module UploadController {
  import opened Wrappers
  import opened Gf256
  import opened Catalog
  import opened UploadProtocol
  import opened CommitSafety
  import opened Durability
  import opened UploadParts
  import SS = StorageService

  datatype UploadError = NoParts | ReadFailed | Incomplete | PartFailed | NotStored(error: SS.StoreError)

  class UploadController {
    const storage: SS.StorageService
    /** The staging directory of one upload, and the size announced when it began. */
    var dir: Staging
    const totalSize: int

    /** InitUpload. */
    constructor (storage: SS.StorageService, manifest: seq<Byte>, totalSize: int)
      ensures this.storage == storage && dir == map[MANIFEST := manifest] && this.totalSize == totalSize
    {
      this.storage, this.dir, this.totalSize := storage, map[MANIFEST := manifest], totalSize;
    }

    /** UploadPart: the part's file is created or truncated, and filled with as much of
        the body as arrives. */
    method UploadPart(partNumber: int, body: seq<Byte>) returns (ok: bool, ghost arrived: nat)
      modifies this, storage.outages
      ensures storage.outages.attempts >= old(storage.outages.attempts)
      ensures ok ==> partNumber >= 1 && arrived == |body|
      ensures partNumber >= 1 && storage.outages.Calm(old(storage.outages.attempts)) ==> ok
      ensures arrived <= |body|
      ensures dir == old(dir) || (partNumber >= 1 && dir == old(dir)[PartName(partNumber) := body[..arrived]])
      ensures ok ==> dir == old(dir)[PartName(partNumber) := body]
    {
      arrived := 0;
      if partNumber < 1 {
        return false, arrived;
      }
      ok := storage.outages.Attempt();
      if !ok {
        return;
      }
      var written := 0;
      dir := dir[PartName(partNumber) := []];
      while written < |body|
        invariant arrived == written <= |body| && dir == old(dir)[PartName(partNumber) := body[..written]]
        invariant storage.outages.attempts >= old(storage.outages.attempts)
      {
        ok := storage.outages.Attempt();
        if !ok {
          return;
        }
        var n: nat :| 0 < n <= |body| - written;
        written := written + n;
        arrived := written;
        dir := dir[PartName(partNumber) := body[..written]];
      }
      assert body[..|body|] == body;
      ok := true;
    }

    /** The loop of assembleParts. */
    method AppendAll(parts: seq<string>) returns (r: Result<nat, UploadError>)
      requires forall x :: x in parts ==> x in dir && x != ASSEMBLED
      modifies this, storage.outages
      ensures storage.outages.attempts >= old(storage.outages.attempts)
      ensures r.Success? ==>
        dir == old(dir)[ASSEMBLED := Concat(old(dir), parts)] && r.value == |Concat(old(dir), parts)|
      ensures r.Failure? ==> r.error == ReadFailed && !storage.outages.Calm(old(storage.outages.attempts))
      ensures dir - {ASSEMBLED} == old(dir) - {ASSEMBLED}
    {
      hide Concat;
      dir := dir[ASSEMBLED := []];
      var total := 0;
      ConcatNothing(old(dir));
      for i := 0 to |parts|
        invariant dir == old(dir)[ASSEMBLED := Concat(old(dir), parts[..i])]
        invariant total == |Concat(old(dir), parts[..i])|
        invariant storage.outages.attempts >= old(storage.outages.attempts)
      {
        var ok := storage.outages.Attempt();
        if !ok {
          return Failure(ReadFailed);
        }
        ConcatNext(old(dir), parts, i);
        var part := dir[parts[i]];
        dir := dir[ASSEMBLED := dir[ASSEMBLED] + part];
        total := total + |part|;
      }
      assert parts[..|parts|] == parts;
      return Success(total);
    }

    /** assembleParts: the parts, in the order of their names, one after the other. */
    method AssembleParts() returns (r: Result<nat, UploadError>, ghost names: seq<string>)
      modifies this, storage.outages
      ensures storage.outages.attempts >= old(storage.outages.attempts)
      ensures ListsParts(old(dir), names)
      ensures r == Failure(NoParts) <==> forall x :: x in old(dir) ==> !IsPart(x)
      ensures r.Success? ==>
        dir == old(dir)[ASSEMBLED := Concat(old(dir), names)] && r.value == |Concat(old(dir), names)|
      ensures r.Failure? ==>
        r == Failure(NoParts) || (r == Failure(ReadFailed) && !storage.outages.Calm(old(storage.outages.attempts)))
      ensures dir - {ASSEMBLED} == old(dir) - {ASSEMBLED}
    {
      var parts := SortNames(set x | x in dir && IsPart(x));
      names := parts;
      HasFirst(parts);
      if |parts| == 0 {
        return Failure(NoParts), names;
      }
      AssembledIsNoPart(0);
      r := AppendAll(parts);
    }

    /** The part of CompleteUpload that makes one file of the parts: its length is compared
        with the one announced, if that is positive. */
    method Assemble() returns (r: Result<seq<Byte>, UploadError>, ghost names: seq<string>)
      modifies this, storage.outages
      ensures storage.outages.attempts >= old(storage.outages.attempts)
      ensures ListsParts(old(dir), names)
      ensures r == Failure(NoParts) <==> forall x :: x in old(dir) ==> !IsPart(x)
      ensures r.Success? ==> r.value == Concat(old(dir), names) && (totalSize > 0 ==> |r.value| == totalSize)
      ensures r == Failure(Incomplete) ==> totalSize > 0 && |Concat(old(dir), names)| != totalSize
      ensures r.Failure? ==>
        r.error in {NoParts, Incomplete}
        || (r.error == ReadFailed && !storage.outages.Calm(old(storage.outages.attempts)))
      ensures dir - {ASSEMBLED} == old(dir) - {ASSEMBLED}
    {
      var size;
      size, names := AssembleParts();
      if size.Failure? {
        return Failure(size.error), names;
      }
      if totalSize > 0 && size.value != totalSize {
        return Failure(Incomplete), names;
      }
      return Success(dir[ASSEMBLED]), names;
    }

    /** CompleteUpload. If it succeeds, the assembled file is listed, and the staging
        directory is released; if it fails, all the parts are still there. If the parts are
        what arrived of some file's slices, in whatever order and however often they were
        sent, and the size announced is that file's, then the file itself is listed. */
    method CompleteUpload() returns (r: Result<Id, UploadError>, ghost names: seq<string>)
      requires Consistent(storage.h, storage.world)
      modifies this, storage, storage.outages
      ensures Consistent(storage.h, storage.world) && Evolves(storage.h, old(storage.world), storage.world)
      ensures storage.outages.attempts >= old(storage.outages.attempts)
      ensures ListsParts(old(dir), names)
      ensures r.Success? ==> Listed(storage.h, storage.world, r.value, Concat(old(dir), names))
      ensures r.Success? ==> Visible(storage.world, r.value)
      ensures r.Success? && totalSize > 0 ==> |Concat(old(dir), names)| == totalSize
      ensures forall data :: r.Success? && AreSlicesOf(old(dir), data) && |data| == totalSize ==>
        Listed(storage.h, storage.world, r.value, data)
      ensures r.Failure? ==> dir - {ASSEMBLED} == old(dir) - {ASSEMBLED}
      ensures r.Success? && storage.outages.Calm(old(storage.outages.attempts)) ==> dir == map[]
      ensures r == Failure(NoParts) <==> forall x :: x in old(dir) ==> !IsPart(x)
      ensures r == Failure(Incomplete) ==> totalSize > 0 && |Concat(old(dir), names)| != totalSize
      ensures r.Failure? ==>
        IsRefused(storage.h, old(storage.world), storage.world, Concat(old(dir), names),
          storage.outages.Calm(old(storage.outages.attempts)), r.error)
    {
      hide Consistent, Listed, Visible, Evolves, PartsOf, ListsParts, Concat, SS.IsExcused, SS.WasShort, IsPart;
      NothingHappens(storage.h, storage.world, 0);
      ghost var was, start, since := dir, storage.world, storage.outages.attempts;
      var file;
      file, names := Assemble();
      if file.Failure? {
        return Failure(file.error), names;
      }
      ghost var before := storage.outages.attempts;
      var stored, begun := storage.StoreFile(file.value);
      if stored.Failure? {
        StillExcused(storage.h, start, storage.world, file.value, storage.outages.Calm(before),
          storage.outages.Calm(since), stored.error);
        return Failure(NotStored(stored.error)), names;
      }
      var released := storage.outages.Attempt();
      if released {
        dir := map[];
      }
      forall data | AreSlicesOf(was, data) && |data| == totalSize ensures Concat(was, names) == data {
        SizeCheckIsExact(was, data, names);
      }
      return Success(stored.value), names;
    }
  }

  /** The only reasons for which a completion may fail, but for missing parts. */
  ghost predicate IsRefused(h: Hash, w: World, w': World, assembled: seq<Byte>, calm: bool, e: UploadError) {
    match e
    case NotStored(error) => SS.IsExcused(h, w, w', assembled, calm, error)
    case ReadFailed => !calm
    case PartFailed => false
    case _ => true
  }

  lemma StillExcused(h: Hash, w: World, w': World, data: seq<Byte>, calm: bool, calmAll: bool, e: SS.StoreError)
    requires SS.IsExcused(h, w, w', data, calm, e) && (calmAll ==> calm)
    ensures SS.IsExcused(h, w, w', data, calmAll, e)
  {
    hide SS.WasShort;
  }

  /** Every part is what arrived of a slice of the file, which is not empty. */
  ghost predicate AreSlicesOf(dir: Staging, data: seq<Byte>) {
    data != [] && SliceCount(|data|) < 1_000_000_000 && PartsOf(dir, data)
  }

  class UploadService {
    const storage: SS.StorageService

    constructor (storage: SS.StorageService)
      ensures this.storage == storage
    {
      this.storage := storage;
    }

    /** The slices are sent one after the other, as parts 1, 2 and so on. */
    method SendSlices(upload: UploadController, file: seq<Byte>) returns (ok: bool)
      requires upload.storage == storage
      requires SliceCount(|file|) < 1_000_000_000 ==> PartsOf(upload.dir, file)
      modifies upload, storage.outages
      ensures storage.outages.attempts >= old(storage.outages.attempts)
      ensures storage.outages.Calm(old(storage.outages.attempts)) ==> ok
      ensures SliceCount(|file|) < 1_000_000_000 ==> PartsOf(upload.dir, file) && (ok ==> AllArrived(upload.dir, file))
    {
      hide PartsOf, SliceOf, PartName, Arrived;
      for chunkIndex := 0 to SliceCount(|file|)
        invariant storage.outages.attempts >= old(storage.outages.attempts)
        invariant SliceCount(|file|) < 1_000_000_000 ==> PartsOf(upload.dir, file)
        invariant SliceCount(|file|) < 1_000_000_000 ==>
          forall i: nat :: i < chunkIndex ==> Arrived(upload.dir, file, i)
      {
        ghost var before := upload.dir;
        ghost var arrived;
        ok, arrived := upload.UploadPart(chunkIndex + 1, SliceOf(file, chunkIndex));
        if SliceCount(|file|) < 1_000_000_000 {
          PartReceived(before, file, chunkIndex + 1, SliceOf(file, chunkIndex), arrived);
        }
        if !ok {
          return;
        }
        assert SliceOf(file, chunkIndex)[..arrived] == SliceOf(file, chunkIndex);
      }
      ok := true;
    }

    /** uploadFile: the slices are sent and the upload is completed. If that succeeds, and
        there are fewer than 10^9 slices, the file itself is listed. It succeeds if the
        file is not empty, nothing fails and there are enough machines. */
    method UploadFile(file: seq<Byte>, manifest: seq<Byte>) returns (r: Result<Id, UploadError>)
      requires Consistent(storage.h, storage.world)
      modifies storage, storage.outages
      ensures Consistent(storage.h, storage.world) && Evolves(storage.h, old(storage.world), storage.world)
      ensures r.Success? && SliceCount(|file|) < 1_000_000_000 ==>
        Listed(storage.h, storage.world, r.value, file) && Visible(storage.world, r.value)
      ensures (file != [] && SliceCount(|file|) < 1_000_000_000 && storage.outages.Calm(old(storage.outages.attempts))
        && !SS.WasShort(storage.h, old(storage.world), storage.world, file)) ==> r.Success?
    {
      hide Consistent, Listed, Visible, Evolves, PartsOf, SliceOf, SS.WasShort, Concat, ListsParts, AllArrived, IsPart;
      NothingHappens(storage.h, storage.world, 0);
      if |file| == 0 {
        // The size is a required field of the request, which zero does not meet.
        return Failure(Incomplete);
      }
      var upload := new UploadController(storage, manifest, |file|);
      NoPartsYet(manifest, file);
      var sent := SendSlices(upload, file);
      if !sent {
        return Failure(PartFailed);
      }
      ghost var staged, since := upload.dir, storage.outages.attempts;
      ghost var names;
      r, names := upload.CompleteUpload();
      if SliceCount(|file|) < 1_000_000_000 {
        SizeCheckIsExact(staged, file, names);
        FirstPartIsThere(staged, file);
        assert storage.outages.Calm(old(storage.outages.attempts)) ==> storage.outages.Calm(since);
      }
    }
  }

  lemma FirstPartIsThere(dir: Staging, file: seq<Byte>)
    requires file != [] && AllArrived(dir, file)
    ensures exists x :: x in dir && IsPart(x)
  {
    NameIsPart(1);
    assert Arrived(dir, file, 0);
  }
}
