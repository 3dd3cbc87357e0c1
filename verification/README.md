# R10: the durability path, verified

R10 is an object store. A gateway cuts a file into 32MB blocks, encodes every full block
into 8 data and 4 parity shards, places the twelve shards on different machines, pushes
them to worker daemons and then lists the file in a catalog, in one transaction. Reading
joins the catalog with the machines, fetches the chunks, treats a chunk with the wrong
checksum as missing, and rebuilds.

This project models that path in Dafny, from the bytes of a polynomial to the machines of
a cluster, and proves what it is for: a file that is listed can be read back, by anyone,
at any later time, and also after four machines are lost. `dafny verify dfyconfig.toml`
checks everything. No axiom is used: SHA-256 is an arbitrary function, and where its
quality matters the result says "or here is a collision".

## How the parts fit

| files | what they hold |
|---|---|
| `Field`, `Gf256`, `Polynomial`, `ReedSolomon` | GF(2^8), polynomials over a field, and the 8+4 code as evaluation at twelve points: any eight shards determine the rest. This is the systematic construction of section 8.2 of RFC 5510. |
| `Slices`, `Encoder`, `Bracketing`, `ErasureService` | byte slices that may share buffers, the encoder library by contract, and what the five bracketing checks establish |
| `Catalog`, `Tiling`, `Retrieval`, `ReadPath` | tables, rows and files; how a file is cut; what a read computes from any answers; when it succeeds |
| `Placement`, `Ledger`, `Management` | choosing machines, booking usage, building and wiping the topology |
| `UploadProtocol`, `CommitSafety`, `Durability`, `Leftovers` | uploads as interleaved steps with failures anywhere, the invariant of every run, and what follows from it |
| `Accounting`, `Overcommit`, `Headroom` | the books: what they conserve, how far a disc can be filled, and exactly when a commit stays within capacity |
| `StorageService` | the gateway's code: it takes steps of the protocol only, and computes what the read model says |
| `ClusterRoot`, `WorkerProtocol`, `WorkerRefinement` | the worker: its files, concurrent appends as interleaved atomic actions, and why the gateway may take each for one push |
| `InlineEngine`, `BlockEngine`, `ChunkHandler` | the worker's code over the files that both engines share, the checks on sizes, and the gateway's client |
| `Cluster` | gateways and workers together: every run of the whole is a run of the upload protocol |
| `Decimal`, `UploadParts`, `UploadController` | part names, staging, putting the parts of an upload together, and the client that sends them |
| `FileController` | what users see: files that are listed, downloaded and deleted |
| `Outages`, `Shuffling` | what fails and what random draws decide, as inputs of the code |
| `Wrappers`, `Sequences` | small helpers |

The chain of the main result: `Management.BuiltIsFresh` (a built topology is a fresh
cluster), `CommitSafety.StepKeepsConsistent` and `CommitSafety.RunKeepsConsistent` (every
step of every upload keeps the invariant), `StorageService.StorageService.StoreFile` (the
code takes such steps), `Durability.CataloguedBlob` (the join leads from each row to its
bytes), `Durability.FewAreGone` (a machine holds at most one shard of a stripe),
`ReadPath.ReadIsExact` (when a read succeeds), and finally
`Durability.StoredFileSurvives` and `Durability.SurvivesFourMachines`.

Concurrency is modelled as interleaving. A run is any sequence of steps of any number of
uploads (or of appends), and a failure is a step like any other. The imperative code
meets the interleaving through the methods `Others`: their contract allows any steps of
other uploads (or calls), and their callers know nothing else about them.

What fails for reasons outside the program, a read, a request, a statement, is an input: a
script says which attempt fails (`Outages.Outages`). So the code's contracts say not only
what a failure leaves behind but also when there is none: `StoreFile` succeeds for every
file that is not empty, if no attempt failed and the machines sufficed when it asked.

The two levels meet in `WorkerRefinement`. In the upload protocol a push is one step; in
a worker an append takes many, and reads take no lock. `WorkerRefinement.RunIsPushes`
shows that every run of a worker is a sequence of pushes, `ResultIsPush` that an append
that succeeds is one of them, at the offset it returns, and `ReadsAnswerFromFiles` that a
read answers as `Durability` supposes. `ChunkHandler.WorkerClient` puts the gateway's
three requests on top. `Cluster` composes the levels: its state is the gateways with
their database, any number of workers amid their copies, and the appends that gateways
wait for. `Cluster.RunIsProtocolRun` shows that each of its runs is a run of the upload
protocol, and `Cluster.ClusterSurvivesFourMachines` draws the conclusion: a file that is
listed at some point of a run is returned by every later read of the workers' actual
files, with up to four machines lost.

## Where code and documents differ

- A file of exactly 32MB, and a tail of exactly 32MB, is erasure coded: the loop tests for
  a full block (apps/gateway/internal/services/storage_service.go:128), while the comment
  above `StoreFile` sends 128KB to 32MB to a single chunk. The model follows the code.
- docs/bracketing_math.md:24-28 derives the sufficiency of five checks from superposition.
  The claim is right, but that is not a proof of it. `Bracketing.BracketingIsExact` proves
  it from two other facts: any eight shards determine a stripe, and the five sets cover
  all twelve shards while sharing the shards 5 to 11.
- The workers' books do not keep used space within capacity: megabytes are rounded down,
  and usage is charged only at the commit. `Overcommit.CapacityIsExceeded` is a run that
  shows it, with stores one after the other. `Headroom.CommitStaysWithin` says for every
  commit of every run exactly when a disc keeps within capacity, and
  `Headroom.CapacityIsKeptExactly` that a run keeps within if and only if all its commits
  find that room.
- For stores one after the other `Accounting.OvercommitIsBounded` gives a bound beyond
  capacity. It fails for stores at the same time, as the run of
  `Overcommit.SequentialBoundFails` shows; `Headroom.CommitStaysWithin`,
  `Headroom.SingleChunkBoundExactly` and `Headroom.SequentialBoundExactly` say exactly
  when it holds for them. `Overcommit.ConcurrentOvercommitIsBounded` is the bound that
  always holds, which grows with the number of uploads that run at once.
- Past 10^9 parts the names of the parts no longer sort by number, although assembly
  relies on it (apps/gateway/internal/controllers/upload_controller.go:127-129, 244);
  `UploadParts.NamesSortNumerically` gives the limit.
- A worker's capacity is the sum of its discs' exactly if its configuration does not pair
  a negative machine count with a non-zero capacity (`Management.WorkerCapacityIsSum`).

## Model

| member | source | states |
|---|---|---|
| Gf256.BytesFormAField | docs/bracketing_math.md:21 | The bytes with the encoder's arithmetic, reduction by 0x11d, satisfy all laws of a field, inverses included |
| Gf256.TimesX | docs/bracketing_math.md:21 | Multiplying by x shifts, and takes away x^8 + x^4 + x^3 + x^2 + 1 if x^8 comes up; with the laws of a field this determines all products |
| ReedSolomon.ColumnsAgree | apps/gateway/internal/services/storage_service.go:347-348 | Two code columns that agree at any 8 of the 12 positions are equal |
| ReedSolomon.StripesAgree | apps/gateway/internal/services/storage_service.go:347-348 | Two stripes that agree in any 8 shards are equal |
| ReedSolomon.EncodeIsStripe | apps/gateway/internal/services/erasure_service.go:44-47 | Encoding keeps the data shards and makes every column a code column |
| ReedSolomon.PointsAreIndexes | apps/gateway/internal/services/erasure_service.go:44-47 | There are twelve points, and shard i holds values at i |
| ReedSolomon.ReconstructRestores | apps/gateway/internal/services/storage_service.go:366-375 | Reconstruction from shards of a stripe gives the whole stripe if 8 or more are present, and fails otherwise |
| ReedSolomon.JoinIsPrefix | apps/gateway/internal/services/storage_service.go:377-381 | Joining complete data shards gives the first bytes of their concatenation, and fails exactly if there are too few |
| ReedSolomon.AnyEightRecover | apps/gateway/internal/services/storage_service.go:347-381 | From any 8 or more shards of a payload of any length, padding included, reconstruct and join give the payload |
| ReedSolomon.SplitPadsWithZeros | apps/gateway/internal/services/erasure_service.go:39-42 | The data shards put together are the payload and as few zeros as make eight equal parts |
| Encoder.Split | apps/gateway/internal/services/erasure_service.go:39-42 | Fails exactly on an empty payload; data shards hold the padded payload and may share its buffer, parity shards have buffers of their own |
| Encoder.Encode | apps/gateway/internal/services/erasure_service.go:44-47 | Overwrites the parity shards only; afterwards the slices hold the encoded stripe |
| Encoder.Reconstruct | apps/gateway/internal/services/erasure_service.go:94-97 | Replaces missing shards in the outer array by fresh buffers; no shard that is present is replaced or written to, and a failure changes nothing |
| Bracketing.BracketingIsExact | apps/gateway/internal/services/erasure_service.go:60-110 | The five checks all pass if and only if the shards have one positive length, join to the payload, and every column within the payload's length is a code column |
| Bracketing.BracketingOfSplitShards | apps/gateway/internal/services/erasure_service.go:57-110 | For shards of the length that splitting gives, the checks pass if and only if the shards are a stripe that joins to the payload; then every set of 8 survivors, not only the five tried, rebuilds it |
| Bracketing.HonestShardsPass | apps/gateway/internal/services/erasure_service.go:33-55 | Shards that were encoded honestly are never rejected |
| ErasureService.ErasureService.SimulateDisasterAndVerify | apps/gateway/internal/services/erasure_service.go:60-110 | The loop over copied, dropped and rebuilt arrays passes exactly if the shards encode the data, reports the first disaster that is not survived otherwise, and writes to nothing that existed before |
| ErasureService.ErasureService.EncodeAndBracket | apps/gateway/internal/services/erasure_service.go:33-55 | Succeeds exactly on non-empty data; the shards returned hold the stripe of the data, and the data's own buffer is unchanged although shards share it |
| Tiling.Routing | apps/gateway/internal/services/storage_service.go:93-141 | Below 131072 bytes a file is one chunk for an inline machine; otherwise all chunks are for block machines, full blocks of 33554432 bytes in shards of 4194304, the rest in one chunk with the bytes from its offset |
| Tiling.BlocksPartition | apps/gateway/internal/services/storage_service.go:115-144 | Every position of a file lies in one of its blocks and in no other, at its place in the block |
| Tiling.ShardIndexesOfBlock | apps/gateway/internal/services/storage_service.go:126-141 | The chunks of a full block have the shard indexes 0 to 11, the tail has -1 |
| Tiling.StorageCost | apps/gateway/internal/services/storage_service.go:102-144 | From 128KB on a file of s bytes makes 12 (s div 32MB) chunks plus one for a remainder, and occupies s + 16MB (s div 32MB) bytes; below it is one chunk |
| Retrieval.EnumerationIsUnique | apps/gateway/internal/services/storage_service.go:311-319 | There is only one ascending list of a set of block indexes |
| ReadPath.ReadStripe | apps/gateway/internal/services/storage_service.go:342-382 | A stripe, in any order of its rows and with any answers free of collisions, reads back exactly if 8 of its shards are intact, and otherwise fails for too few shards |
| ReadPath.ReadIsExact | apps/gateway/internal/services/storage_service.go:294-397 | Free of collisions, RetrieveBlob returns the original if every whole chunk is intact and every stripe has 8 intact shards; in all other cases it fails with the error of the first block that is lost: too few shards, or an unreadable chunk |
| ReadPath.RetrieveIgnoresOrder | apps/gateway/internal/services/storage_service.go:311-328 | Whatever the workers answer, collisions included, all orders of a blob's rows give the same bytes or the same error |
| Placement.Candidates | apps/gateway/internal/services/placement_service.go:41-65 | Lists every disc once that is switched on and has the space, whose machine is of the kind and not deleted and whose worker is active and not deleted, and no other, emptiest first, with ties in any order |
| Placement.Shuffle | apps/gateway/internal/services/placement_service.go:87 | Shuffling in place gives the order that the random draws decide, a permutation |
| Shuffling.EveryOrderCanBeDrawn | apps/gateway/internal/services/placement_service.go:87 | Every order of the elements comes out of some draws |
| Placement.SelectMachinesForEC | apps/gateway/internal/services/placement_service.go:71-90 | Succeeds exactly if enough discs serve, counted on the tables; then returns count different discs, each switched on with the space, on a block machine that is not deleted of an active worker; no serving disc passed over is emptier than any of the first half, and the draws decide about the rest |
| Placement.SelectMachine | apps/gateway/internal/services/placement_service.go:93-102 | Succeeds exactly if some disc serves, by the tables; then returns a disc that is switched on with the space, on a machine of the kind that is not deleted of an active worker, and no serving disc is emptier |
| CommitSafety.SelectedServe | apps/gateway/internal/services/placement_service.go:41-65 | Whatever an upload selects in a run serves at that moment: disc, machine and worker are active, of the chunk's kind, with the space |
| Placement.SelectionOnDistinctMachines | apps/gateway/internal/services/placement_service.go:67-71 | With one disc per machine, the targets of a selection are on different machines |
| Ledger.RequiredMB | apps/gateway/internal/services/storage_service.go:283-286 | The least number of megabytes that holds the bytes |
| Ledger.Tally | apps/gateway/internal/services/storage_service.go:253-258 | The two maps hold, for exactly the discs and workers of the chunks, the sums of their sizes |
| Ledger.Tables.ChargeUsage | apps/gateway/internal/services/storage_service.go:252-281 | In whatever order the maps are visited, every disc and worker is charged its sum once, both columns computed from the old row, and nothing else changes |
| Ledger.ChargeKeepsBalance | apps/gateway/internal/services/storage_service.go:252-281 | Charging the rows that a transaction adds keeps the books equal to the catalog |
| Ledger.WorkerIsSumOfDiscs | apps/gateway/internal/services/storage_service.go:253-281 | A worker's chunk sizes sum to those of the discs of its machines |
| Accounting.LedgerIsConserved | apps/gateway/internal/services/storage_service.go:156-168 | After any run of concurrent uploads and deletes from a fresh cluster: used bytes are the catalogued chunk sizes per disc and worker, megabytes are bytes rounded down, and a worker's bytes are those of its discs |
| Accounting.CommitBound | apps/gateway/internal/services/storage_service.go:252-286 | Whatever the disc held before: if the chunks of a file fitted by the rounded ledger when it was charged, every disc that took some of them ends below capacity plus 1MB plus 4MB per full block of that file |
| Accounting.OvercommitIsBounded | apps/gateway/internal/services/placement_service.go:58 | After any run of stores one after the other, each of at most K full blocks, every used disc is below (capacity + 1) MB + K * 4MB |
| Accounting.EachStoreIsBounded | apps/gateway/internal/services/placement_service.go:58 | In any such run, the discs that a commit charges end below (capacity + 1) MB plus 4MB for every full block of the very file that is committed |
| Overcommit.ConcurrentOvercommitIsBounded | apps/gateway/internal/services/placement_service.go:58 | After any run with at most n uploads at once, each of at most K full blocks, every used disc is below capacity + n (K * 4MB + 32MB) |
| Overcommit.CapacityIsExceeded | apps/gateway/internal/services/storage_service.go:283-286 | A run of two stores, one after the other, that leaves a disc of 1MB with more than 1MB |
| Headroom.CommitStaysWithin | apps/gateway/internal/services/storage_service.go:252-286 | At any commit of any run, whatever runs at the same time: with s shards and a tail of t bytes for a disc, it ends within capacity if and only if capacity minus used megabytes is at least 4 s plus the megabytes that hold t and the bytes used beyond whole megabytes; and below the bound for stores one after the other, with the file's own full blocks, if and only if capacity minus used megabytes plus 4MB for every full block without a shard on the disc is at least the whole megabytes of t and those bytes |
| Headroom.CapacityIsKeptExactly | apps/gateway/internal/services/storage_service.go:252-286 | Any run of uploads at the same time leaves every used disc within capacity if and only if every commit on the way found room within it on the discs it charged |
| Headroom.SequentialBoundExactly | apps/gateway/internal/services/placement_service.go:58 | Any run of uploads at the same time leaves every used disc below (capacity + 1) MB + K * 4MB if and only if every commit on the way found room within that bound |
| Headroom.SingleChunkBoundExactly | apps/gateway/internal/services/placement_service.go:58 | For a single chunk in any run: below (capacity + 1) MB if and only if the guard of the selection still holds at the commit, or fails by one megabyte that the rounding covers |
| Headroom.SingleChunkStaysWithin | apps/gateway/internal/services/storage_service.go:252-286 | Among stores one after the other, a store of a single chunk leaves the disc within capacity if and only if the disc has more free megabytes than the chunk needs, or its bytes beyond whole megabytes fit in what the chunk leaves of its last one |
| Overcommit.SequentialBoundFails | apps/gateway/internal/services/placement_service.go:58 | A run of two uploads at once that leaves a disc at or above (capacity + 1) MB with no full block: the sequential bound fails |
| CommitSafety.PushedRowStored | apps/gateway/internal/services/storage_service.go:208-249 | The row built for a pushed chunk leads, by the read side's own join, to exactly the bytes pushed |
| CommitSafety.CommitKeepsCatalog | apps/gateway/internal/services/storage_service.go:156-168 | A commit lists the blob, not deleted, with all its rows, and leaves every other blob as it was, with exactly its own rows |
| CommitSafety.StepKeepsConsistent | apps/gateway/internal/services/storage_service.go:76-249 | Every step of every upload, failures included, keeps the invariant: listed blobs have all their rows, rows lead to their bytes and are on machines of their kind, no two rows have one identifier, stripes are spread, the books balance |
| CommitSafety.RunKeepsConsistent | apps/gateway/internal/services/storage_service.go:76-249 | The invariant holds after every run |
| Durability.IdentifiersAreUnique | apps/gateway/internal/services/storage_service.go:209-236 | After any run, all rows, catalogued or in flight, have different identifiers, drawn before; a chunk file bears the identifier of its row |
| Durability.ChunksAreOnTheirKind | apps/gateway/internal/services/storage_service.go:93-141 | After any run, every chunk of a file below 131072 bytes is in a volume of an inline machine, and every other chunk in a file of its own on a block machine |
| Durability.DeletedExactlyIfDeleted | apps/gateway/internal/services/storage_service.go:146-154 | After any run, a catalogued blob is marked as deleted if and only if it was deleted in the run |
| Durability.CataloguedBlob | apps/gateway/internal/services/storage_service.go:296-303 | The join over a listed blob gives exactly the chunks of its file, with their checksums, each leading to its bytes |
| Durability.ReadResult | apps/gateway/internal/services/storage_service.go:294-397 | For a listed file of any consistent world and answers free of collisions, RetrieveBlob returns the file if enough of its chunks survive, and otherwise the error of the first block that is lost |
| Durability.ListedBlobIsReadable | apps/gateway/internal/services/storage_service.go:156-157 | A blob listed at any point of any run stays listed, is visible until it is deleted, and reads back as its file at that point and at every later one, also when its chunks are fetched while other uploads go on |
| Durability.StripeOnDistinctMachines | apps/gateway/internal/services/storage_service.go:183-184 | The shards of a stripe of a listed blob are on machines with different namespaces |
| Durability.FewAreGone | apps/gateway/internal/services/storage_service.go:183-184 | Losing n machines costs a stripe at most n shards |
| Durability.StoredFileSurvives | apps/gateway/internal/services/storage_service.go:76-397 | For a listed file of any consistent world: if at most 4 machines are lost or answer anything at all, and none of them holds a whole chunk of the blob, RetrieveBlob returns exactly the file, or an answer is a collision with a chunk |
| Durability.SurvivesFourMachines | apps/gateway/internal/services/storage_service.go:76-397 | The same in every world that any run of concurrent uploads, with any failures, leads to from a fresh cluster |
| Leftovers.LeftoversAreUnreferenced | apps/gateway/internal/services/storage_service.go:156-157 | Whatever an upload shipped, in full or in part, no catalogued row refers to a byte of it unless that very upload committed: not if it failed, nor while it runs or hangs |
| StorageService.StorageService.PushChunk | apps/gateway/internal/services/storage_service.go:208-249 | Pushing is the protocol's push, with a row of a new identifier; it fails only if a request failed, and then it is the protocol's failed push after any part of the chunk, or nothing was written and the upload is given up |
| StorageService.StorageService.StoreErasureBlock | apps/gateway/internal/services/storage_service.go:185-205 | Encodes, selects and pushes twelve shards among any steps of others; on success exactly the rows of that stripe are added; it fails only if an attempt failed or too few machines served when it asked |
| StorageService.StorageService.StoreBlocks | apps/gateway/internal/services/storage_service.go:115-144 | The loop over one reused buffer ships exactly the chunks of the file, in order, and ends |
| StorageService.StorageService.StoreFile | apps/gateway/internal/services/storage_service.go:76-171 | Takes steps of the protocol only. On success the file is listed and visible under a new identifier with its size and checksum. It refuses as empty exactly the empty file, fails for want of machines only if at some moment of its own run too few served on the tables, and otherwise only if an attempt failed; so a file that is not empty is stored whenever nothing fails and machines suffice. On an error before the commit takes effect its upload never is listed |
| StorageService.StorageService.ReadBlock | apps/gateway/internal/services/storage_service.go:342-382 | The loop that fills, counts and rebuilds the shards array computes the model's read of a block |
| StorageService.StorageService.RetrieveBlob | apps/gateway/internal/services/storage_service.go:294-340 | Grouping in a map, sorting and appending give a result that the read model allows for the joined rows in some order and the workers' answers |
| WorkerProtocol.StepKeepsValid | apps/wkr10/internal/io/inline_engine.go:81-117 | Every atomic action of every request keeps the engine's invariant |
| WorkerProtocol.RunGrows | apps/wkr10/internal/io/inline_engine.go:94-116 | In any run, from any state, a volume keeps the bytes it had and grows at its end |
| WorkerProtocol.AppendsAreIsolated | apps/wkr10/internal/io/inline_engine.go:81-117 | A daemon starts over any files. In every interleaving of any calls, with copies that fail midway: the volumes that were there keep their bytes, at most one call per namespace is between Lock and Unlock, ranges of successful calls do not overlap, and each holds its payload |
| WorkerProtocol.ReadsAreStable | apps/wkr10/internal/io/inline_engine.go:62-79 | A daemon starts over any files. An unlocked read of a range that a call returned gives its payload in every later state |
| WorkerProtocol.AppendsAreAtomic | apps/wkr10/internal/io/inline_engine.go:94-116 | Without the copies that are still going on, a volume changes only when a call ends: by its payload, at the offset returned, or by a part of it after a failure |
| WorkerRefinement.RunIsPushes | apps/wkr10/internal/io/inline_engine.go:81-117 | Over whole runs: without the copies that are still going on, a worker's files are those it had with the protocol's pushes made one after the other, of volumes and of chunk files |
| WorkerRefinement.CallPushesOnce | apps/wkr10/internal/io/inline_engine.go:81-117 | In any run a call pushes at most twice: nothing, to create its volume, and then its payload if it succeeds, some beginning of it if it fails |
| WorkerRefinement.ResultIsPush | apps/wkr10/internal/io/inline_engine.go:94-116 | A call that succeeds anywhere in a run is one of its pushes, of the whole payload, and the offset it returns is the end of the file at that push |
| WorkerRefinement.OpeningsDoNotMatter | apps/wkr10/internal/io/inline_engine.go:94 | Leaving out the pushes that only create a volume changes no read and no offset |
| WorkerRefinement.ReadsAnswerFromFiles | apps/wkr10/internal/io/inline_engine.go:62-79 | A read without a lock, at any later state and amid copies, also of volumes that were created but not filled yet, answers from the files that the protocol knows or a growth of them: what the results on durability suppose |
| Cluster.Simulates | apps/gateway/internal/services/storage_service.go:208-249 | Every event among gateways and workers, with copies in progress, cut-off bodies and lost replies, is no step of the upload protocol or one step of it; the row that a gateway records from the offset replied is the row of that step |
| Cluster.RunIsProtocolRun | apps/gateway/internal/services/storage_service.go:76-249 | Every run of any gateways and workers, whatever is interleaved and whatever fails, is a legal run of the upload protocol |
| Cluster.ClusterSurvivesFourMachines | apps/gateway/internal/services/storage_service.go:76-397 | From a built topology and daemons started over any old files: a file listed at some point of any such run is what RetrieveBlob returns, if at most 4 machines are lost or answer anything at all, none of them with a whole chunk of it, and the others answer at any later times from their actual files, amid copies; or an answer is a collision |
| InlineEngine.InlineEngine.StreamWrite | apps/wkr10/internal/io/inline_engine.go:81-117 | Among any steps of other requests, and after any number of rounds of waiting for the lock: on success the range returned holds what was read, on failure no range is recorded, and the lock is given back. It fails only if an attempt failed, and waits on only while another call holds the lock |
| BlockEngine.ReadAt | apps/wkr10/internal/io/block_engine.go:53-59 | As many bytes of the file from the offset as there are, up to the size |
| BlockEngine.BlockEngine.StreamWrite | apps/wkr10/internal/io/block_engine.go:62-89 | The chunk's file holds exactly what was read, or after a failure some beginning of it; no other file changes; it fails only if an attempt failed |
| ChunkHandler.DeclaredSizeIsParsed | apps/wkr10/internal/handlers/chunk_handler.go:30-39 | The size that the client prints is the size that the worker parses |
| Decimal.OnlyNumeralsParse | apps/wkr10/internal/handlers/chunk_handler.go:30-39 | What is parsed as a size is a sign at most, zeros, and the numeral of a 64-bit number; anything else is refused |
| ChunkHandler.ChunkHandler.WriteBlockChunk | apps/wkr10/internal/handlers/chunk_handler.go:41-74 | If nothing fails, reports success exactly if the headers are valid and as much arrived as was declared, and then the file holds it; missing headers change nothing; the reply tells a bad request from a failure; a failure leaves the file as it was or with some beginning of the body |
| ChunkHandler.ChunkHandler.AppendInlineChunk | apps/wkr10/internal/handlers/chunk_handler.go:76-109 | If nothing fails and the lock is free, reports success exactly if the headers are valid and as much arrived as was declared; then the body was pushed to the volume at the offset returned, among pushes of others, and the worker's files hold it there. Missing headers change nothing; any other failure pushed some beginning of the body, or nothing |
| ChunkHandler.ChunkHandler.ReadChunk | apps/wkr10/internal/handlers/chunk_handler.go:111-155 | Serves the files of both engines: bytes exactly if the request is valid and the whole range is there, and then that range; otherwise tells a bad request, a missing file and a short one apart |
| ChunkHandler.WorkerClient.WriteBlock | apps/gateway/internal/clients/worker_client.go:34-74 | Whatever part of the body or of the reply arrives, the files, with or without appends that are still going on, change as by the protocol's push if the client reports success, and otherwise as by its failed push or not at all; if nothing fails, it succeeds |
| ChunkHandler.WorkerClient.AppendInline | apps/gateway/internal/clients/worker_client.go:38-74 | Whatever part of the body or of the reply arrives, and among the pushes of others, the worker's settled files change by the protocol's push of the data, at the offset returned, if the client reports success, and otherwise by a push of some beginning of the data, or not at all; if nothing fails and the lock is free, it succeeds |
| ChunkHandler.WorkerClient.ReadChunk | apps/gateway/internal/clients/worker_client.go:77-101 | For a row of a block or of an inline machine, the client gets exactly what the read model computes from the worker's files |
| Decimal.PaddedOrder | apps/gateway/internal/controllers/upload_controller.go:127-129 | For every width, padded numerals are ordered as strings as the numbers are, and are different for different numbers |
| Decimal.ParseNumeral | apps/wkr10/internal/handlers/chunk_handler.go:34 | Parsing the numeral of a 63-bit number gives the number |
| UploadParts.NamesSortNumerically | apps/gateway/internal/controllers/upload_controller.go:127-129 | The names of parts 1 to n sort in the order of the parts if and only if n is below 10^9 |
| UploadParts.SortNames | apps/gateway/internal/controllers/upload_controller.go:244 | The names in strictly ascending order, none lost and none added |
| UploadParts.PartNameTellsNumber | apps/gateway/internal/controllers/upload_controller.go:127-129 | The name of a part is part_ and at least nine digits, which are its number |
| UploadController.UploadController.UploadPart | apps/gateway/internal/controllers/upload_controller.go:109-151 | Part numbers below 1 change nothing; otherwise the part's file is replaced by what arrived, and if nothing fails all of it arrives |
| UploadController.UploadController.AssembleParts | apps/gateway/internal/controllers/upload_controller.go:229-270 | Appends all the parts and nothing else in the order of their names, and counts their bytes |
| UploadController.UploadController.CompleteUpload | apps/gateway/internal/controllers/upload_controller.go:154-213 | On success the assembled parts are listed and visible as a blob, have the length announced if that is positive (an announced length of zero or less is not compared), and the staging directory is released. If the parts are what arrived of the slices of a file of the announced length, sent in any order and any number of times, what is listed is that file. On every failure all parts are still there; it refuses exactly for no parts, only for a wrong length as incomplete, and otherwise only if an attempt failed or the store had a reason |
| UploadParts.MissingSlicesCanFollow | apps/gateway/internal/controllers/upload_controller.go:182-203 | After any completion that failed, once the slices that were missing are delivered, in any order, the assembly is the file |
| UploadParts.SlicesAre | apps/web/src/app/core/services/upload.service.ts:17-39 | Slices of 8388608 bytes, the last of which may be shorter, and as many as cover the file |
| UploadController.UploadService.UploadFile | apps/web/src/app/core/services/upload.service.ts:26-57 | The client sends the slices in turn and completes the upload; if that succeeds, and there are fewer than 10^9 slices, the file itself is listed. It succeeds for every file that is not empty if nothing fails and machines suffice |
| UploadParts.SizeCheckIsExact | apps/gateway/internal/controllers/upload_controller.go:174-187 | If every part holds some beginning of its slice and any may be missing, the assembled length is the file's exactly if every slice is complete, and then the assembly is the file |
| UploadParts.SliceRoundTrip | apps/web/src/app/core/services/upload.service.ts:29-50 | Slices delivered in any order, any number of times, cut off or not, to a directory that may hold some already: the size check passes exactly if every slice is complete in the end, and then the file is the original |
| Management.ManagementService.WipeTopology | apps/gateway/internal/services/management_service.go:192-202 | From any tables, also with several discs on a machine: the statements made lead from the old tables to the new ones; after each of them the foreign keys hold, none meets a remaining reference, also if a later one fails; success leaves all tables empty |
| Management.ManagementService.BuildTopology | apps/gateway/internal/services/management_service.go:88-152 | For any tables and configurations: after each of the statements made the foreign keys hold, and from the end of the wipe on, or throughout if it was so before, there is one disc per machine at most and namespaces are unique; none is refused for a reference, and success gives every worker its machines and discs. It fails only if an attempt failed, two workers are configured with one name, or a random name came up twice |
| Management.NamesTellDraws | apps/gateway/internal/services/management_service.go:22-28 | Two random names are the same if and only if their eight draws of one of 62 letters and digits are |
| Management.MachinesHaveOneDisc | apps/gateway/internal/services/management_service.go:117-143 | After a build every machine has exactly one disc |
| Management.WorkerCapacityIsSum | apps/gateway/internal/services/management_service.go:98-107 | A worker's capacity is the sum of its discs' exactly if its configuration does not pair a negative count with a non-zero capacity |
| Management.BuiltIsFresh | apps/gateway/internal/services/management_service.go:88-152 | After a build, with any old files on the workers, the cluster is one from which all results on runs hold |
| FileController.FileController.ListFiles | apps/gateway/internal/controllers/file_controller.go:82-95 | Lists exactly the blobs that are not deleted, each once |
| FileController.FileController.DownloadFile | apps/gateway/internal/controllers/file_controller.go:54-79 | Not found exactly if the blob is missing or deleted; a visible file is returned as it was stored, also if up to 4 machines are lost, none with a whole chunk of it, or an answer is a collision |
| FileController.FileController.DeleteFile | apps/gateway/internal/controllers/file_controller.go:98-122 | The file is no longer visible; no other file, row, usage or byte on a worker changes |

## Left out

- The encoder library (github.com/klauspost/reedsolomon) is not part of the repository. It is modelled by contract, and the contract is met by polynomial evaluation; the spare capacity of Go slices, in which the library may place parity, is not modelled.
- SHA-256, UUIDs and namespaces: an arbitrary function, a counter, and any string. Equality with an earlier UUID does not occur; an equal namespace does, and fails on its unique index.
- HTTP, JSON, routing, time-outs and the cleaning of paths: a request fails or is answered. A worker that goes on writing after the gateway has given up on a chunk is not modelled.
- PostgreSQL: tables are maps and sequences, a transaction is one step, and a statement fails if its reason is modelled or the script of outages says so.
- File systems: files are byte sequences, and what was written stays. Loss of power, and with it the difference that fsync makes, is not modelled.
- 64-bit integers are unbounded here, except in the parsing of sizes.
- Changes of the topology while uploads run, such as a bootstrap, a reset or a disc that is switched off: runs start from a built cluster and keep its machines.
- Ownership, filenames, MIME types, and the order of creation in which files are listed.
- StorageService.StorageService.Others: its body is the case where nobody else moves; the callers rely on its contract only, which allows any steps of other uploads.
- StorageService.StorageService.CommitCatalog: a commit that takes effect although the gateway sees an error is not modelled, so that the upload is not listed after a failure speaks of errors before the commit only. What holds of listed files holds for such an upload all the same, as the protocol's commit.
- Cluster.Apply: the end of a copy, the reply and the row that the gateway notes are one event, and so is the writing of a chunk file, which has one writer and which nobody reads before the commit.
- InlineEngine.InlineEngine.Others: likewise, its body is the quiet case; its contract allows any steps of other requests, to either engine.
- InlineEngine.InlineEngine.StreamWrite: waits any number of rounds for the lock. A call that is never let in does not return in the source; here it returns StillWaiting. That a waiting call is let in at some time is not stated.
- BlockEngine.BlockEngine.StreamWrite: a chunk's file has one writer, as chunk identifiers are new for every push, so its writes are not interleaved with others here. In WorkerProtocol other requests write chunk files at any time.
- UploadController.UploadController.CompleteUpload: reading the manifest and finding the owner are left out; the size announced is a constant of the upload.
- UploadController.UploadService.UploadFile: no other requests for the same upload identifier arrive meanwhile; UploadParts.SliceRoundTrip has slices in any order and any number of times.
- UploadParts.SliceRoundTrip: assumes fewer than 10^9 slices, which is where UploadParts.NamesSortNumerically says that the names stop sorting.
- The buffered writes InlineEngine.Write and BlockEngine.Write, which no handler calls.
- Bootstrap and reset jobs, backups, the 32MB memory blocks, authentication, monitoring and the user interface apart from its slicing.
