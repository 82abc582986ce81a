# Bendo, modelled in Dafny

Bendo keeps versioned, deduplicated items in immutable numbered bundles. This project models the parts of it
whose correctness is hard to see from one function, and proves what they promise:

- **Items** (`items/`): bundles, sessions that add one version, deletion by copying survivors forward, crashes
  between any two store operations. `Names`, `ItemModel`, `ItemSafety`, `ItemClose`, `ItemRuns`, `ItemHashes`,
  `ItemResidence`, `ItemHistory`, `ItemDeletion`, `ItemRewriting`, short telling runs in `ItemExamples` and
  `ItemRewritingRuns`, and the objects in `ItemWriter`.
- **Bags** (`bagit/`): writing, reading back and `Verify` for BagIt 0.97 bags (later RFC 8493, sections 2.1.3,
  2.2.1 and 3). `BagText`, `BagModel`, `BagVerify`, `BagRoundTrip`, `BagReading`, `BagTagManifest`, `BagObjects`;
  `BundleBags` joins bags to bundles.
- **Blob caches** (`blobcache/`): the LRU cache with reservations by many open writers, and the time-based cache
  with its lazily kept expiry list. `LruModel`, `LruRecency`, `LruObjects`, `TimeModel`, `TimeObjects`.
- **S3** (`store/s3.go`): the paging reader and the multipart writer. `S3Reader`, `S3ReaderObject`, `S3Writer`,
  `S3WriterObject`.
- **Transactions** (`transaction/`, `server/transaction.go`): handlers, queue, workers, cleaner and restarts as a
  protocol; the store, the handler and a worker's round as objects. `TxModel`, `TxProtocol`, `TxExclusion`,
  `TxPointers`, `TxReuse`, `TxCancel`, `TxObjects`, `TxServer`, `TxRounds`; the commands of a transaction in
  `Commands`, `CommandObjects`.
- **The client's planner** (`cmd/bclient`): from a local tree and the server's description of an item to commands,
  and what executing them does. `Planner`, `PlannerObjects`, `PlanCorrect`, `PlanTheorem`,
  `PlanUploads`, `PlanDeleted`, and `PlanPublished`, which follows an upload to what readers get.
- **Fragments** (`fragment/fragment.go`): files uploaded in pieces. `FragmentModel`, `FragmentRuns`,
  `FragmentKeys`, `FragmentReader`, `FragmentObjects`.

Each component has the same shape. A module of functions on values says what the operations do; lemmas about
those functions state invariants, refinements and round trips over every run; a module of classes has the
source's own loops and field updates, and every method is proved to do exactly what the function on values does.
`dafny verify dfyconfig.toml` checks the whole project.

Conventions: contents are strings whose chars stand for bytes. MD5 and SHA-256 are a `Hasher`, two arbitrary
functions, so every theorem holds for any pair of hash functions. Map iteration orders, clocks, and which outside
operations fail are parameters. A `bool` parameter such as `readerOK` or `closeOK` says whether that operation
succeeds.

What came out where the code does not do what its comments, or its callers, suggest:

- A restart queues every transaction, finished ones too, and numbers new ones from 1 again. If the cleaner removes
  one that is still queued, its id can be given to a new transaction and two workers can write one item
  (`TxReuse.TwoWriters`). The rule is exact: each id is queued or held at most once all along a run if and only if
  no handler queues an id that is still queued or held (`TxExclusion.KeptIffNoneQueuedTwice`). The cleaner waiting
  for the queue is enough (`TxExclusion.Exclusion`), and so is a restart that queues only what is pending
  (`TxExclusion.ExclusionQueuingPending`).
- A record that cannot be read at a restart is skipped but stays on disk; if it is pending, its item can get a
  second pending transaction (`TxReuse.TwoPending`).
- A transaction that is open when the server stops blocks its item until it is cancelled or its record is gone
  (`TxExclusion.BlockedUntilFreed`).
- A request to cancel a pending transaction is answered with an error and carried out all the same, and a deletion that
  succeeds ends in a panic, since a nil error is asked for its text (`TxServer.RESTServer.CancelTxHandler`). A worker
  that has the transaction goes on writing, a new transaction on the item is let in beside it, and two workers write
  one item (`TxCancel.TwoWritersByCancelling`); when the first one ends, the cancelled record is on disk again
  (`TxCancel.CancelledRecordReturns`). What a cancellation must not meet is exactly a worker or handler that has the
  transaction at hand (`TxExclusion.DetachKeeps`, `TxExclusion.LiveIffSound`).
- An upload that breaks off leaves its announced size and hashes on the truncated blob, and trying again finds that
  blob and stores nothing (`ItemExamples.RetryFindsTruncated`). Records stay true of the stored bytes if and only if
  no failed read misses what was announced (`ItemHashes.HashedIffNoneMisses`).
- A copy that breaks off in the middle of a stream leaves the torn stream in a committed bundle. A later rewriting
  of that bundle must not take it for the blob: what excludes that is that no shorter beginning of the blob's bytes
  has its recorded size, or none once it is deleted, together with both its hashes. Such blobs are called sealed
  (`ItemExamples.SealedExactly`); crash safety is proved with copies of sealed blobs torn anywhere. A run without that:
  an upload announces the beginning of what it sends and breaks off, one Close is torn in that blob, and in the next
  Close nothing fails, it returns nil, and the blob has lost its bytes (`ItemRewritingRuns.SilentLoss`). This is how it
  goes whenever what is left of the torn stream may pass for its blob, its bundle holds another stream, and the torn
  session deletes nothing it wrote (`ItemRewriting.FailedCloseExposes`, `ItemRewriting.UnsealedCutLoses`). A blob whose record is true of its bytes is
  sealed unless both its hashes are those of no bytes at all (`ItemExamples.TrueRecordsSealed`).
- A deletion lasts for every blob that held bytes (`ItemDeletion.DeletionLasts`). An empty one comes back when its
  bundle was left behind by a Close that failed and is rewritten later; a non-empty one left behind like that makes the
  Close that deletes something else from the bundle fail although no access does (`ItemRewritingRuns.LeftoverRun`). The
  exact condition for copying to succeed is `ItemDeletion.CopySucceedsIff`.
- While a session is open or closing, reads go through the item it is changing: exactly the blobs recorded in the
  bundle that is still open cannot be read (`ItemRuns.SessionReads`, `ItemRuns.ClosingReads`).
- A Close that fails leaves a blob in two bundles: in clean sessions Close returns nil if and only if every stream
  is where the record says (`ItemResidence.CloseClean`).
- The planner uploads nothing for a file whose MD5 belongs to a deleted blob, so a deleted file cannot be put back
  (`PlanDeleted.DeletedFileNotRestored`); `PlanTheorem.PlanReachesTree` says exactly which names end right.
- The comment on the LRU cache's `Put` says that a resident key is an error; it is accepted. What then spoils the
  list is closing the writer well while the key is still listed, and exactly that
  (`LruRecency.InOrderIffNoneSavesListed`, `LruRecency.ReputDuplicates`). The comment on the time-based `Put` says
  that the resident entry is deleted first; it is not, and its size is counted twice. Along every run the recorded size
  is too large by exactly those bytes, and by nothing else (`TimeModel.SizeRightIff`).
- A short write to the cache's store leaves bytes that are accounted to nobody, never to be given back
  (`LruModel.WriteAccounted`, `LruModel.AccountedIffNoneShort`).
- The tag manifest of a bag lacks manifest-sha256.txt exactly when the map yields that name before the other tag files
  (`BagTagManifest.TagManifestLists`).
- Reading a file of fragments into an empty buffer ends only at the end of the file, and only if the store says EOF to
  empty reads there; otherwise it loops forever (`FragmentReader.EmptyReadEndsIff`).
- Closing an S3 upload after a failed Write returns nil although nothing is published
  (`S3Writer.AbortedCloseReturnsNil`).
- A file deleted and made anew hands out its fragment keys again (`FragmentKeys.DeletedNameReusesKeys`), and nothing
  else does while the server runs (`FragmentKeys.KeyReusedIffLifeEnded`).

## Model

| member | source | states |
|---|---|---|
| Names.SugarRoundTrip | items/item.go:69-88 | Decoding a bundle key gives back its item id and number, for every id, dashes and ".zip" included, and numbers past 9999 |
| Names.SugarInjective | items/item.go:69-71 | Different items or numbers never share a bundle key |
| Names.FindMaxBundle | items/item.go:140-154 | The loop returns the largest number decoded from a key of this item, 0 when there is none |
| Names.MaxBundleIsTrueMaximum | items/item.go:140-154 | Over a store of bundle keys that number is the item's true maximum even when other ids extend this one, and the next number is free |
| Names.BlobNameRoundTrip | items/bundler.go:223-233 | The id read from a stream name is the one it was made from, and no blob's stream is called item-info.json |
| Names.BlobNameInjective | items/bundler.go:123-125 | Different blobs have different stream names |
| ItemSafety.OpenIsSafe | items/writer.go:30-61 | Opening a session on a durable store and its newest record establishes the session invariant, with a fresh bundle number |
| ItemSafety.WriteBlobSafe | items/writer.go:139-211 | WriteBlob, whether it dedups, succeeds or fails half way, keeps every live blob's first bytes in the bundle its record names and every store content durable |
| ItemSafety.CopyBundleEmpties | items/bundler.go:173-211 | After a successful copy no live blob is recorded in the source bundle any more |
| ItemSafety.EntriesNameBlobs | items/bundler.go:184-199 | Every stream of every bundle names a blob of the item, so copying never meets a nil blob |
| ItemClose.MarkAllSpec | items/writer.go:95-113 | The first loop of doDeletes marks exactly the listed live blobs, once each, and groups them under their bundles |
| ItemClose.CloseSafe | items/writer.go:65-93 | Whatever the order of bundles and whichever accesses fail, streams of sealed blobs torn in the middle included, Close leaves a store whose newest record is the item in memory, every content on the way being durable, and adds the session's version |
| ItemRuns.RunSafe | items/writer.go:28-121 | The invariant holds in every state of every run of sessions, failed deletions, torn copies of sealed blobs, crashes between store operations and restarts |
| ItemRuns.DurableReads | items/item.go:161-173 | Reading any blob id from a durable store gives deleted, unknown, or the bytes first written; never a missing bundle or stream |
| ItemRuns.LiveReads | items/item.go:161-173 | Reading through an item in memory that is being written: a live blob is found, with the bytes first written, exactly when it is not recorded in the open bundle |
| ItemRuns.SessionReads | items/item.go:103-173 | In every open session of every run the blobs that cannot be read through its item are those of its open bundle |
| ItemRuns.ClosingReads | items/writer.go:65-121 | The same wherever the copying of a Close has got to; once the record is committed every live blob can be read, wherever the removal of bundles has got to |
| ItemRuns.CrashSafety | items/writer.go:65-121 | In every run, cut anywhere, with deletions failing anywhere and copies of sealed blobs torn, each blob the newest record calls live is read back with the bytes first written for it |
| ItemRuns.OrigIsFirstWritten | items/writer.go:172-183 | The history these theorems speak of is extended only by WriteBlob, with the bytes it put under the next blob id |
| ItemHashes.WriteBlobHashed | items/writer.go:178-211 | WriteBlob leaves records that describe the stored bytes if and only if it is not a failed read, of a blob not found by hash, whose bytes miss the announced size or hashes |
| ItemHashes.HashedIffNoneMisses | items/writer.go:178-211 | All along a run live blobs have the recorded size and hashes if and only if no failed read of the run misses what was announced |
| ItemHashes.DedupSound | items/writer.go:139-211 | Where records are true, an id returned without error is a live blob whose stored bytes have the size and hashes asked for; an error is returned exactly when nothing was found and the read fails or misses them |
| ItemHashes.DeletedNeverFound | items/writer.go:218-230 | The search by hash finds only live blobs, of the given size, and nothing for size 0 |
| ItemHashes.RunDedupSound | items/writer.go:139-230 | The same for every WriteBlob of every run in which no failed read before it misses; crashes and failed deletions included |
| ItemExamples.RetryFindsTruncated | items/writer.go:139-211 | A run: an upload breaks off and is tried again; the second call returns the first one's blob without error, and its bytes are the truncated ones |
| ItemExamples.SealedExactly | items/bundler.go:152-169 | A blob is sealed exactly when no shorter beginning of its bytes passes the check of a copy, as recorded or once deleted |
| ItemExamples.TrueRecordsSealed | items/bundler.go:152-169 | A blob whose record is true of its bytes is sealed if and only if it is empty or its hashes are not both those of no bytes |
| ItemRewriting.ExposedReplaces | items/bundler.go:173-211 | From any state of any run with a stream that may pass for a blob recorded elsewhere, in a bundle of live blobs and with nothing before it that stops a copy, a session that only deletes and tears nothing ends with the newest record leading from the blob to that stream |
| ItemRewriting.FailedCloseExposes | items/writer.go:95-121 | A Close whose copying fails leaves the stream it failed at in such a place if and only if it may pass for its blob, when its bundle holds another stream and nothing written in the session is deleted by it |
| ItemRewriting.UnsealedCutLoses | items/bundler.go:184-211 | The converse of crash safety: after a torn copy that may pass for its blob there is a continuation, tearing nothing, whose newest record leads from the blob to the torn bytes, not those first written |
| ItemRewriting.OnlyLiveRewritten | items/writer.go:95-113 | A Close rewrites exactly the bundles in which a blob to be deleted lives |
| ItemRewritingRuns.SilentLoss | items/bundler.go:184-211 | A run of three sessions: after one torn copy the last Close, in which nothing fails, returns nil and leaves a blob that was never deleted with the beginning of its bytes |
| ItemDeletion.CopySucceedsIff | items/bundler.go:173-211 | If no access fails, copying a bundle succeeds exactly when it is there and every stream not left behind has the size and hashes of its record |
| ItemDeletion.RevivedIffEmpty | items/bundler.go:184-199 | Copying a stream of a deleted blob revives it exactly when no bytes were written for it and its hashes are those of no bytes |
| ItemDeletion.RunGone | items/writer.go:95-113 | In every state of every run, torn copies of any blob included, records number their blobs in order and give deleted ones size 0 |
| ItemDeletion.DeletionLasts | items/writer.go:95-121 | Once the newest record between sessions has a blob deleted that held bytes, the newest record of every later state has it deleted; copies of sealed blobs may be torn |
| ItemRewritingRuns.LeftoverRun | items/writer.go:95-121 | A run: a deletion stops before its bundle is rewritten; the next deletion from that bundle, with nothing failing, succeeds and brings the first blob back if that was empty, and fails if it was not |
| ItemResidence.CloseClean | items/writer.go:65-121 | Closing a clean session returns nil if and only if every stream left in the store is where the new record says; no bundle on the way has a name twice |
| ItemResidence.Residence | items/writer.go:95-121 | In runs where no failed read misses and every Close returns nil, between sessions a bundle holds blob/id exactly when the newest record places live blob id there, once, with the recorded size and hashes |
| ItemResidence.BundlesHaveDistinctNames | items/bundler.go:173-211 | In such runs no bundle, also in the middle of a Close, has two streams of one name |
| ItemHistory.CloseHistory | items/writer.go:65-93 | Along a Close every store content records the old history or the old history with the new version |
| ItemHistory.HistoryAppendOnly | items/writer.go:30-68 | From any state of any run to any later one the shown versions only grow, numbered 1, 2, ..., earlier slot maps unchanged |
| ItemHistory.SessionAddsVersion | items/writer.go:246-259 | The version a session adds is the previous one with the session's SetSlot and ClearSlots calls applied in order, per name |
| ItemWriter.ItemRecord.BlobByID | items/item.go:200-207 | The search returns the first blob with the id, or none |
| ItemWriter.ItemStore.FindMaxBundle | items/item.go:140-154 | Over the decoded numbers of an item's bundles the loop returns the greatest |
| ItemWriter.ItemStore.ReadItem | items/item.go:103-136 | A cached record with versions is returned as it is; otherwise the record of the newest bundle, or an empty one |
| ItemWriter.BundleWriter.NewBundler | items/bundler.go:32-41 | The new writer's state is the model's: a fresh open bundle after the greatest |
| ItemWriter.BundleWriter.Next | items/bundler.go:52-69 | Closes the open bundle and opens the next number, as in the model |
| ItemWriter.BundleWriter.Close | items/bundler.go:72-84 | Commits the open bundle with the item's record, if one is open |
| ItemWriter.BundleWriter.WriteBlob | items/bundler.go:116-137 | Starts a new bundle when the open one is large enough, appends the stream, reports its size, bundle and hashes |
| ItemWriter.BundleWriter.CopyBundleExcept | items/bundler.go:173-211 | The copying loop is the model's recursive one, stopping at the first access that fails, stream that breaks off, or mismatch |
| ItemWriter.Writer.Open | items/writer.go:30-61 | The constructor yields the model's session |
| ItemWriter.Writer.FindBlobByHash | items/writer.go:218-230 | The loop finds the blob the model finds |
| ItemWriter.Writer.WriteBlob | items/writer.go:139-211 | The method's state change and result are the model's |
| ItemWriter.Writer.SetMimeType | items/writer.go:263-269 | Only a live blob's type changes |
| ItemWriter.Writer.MarkDeletions | items/writer.go:95-113 | The loop over the deletion list is the model's marking |
| ItemWriter.Writer.CopySurvivors | items/writer.go:114-121 | The loop over bundles is the model's, in the map's order |
| ItemWriter.Writer.Close | items/writer.go:65-121 | The whole Close, early returns included, is the model's |
| BagText.HexRoundTrip | bagit/reader.go:305-317 | Decoding a hex digest gives back the hash, and a digest has no white space |
| BagVerify.OneToOneByCounting | bagit/reader.go:200-237 | When every payload file is listed, the two counts agree exactly when no listed payload file is missing |
| BagVerify.VerifyExact | bagit/reader.go:194-265 | For distinct names and loaded manifests Verify returns nil exactly when payload files and data/ entries correspond one to one and all listed files present match their hashes; each error names a real defect |
| BagRoundTrip.CloseFiles | bagit/writer.go:39-52 | A closed bag is its payload, the tag files and the manifests, each written once, for any map orders |
| BagTagManifest.TagManifestLists | bagit/writer.go:123-172 | For any bag and any map orders the tag manifest has a line for every other tag file, except that manifest-sha256.txt has none if and only if it is the first tag file in the order of that loop |
| BagReading.ChecksumRoundTrip | bagit/reader.go:135-148 | Reading the manifests of a written bag gives every payload file the MD5 and SHA-256 of its content |
| BagReading.WrittenBagVerifies | bagit/writer.go:123-172 | A written bag has distinct names and passes Verify, whatever the map orders |
| BagReading.NamesRoundTrip | bagit/reader.go:156-167 | Files of a written bag lists the payload names in the order written |
| BagObjects.Writer.Create | bagit/writer.go:63-70 | Opens data/name and forgets the previous stream's hash state, as in the model |
| BagObjects.Writer.Write | bagit/writer.go:180-184 | Extends the open stream and counts its bytes |
| BagObjects.Writer.Checksum | bagit/writer.go:95-101 | The hashes of what has been written to the open stream |
| BagObjects.Writer.WriteManifest | bagit/writer.go:142-172 | The loop over the manifest map writes the model's lines, while itself adding to the map |
| BagObjects.Writer.Close | bagit/writer.go:39-52 | The closed archive is the model's |
| BagObjects.Reader.Files | bagit/reader.go:156-167 | The loop lists the model's payload names |
| BagObjects.Reader.LoadManifestFile | bagit/reader.go:289-320 | The line loop fills the manifest as the model does, or reports the first bad line |
| BagObjects.Reader.Checksum | bagit/reader.go:135-148 | Loads the manifests on first use and looks the payload name up |
| BagObjects.Reader.Verify | bagit/reader.go:194-265 | The counting loops give the model's verdict |
| BundleBags.BagHolds | items/bundler.go:52-84 | Streaming a bundle's blobs and record gives a bag with exactly those payload files, counted and sized |
| BundleBags.CommittedBundlesVerify | items/bundler.go:72-137 | Every bundle that ever occurs in a run satisfying the residence conditions passes Verify, and its listed names are its blobs' and the record's |
| LruModel.ReserveMinimal | blobcache/blobcache.go:245-266 | reserve succeeds exactly when the bytes and the open reservations fit, and then keeps the longest most-recent prefix that fits; on failure nothing stays listed and the accounting holds |
| LruModel.WriteAccounted | blobcache/writer.go:34-52 | After a write the accounting holds exactly when the store took all bytes or nothing was reserved |
| LruModel.CloseAccounted | blobcache/writer.go:24-32 | Saved or discarded, a closed writer's bytes move to the list or are given back |
| LruModel.RunAccounted | blobcache/blobcache.go:182-266 | In every run size never exceeds maxSize and is the list's sum, plus the bytes of open writers, plus the bytes reserved for short writes and not taken |
| LruModel.AccountedIffNoneShort | blobcache/writer.go:34-52 | After any run every byte of size belongs to the list or an open writer if and only if no reserved write was short |
| LruRecency.StepInOrder | blobcache/blobcache.go:111-266 | Every call keeps the list in most-recent-use order, except exactly the good closing of a writer whose key is listed |
| LruRecency.InOrderIffNoneSavesListed | blobcache/blobcache.go:190-233 | All along a run the list is in most-recent-use order without duplicates if and only if no good writer is closed while its key is listed |
| LruRecency.RunRecent | blobcache/blobcache.go:111-127 | When no resident key is put again the list stays in that order, whatever is interleaved |
| LruRecency.ReputDuplicates | blobcache/blobcache.go:149-171 | A run in which a resident key is put again and saved lists it twice |
| LruObjects.StoreLRU.Reserve | blobcache/blobcache.go:245-266 | The evicting loop is the model's |
| LruObjects.StoreLRU.Get | blobcache/blobcache.go:111-127 | Moves the entry to the front, or deletes it when the store cannot open it |
| LruObjects.StoreLRU.Put | blobcache/blobcache.go:149-171 | Refused while the key is being written; an existing key is deleted and created again; another error changes nothing |
| LruObjects.StoreLRU.Delete | blobcache/blobcache.go:198-212 | Removes the entry and gives its bytes back |
| LruObjects.StoreLRU.Discard | blobcache/blobcache.go:182-187 | Gives back what the writer had reserved |
| LruObjects.StoreLRU.Save | blobcache/blobcache.go:190-194 | Lists the finished entry first |
| LruObjects.StoreLRU.Scan | blobcache/blobcache.go:79-97 | The loop over the store's keys is the model's |
| LruObjects.CacheWriter.Write | blobcache/writer.go:34-52 | Reserves before writing; a failure marks the writer for deletion |
| LruObjects.CacheWriter.Close | blobcache/writer.go:24-32 | Saves, or discards when marked or when the close fails |
| TimeModel.ExpireExact | blobcache/timebased.go:247-277 | From any covered state expireKeys leaves exactly the items that expire after now, and a covering list, although it appends to and cuts the list it walks |
| TimeModel.RunExpiresExactly | blobcache/timebased.go:99-155 | In every run with a clock that does not go back, every cached key has a list entry no later than its true expiry, so each expireKeys is exact |
| TimeModel.SizeKept | blobcache/timebased.go:145-155 | Each event, expiry, loading and scanning included, changes the recorded size by as much as the total, except that closing a good writer over a resident key leaves the old size counted as well |
| TimeModel.SizeRightIff | blobcache/timebased.go:99-155 | After any part of any run the recorded size is the total plus all bytes counted twice; it is right if and only if no good writer was closed over a resident entry that had bytes |
| TimeObjects.SortByExpires | blobcache/timebased.go:247-250 | Sorts in place: ordered by expiry and the same entries |
| TimeObjects.TimeBased.Get | blobcache/timebased.go:99-116 | Renews the expiry, or deletes the key when it cannot be opened |
| TimeObjects.TimeBased.AddEntry | blobcache/timebased.go:145-155 | Enters the item, lists it and adds its size |
| TimeObjects.TimeBased.Delete | blobcache/timebased.go:181-199 | Forgets the item but not its list entry |
| TimeObjects.TimeBased.ReadIndexFile | blobcache/timebased.go:304-332 | The loading loop is the model's |
| TimeObjects.TimeBased.ScanKey | blobcache/timebased.go:336-348 | A key that is new to the cache is entered |
| TimeObjects.TimeBased.ExpireKeys | blobcache/timebased.go:247-277 | Sorting and the walking loop leave the model's state |
| S3Reader.GetPageValid | store/s3.go:225-299 | In the object's range getpage succeeds, puts the page holding the offset first and keeps at most five true pages with distinct aligned offsets |
| S3Reader.ReadFrom | store/s3.go:191-219 | From any valid cache the paging read returns exactly the object's bytes from offset up to its end or the buffer's, and leaves a valid cache |
| S3ReaderObject.S3ReadAtCloser.Find | store/s3.go:253-262 | The loop finds the page holding the offset, or none |
| S3ReaderObject.S3ReadAtCloser.MoveToFront | store/s3.go:239-247 | Shifting in place brings the page to the front and keeps the others in order |
| S3ReaderObject.S3ReadAtCloser.GetPage | store/s3.go:225-248 | The method changes the page array as the model's getpage does |
| S3ReaderObject.S3ReadAtCloser.ReadAt | store/s3.go:191-219 | ReadAt fills the buffer with the slice of the object, says EOF exactly when there is none, and ends |
| S3Writer.RunWrites | store/s3.go:356-381 | After any Writes the parts followed by the buffer are exactly the bytes written and every part is over min(64 MiB * 2^i, 4 GiB), or the upload is to be aborted |
| S3Writer.AbortsIffFailed | store/s3.go:356-381 | An upload is to be aborted exactly when some Write returned an error |
| S3Writer.ClosePublishes | store/s3.go:387-438 | Close publishes all the bytes written, or nothing; all of them exactly when it returns nil and no Write failed |
| S3Writer.AbortedCloseReturnsNil | store/s3.go:404-426 | After a failed Write a Close that returns nil has published nothing |
| S3Writer.JoinedIsParts | store/s3.go:469-488 | The list sent, tags with numbers 1 to k, names exactly the uploaded parts in order |
| S3Writer.FewParts | store/s3.go:319-332 | An object of at most 5 TiB needs fewer than 1300 parts |
| S3WriterObject.S3WriteCloser.UploadPart | store/s3.go:490-514 | Starts the multipart upload when needed and records the part's tag, or fails; as in the model |
| S3WriterObject.S3WriteCloser.Write | store/s3.go:356-381 | Buffers, uploads past the threshold, and marks the upload for abort on error; as in the model |
| S3WriterObject.S3WriteCloser.FinishMultipart | store/s3.go:469-488 | The loop builds the numbered list the model sends |
| S3WriterObject.S3WriteCloser.Close | store/s3.go:387-438 | Put, finish or abort with every early exit, as in the model |
| TxModel.NewNumber | transaction/transaction.go:105-114 | The first number from the counter on whose id is unused, and there is one |
| TxProtocol.InvExcludes | items/writer.go:28-29 | In a state of the invariant of one life of the server no two workers are inside a writer of one item |
| TxExclusion.StepLives | server/transaction.go:74-174 | Within one life of the server every step of handlers, workers, cleaner and requests to cancel keeps the invariant, except exactly the queueing of an id still queued or held, the cancelling of a transaction somebody has at hand, and a restart that loads two pending ones of one item |
| TxExclusion.LiveIffSound | server/transaction.go:74-174 | In any run that invariant holds all along if and only if there is no such step; then each item has one writer in every state |
| TxExclusion.DetachKeeps | transaction/transaction.go:125-138 | Removing a transaction from memory, whatever its status, keeps the invariant if and only if no worker and no unfinished handler has it, and leaves the disk in order if and only if its record is not pending |
| TxExclusion.StepKeeps | server/transaction.go:74-174 | The same with what the next life will find on disk: every step keeps the invariant, except exactly queueing an id twice, cancelling what is at hand or pending on disk, and skipping a pending record at a restart |
| TxPointers.RunAttached | transaction/transaction.go:203-233 | In every run whoever has looked up or created a transaction still has it, in the store or removed from it, so nobody is stopped by a removal |
| TxExclusion.EnqueueKeeps | server/transaction.go:103-104 | Queueing keeps each id queued or held at most once if and only if the id is not queued or held already |
| TxExclusion.RestartKeeps | transaction/transaction.go:38-52 | A restart keeps the invariant if and only if it skips no pending record that stays on disk |
| TxExclusion.KeptIffNoneQueuedTwice | server/transaction.go:74-174 | An orderly run keeps one pending transaction per item and each id queued or held at most once if and only if no handler queues an id still queued or held |
| TxExclusion.Exclusion | server/transaction.go:111-240 | Whatever orderly restarts queue, if nobody removes a transaction whose id is queued or held: one pending transaction per item, each id queued or held at most once, one writer per item, in every state of every run |
| TxExclusion.ExclusionQueuingPending | server/routes.go:184-194 | The same whatever the cleaner does, if orderly restarts queue only pending transactions |
| TxExclusion.BlockedUntilFreed | transaction/transaction.go:76-91 | In every run every Create is refused for the item of a transaction that was open when the server stopped, until that is cancelled or a restart does not have it |
| TxExclusion.RefusedUnlessFreed | server/transaction.go:265-280 | For such an item Create is refused after a step if and only if the step does not cancel the transaction or restart without it |
| TxReuse.TwoWriters | server/routes.go:184-194 | A run of the code as it is that ends with two workers writing the same item |
| TxReuse.TwoPending | transaction/transaction.go:42-47 | A run in which a pending record is skipped at one restart and read at the next, and its item has two pending transactions |
| TxCancel.TwoWritersByCancelling | server/transaction.go:265-280 | A run within one life of the server, nothing being cleaned up: a transaction is cancelled while a worker writes its item, and a second worker comes to write the item for a new transaction |
| TxCancel.CancelledRecordReturns | transaction/transaction.go:203-233 | A run in which the worker of a cancelled transaction ends and its record is on disk again, without the transaction being in memory |
| TxObjects.Transaction.SetStatus | transaction/transaction.go:192-197 | Sets the status and saves the record |
| TxObjects.Transaction.AddCommandList | transaction/transaction.go:174-189 | Adds all commands and saves, or none when one is not well formed |
| TxObjects.TxStore.Load | transaction/transaction.go:38-52 | Every saved transaction whose record can be read is in memory, as saved |
| TxObjects.TxStore.MakeNewID | transaction/transaction.go:105-114 | The loop ends with the model's id and moves the counter past it |
| TxObjects.TxStore.Create | transaction/transaction.go:76-102 | Refuses exactly when a pending transaction on the item exists; otherwise stores and saves a fresh open one |
| TxObjects.TxStore.Delete | transaction/transaction.go:125-138 | Removes from memory and, if it was there, from disk, where it may fail |
| TxServer.RESTServer.NewTxHandler | server/transaction.go:74-106 | The handler's effect on store and queue and its answer: refused, rejected with status Error, or queued as Waiting |
| TxServer.RESTServer.CancelTxHandler | server/transaction.go:265-280 | Deletes the transaction whatever its status, although a pending one is answered with a 400; panics when the deletion succeeds, without any status for one that is over |
| TxServer.RESTServer.Commit | transaction/transaction.go:203-233 | The status and error changes of Commit; when the item does not open they are not saved |
| TxServer.RESTServer.Work | server/transaction.go:111-172 | A worker's round from the looked-up id to idle or stopped, with its fall-through cases |
| TxRounds.HandledIsSteps | server/transaction.go:74-106 | The handler run without interruption is a run of the protocol's steps |
| TxRounds.RoundIsSteps | server/transaction.go:111-172 | Each round of a worker is a run of the protocol's steps |
| TxRounds.CancelIsSteps | server/transaction.go:265-280 | A request to cancel is two of the protocol's steps, and whoever has the transaction keeps it as it was |
| Commands.ExecuteAllSafe | transaction/transaction.go:203-233 | Any commands, failing ones and files that cannot be read to the end included, leave the item's session in its invariant |
| CommandObjects.Execution.Execute | transaction/transaction.go:298-375 | Each command does to the item's writer what the model says |
| CommandObjects.Execution.ExecuteAll | transaction/transaction.go:212-221 | The loop stops at the first command that fails |
| Planner.FirstMD5Wins | cmd/bclient/filelist.go:64-94 | The MD5 a path ends up with is the first one found for it |
| Planner.ByHashFinds | cmd/bclient/filelist.go:113-119 | An MD5 is in the index exactly when some blob has it, and leads to the last such blob |
| Planner.NumberReadBack | cmd/bclient/upload.go:437-447 | A blob id in a command is read back as that id and is never the name of an uploaded file |
| Planner.FileIDInjective | cmd/bclient/upload.go:435-436 | Different contents are uploaded under different names |
| PlannerObjects.FileListObject.AddFiles | cmd/bclient/filelist.go:64-94 | The merging loop is the model's |
| PlannerObjects.FileListObject.BuildListFromJSON | cmd/bclient/filelist.go:109-142 | Both loops build the model's index for any map order; they fail exactly when a slot names no blob |
| PlannerObjects.ResolveLocalBlobs | cmd/bclient/upload.go:300-357 | The loop's actions and marks are the model's, for any map order |
| PlannerObjects.MakeTransactionCommands | cmd/bclient/upload.go:429-452 | One command per action |
| PlanCorrect.ParseCommand | transaction/transaction.go:383-406 | Every planned command is well formed and means what the action says |
| PlanCorrect.AddStores | transaction/transaction.go:336-357 | Adding an uploaded file succeeds and maps its name to a live blob with its MD5, found or new |
| PlanTheorem.PlanReachesTree | cmd/bclient/upload.go:300-357 | Executing the plan on its item succeeds and leaves other slots alone; a local name ends at a live blob with the local MD5, whose bytes hash to it, exactly when the index led to such a blob or to none |
| PlanTheorem.NoConfusionLeadsRight | cmd/bclient/upload.go:304-331 | That holds for every local name when no deleted blob has a local MD5 and no path spells one |
| PlanDeleted.DeletedFileNotRestored | cmd/bclient/upload.go:323-331 | A run and a plan: a file is stored, its blob deleted and its slot cleared; planning and executing an upload of the same content succeeds, uploads nothing and leaves the slot at the deleted blob |
| PlanTheorem.RunIsSound | items/writer.go:30-61 | Every open session of a run in which no failed read has missed meets what PlanReachesTree asks of it |
| PlanPublished.PlainClose | items/writer.go:65-93 | Closing a session that deletes nothing returns nil and commits its blobs and its version unchanged |
| PlanPublished.UploadedTreeReads | cmd/bclient/upload.go:22-108 | End to end: after the planned commands and Close, the newest record in the store is the item, and reading each local name of it that the client was led right for yields bytes with the local MD5 |
| PlanUploads.UploadsExactly | cmd/bclient/upload.go:332-352 | The plan uploads exactly the local contents of which the item has no blob, each once and before any slot uses it |
| FragmentModel.KeyInjective | fragment/fragment.go:240 | No two fragments of any files have the same key |
| FragmentRuns.StepRefines | fragment/fragment.go:165-352 | Every event keeps the invariant and does to each file's list of pieces just what it should: nothing, add one, drop the last, make or remove the file |
| FragmentRuns.RunRefines | fragment/fragment.go:129-352 | The same along every run of interleaved appends, rollbacks, deletions and restarts; reloading gives the same pieces |
| FragmentRuns.SizeIsLength | fragment/fragment.go:265-276 | In every run Size is the number of bytes the file holds |
| FragmentRuns.CloseThenRollback | fragment/fragment.go:340-352 | Rolling back a closed fragment restores the file, its size and children, and all other files |
| FragmentKeys.KeysNeverReused | fragment/fragment.go:237-248 | While the server runs and the file is not deleted no key is handed out twice, failed appends included |
| FragmentKeys.KeyReusedIffLifeEnded | fragment/fragment.go:165-248 | Since the server started an Append is given a key that was given before if and only if a file of that name was deleted that had used up the number |
| FragmentKeys.DeletedNameReusesKeys | fragment/fragment.go:165-217 | A run in which a file is made, given a fragment, deleted, made again and given a fragment with the same key |
| FragmentReader.ReadExact | fragment/fragment.go:302-326 | A Read with a non-empty buffer returns the next bytes, at least one unless none are left, and EOF exactly then, passing over empty fragments |
| FragmentReader.EmptyReadEndsIff | fragment/fragment.go:302-326 | A Read with an empty buffer ends, having passed over what is left, if and only if no bytes are left and the store says EOF to empty reads at the end of every fragment still to be closed |
| FragmentReader.ReadAllExact | fragment/fragment.go:302-326 | Reads with any non-empty buffers reach EOF after at most length-plus-one calls and yield the exact concatenation |
| FragmentReader.OpenReadsFile | fragment/fragment.go:279-290 | What a newly opened file has to be read is its pieces joined |
| FragmentObjects.FragmentStore.New | fragment/fragment.go:165-179 | Refused for a known name, otherwise an empty unsaved file |
| FragmentObjects.FragmentStore.Load | fragment/fragment.go:129-148 | The files in memory are the saved records |
| FragmentObjects.FragmentStore.Delete | fragment/fragment.go:198-217 | Removes the file, its record and its fragments |
| FragmentObjects.FileObject.Append | fragment/fragment.go:237-248 | Uses up a number even when the fragment cannot be created |
| FragmentObjects.FileObject.Rollback | fragment/fragment.go:340-352 | Drops the last fragment and saves |
| FragmentObjects.FragmentWriter.Close | fragment/fragment.go:265-276 | Puts the fragment in place, extends the file and saves; a failed close changes nothing |
| FragmentObjects.FragmentReader.Read | fragment/fragment.go:302-326 | The loop over fragments is the model's Read |

## Left out

- Routing, responses, templates, tokens, roles, the databases, the fixity scheduler, BlackPearl, copy-on-write and the upload client: plumbing or clients of unseen libraries.
- Zip, JSON, MD5 and SHA-256 internals: an archive is a sequence of named contents, records are kept without loss, hashes are arbitrary functions. `bufio.Scanner`'s 64 KiB line limit is not modelled.
- Dates, and the human-readable size in bag-info.txt, which is a parameter.
- Goroutine scheduling below one method call or one protocol step; mutexes appear only as the transaction's own lock.
- Integer width, except where numbers are parsed (`Names.ParseInt`); counters and sizes are unbounded.
- ItemRuns.CrashSafety: takes for granted that creating a fresh bundle and committing it succeed, because items/bundler.go:39 and items/bundler.go:81 drop those errors; copies are torn only of sealed blobs, without which it fails as `ItemRewriting.UnsealedCutLoses` says.
- ItemRewriting.UnsealedCutLoses: supposes that the torn stream's bundle holds another stream and that nothing written in the session is deleted by it. Only bundles of live blobs are ever rewritten (`ItemRewriting.OnlyLiveRewritten`), so without another stream the torn one stays where it is; when the session deletes what it wrote nothing is claimed.
- ItemHistory.HistoryAppendOnly: slot maps are values, so that they are never changed in place once recorded holds by construction; that sessions copy the previous map is what is proved.
- ItemClose.CloseSafe: copies are torn only of sealed blobs, unless the copying goes well.
- ItemHashes.DedupSound: needs that no failed read before it missed what was announced, which `ItemHashes.HashedIffNoneMisses` shows to be the exact condition for true records.
- ItemResidence.Residence: needs that every Close returned nil, which `ItemResidence.CloseClean` shows to be the exact condition.
- ItemWriter.Writer.Close: blobs are values in the item's list where the original has pointers; the cached item is the same object. A writer that is never closed is not modelled.
- ItemWriter.ItemStore.ReadItem: the record's stored MaxBundle is not read, since itemload overwrites it.
- BagReading.WrittenBagVerifies: says nothing about the tag manifest, which `BagTagManifest.TagManifestLists` covers.
- BundleBags.CommittedBundlesVerify: the item record is any string, as its JSON form is not modelled.
- LruModel.RunAccounted: is about accounted size; files left behind in the store by discarded writers are not counted. Delete is one step.
- LruObjects.StoreLRU.Reserve: deletions from the backing store are taken to succeed, so the return in the middle of eviction is not modelled.
- TimeModel.RunExpiresExactly: takes loaded expiries to lie at most ttl after the time of loading. Writing the index file is not modelled.
- S3ReaderObject.S3ReadAtCloser.ReadAt: the recorded size is the object's length and ranged gets do not fail.
- S3WriterObject.S3WriteCloser.Close: an abort request drops the parts even when its answer is lost.
- TxExclusion.Exclusion: saving a record is taken to succeed, a restart to reload and queue in one step, and the cleaner to check and remove in one step. An orderly run cancels only what is over, which the missing return of CancelTxHandler does not ensure, and skips no pending record, which Load does not ensure; `TxExclusion.LiveIffSound` is about every run.
- TxExclusion.ExclusionQueuingPending: the same.
- TxServer.RESTServer.Commit: covers status, errors and saving; the commands themselves are in CommandObjects. File verification is a list of problems found.
- CommandObjects.Execution.Execute: removal from the blob cache on "delete" is not modelled, nor its error message, nor an error of closing an uploaded file.
- TxServer.RESTServer.CancelTxHandler: what net/http makes of the panic is not modelled.
- PlanTheorem.PlanReachesTree: the item is the one that was described, its blob ids fit an int64, and every new blob has been uploaded with its MD5. SHA-256 of local files plays no part in planning.
- FragmentRuns.StepRefines: saving a record is taken to succeed, and a file is not deleted while a fragment of it is being written. A crash inside Rollback or Delete is not modelled; one between placing a fragment and saving its file is.
- FragmentReader.ReadExact: is about non-empty buffers, `FragmentReader.EmptyReadEndsIff` about empty ones; a fragment's Close is taken to succeed.
