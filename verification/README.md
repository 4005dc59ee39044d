# Verified model of sqlite-objs

sqlite-objs is a SQLite VFS that keeps the main database in an Azure page blob and the rollback
journal in a block blob. Each connection works on a local cache file, tracks dirty pages in a
bitmap, writes them back on xSync, and takes a blob lease for RESERVED and above. This project
models that logic in Dafny and proves what it promises. `dafny verify dfyconfig.toml` checks
everything.

## What is modelled

| file | subject |
|---|---|
| `Bytes.dfy` | zero-extended byte sequences, sectors and page arithmetic |
| `Bitmap.dfy` | the page bitmap with its running count |
| `DirtyRanges.dfy` | coalescing dirty pages into Put Page ranges |
| `WriteBack.dfy`, `MainDbFile.dfy` | the main database file: read, write, truncate, sync, and runs of them |
| `AzureErrors.dfy`, `BatchWrite.dfy` | error classes, the retry loop, single and parallel range writes |
| `Chunks.dfy`, `ParallelRead.dfy`, `BlockUpload.dfy` | chunk layouts, the parallel download, the staged upload |
| `LazyCache.dfy`, `IncrementalDiff.dfy` | prefetch=none with its validity bitmap, and patching a cached snapshot |
| `BlobServer.dfy` | the blob service with ETag and lease, as the repository's mock implements it, but with Azure's zeros where a blob grows again |
| `LockProtocol.dfy`, `LockSafety.dfy`, `LockConditions.dfy`, `LockProgress.dfy` | xOpen, xLock, xUnlock, xRead, xWrite, xTruncate and xSync of any number of clients against one server, what holds in every run, why its conditions are needed, and how each operation ends when its requests are answered |
| `LeaseTiming.dfy` | how often a lease must be checked |
| `StateFile.dfy`, `Journal.dfy`, `JournalCache.dfy` | the `.state` sidecar, the journal buffer, the journal-existence cache |
| `PercentEncoding.dfy` | URI encoding in C and the Rust URI builder |

The network, the clock and randomness are parameters. A request is described by whether it took
effect and what the client learnt, so an applied request whose answer is lost is covered, and
retry rounds are arbitrary schedules of such events. The remote blob is passed to the methods as
a value and handed back changed.

In the locking protocol one action is one request together with the local work up to the next
one. The clock may advance between any two actions, and other parties may send the server any
request that does not carry a client's lease ID. A client whose download, lease renewal during a
write, or truncation fails, or who is granted RESERVED over a blob that changed since it created
it, carries on as the code does; the observed flag `trusted` is false from then until its next
complete download. The theorems about grants and syncs need that flag, and `LockConditions.dfy`
shows for each of these ways what happens without it. The server there answers every request with
success or an error.

## Where a promise needs a condition

The code keeps these promises exactly under the stated condition; each has a proof of both halves
or a run or input that shows the failure.

- A single request: its deciding answer must not be a 1xx or 3xx, which the code takes for success
  (`OkMeansEffectIff`, `OkMeansWrittenIff`, `NotModifiedLosesWrite`, `HollowKeepsIff`, `HollowSyncLoses`).
- A truncation: it must not extend the file nor leave old bytes in the last sector (`TruncateKeepsIff`);
  for the sizes that are always safe see `RegrowSafeIffAligned`.
- A truncation that extends the file: the bitmap must already cover the new size (`MarksKeptIffRoom`).
- A lazy fetch: its 16-page window must hold no dirty page (`FetchSafeIffWindowClean`).
- A lazy write: bytes it marks valid without storing them must be valid already (`WriteSafeIffCovered`).
- An incremental diff: the listed ranges must cover every difference (`PatchIsDownloadIffComplete`).
- Equal raw block-ID lengths: at most 10000 chunks (`RawLength`). The comment in the source claims it for all.
- A held lease: check gap plus grant delay within the second half of the duration (`AlwaysHeldIff`).
- A written `.state` file: the reader's limits on page size and bitmap size, which the writer does not check (`ReadableIffLegal`).
- A reopened journal: its download must be answered (`JournalFile.Reopen`).
- The journal cache after an unanswered HEAD or an untrue answer (`VfsData.Open`, `Upload`, `Delete`).
- A field of a URI: no zero byte (`ReadBackIff`).
- What SQLite has read when RESERVED is granted is the blob: no page left dirty by an earlier transaction
  (`SnapshotIsBlob`, `ViewSafeIff`, `AbandonedWritesAreSeen`).
- Revalidation on xLock: a stored ETag, or a blob unchanged since its creation (`CreatorGrant`,
  `CreatorSafeIff`, `CreatorLocksBlindly`); a download that completed (`FailedRefreshServesStale`); writes whose
  lease renewals succeeded (`FailedRenewalServesUnsaved`); truncations that were answered (`UnansweredTruncateDiverges`).
- The blob when xSync returns: a lease still on record (`NoLostUpdate`, `LateExpiry`).
- xLock is documented as taking no action at SHARED; the code revalidates there, and the model follows the code.

## Model

| member | source | states |
|---|---|---|
| `PageBitmap.MaskBits` | src/sqlite_objs_vfs.c:351-381 | Setting or clearing the masked bit of a byte changes that bit and none of the other seven. |
| `PageBitmap.Bitmap.SetBit` | src/sqlite_objs_vfs.c:351-360 | The set of marked pages gains exactly the page, when there is room for it; the running count stays the size of that set. |
| `PageBitmap.Bitmap.ClearBit` | src/sqlite_objs_vfs.c:372-381 | The set loses exactly the page and the count stays exact. |
| `PageBitmap.Bitmap.ClearAll` | src/sqlite_objs_vfs.c:384-389 | No page is marked afterwards, at unchanged capacity. |
| `PageBitmap.Bitmap.Test` | src/sqlite_objs_vfs.c:363-369 | True exactly for marked pages, also for indexes beyond the bitmap. |
| `PageBitmap.Bitmap.SetRange` | src/sqlite_objs_vfs.c:405-416 | Marks exactly the pages of the half-open range that fit; the count stays exact. |
| `PageBitmap.Bitmap.EnsureCapacity` | src/sqlite_objs_vfs.c:428-439 | Growth keeps every mark and adds none; capacity never shrinks. |
| `DirtyRanges.ScanRun` | src/sqlite_objs_vfs.c:1713-1728 | One run of dirty pages, ended by a clean page, by EOF or by the 4 MiB limit, which it fills exactly in the last case. |
| `DirtyRanges.CodeLength` | src/sqlite_objs_vfs.c:1730-1741 | The aligned length the code computes is the run's bytes cut at the sector-rounded end of file. |
| `DirtyRanges.CoalesceDirtyRanges` | src/sqlite_objs_vfs.c:1697-1747 | The ranges are sorted, disjoint, sector-aligned, at most 4 MiB, cover exactly the dirty pages below EOF, and touch only where the 4 MiB limit forced a cut; -1 only when more pages are dirty than the buffer has slots. |
| `DirtyRanges.RunsGiveExact` | src/sqlite_objs_vfs.c:1697-1747 | Maximal runs of dirty pages, turned into byte ranges, satisfy that specification. |
| `DirtyRanges.RunsNeedPages` | src/sqlite_objs_vfs.c:1936-1947 | There are never more ranges than dirty pages, so the second attempt, with one slot per dirty page, cannot fail. |
| `WriteBack.WriteHasRoom` | src/sqlite_objs_vfs.c:1566-1577 | Because the size is raised before the bitmap grows, every page of a write gets its dirty mark. |
| `WriteBack.WriteKeeps` | src/sqlite_objs_vfs.c:1561-1608 | A write keeps write-back agreement: outside dirty pages the cache is the blob. |
| `WriteBack.TruncateKeepsIff` | src/sqlite_objs_vfs.c:1646-1681 | A truncation keeps agreement if and only if it does not extend the file and the blob holds zeros from the new size to the next sector boundary. |
| `WriteBack.SyncFailedKeeps` | src/sqlite_objs_vfs.c:1879-2130 | So does a sync that failed at any point: nothing sent, resize lost, or any mixture of ranges written. |
| `WriteBack.SyncOkExact` | src/sqlite_objs_vfs.c:2055-2130 | After an OK sync nothing is dirty, the logical file is unchanged, and the blob equals the cache at every offset; when anything was flushed the blob is exactly the file padded to a sector. |
| `WriteBack.HollowKeepsIff` | src/sqlite_objs_vfs.c:2046-2130 | A sync that returned OK on the word of 1xx or 3xx answers keeps agreement if and only if every dirty byte was written after all. |
| `WriteBack.HollowSyncLoses` | src/sqlite_objs_vfs.c:2046-2130 | Wherever a dirty byte differs from the blob, such a sync can clear the dirty set and leave them different. |
| `WriteBack.StepKeepsIff` | src/sqlite_objs_vfs.c:1536-2161 | Of all writes, truncations and syncs, exactly the regular ones keep agreement. |
| `WriteBack.RunAgreement` | src/sqlite_objs_vfs.c:1536-2161 | In every state reached by regular steps, with failures anywhere, clean bytes below the synced size are the blob's and clean bytes above it are zero. |
| `WriteBack.RunRefines` | src/sqlite_objs_vfs.c:1446-2161 | Every run, with truncations to any size and any outcome of its syncs, refines a plain zero-filled byte sequence: what SQLite reads is that sequence throughout. |
| `WriteBack.SyncedBlobIsFile` | src/sqlite_objs_vfs.c:1879-2130 | Whenever a sync returns OK after regular steps, the blob is the reference file, padded to a sector. |
| `WriteBack.FailuresLeaveNoTrace` | src/sqlite_objs_vfs.c:1879-2130 | Two runs with the same writes and truncations end with the same blob after an OK sync, whatever syncs failed on the way. |
| `WriteBack.FailedSyncConfined` | src/sqlite_objs_vfs.c:1879-2130 | A failed sync keeps the dirty set, never shrinks the blob, and changes bytes only inside dirty pages, to the cached bytes. |
| `WriteBack.IsTheBlobIff` | src/sqlite_objs_vfs.c:1536-2130 | The cached file is what every agreeing blob holds if and only if no byte below EOF is dirty, zeros beyond the synced size excepted. |
| `WriteBack.RegrowSafeIffAligned` | src/sqlite_objs_vfs.c:1646-1681 | Truncate, write and sync leaves blob and cache equal for every file and write if and only if the truncation size is a multiple of 512. |
| `WriteBack.MarksKeptIffRoom` | src/sqlite_objs_vfs.c:1664-1681 | After xTruncate every later write keeps its dirty marks if and only if the bitmap already covers the new size; shrinking always does. |
| `MainDbFile.DbFile.constructor` | src/sqlite_objs_vfs.c:3234-3349 | A completely downloaded file starts in agreement with the blob and clean. |
| `MainDbFile.DbFile.Read` | src/sqlite_objs_vfs.c:1466-1528 | Returns the logical file's bytes, zero-filled past the end, and reports a short read exactly then. |
| `MainDbFile.DbFile.CacheEnsureSize` | src/sqlite_objs_vfs.c:504-519 | Grows cache file and bitmap together, keeping bytes and marks. |
| `MainDbFile.DbFile.MarkDirty` | src/sqlite_objs_vfs.c:1598-1606 | Marks exactly the pages the write touches, as far as the bitmap reaches. |
| `MainDbFile.DbFile.Write` | src/sqlite_objs_vfs.c:1561-1608 | The file changes as the write specification says, and exactly the pages the write touches are marked; when the lease renewal on the way fails, the bytes are stored but no page is marked. |
| `MainDbFile.DbFile.Truncate` | src/sqlite_objs_vfs.c:1646-1681 | The file changes as the truncation specification says exactly when the client takes the answer for success, the blob exactly when the request took effect; and each error gets its own result code: BUSY for conflict and throttling, CANTOPEN for a missing blob, a lock error for an expired lease, a plain I/O error for authentication, NOMEM, and IOERR_TRUNCATE for everything else. |
| `MainDbFile.DbFile.CollectRanges` | src/sqlite_objs_vfs.c:1928-1996 | Yields the exact ranges with their cached bytes, each aligned and at most 4 MiB; never fails for lack of slots. |
| `MainDbFile.DbFile.SendRanges` | src/sqlite_objs_vfs.c:1998-2125 | Batch or sequential, each byte is old or new afterwards; success means that the blob holds every dirty byte unless a 1xx or 3xx answer decided a single range write. |
| `MainDbFile.DbFile.Sync` | src/sqlite_objs_vfs.c:1879-2161 | OK means the exact sync specification unless a 1xx or 3xx answer decided a single range write, and the unchecked one then; an error means the failed-sync specification; an undisturbed network gives OK; a clean file is OK at once; a lost lease or a refused resize is an I/O error; BUSY exactly if some request for the ranges reported a failed precondition. |
| `MainDbFile.WriteAllIsFlushed` | src/sqlite_objs_vfs.c:1998-2130 | Writing the coalesced ranges one after the other is the same as flushing every dirty page. |
| `BatchWrite.WriteOne` | src/azure_client.c:749-808 | Argument checks, then one request with retries: the blob has the whole range exactly if some attempt took effect, up to five passing failures before an acknowledgement do not matter, and a failed precondition is reported only where an attempt was refused with 412. |
| `BatchWrite.OkMeansWrittenIff` | src/azure_client.c:749-808 | OK means that the range is written, whatever the blob held and the network did, if and only if no 1xx or 3xx answer decided the request. |
| `BatchWrite.NotModifiedLosesWrite` | src/azure_client.c:587-605 | A Put Page answered with 304 is reported as OK and leaves any blob as it was. |
| `BatchWrite.WriteBatch` | src/azure_client.c:1901-2176 | For every interleaving of answers, lost answers and retries: OK exactly when every range was acknowledged before the lease was lost, and then the blob is what sequential writes produce; otherwise each byte is old or new and nothing outside the ranges changed. At most four rounds. Up to three rounds whose failures all pass do not matter. A failure is reported as the lost lease, else as the earliest failed request of the last round. |
| `BatchWrite.PageBlobWriteBatch` | src/azure_client.c:1901-1935 | The same for zero or many ranges; one range is a single write with its condition; an undisturbed network gives OK, and so do rounds of passing failures. |
| `BatchWrite.WriteSequential` | src/sqlite_objs_vfs.c:2066-2125 | The sequential fallback: OK means the sequential result unless a 1xx or 3xx answer decided a write; in any case only bytes of the ranges change, to their new values; the error is that of the first failed renewal or write. |
| `BatchWrite.AllDoneIsWriteAll` | src/azure_client.c:2150-2176 | Once every range is acknowledged the blob is the sequential result, in whatever order and however often ranges were applied. |
| `BatchWrite.WriteAllBytes` | src/azure_client.c:1901-2176 | Sequential writes of disjoint ranges: each range's bytes, and nothing else, change. |
| `BatchWrite.FirstErrorIsEarliest` | src/azure_client.c:2073-2110 | The error a round reports is that of its earliest failed request, and none if all succeeded. |
| `BatchWrite.Completes` | src/azure_client.c:1960-2176 | A batch in which every failure of the first rounds passes is retried until everything is acknowledged. |
| `AzureErrors.RetryDelay` | src/azure_error.c:185-216 | At most 30 s: Retry-After when there is one, else 500 ms doubled with each attempt plus less than 500 ms. |
| `AzureErrors.ExecuteWithRetry` | src/azure_client.c:629-705 | At most six attempts; outcome and body are those of the first non-retryable attempt or of the last, with nothing left of earlier bodies; the pauses add up as specified. If up to five attempts fail in a passing way and the next is acknowledged, the call succeeds with that attempt's body after exactly that many attempts; six passing failures use up all six. |
| `AzureErrors.Classes` | src/azure_error.c:126-168 | What each HTTP status and service code means: success exactly for 2xx; worth another attempt exactly for 408, 429, 500, 502, 503, 504 and the three transient service codes; and among the others which are authentication, missing blob, conflict, failed precondition or bad request. |
| `AzureErrors.Answer.Outcome` | src/azure_client.c:566-605 | A single request succeeds exactly for an HTTP answer below 400, acknowledged or not. |
| `AzureErrors.OkMeansEffectIff` | src/azure_client.c:566-705 | OK means that the request took effect, whatever the network did with it, if and only if the deciding answer is no 1xx or 3xx. |
| `AzureErrors.NotModifiedIsOk` | src/azure_client.c:566-605 | With 304 the first attempt is final and OK although nothing may have been done. |
| `AzureErrors.Decisive` | src/azure_client.c:629-705 | Every attempt before the decisive one is retryable, and the decisive one is not unless it is the last. |
| `AzureErrors.TotalPause` | src/azure_client.c:629-705 | The whole loop pauses at most 150 s, and at most 17995 ms without Retry-After. |
| `AzureErrors.PauseBoundsAreReached` | src/azure_error.c:185-216 | Both bounds are attained. |
| `BlobServer.MockBlob.ValidateLeaseId` | test/mock_azure_ops.c:202-219 | Admits a request exactly as the reference server does; an expired lease is cleared by the first request that notices it. |
| `BlobServer.MockBlob.PageBlobWrite` | test/mock_azure_ops.c:359-412 | State and answer are those of the reference server's write, with Azure's zeros in a gap. |
| `BlobServer.MockBlob.PageBlobResize` | test/mock_azure_ops.c:460-492 | Likewise for resize, with Azure's zeros when growing. |
| `BlobServer.MockBlob.GetProperties` | test/mock_azure_ops.c:611-648 | Likewise for HEAD. |
| `BlobServer.MockBlob.LeaseAcquire` | test/mock_azure_ops.c:686-729 | A lease is granted exactly if nobody holds a live one, and then it is live at once; state and answer are those of the reference server. |
| `BlobServer.MockBlob.LeaseRenew` | test/mock_azure_ops.c:731-764 | Likewise for renewal. |
| `BlobServer.MockBlob.LeaseRelease` | test/mock_azure_ops.c:766-800 | Likewise for release. |
| `BlobServer.Fencing` | test/mock_azure_ops.c:188-219 | In any continuation of any run, a lease that expired, was released or was replaced never again lets a request succeed or change the blob. |
| `BlobServer.WaysToDie` | test/mock_azure_ops.c:686-800 | Release, a later grant, and expiry each make a lease dead in that sense. |
| `BlobServer.LiveExcludes` | test/mock_azure_ops.c:202-219 | While a lease is live nobody else is granted one and nobody else changes the blob. |
| `BlobServer.Exclusion` | test/mock_azure_ops.c:359-800 | If a lease granted at one request still works at a later one, no other lease was granted in between and every change of the blob was made under it. |
| `BlobServer.AcquireIff` | test/mock_azure_ops.c:686-729 | Acquisition succeeds if and only if nobody holds a live lease; the new ID is larger than all issued before and live unless no time was asked for; a refusal changes nothing. |
| `BlobServer.LivesFor` | test/mock_azure_ops.c:188-200 | A granted lease is live for exactly its duration. |
| `BlobServer.AbandonedLeaseIsFree` | test/mock_azure_ops.c:686-729 | In every run: once the duration of the lease on record has passed without renewal or another grant, the next acquisition succeeds. |
| `BlobServer.RenewIff` | test/mock_azure_ops.c:731-764 | Renewal succeeds if and only if the lease is live, and then it lives for its whole duration again; the error tells expiry from a foreign ID. |
| `BlobServer.ReleaseIff` | test/mock_azure_ops.c:766-800 | Release succeeds if and only if the lease is live, and then nobody holds one. |
| `BlobServer.WriteIff` | test/mock_azure_ops.c:359-412 | A write succeeds if and only if it is aligned and carries the live lease, or none where there is none; then exactly its bytes change and the ETag is new; otherwise nothing changes and the error names the reason. |
| `BlobServer.ResizeIff` | test/mock_azure_ops.c:460-492 | Likewise a resize, which cuts the blob or adds zeros. |
| `BlobServer.HeadClears` | test/mock_azure_ops.c:611-648 | HEAD is always answered, clears an expired lease and changes nothing else. |
| `LockSafety.Undisturbed` | src/sqlite_objs_vfs.c:2300-2523 | Whatever request another party sends, a client's invariant survives: nobody can revive its lost lease or change the blob while its lease is on record. |
| `LockSafety.ActKeeps` | src/sqlite_objs_vfs.c:1536-2523 | Every step of a client keeps its own invariant. |
| `LockSafety.RunInv` | src/sqlite_objs_vfs.c:1536-2523 | The invariant holds in every reachable state, for any number of clients, any interleaving at request granularity, renewals during syncs, foreign requests, lost answers and lease expiry between any two steps. |
| `LockSafety.AtMostOneLive` | src/sqlite_objs_vfs.c:2411-2488 | At most one client's lease is alive at any time. |
| `LockSafety.ReadsStaySeen` | src/sqlite_objs_vfs.c:2300-2321 | What SQLite read since SHARED stays what the cache holds until the client relocks, writes or truncates. |
| `LockSafety.GrantMatchesView` | src/sqlite_objs_vfs.c:2338-2403 | When RESERVED is granted on a trusted cache, every byte SQLite has seen, outside pages the client itself left dirty, is the blob's byte at that moment. |
| `LockSafety.SnapshotStability` | src/sqlite_objs_vfs.c:2338-2403 | Hence a byte read earlier in the same SHARED period, outside pages left dirty, equals the blob at the grant, even when the download that filled the cache interleaved with other writers. |
| `LockSafety.SnapshotIsBlob` | src/sqlite_objs_vfs.c:2300-2403 | With an empty dirty set at xLock(SHARED), every byte read since equals the blob at the grant. |
| `LockSafety.ReserveEnds` | src/sqlite_objs_vfs.c:2411-2488 | Every step that ends an xLock at RESERVED grants it or leaves lock level and file as they were with no lease ID kept, including a refresh under the lease that fails; which of the two it is says LockProgress.ReserveOutcome. |
| `LockSafety.OwnMutation` | src/sqlite_objs_vfs.c:1900-2130 | A write under the client's lease succeeds only while the blob is still the client's own last version. |
| `LockSafety.NoLostUpdate` | src/sqlite_objs_vfs.c:1879-2523 | When a sync with ranges to write returns OK to a trusted client, RESERVED was granted at an earlier step under the same lease; at that step the clean cache was the blob, every version up to the sync's last write is the client's own, that write left exactly the client's file, and this still is the blob if the server has the lease on record. |
| `LockConditions.LateExpiry` | src/sqlite_objs_vfs.c:2046-2161 | A run in which xSync returns OK although the lease ran out after the last write and another party has overwritten it. |
| `LockConditions.DirtyByteIsGranted` | src/sqlite_objs_vfs.c:2300-2403 | Every trusted client with a current ETag and a cached byte that differs from the blob, which is then on a page it left dirty, is granted RESERVED after reading that byte. |
| `LockConditions.ViewSafeIff` | src/sqlite_objs_vfs.c:2300-2403 | Grants are never over such a byte, whatever the blob holds, if and only if the client left no byte below EOF dirty, zeros beyond the synced size excepted. |
| `LockConditions.AbandonedWritesAreSeen` | src/sqlite_objs_vfs.c:1892-1894 | A transaction whose sync fails at its first renewal gets there: unlocking, it is granted SHARED and RESERVED over its own unsaved bytes. |
| `LockConditions.CreatorGrant` | src/sqlite_objs_vfs.c:2338-2344 | Every client without an ETag is granted RESERVED unchecked; the cache agrees with the blob if the server still has the version the client created or last produced. |
| `LockConditions.CreatorSafeIff` | src/sqlite_objs_vfs.c:3355-3410 | Whatever other parties wrote, that cache agrees with the blob if and only if the server still has that version. |
| `LockConditions.CreatorLocksBlindly` | src/sqlite_objs_vfs.c:2338-2344 | A run in which the creator is granted RESERVED over a cache that disagrees with the blob. |
| `LockConditions.UnansweredTruncateDiverges` | src/sqlite_objs_vfs.c:1646-1664 | Every truncation that took effect without being answered leaves the client under its lease with clean bytes that the blob no longer has. |
| `LockConditions.FailedRefreshServesStale` | src/sqlite_objs_vfs.c:2185-2238 | For every client that must refresh: if the download fails, the next xLock grants SHARED over the old bytes, because the new ETag was stored first. |
| `LockConditions.FailedRenewalServesUnsaved` | src/sqlite_objs_vfs.c:1592-1606 | For every client with a current ETag that writes a new value to a clean byte: if the lease renewal on the way fails, SHARED is granted after unlocking over bytes that differ from the blob and are on no dirty page. |
| `LockProgress.ReserveOutcome` | src/sqlite_objs_vfs.c:2338-2488 | With the requests answered and no live lease elsewhere, xLock at RESERVED ends granted over the current blob if the ETag was current or nothing had been read since SHARED, after a refresh in the second case; it ends refused, without a lease on either side, if something had been read from an older version. |
| `LockProgress.ReserveFinishes` | src/sqlite_objs_vfs.c:2338-2488 | And it does end. |
| `LockProgress.SharedOutcome` | src/sqlite_objs_vfs.c:2300-2321 | xOpen, and xLock(SHARED) whenever the stored ETag is not the blob's, end with the current blob downloaded; otherwise the file stays. Either way nothing counts as read. |
| `LockProgress.SharedFinishes` | src/sqlite_objs_vfs.c:2300-2321 | And they do end. |
| `LockProgress.ReadOutcome` | src/sqlite_objs_vfs.c:1446-1529 | xRead reports the file's byte, counts the read and changes nothing else. |
| `LockProgress.WriteOutcome` | src/sqlite_objs_vfs.c:1536-1608 | xWrite under a live lease splices the bytes into the file, marks their pages, renews when due and leaves the blob alone. |
| `LockProgress.TruncateOutcome` | src/sqlite_objs_vfs.c:1617-1681 | xTruncate under a live lease cuts file and blob to the size and changes no byte below it. |
| `LockProgress.RaiseOutcome` | src/sqlite_objs_vfs.c:2411-2488 | xLock from RESERVED upwards reaches its target and changes nothing else. |
| `LockProgress.UnlockOutcome` | src/sqlite_objs_vfs.c:2490-2523 | xUnlock reaches its level, keeps file, ETag and blob, and frees the lease. |
| `LockProgress.SyncOutcome` | src/sqlite_objs_vfs.c:1879-2161 | xSync of a sound transaction ends with the blob equal to the file, padded to a sector, nothing dirty and an ETag stored that this sync produced, however its requests are ordered and repeated. |
| `LockProgress.SyncFinishes` | src/sqlite_objs_vfs.c:1879-2161 | And it does end. |
| `LockProgress.FailureOutcome` | src/sqlite_objs_vfs.c:1536-2488 | What a refused or unanswered request leaves, for every client: lock, lease ID, ETag and file as they were, but for the stored and unmarked bytes of a write; a failed resize or renewal ends the sync; a refused request leaves the blob alone. |
| `Chunks.CutIsPartition` | src/azure_client.c:2387-2394 | Cutting a size into equal chunks gives non-empty, adjacent pieces that cover it exactly, whatever the size. |
| `Chunks.WholeChunks` | src/azure_client.c:2387-2394 | Every piece but the last is a whole chunk, at its multiple. |
| `ParallelRead.AtMostSixteen` | src/azure_client.c:2387-2394 | For every size the layout is a partition into at most 16 chunks. |
| `ParallelRead.NoSmallerChunk` | src/azure_client.c:2387-2394 | No smaller whole number of sectors would give at most 16 chunks. |
| `ParallelRead.WriteCallback` | src/azure_client.c:2204-2215 | Copies a fragment behind what was received and never writes outside the chunk. |
| `ParallelRead.RunRound` | src/azure_client.c:2424-2560 | After any interleaving of fragments of all responses, error bodies included, finished chunks hold the blob and only chunks that were pending and received something have changed. |
| `ParallelRead.ReadChunks` | src/azure_client.c:2387-2615 | OK exactly when every chunk was acknowledged in some round, and then the buffer is the blob; at most four rounds, of which three may fail in a passing way; the error is that of the earliest failed request of the last round; bytes outside touched chunks never change. |
| `ParallelRead.ReadMulti` | src/azure_client.c:2360-2615 | Refines one GET for every size: OK means the buffer is the blob's prefix unless a 1xx or 3xx answer decided the GET of a small blob, and bytes behind it are never touched. |
| `BlockUpload.RawLength` | src/azure_client.c:984-990 | The raw block ID has ten characters exactly for chunk numbers below 10000. |
| `BlockUpload.BlockIdsDistinct` | src/azure_client.c:984-990 | The encoded IDs of all chunks are pairwise distinct, and 16 symbols long below 10000. |
| `BlockUpload.Base64Injective` | src/azure_client.c:984-990 | Base64 of byte strings is injective across all lengths. |
| `BlockUpload.Base64Groups` | src/azure_client.c:984-990 | Three bytes, read as one number, are the four symbols of their group read as one. |
| `BlockUpload.RawIdText` | src/azure_client.c:984-990 | The raw ID is the text block- followed by the chunk number in decimal, with at least four digits. |
| `BlockUpload.CommitIsPrefix` | src/azure_client.c:1121-1149 | Committing the listed blocks in order yields the input. |
| `BlockUpload.StageAll` | src/azure_client.c:1207-1389 | Staging succeeds exactly when every chunk was acknowledged in some round, and then every block holds its slice; three rounds may fail in a passing way; the error is that of the earliest failed request of the last round. |
| `BlockUpload.UploadParallel` | src/azure_client.c:1157-1417 | Whatever fails, the blob is the old one or exactly the input, never a part or a mixture; OK means it is the input unless a 1xx or 3xx answer decided the last request; from 256 KiB on nothing is committed before every block is acknowledged; passing failures do not matter. |
| `LazyCache.FetchKeeps` | src/sqlite_objs_vfs.c:901-962 | Fetching the 16-page window of a page keeps valid pages equal to a full download if no dirty page below EOF lies in the window. |
| `LazyCache.FetchSafeIffWindowClean` | src/sqlite_objs_vfs.c:901-962 | A fetch leaves every dirty byte alone, whatever the blob holds, if and only if no dirty page below EOF lies in its window. |
| `LazyCache.FetchedPages` | src/sqlite_objs_vfs.c:901-962 | A fetch makes 16 pages valid, fewer only at the end of the file. |
| `LazyCache.LazyFile.constructor` | src/sqlite_objs_vfs.c:3160-3232 | The sparse cache with its first 64 KiB mirrors a full download on exactly the pages marked valid. |
| `LazyCache.LazyFile.Fetch` | src/sqlite_objs_vfs.c:901-962 | One window is downloaded and marked, or nothing changes. |
| `LazyCache.LazyFile.FetchMissing` | src/sqlite_objs_vfs.c:1476-1499 | Every page of the read is valid afterwards, or a failed request is reported. |
| `LazyCache.LazyFile.Read` | src/sqlite_objs_vfs.c:1446-1529 | Returns what a full-download cache would return, with the same result code, if the windows of the missing pages hold no dirty page; result codes in any case. |
| `LazyCache.LazyFile.ReadSequence` | src/sqlite_objs_vfs.c:1446-1529 | So does every sequence of reads that starts without a dirty page in the window of an invalid one. |
| `LazyCache.LazyFile.Write` | src/sqlite_objs_vfs.c:1561-1608 | A write at any offset and of any length makes its pages dirty and valid together, and keeps the mirror if every byte it marks without storing was valid. |
| `LazyCache.WriteSafeIffCovered` | src/sqlite_objs_vfs.c:1561-1608 | A write keeps the mirror, whatever the blob holds, if and only if every byte below EOF that it marks valid without storing it lies on a valid page. |
| `LazyCache.RunMirrors` | src/sqlite_objs_vfs.c:901-1609 | In every run of misses, prefetches, writes and syncs whose fetches and writes satisfy those conditions, dirty pages are valid and valid pages are what a full download would hold. |
| `LazyCache.RunReads` | src/sqlite_objs_vfs.c:1446-1529 | In every such run a read whose pages are valid returns the full-download cache's bytes. |
| `LazyCache.LazyFile.Prefetch` | src/sqlite_objs_vfs.c:971-1039 | On success every page is valid, each formerly invalid page was requested exactly once, in order, and dirty pages keep their bytes. |
| `IncrementalDiff.PatchCache` | src/sqlite_objs_vfs.c:1084-1156 | The patched cache is the resized snapshot with the listed ranges taken from the blob. |
| `IncrementalDiff.PatchIsDownloadIffComplete` | src/sqlite_objs_vfs.c:1053-1183 | Patching equals downloading everything if and only if the listed ranges cover every difference, whether the blob grew, shrank or kept its size. |
| `MainDbFile.DbFile.ApplyIncrementalDiff` | src/sqlite_objs_vfs.c:1053-1183 | Success leaves the file as a full download would if and only if the listed ranges cover every difference; failure leaves size and dirty set alone. |
| `StateFile.ReadAfterWrite` | src/sqlite_objs_vfs.c:721-742 | Reading a little-endian number gives back what was written. |
| `StateFile.WriteAfterRead` | src/sqlite_objs_vfs.c:721-742 | Writing what was read gives back the bytes. |
| `StateFile.WriteLE` | src/sqlite_objs_vfs.c:721-735 | Stores the bytes of the number in place and nothing else. |
| `StateFile.ReadLE` | src/sqlite_objs_vfs.c:728-742 | Computes the little-endian value. |
| `StateFile.WriteStateFile` | src/sqlite_objs_vfs.c:749-783 | The file image is header, bitmap and checksum; an empty bitmap is refused. |
| `StateFile.FileLayout` | src/sqlite_objs_vfs.c:749-783 | Every written file, byte by byte: SQOS, version 1, page size, file size, bitmap length, the bitmap and the checksum of all before it, numbers least significant byte first. |
| `StateFile.ReadHeader` | src/sqlite_objs_vfs.c:835-853 | Accepts exactly the headers of records within the reader's limits and yields their fields. |
| `StateFile.ReadStateFile` | src/sqlite_objs_vfs.c:824-885 | Answers with a record exactly when the file starts with that record's image and the record is within the reader's limits. |
| `StateFile.OneImage` | src/sqlite_objs_vfs.c:749-885 | No file starts with the images of two different records. |
| `StateFile.ReadableIffLegal` | src/sqlite_objs_vfs.c:749-885 | A written file, with anything appended, is readable if and only if its page size is legal and its bitmap has 1 byte to 1 MiB, and then as the same record. |
| `Journal.JournalFile.Ensure` | src/sqlite_objs_vfs.c:1189-1204 | Doubling from 64 KiB succeeds exactly for sizes up to 2^62; contents stay. |
| `Journal.JournalFile.Write` | src/sqlite_objs_vfs.c:1551-1559 | The journal is the old one with the bytes spliced in, gaps zero. |
| `Journal.JournalFile.Truncate` | src/sqlite_objs_vfs.c:1635-1644 | Shrinks exactly; later growth reads zeros. |
| `Journal.JournalFile.Read` | src/sqlite_objs_vfs.c:1424-1438 | Each byte is the contents' byte at that offset, or zero past the end; OK exactly if the read starts inside and nothing lies past the end, a short read otherwise. |
| `Journal.JournalFile.Sync` | src/sqlite_objs_vfs.c:1832-1877 | The uploaded blob is the contents exactly when the upload was stored; an empty journal uploads nothing. |
| `Journal.JournalFile.Reopen` | src/sqlite_objs_vfs.c:3445-3466 | Reopening after a crash gives back the uploaded contents if and only if the download is answered or there is nothing to give; an unanswered download opens an empty journal with OK. |
| `Journal.JournalFile.Replay` | src/sqlite_objs_vfs.c:1424-1877 | Every sequence of writes, truncations, reads and syncs, failed ones included, behaves as on a zero-filled byte sequence: contents, upload, and bytes and result code of every read. |
| `JournalCache.VfsData.Find` | src/sqlite_objs_vfs.c:288-296 | The entry with the name, or none. |
| `JournalCache.VfsData.GetOrCreate` | src/sqlite_objs_vfs.c:300-311 | Fails exactly when the name is new and the cache is full or the name too long; entries stay distinct and true. |
| `JournalCache.VfsData.Open` | src/sqlite_objs_vfs.c:3422-3443 | Asks the service unless the blob is recorded as absent; reports true existence when the HEAD is answered or not needed, and records it if there is room; after an unanswered HEAD the cache stays true if and only if the blob is absent or was not recorded. |
| `JournalCache.VfsData.Upload` | src/sqlite_objs_vfs.c:1866-1874 | Success is recorded if there is room; the cache is true afterwards if and only if the answer was, or the cache does not record the opposite of the truth. |
| `JournalCache.VfsData.Delete` | src/sqlite_objs_vfs.c:3556-3596 | A missing blob is success and is recorded; the cache is true afterwards if and only if the answer was, or the cache does not record the opposite of the truth. |
| `JournalCache.VfsData.Access` | src/sqlite_objs_vfs.c:3606-3674 | Asks the service exactly when the state is unknown; otherwise answers the truth without a request; the answer for a name ending in -journal is recorded, and nothing else. |
| `JournalCache.VfsData.Replay` | src/sqlite_objs_vfs.c:3556-3674 | For every sequence of operations on any number of journals whose answers are true, failed requests and missing blobs included, each existence query gets the true answer. |
| `LeaseTiming.AlwaysHeldIff` | src/sqlite_objs_vfs.c:1227-1246 | The lease survives every schedule of renewal checks if and only if the gap between checks plus the delay of the grant is at most the second half of its duration. |
| `LeaseTiming.CheckIsRenew` | src/sqlite_objs_vfs.c:1227-1246 | A check is the server's renewal: it succeeds while the lease is alive and restarts its clock. |
| `LeaseTiming.HalfDurationChecks` | src/sqlite_objs_vfs.c:2434-2437 | For both lease durations xLock asks for, checks less than half a duration apart keep the lease, also when the grant took a second. |
| `LeaseTiming.Duration` | src/sqlite_objs_vfs.c:2434-2437 | 60 s exactly if the last sync wrote more than 100 pages, 30 s otherwise. |
| `PercentEncoding.DecodeInverts` | src/azure_client.c:245-268 | Decoding inverts encoding for every byte string. |
| `PercentEncoding.EncodedAlphabet` | rust/sqlite-objs/src/lib.rs:488-506 | Encoded text holds nothing but unreserved characters, percent signs and, where allowed, slashes. |
| `PercentEncoding.EncodedBytes` | src/azure_client.c:245-268 | The 66 unreserved characters, and the slash where allowed, stand for themselves; every other byte becomes a percent sign and its two upper-case hexadecimal digits. |
| `PercentEncoding.UriEncode` | src/azure_client.c:245-268 | Fails exactly when the encoded text with its terminator does not fit; otherwise the buffer holds it. |
| `PercentEncoding.PercentEncode` | rust/sqlite-objs/src/lib.rs:488-506 | Computes the encoding without slashes. |
| `PercentEncoding.Build` | rust/sqlite-objs/src/lib.rs:440-477 | The URI is the encoded database name followed by the joined query parameters. |
| `PercentEncoding.UriText` | rust/sqlite-objs/src/lib.rs:440-477 | The text of every built URI, parameter by parameter. |
| `PercentEncoding.SplitQuery` | rust/sqlite-objs/src/lib.rs:440-477 | Splitting a joined query at its separators finds the first value of every key. |
| `PercentEncoding.ReadBack` | rust/sqlite-objs/src/lib.rs:440-477 | Splitting and decoding a built URI as SQLite does recovers every field up to its first zero byte, except an account key hidden by a SAS token. |
| `PercentEncoding.ReadBackIff` | rust/sqlite-objs/src/lib.rs:440-477 | The whole of every field is recovered if and only if none holds a zero byte. |

## Left out

- libcurl, TLS, request signing, mutexes, and the text of URLs, headers and XML bodies.
- SQLite itself: the pager, hot-journal recovery, and its choice of operations beyond the lock levels that reads and writes need.
- Cache reuse across processes: the ETag and snapshot sidecar files, and what a crash between them leaves.
- The CRC-32 table of the `.state` file: the checksum is an arbitrary function of the bytes before it. Writing, syncing and renaming the file are not modelled.
- WAL files, append blobs, lease breaking, blob creation races, blob deletion while open, and soft delete.
- xClose, xCheckReservedLock, xFileControl, metrics, PRAGMAs, timing output and VFS registration.
- Failures of malloc and of the local disk, and overflow of the 32-bit page index.
- Re-detection of the page size from the database header: a file keeps the page size it was opened with.
- If-Match syncs, which happen only without a lease.
- In-flight requests of a client that already gave up waiting for them and arrive later, other than those a retry round describes.
- bitmapSetAll and the valid-bit count it leaves.
- The service's own rules on block IDs (equal lengths, at most 50000 blocks).
- Query parameters repeated or reordered by hand; only URIs made by the builder are read back.
- LockSafety.NoLostUpdate: speaks of syncs that had a range to write; one without leaves the blob alone.
- JournalCache.VfsData.Replay: the answers are true; the single operations state what untrue ones do.
- LeaseTiming.AlwaysHeldIff: whole seconds of one clock shared by client and server, durations of at least 2 s and gaps of at least 1 s.
- MainDbFile.DbFile.Sync: a resize that the client takes for success is assumed to have taken effect, since the ranges that follow lie inside the blob only then.
- BlobServer.MockBlob.PageBlobWrite: a gap reads as zeros, as in Azure; the mock exposes what its buffer held before an earlier shrink.
- BlobServer.MockBlob.PageBlobResize: growth reads as zeros, as in Azure; the mock exposes what its buffer held before an earlier shrink.
- LazyCache.RunMirrors: has no truncation step, and its sync is one that wrote everything.
