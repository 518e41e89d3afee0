# Logday server: the sync log, login sessions, and two guards

Dafny models of the stateful core of the Logday server, with proofs about every run of it.

- **The sync log** (`SyncModel`, `SyncStore`, `SyncInterleaved`, `SyncLog`, `RowClock`, `SyncFeed`, `Convergence`,
  `FanOut`, `FanOutReplica`, `NoteStreams`, `PatchRuns`, `FieldMerge`, `MergeOrder`). Each user has one counter and one
  purge watermark; every accepted write to one of seven tables takes the next number. `SyncModel` gives each transaction
  as a function on the database, `SyncStore` is the store that updates rows and counters in place and is proved to do what
  those functions say, `SyncInterleaved` is the change feed over that store with writes, purges and the deletion of other
  accounts committed between its reads, and the other modules prove what follows over whole runs: the log invariant, the
  row clock, the feed, paging, the client replica, and the merge laws of PATCH.
- **Login sessions** (`SessionModel`, `SessionStore`, `SessionSchedules`, `SessionHandlers`, `SessionInvariant`,
  `SessionGuarantees`, `SessionEffects`, `SessionAnswers`, `SessionProgress`, `SessionRaces`, `SessionWitnesses`). A step machine in which every request makes one database call or
  clock check at a time, every call may fail, and any number of refreshes, logouts, logins, revocations and deletions
  interleave. `SessionStore` holds the tables and their transactions. `SessionHandlers` holds the handlers as loops and
  branches over calls of that store and proves that they take the machine's steps whatever others commit between the calls
  and whichever calls fail, and that the refresh handler's status is right in every reachable run.
- **The last-admin guard** (`Admins`) and **the login limiter** (`LoginLimiter`), each as a class proved against a value
  model, with the property it exists for proved over every sequence of operations.
- **Stored time stamps** (`Rfc3339`, `StampText`). Two SQL statements compare RFC 3339 texts whose trailing fraction zeros
  are dropped; these modules prove what such a text says and exactly when the order of texts is the order of time.

## What the code does that its documentation does not say

- A full resync is documented as always answerable (specs/sync-incremental/design.md:144-146). It is, but the cursor it
  leaves can be rejected at once: when the last number of the page is below the purge watermark, the next pull gets 410
  and the client starts over, for ever if nothing is written. With pages, the walk then never completes
  (`Convergence.ResyncCursorRejected`, `Convergence.ResyncForgetsForever`, `SyncFeed.PagedResyncCompletes`; a four-step
  run that gets there is `Convergence.ResyncForgetsOnARun`).
- The comment on `PurgedBeforeSeq` (internal/db/purge.go:124-127) says that tombstones at or above the watermark were
  purged. The code raises the watermark to the largest purged number, so it is at or below (`SyncLog.CounterCountsWrites`).
- Row-level last-write-wins compares with `updated_at`, which PATCH, delete and content updates set without looking at it
  (the first two to the server's time, the last to the client's), so it can run backwards and let an older POST through
  (`SyncLog.RowClockRunsBackwards`). It does so exactly if such a write is stamped before the row
  (`RowClock.WhenAnOldPostGetsIn`), and over runs the accepted POSTs stay in order if none is (`RowClock.PostsIncrease`).
- A POST leaves the field stamps alone, so a PATCH older than the POST still overwrites every field that has no stamp or an
  older one (`SyncLog.PostLeavesFieldClocks`), and on a row the POST has created all of them (`SyncLog.StalePatchBeatsPost`).
- The feed's seven reads are no snapshot, and what commits between them can lose two things. A row that is there when the
  last table has been read is lost for good exactly if its number was handed out after its own table was read and is at or
  below the answer's last (`FanOut.LostExactly`, in a run `FanOut.NewerEntriesCanBeLost`). A deletion is lost if its
  tombstone is purged before its table is read: the client then keeps the entity for good exactly if the answer's last
  number is not below the raised watermark (`FanOutReplica.PurgedIsKeptExactly`, in a run `FanOutReplica.PurgedEntryIsKept`).
  An answer that loses no row, with the watermark above its last number or not above the old cursor, leaves the client as
  well off as an atomic one (`FanOutReplica.UnbrokenAnswerKeepsConsistent`).
- A transient database error in any of the three lookups of a recently rotated token revokes the device inside the reuse
  leeway (`SessionGuarantees.FailedLookupRevokes`, reached in `SessionWitnesses.RecentRotationIsRevoked`); without such an
  error that is impossible (`SessionGuarantees.NoFalseRevocation`).
- The expiry check deletes the device by id, so it can delete one that another refresh has just given a fresh token
  (`SessionWitnesses.FreshTokenIsDeleted`); while the lifetime setting stays the same it is wrong exactly if the device has
  been rotated since it was read and its last token was issued at most a lifetime ago
  (`SessionGuarantees.ExpiryIsRightUnlessRotated`).
- The comment on `updateUserAdmin` (internal/auth/store.go:414-417) says that the guard never triggers for promotions. The
  code refuses to promote the one active admin, who already is one (`Admins.GuardIsExact`).
- The limiter checks and records in two calls, so parallel attempts can exceed the limit (`LoginLimiter.CheckThenRecordRaces`);
  it holds exactly if every failure is recorded while the attempt is still allowed (`LoginLimiter.LimitHoldsExactlyIfChecked`).
  Widening the window does not bring back failures already dropped (`LoginLimiter.WideningForgets`).

## Model

| member | source | states |
|---|---|---|
| StampText.StampWrittenOut | internal/auth/store.go:783-785 | every stored stamp is the Gregorian date of its day, year in four digits, then the time of day, then a point and the fraction digits if there are any, then Z |
| StampText.SubsecondDigitsExact | internal/auth/store.go:783-785 | the fraction digits are at most nine, do not end in 0, and as a decimal fraction are the reading's nanoseconds |
| StampText.TextOrderExact | internal/db/purge.go:58 | for two clock readings a < b, the stored texts are in order unless both lie in one second and a's nanoseconds are b's cut off at some decimal place, and reversed exactly then |
| Rfc3339.TextOrderWithinASecond | internal/db/purge.go:33 | readings a second or more apart are always ordered by their texts, so text order is never wrong by a second |
| Rfc3339.TextOrderFailsInsideASecond | internal/db/purge.go:58 | a concrete pair inside one second that the text order gets wrong |
| Rfc3339.StampRoundTrip | internal/auth/store.go:783-793 | reading back a stored stamp gives the clock reading that was stored, to the nanosecond, for every four-digit year |
| FieldMerge.FieldTimestamps.Wins | internal/db/fieldts.go:47-53 | a field is won when it has no stamp or an older one; winning records the new stamp and losing changes nothing |
| FieldMerge.MergePatch | internal/task/store.go:195-238 | trying the columns one after the other with `Wins` gives every field set by the patch its new value and stamp exactly if the patch is newer there, and reports a change exactly if some field was won |
| FieldMerge.FieldOutcome | internal/db/fieldts.go:42-53 | after any list of patches a field holds the value and stamp of the first patch with the greatest time that beats the stored stamp, or what it had if there is none |
| FieldMerge.TiesDependOnOrder | internal/db/fieldts.go:48 | two patches that tie on a field leave different values in the two orders: the first to arrive wins |
| MergeOrder.FieldOrderExact | internal/db/fieldts.go:47-53 | a field comes out the same in every order of arrival exactly if the newest patches that beat its stored stamp set the same value |
| MergeOrder.OrderExact | internal/task/store.go:195-238 | the whole row comes out the same in every order exactly if that holds of every field |
| MergeOrder.NoTiesAgree | internal/db/fieldts.go:47-53 | patches without ties meet that condition |
| MergeOrder.MergeIsOrderIndependent | internal/db/fieldts.go:42-53 | so patches without ties on a field leave the same values and stamps in every order |
| FieldMerge.ReplayChangesNothing | internal/task/store.go:195-238 | a patch that was already processed changes nothing when it comes again, whatever patches came before and after it |
| FieldMerge.BatchEqualsParts | internal/task/store.go:195-234 | a patch of several fields equals its single-field parts in any order |
| SyncStore.Store.NextSeq | internal/db/seq.go:13-25 | returns one more than the last number handed out to the user, starting at 1, stores it, and keeps the watermark |
| SyncStore.Store.Upsert | internal/task/store.go:32-99 | a POST creates, replaces and revives, or answers forbidden or conflict and changes nothing, as the model's Post does |
| SyncStore.Store.PatchRow | internal/task/store.go:164-276 | a PATCH merges field by field, takes a number only if a field was won, revives a tombstone, and returns the resulting row; on the month table it creates a missing row |
| SyncStore.Store.SoftDelete | internal/task/store.go:104-141 | a live own row becomes a tombstone stamped with the server's clock; otherwise not found or forbidden and no change |
| SyncStore.Store.ApplyContentUpdate | internal/dailyentry/store.go:31-77 | merged content is stored under a new number with the client's time; a daily entry is created or revived, a note must exist and stays deleted if it was |
| SyncStore.Store.TombstoneWatermarks | internal/db/purge.go:73-105 | per user, the greatest number among the tombstones a purge at this cutoff removes, over all seven tables |
| SyncStore.Store.RaiseWatermarks | internal/db/purge.go:46-53 | each user's watermark becomes the greater of its old value and the one found |
| SyncStore.Store.DeleteTombstones | internal/db/purge.go:55-62 | exactly the tombstones whose text stamp is before the cutoff's are removed from all tables |
| SyncStore.Store.PurgeTombstones | internal/db/purge.go:28-68 | the three loops together are the model's purge |
| SyncStore.Store.DeleteAccountRows | internal/auth/store.go:769-773 | removes the user's rows in every table and the user's counter, and nobody else's |
| SyncStore.AddChanges | internal/sync/store.go:188-204 | appends one change per row, in order, with the row's type, id, number, deletion mark and data |
| SyncStore.SortByNumber | internal/sync/store.go:177 | the same changes in non-decreasing number order |
| SyncInterleaved.CheckCursor | internal/sync/store.go:56-71 | with writes, purges and deletions of other accounts between the watermark read and the counter read, the cursor is rejected exactly if it is above 0 and below the watermark as first read, or above the counter as last read |
| SyncInterleaved.FanOutAndSort | internal/sync/store.go:73-177 | with any of these committed before each of the seven table reads, the sorted list is the one increasing arrangement of what those reads saw, and the store ends as those steps leave it |
| SyncInterleaved.ChangesSince | internal/sync/store.go:55-182 | the whole answer under such interference: 410 exactly if the cursor is above 0 and below the watermark or above the counter, as read, else the arrangement cut to the limit, which is the answer the client of `FanOutReplica` gets |
| SyncInterleaved.QuietAnswerIsTheFeed | internal/sync/store.go:73-177 | with nothing in between, that arrangement is the feed of the one state all reads see |
| SyncInterleaved.QuietChangesSince | internal/sync/store.go:55-182 | with nothing in between, the answer is that of one atomic read, 410 exactly for a cursor above 0 and below the watermark or above the counter, and nothing changes |
| SyncLog.WriteKeepsLog | internal/task/store.go:48-64 | a POST, PATCH, delete or content update keeps the numbers of a user's rows distinct and between 1 and the counter |
| SyncLog.PurgeKeepsLog | internal/db/purge.go:41-62 | a purge keeps the log invariant, watermark within the counter included |
| SyncLog.LogHoldsOnEveryRun | internal/db/seq.go:13-25 | the log invariant holds after every run of writes, purges and account deletions |
| SyncLog.CounterCountsWrites | internal/db/seq.go:13-25 | over every run the counter is the number of accepted writes, so refused and stale writes take none, and the watermark is the greatest number of a purged tombstone, or 0 if there is none |
| SyncLog.PurgeRaisesWatermark | internal/db/purge.go:46-53 | a purge lifts a watermark to the greatest number it purges and never lowers it; the counter stays |
| SyncLog.PurgeExactly | internal/db/purge.go:55-62 | which tombstones a purge removes, in numbers: those of an earlier second than the cutoff's, and of the same second the earlier ones whose nanoseconds are not the cutoff's cut off at a decimal place and the later ones of whose nanoseconds the cutoff's are such a cut; survivors are untouched |
| SyncLog.PurgeIsExactToASecond | internal/db/purge.go:33 | nothing younger than the retention less a second is purged and nothing older than the retention plus a second survives |
| SyncLog.PostStores | internal/note/store.go:132-147 | an accepted POST leaves a live row with its columns and time, the next number, and the field stamps and content there were, if any |
| SyncLog.EditStores | internal/task/store.go:195-276 | an accepted PATCH leaves a live row with the server's time, the next number and the old content; each field it sets that had no stamp or an older one has its value and time, every other field and stamp is as before; a missing month starts with two empty columns |
| SyncLog.DeleteStores | internal/task/store.go:104-141 | an accepted delete finds a live row and changes its deletion mark, clock and number only |
| SyncLog.ContentStores | internal/dailyentry/store.go:31-77 | an accepted content update leaves the merged content under the client's time and the next number, with columns and field stamps as before; a note keeps its deletion mark, a daily entry is created or brought back |
| SyncLog.AcceptedWriteMeans | internal/note/store.go:142-147 | what clients see of an accepted write: its entity as the row it leaves shows it, or nothing if that is a tombstone, and every other entity, of any user, as before |
| SyncLog.AcceptedTakesTheNumber | internal/db/seq.go:13-25 | the number in an answer is the row's new number and the user's counter, above every other number of the user; other rows, watermarks and other users' counters stay |
| SyncLog.WritesToAnothersEntity | internal/task/store.go:41-50 | an entity of another user can be written by its owner only, except that months and daily entries are one per user, and then the other user sees nothing of it |
| SyncLog.PatchCreatesMonth | internal/overtime/store.go:391-420 | a PATCH of a missing month is accepted and creates it with two empty columns under what the PATCH sets |
| SyncLog.AccountDeletionMeans | internal/auth/store.go:769-773 | the deletion of an account takes exactly the user's rows and counter |
| SyncLog.RefusedWriteMeans | internal/task/store.go:41-58 | when each answer is given (not found, forbidden, conflict, unchanged, bad update), both ways and in terms of the stored row alone, and that every answer but acceptance changes nothing |
| SyncLog.RowClockRunsBackwards | internal/note/store.go:142-147 | a run in which an older POST is accepted after a newer one, because of a content update |
| RowClock.ClockRunsBackwards | internal/task/store.go:130-133 | the row's clock falls exactly for an accepted PATCH, delete or content update stamped before it, never for a POST |
| RowClock.WhenAnOldPostGetsIn | internal/task/store.go:51-57 | after an accepted write, a POST no newer than the row was before it is accepted for some time exactly if the write was no POST and was stamped before the row; the accepted times are those after the stamp |
| RowClock.PostsIncrease | internal/task/store.go:51-57 | over every run in which no accepted PATCH, delete or content update of an entity is stamped before its row, the accepted POSTs since the row was created are strictly ordered in time |
| RowClock.NextPostIsNewer | internal/task/store.go:51-57 | in every run whose POSTs are in order so far, every further POST keeps them so exactly if the row's clock has not fallen below the newest |
| SyncLog.PatchUndoesDelete | internal/task/store.go:130-133 | a delete keeps what a later PATCH brings back: the revived entity shows the columns, content and field stamps it would have had without the delete |
| SyncLog.PostLeavesFieldClocks | internal/task/store.go:71-87 | after any accepted POST, creating or replacing, a PATCH wins a field exactly if it would have won it before; so it overwrites the POST's value exactly where the field has no stamp or an older one, whatever the POST's time |
| SyncLog.StalePatchBeatsPost | internal/task/store.go:71-87 | in particular, on an entity a POST has just created every later PATCH wins all its fields |
| SyncFeed.FeedSound | internal/task/store.go:307-329 | every entry of the feed reports one of the user's rows in the number range |
| SyncFeed.FeedComplete | internal/task/store.go:307-329 | every row of the user in the number range is reported |
| SyncFeed.FeedIsUnique | internal/sync/store.go:174-177 | with distinct numbers, any increasing arrangement of the reported rows is the feed, so an unstable sort cannot change the answer |
| SyncFeed.PageHoldsTheLowest | internal/sync/store.go:178-180 | a limited answer contains a row exactly if the whole feed fits or the row's number is at most the last one sent |
| SyncFeed.RestOfFeed | internal/sync/store.go:177-181 | what follows a page is exactly the feed from the page's last number on |
| SyncFeed.WalkIsTheFeed | internal/sync/store.go:56-71 | from an accepted cursor, following last numbers with pages of n yields the unlimited answer, without gaps or duplicates, in k / n + 1 requests for k changes |
| SyncFeed.PagedResyncCompletes | internal/sync/store.go:56-71 | a paged walk from 0 completes exactly if the first page is short or ends at or above the watermark, and then yields the whole feed |
| Convergence.WriteKeepsConsistent | internal/sync/store.go:55-182 | a write by anyone leaves every entity either reflected by the replica, still to be reported above its cursor, or behind a cursor that will be rejected |
| Convergence.PurgeKeepsConsistent | internal/db/purge.go:28-68 | so does a purge |
| Convergence.PurgeIsNoticed | internal/db/purge.go:46-53 | a replica that still holds an entity whose tombstone is purged has a cursor below the new watermark |
| Convergence.PullKeepsConsistent | internal/sync/store.go:55-182 | so does a pull of any page size, a rejected one included |
| Convergence.CompletePullMirrors | internal/sync/store.go:55-182 | after an answer that was not cut short the copy is exactly the user's live rows |
| Convergence.ReplicaConverges | internal/sync/store.go:55-182 | the same after every run that interleaves writes of all kinds by all users, purges, deletions of other accounts and atomic pulls of any size |
| Convergence.SyncAlwaysConverges | internal/sync/store.go:55-71 | from any point of any such run, one unlimited atomic pull, repeated from 0 after a rejection, makes the copy exact |
| Convergence.SyncRecoversFromAnywhere | internal/sync/store.go:56-71 | whatever a client holds and wherever its cursor comes from, a cursor above the counter, or above 0 and below the watermark, is answered with 410, and one sync then makes the copy exact |
| Convergence.DeletedAccountEmptiesTheCopy | internal/auth/store.go:761-781 | when the account is deleted at the end of any such run and its user writes no more, the next pull leaves an empty copy, which is then exact, and is rejected unless the client's cursor was 0 |
| Convergence.ResyncCursorRejected | internal/sync/store.go:56-63 | the cursor left by a resync from 0 is rejected exactly if the page's last number is below the watermark |
| Convergence.ResyncForgetsForever | internal/sync/store.go:56-63 | on a quiet server the client then alternates between that page and an empty copy for any number of pulls |
| Convergence.ResyncForgetsOnARun | internal/sync/store.go:56-63 | two creations, a delete and a purge lead there, and a walk with pages of one never completes |
| FanOut.OldIsReportedOrPurged | internal/sync/store.go:73-177 | with writes, purges and deletions of other accounts between the seven table reads, every row above the cursor at the first read is in the answer, at that number or a newer one, unless it has been purged before its own table was read |
| FanOut.NothingOldIsMissed | internal/sync/store.go:73-177 | with only writes in between, every such row is in the answer |
| FanOut.NumbersStayDistinct | internal/sync/store.go:73-177 | the entries gathered by seven separate reads have distinct numbers |
| FanOut.ReportedExactly | internal/sync/store.go:73-177 | a row as it is when the last table has been read is in the answer exactly if its number had been handed out before its own table was read |
| FanOut.CutArrangement | internal/sync/store.go:177-181 | the list cut to a limit holds every gathered change up to its last number |
| FanOut.LostExactly | internal/sync/store.go:73-181 | for an answer cut to any limit and a row that is there when the last table has been read: it is neither in the answer nor above its last number, and so lost for good, exactly if its number was handed out after its own table was read and is at or below that last number |
| FanOutReplica.UnbrokenAnswerKeepsConsistent | internal/sync/store.go:73-181 | with writes, purges and deletions of other accounts between the reads, a client that absorbs an answer cut to any limit is as well off as after an atomic pull, if no row at or below the last number is lost and the watermark is above that number or not above the old cursor |
| FanOutReplica.CutAnswerKeepsConsistent | internal/sync/store.go:177-181 | in particular the first changes, up to any limit, of all that the reads have seen |
| FanOutReplica.EarlyAnswerKeepsConsistent | internal/sync/store.go:73-181 | with only writes in between, that is so for every answer that ends at or below the counter of the first table read |
| FanOutReplica.KeptForGoodExactly | internal/sync/store.go:56-71 | on a quiet server an entity that the client holds and the server has no row for is in the copy after any number of pulls exactly if the cursor is not below the watermark |
| FanOutReplica.PurgedIsKeptExactly | internal/sync/store.go:57-77 | so after an interleaved answer the client keeps a purged entity for good exactly if the last number of that answer is not below the watermark the purges have raised |
| FanOutReplica.PurgedEntryIsKept | internal/sync/store.go:57-77 | a run that gets there: a deleted task is purged, and a note created, between the cursor check and the first table read; no row is lost, and the client keeps the task for ever |
| FanOutReplica.UnbrokenRunIsConsistent | internal/sync/store.go:55-182 | the replica relation holds after every run whose pulls, of any size, have writes, purges and deletions of other accounts before each of their reads, if every answer meets that condition |
| FanOutReplica.UnbrokenRunConverges | internal/sync/store.go:55-182 | one undisturbed, accepted and uncut pull after such a run makes the copy exactly the user's live rows |
| FanOut.NewerEntriesCanBeLost | internal/sync/store.go:73-177 | a run in which an entry written during the reads is never sent to the client that pulls again |
| NoteStreams.StreamsAreIndependent | internal/note/store.go:132-147 | any interleaving of PATCHes and content updates on a note leaves the metadata of the PATCHes alone and the content of the updates alone, whatever the merge function is |
| PatchRuns.RunMerges | internal/overtime/store.go:377-453 | a run of PATCH requests on a row, or on a month that the first of them creates, stores what merging the patches in that order gives |
| PatchRuns.RequestsCommute | internal/task/store.go:195-238 | PATCH requests whose newest values agree leave the same columns and field stamps in any order and at any server times, also on a month they create |
| PatchRuns.ReplayTakesNoNumber | internal/task/store.go:236-238 | a replayed PATCH is answered as unchanged, changes no row and takes no number |
| SessionStore.Store.CreateDevice | internal/auth/store.go:127-150 | inserts the device exactly if its user exists and neither its id nor its hash is taken; otherwise it fails and nothing changes |
| SessionStore.LoginNeverClashes | internal/auth/store.go:127-150 | in every reachable state creating the device of a login breaks no foreign, primary or unique key, and is the machine's login step |
| SessionStore.Store.GetDeviceByRefreshTokenHash | internal/auth/store.go:152-157 | the one device that holds the hash, if any |
| SessionStore.Store.RotateRefreshToken | internal/auth/store.go:223-268 | the compare-and-swap, record and prune happen together or not at all: a lost swap exactly if the device is gone or has another hash, a broken key exactly if the old hash is recorded or the new one taken |
| SessionStore.Store.RevokeDeviceForUser | internal/auth/store.go:323-336 | deletes the device only if it is the user's own, leaves every other row, and says whether it did |
| SessionStore.Store.DeleteDevicesOf | internal/auth/store.go:455-457 | exactly the user's devices go |
| SessionStore.Store.DeleteDevice | internal/auth/store.go:314-319 | the one device goes, and every other row stays as it is |
| SessionStore.Store.DeleteUserAccount | internal/auth/store.go:761-781 | the user, exactly the user's devices and the hashes recorded for them go, and nothing else |
| SessionEffects.DeviceAfterStep | internal/auth/store.go:314-336 | in every reachable state and for every step, a device that is there stays there exactly unless the step names it (the deletion a request stands at, its id, its own user's devices or account), with its owner, and with its whole row unless the step swaps its hash, which then is the request's own under a fresh lifetime |
| SessionEffects.DevicesAppearByLogin | internal/auth/store.go:127-150 | a device appears only by a login, as that user's, with the login's hash and the lifetime in force |
| SessionEffects.UserAfterStep | internal/auth/store.go:775-777 | a user goes exactly with the account |
| SessionEffects.RecordsAfterStep | internal/auth/store.go:252-262 | recorded hashes: a rotation adds the one it replaces and drops only stale ones, an account's go with it, and every other step leaves them all |
| SessionAnswers.UntroubledEnds | internal/auth/handlers.go:227-287 | a refresh none of whose calls failed has put its own hash on its device's line, or lost five swaps while the line grew beyond five, or was turned away because its token was never issued, its device is gone, or it was rotated away more than 20 s before |
| SessionSchedules.Resumes | internal/auth/handlers.go:196-300 | between two of its calls a request is left where its own step put it, whatever others do |
| SessionSchedules.OwnStepSparesOtherSessions | internal/auth/handlers.go:196-300 | in every reachable state a step of a refresh, a logout or a cookie login, failed or not, adds no device and leaves every device alone on whose line the presented token does not stand |
| SessionSchedules.UntroubledSoFar | internal/auth/handlers.go:227-287 | what holds of a request without failed calls holds at each of its steps, whatever others commit in between |
| SessionHandlers.Handler.LookUp | internal/auth/handlers.go:227-234 | the lookups by current hash and by recent rotation take the machine's steps to the device's row or to reuse handling, under any interference and any failures |
| SessionHandlers.Handler.Reject | internal/auth/handlers.go:186-190 | so do reuse handling and its 401, to the end of the request; the device that the record names goes, if no call fails, and every other row stays |
| SessionHandlers.Handler.RotateWithRetries | internal/auth/handlers.go:264-287 | so does the loop of at most five swaps, whatever others rotate or delete between its calls; a fifth lost swap is answered with 500, a failed swap with 500, a failed reload with 401 |
| SessionHandlers.Handler.Refresh | internal/auth/handlers.go:196-300 | so does the whole handler: it ends within the request's 16 steps, with the tables its last step leaves. In every reachable run the status is 200 exactly if the request's own hash is on a line, which then held the presented one within 20 s of its arrival; a token reused later, or never issued, gets 401; without failed calls 401 means that the token opens no session and 500 that five others rotated the device; a failed swap or read of the settings, and a fifth lost swap, get 500, every other failed call 401; no other session is touched |
| SessionHandlers.AnswerIsRight | internal/auth/handlers.go:227-239 | in every reachable state an answered refresh has status 200 exactly if its own hash is on a line, of a device whose token it presented within 20 s, and 401 if the presented hash had been rotated away for longer or was never issued |
| SessionHandlers.RefusalFollows | internal/auth/handlers.go:271-287 | in every reachable state, if no call failed, 401 means that the token was never issued, its device is gone or it was rotated away more than 20 s before, and 500 that its device's line grew beyond five tokens or the device is gone |
| SessionHandlers.LastCallDecides | internal/auth/handlers.go:247-287 | a failed swap or read of the settings is answered with 500, every other failed call with 401, and a fifth lost swap with 500 |
| SessionSchedules.UnknownLeavesTablesAlone | internal/auth/handlers.go:235-239 | along every reachable run, no step of a request with a never-issued text changes the tables it meets |
| SessionHandlers.Handler.Logout | internal/auth/session_cookie.go:163-170 | logout takes the request's steps to its end, within three calls; in every reachable run it touches no other session, and if no call failed the token opens nothing afterwards |
| SessionHandlers.Handler.RevokeCookieSessionOnLogin | internal/auth/session_cookie.go:179-188 | and the revocation a login in cookie mode makes, within two; it touches no other session, and if no call failed nobody holds the presented hash afterwards |
| SessionStore.RefreshedIsARun | internal/auth/handlers.go:196-300 | with nobody else acting, the handler is a run of at most eight machine steps with the same tables and the same status |
| SessionStore.LogoutIsARun | internal/auth/session_cookie.go:163-170 | with nobody else acting, logout is a run of at most three machine steps |
| SessionStore.CookieLoginIsARun | internal/auth/session_cookie.go:179-188 | and the revocation a login in cookie mode makes is one of at most two |
| SessionStore.CookieLoginEndsOnlyTheCurrent | internal/auth/session_cookie.go:179-188 | in every reachable state it ends the session exactly if the presented token is its device's current one |
| SessionStore.LoneRefreshIsExact | internal/auth/handlers.go:227-245 | in every reachable state a lone refresh with an issued token answers 200 exactly if its device exists, has not expired, and the token is current or was rotated away at most 20 s ago; otherwise it answers 401 and the device is gone, unless the rotation is older than the record is kept |
| SessionStore.LoneUnknownIsRefused | internal/auth/handlers.go:235-239 | a text that was never issued gets 401 and changes nothing |
| SessionInvariant.StepKeeps | internal/auth/handlers.go:196-300 | every step of every request and every other action, failed calls included, keeps the session invariant and undoes nothing that was settled |
| SessionInvariant.RequestOkStays | internal/auth/handlers.go:227-287 | what a request knows between two of its calls stays true whatever others do meanwhile |
| SessionInvariant.LostMeansOvertaken | internal/auth/handlers.go:264-283 | a swap is lost only to another rotation of the device or to its deletion |
| SessionInvariant.PruningIsExactToASecond | internal/auth/store.go:259-262 | a rotation keeps every record younger than the lifetime plus 24 h and drops every older one, to one second |
| SessionInvariant.RotationRemembers | internal/auth/store.go:252-262 | a rotation records the old hash and its pruning forgets none that must still be known |
| SessionGuarantees.InvOnEveryRun | internal/auth/handlers.go:196-300 | the session invariant holds in every reachable state |
| SessionGuarantees.TokensDoNotFork | internal/auth/store.go:239-250 | in every reachable state a hash stands at one place of one device's line, so it is rotated away at most once |
| SessionGuarantees.LinesEndAtCurrentHash | internal/auth/store.go:239-257 | every line ends at its device's current hash, which no other device has and no record names; every record tells which device rotated the hash away and when |
| SessionGuarantees.RecordingNeverClashes | internal/auth/store.go:252-257 | a swap never hits a unique key |
| SessionGuarantees.CommitMeansEntitled | internal/auth/handlers.go:227-234 | a refresh commits only for a hash of that device that was current when the request arrived or later, or was rotated away at most 20 s before, and it adds its own hash as one link |
| SessionGuarantees.UnknownTokenChangesNothing | internal/auth/handlers.go:235-239 | no step of a request with a never-issued text changes a row, and it never commits |
| SessionGuarantees.NoFalseRevocation | internal/auth/handlers.go:183-190 | reuse handling deletes an existing device only for a hash it rotated away more than 20 s ago, or, after a failed lookup, for one it rotated away at some time |
| SessionGuarantees.ReuseIsCaught | internal/auth/store.go:287-297 | a refresh with a hash rotated away for longer than that is always refused, and if no call failed the device is gone or the record may have been pruned |
| SessionGuarantees.FailedLookupRevokes | internal/auth/handlers.go:227-239 | a failure of any of the three lookups of a recorded hash leads to the deletion of its device, however recent the rotation |
| SessionWitnesses.RecentRotationIsRevoked | internal/auth/handlers.go:227-239 | a reachable state in which that happens to a token rotated in the same instant |
| SessionGuarantees.RotationsAreRemembered | internal/auth/store.go:252-262 | a rotated hash of an existing device is recorded for the shortest lifetime ever in force plus 24 h, to one second, and so throughout the leeway |
| SessionGuarantees.RevocationIsFinal | internal/auth/middleware.go:74-87 | once a device is deleted, no continuation restores it, accepts an access token that names it, or commits a rotation for it |
| SessionGuarantees.ResetEndsEverySession | internal/auth/store.go:524-549 | a password reset or deactivation ends every session of the user for good, and leaves every other row as it was |
| SessionGuarantees.ExpiryFollowsRotation | internal/auth/handlers.go:272 | while the lifetime setting stays the same, in every run a device expires exactly one lifetime after its login or its last rotation |
| SessionGuarantees.LogoutEndsTheSession | internal/auth/session_cookie.go:163-170 | a logout whose calls succeed ends the token's session for good, in every interleaving, unless the rotation is so old that its record may be gone |
| SessionGuarantees.ExpiryIsRightUnlessRotated | internal/auth/handlers.go:241-245 | in every reachable state a device about to be deleted for expiry has expired, unless a rotation has replaced the hash that was read, which is exactly if the device's hash is another; while the lifetime setting stays the same the deletion is wrong exactly if one has, and the device's last token was issued at most a lifetime ago |
| SessionGuarantees.ExpiryDeletesAFreshToken | internal/auth/handlers.go:241-245 | a committed refresh is followed by the deletion of its device if another request stands at that deletion |
| SessionWitnesses.FreshTokenIsDeleted | internal/auth/handlers.go:241-245 | a reachable state in which both happen: the rotation commits with a fresh lifetime, and the device is then deleted |
| SessionProgress.EveryRequestFinishes | internal/auth/handlers.go:271-287 | after 16 successful steps of its own a request has answered, whatever the others do |
| SessionProgress.FiveLossesTakeFiveWinners | internal/auth/handlers.go:270-283 | five lost swaps with the device still there mean that five other requests each committed a rotation of it |
| SessionRaces.RecentIsRecorded | internal/auth/store.go:173-191 | a token rotated away during a race no longer than the leeway is still found by the leeway lookup |
| SessionRaces.FiveRacersAllCommit | internal/auth/handlers.go:264-287 | if at most five requests rotate a device within the leeway, it is neither deleted nor expires, no lifetime in force was shorter than the leeway and no call fails, then every refresh of it that started in that time has committed when it answers, in every interleaving |
| LoginLimiter.FilterInPlace | internal/auth/ratelimit.go:71-81 | filtering into the same backing array keeps exactly the times after the cutoff, in order |
| LoginLimiter.Limiter.Prune | internal/auth/ratelimit.go:71-81 | the key's list loses exactly the times at or before the cutoff; no other key changes |
| LoginLimiter.Limiter.Allow | internal/auth/ratelimit.go:49-54 | answers whether fewer than the maximum kept failures are inside the window |
| LoginLimiter.Limiter.RecordFailure | internal/auth/ratelimit.go:57-62 | the failure is appended to the pruned list; no other key changes |
| LoginLimiter.Limiter.Reset | internal/auth/ratelimit.go:65-69 | the key's failures are forgotten; no other key changes |
| LoginLimiter.LimiterCounts | internal/auth/ratelimit.go:49-81 | the count is that of the full history exactly if no failure lies between this call's cutoff and the latest one any earlier call pruned at |
| LoginLimiter.LimiterRefinesHistory | internal/auth/ratelimit.go:49-81 | with a fixed window and a clock that does not run backwards, the answer is the one the full history would give |
| LoginLimiter.WideningForgets | internal/auth/ratelimit.go:39-46 | after the window is widened the answers can differ |
| LoginLimiter.NoWindowExceedsTheLimit | internal/auth/ratelimit.go:49-62 | if every failure is recorded while the attempt is still allowed, no window between resets holds more than the maximum |
| LoginLimiter.LimitHoldsExactlyIfChecked | internal/auth/ratelimit.go:49-62 | and only then: at no time did any window hold more than the maximum exactly if every failure was recorded while the attempt was allowed |
| LoginLimiter.CheckThenRecordRaces | internal/auth/handlers.go:102-121 | as two steps they let two failures into a window limited to one |
| Admins.UserStore.CreateUser | internal/auth/store.go:45-64 | a user is inserted exactly if neither id nor email is taken, soft-deleted users included |
| Admins.UserStore.LastAdminGuard | internal/auth/store.go:467-501 | not found unless the target is active, last admin if it is the only active admin, else done |
| Admins.UserStore.UpdateUserAdmin | internal/auth/store.go:418-433 | promotes or demotes unless the guard refuses |
| Admins.UserStore.SoftDeleteUser | internal/auth/store.go:439-459 | deactivates unless the guard refuses |
| Admins.UserStore.RestoreUser | internal/auth/store.go:505-518 | reactivates a soft-deleted user, else not found |
| Admins.UserStore.DeleteUserAccount | internal/auth/store.go:761-781 | removes the user unless the guard refuses |
| Admins.UserStore.CreateFirstAdmin | internal/auth/store.go:592-628 | creates an admin only on an instance without active users |
| Admins.GuardIsExact | internal/auth/store.go:467-501 | a guarded operation finds nothing exactly if its target is not active, is refused exactly if its target is the one active admin, and is done for every other active target; otherwise nothing changes; all but a promotion are refused exactly if they would leave no active admin; refusing that promotion loses nothing |
| Admins.UnguardedExactly | internal/auth/store.go:45-64 | an account is created exactly if neither id nor email is taken, set up exactly if nobody is active as well, and restored exactly if it is there and not active |
| Admins.DoneMeans | internal/auth/store.go:418-459 | what each operation leaves when it is done: the admin flag asked for, the target inactive, gone, active again or new with its email, its other columns and every other account as before |
| Admins.AdminIsNeverLost | internal/auth/store.go:592-628 | from any state with an active admin, every sequence of operations keeps one, and every later setup is refused and changes nothing |
| Admins.SetupOpensOnce | internal/auth/store.go:592-628 | setup succeeds exactly on an instance without active users and with the email free, makes that user the one admin, and from then on there is always one |
| Admins.WhatUndoesWhat | internal/auth/store.go:505-518 | restoring undoes a deactivation, and demoting undoes a promotion if there was an active admin |
| Admins.EmailsStayDistinct | internal/auth/store.go:45-64 | no two accounts ever share an email, whatever is created, deleted or restored |

## Left out

- HTTP, JSON, SQL and base64 plumbing, routing, the admin panel's pages, CSP and CORS headers, embedded web files and the WebSocket hub: input, output and notices that carry no data.
- Clocks, settings and fresh ids are parameters. The clock of the session machine does not run backwards, and a request's ids and tokens are fresh by construction.
- Argon2, token signing and random tokens: a hash is named by the login or request its token came from, and a presented token is one the server has handed out or a text it never issued.
- `crdt.ApplyTextUpdate` is an uninterpreted function that may fail; internal/crdt/text.go is not part of this model.
- internal/calendar and internal/absence repeat the shape of internal/task, and the seven stores are one generic store: columns, their SQL types and the replacement of a null tag list by an empty one are not modelled.
- The codec of `field_updated_at` (`ParseFieldTimestamps`, `Encode`) is left out; stamps are kept as clock readings.
- 64-bit overflow of counters and times is not modelled.
- `sort.Slice` is an insertion sort of which only the sort contract is used, and SQL's `GROUP BY` with `MAX` is done row by row.
- Convergence.ReplicaConverges: takes each pull as one atomic step, because with steps of others between the reads it is false (`FanOut.NewerEntriesCanBeLost`, `FanOutReplica.PurgedEntryIsKept`); `FanOutReplica.UnbrokenRunConverges` is the statement without atomic pulls, for runs whose answers meet the condition of `FanOutReplica.UnbrokenAnswerKeepsConsistent`. The client's own account deletion ends the run (`Convergence.DeletedAccountEmptiesTheCopy`).
- Convergence.SyncAlwaysConverges: takes its pulls as atomic steps, for the same reason.
- SyncInterleaved.ChangesSince: lets anything commit between the reads but the deletion of the reading user's own account; so do `CheckCursor` and `FanOutAndSort`.
- The client keeps no unsynced local edits, and restoring the database from a backup is not a step.
- SessionHandlers.Handler.Refresh: takes the tables, the clock and the lifetime at each of its calls as parameters, tied to worlds of the step machine in which others have acted; the other handlers do too.
- SessionStore.Store.DeleteDevicesOf: is the device part of a deactivation or password reset; the user row is in `Admins`.
- A swap's new expiry is computed with the clock of the swap's transaction, a moment later than in the handler; a failed call is one that wrote nothing.
- The device's name, address, user agent and last use, and the limit on devices per user, which is checked before and outside the insert.
- Whether `used_refresh_tokens` loses rows when a device is deleted: the model keeps them, and account deletion removes them as the code does.
- The first admin's creation from environment variables at start-up, password changes and policy acceptance.
- Creating a user with a taken id is answered like a taken email, as any constraint failure is.
- The login limiter's fallback constants for unreadable settings: the window and the maximum are parameters of every call.
