# What DevOps Tools promises, proved

A Dafny model of the parts of DevOps Tools where a mistake is silent: the access
model that several replicas edit at once, the side-by-side comparison of two
files, the login limiter with its shared lockouts, paging through the audit
trail, the cached configuration listing, and the decisions and parsers around
them. `dafny verify dfyconfig.toml` checks all of it.

## How it is laid out

**The replicated access store.** `AccessModel` has the users, roles, lockouts
and the stored document. `Encoding` is the version-3 document with its table of
group names. `Changes` has every change made under `mutate` as a function of the
model it is run on, and what it means for two models to be alike: they differ
only in last-seen times and in how names are spelled. `Effects` says of each change
what is found afterwards under any spelling of a name. `Folds` says what sequences
of changes come to. `Protocol` is N replicas and one versioned document as a state
machine (call, save, conflict, reload, delivery of any stored document in any
order, crash, a save that fails or that lands unheard, an edit from outside, the
document deleted and created anew), for any kind of model and change that respects
likeness; `StoreRuns` says what every run keeps, `Provenance` that what is recorded
is what was asked for and acknowledged, and `Failures` what becomes of changes whose
call failed and of a deleted document. `SecretStore` and `AccessStore` are the code itself, as classes
with fields and loops: every method is proved to do to its fields what `Changes`
says, and `Mutate` is proved to take its replica through the protocol's steps and
no others, whatever the other replicas do between any two requests and whatever
becomes of each request: that is a parameter (`Fate`), and so what the caller is told
is exact. `Calls` says what one call comes to. `Membership` is the bulk change of one role, `Lifecycle`
what becomes of accounts and invitations over a run.

A failed save leaves its change in memory, as in the code. The protocol keeps
these changes as a replica's residue, so the theorems hold with failures, and say
exactly what failures add: `MemoryIsCoherent` by what memory then differs from the
stored document, and `UntoldMaySurfaceIff` which of the failed changes can be stored
later after all. A deleted Secret is not written back by a replica that is up,
although internal/store/secret.go:161-164 says so: internal/store/store.go:455-457
returns the error of the reload (`DeletedIsNotWrittenBack`, `CallOnAbsentFails`).

**The line aligner.** `Lcs` defines the longest common subsequence and proves it
to be one. `LineDiff` is the algorithm with its table and loops, proved equal to
a function; `Alignment` says what that function's rows are worth; `ConfigPair`
compares the page with the server's verdict.

**The login limiter.** `Limiter` is the object and the sign-in around it.
`Lockout` is one account, the records kept of it and up to K attempts in progress,
each of several steps, where setting the lock may take a while or fail; it uses the
same functions of a record as the object does. `LockoutRuns` is about whole runs. The
limit of 4N + K over N replicas is kept if locks never fail and either land at once
or attempts do not overlap; otherwise, for two records or more, it is not, and
`BoundFailsIff` says so exactly. What holds whatever becomes of the lock is 4 + K for
each record.

**The audit trail.** `AuditLog` has entries, scope and order, `Paging` the walk
through windows over any source, `PagingRuns` whole runs of pages, `PodLogs` and
`AuditReader` the sources and the reader's loops, `PodRuns` what a run over pod logs
shows. With the twelve hours that internal/auditlog/auditlog.go:44 gives to pod logs a
run of theirs is one window; several windows occur over Loki, and with a reader built
with a longer horizon, as the repository's own tests do.

**The rest.** `ListingCache` is stale-while-revalidate as a state machine and an
object. `Rbac`, `ConfigPath` and `ImageReference` are the decisions and the parser.
`Text`, `Sorting` and `Prelude` are shared vocabulary.

Where the code does not keep what one would expect, a lemma gives the input or the
run (`SwappedLinesShowNothingSame`, `SaveCanBeOverwritten`, `FailedRidesAlong`,
`LateLockLetsOneMoreThrough`) and
another the exact condition under which it does (`AlignIsLongestIff`,
`InsertionShowsAsInsertion`, `SaveHoldsIffIdle`, `BoundFailsIff`, `UntoldMaySurfaceIff`,
`CompleteUnlessCut`, `OppositeUndoes`, `PrintedIsParsedIff`).

## Model

| member | source | states |
|---|---|---|
| StoreRuns.EveryCallAtMostOnce | internal/store/store.go:437-459 | in every reachable state no call's change is committed twice, not across retries and not by riding along with a later write |
| Provenance.EveryChangeWasAskedFor | internal/store/store.go:437-459 | in every run every change in the committed history is the one asked for by the call whose id it has |
| Provenance.MemoryWasAskedFor | internal/store/store.go:448-453 | so is every change left over or pending in a replica's memory |
| Provenance.AskedOnce | internal/store/store.go:437-440 | no two calls of a run have the same id, so an id says what was asked |
| Provenance.AcknowledgedOnce | internal/store/store.go:437-474 | a call whose save was answered with success has exactly one commit, whose change is the one that call asked for, made on top of the document stored just before it, after any changes of the same replica whose save had failed |
| StoreRuns.AcknowledgedAlone | internal/store/store.go:437-474 | as long as no save failed without landing, that commit holds one change and nothing else |
| Provenance.RecordedIsAcknowledged | internal/store/store.go:448-453 | in every run whose saves are all heard of, the committed calls are exactly those whose save was answered with success, each once; a call that ends in nothing changed is neither |
| Provenance.CommittedHistoryIsAFold | internal/store/store.go:428-459 | between any two stored documents with nothing from outside in between, the later is the earlier with changes made to it in order, each the change some call asked for, and only of calls whose save succeeded if every save was heard of; up to last-seen times and spelling |
| StoreRuns.MemoryIsCoherent | internal/store/store.go:209-247 | between calls memory is the document stored under the version it holds, with the replica's own failed changes on top, and alike to the stored document if the version is current and no save failed |
| StoreRuns.SupersededNeverSaves | internal/store/secret.go:147-167 | once a replica's version is superseded, none of its saves can land until it reads the store again |
| Failures.ConflictingIsNeverStored | internal/store/store.go:451-457 | a call that gives up on the fifth conflict, or because the reload failed, is never stored, whatever happens afterwards |
| Failures.FailedRidesAlong | internal/store/store.go:448-453 | a call whose save failed on a version still stored is stored by the next call of its replica that has something to write, both changes in one commit |
| Failures.UntoldMaySurfaceIff | internal/store/store.go:444-459 | of the calls that end without success being told, by failed save, failed reload, fifth conflict, crash or unheard landing, those that can be in some later history are exactly the landed ones and those whose save failed on a version that was still the stored one |
| Lifecycle.UntoldChangeMaySurfaceIff | internal/store/roles.go:70-78 | the same for the access model, where saving a role always has something to write |
| Failures.DeletedIsNotWrittenBack | internal/store/secret.go:144-165 | while there is no document no step but the start of a replica or an edit from outside stores one, and the one a start stores is empty |
| Failures.CallOnAbsentFails | internal/store/store.go:451-457 | a call with something to write while there is no document can only conflict and then fail to reload |
| StoreRuns.DeliveryConverges | internal/store/store.go:254-274 | delivering the last stored document to an idle replica leaves it with that document, even when it is skipped as the replica's own write |
| Protocol.StepKeepsInv | internal/store/store.go:437-474 | every step of the protocol keeps the invariant of history, versions, acknowledgements and every replica's memory |
| Folds.FoldAlike | internal/store/store.go:358-372 | alike models stay alike under any sequence of changes |
| Changes.ApplyAlike | internal/store/store.go:332-374 | a change ends the same way on alike models and leaves them alike, so erased details never decide anything |
| Changes.UnwrittenIsAlike | internal/store/store.go:366-372 | a change that reports nothing to write, or is refused, has altered nothing but last-seen times and spelling |
| Changes.AccessIsLawful | internal/store/store.go:332-374 | the access model and its changes meet everything the protocol asks of a kind of model, so all that is proved of its runs holds of them |
| SecretStore.MeanwhileGrows | internal/store/secret.go:147-170 | after any steps whatever of others between two requests, this replica is where it was and the history has only grown |
| SecretStore.SecretBackend.Save | internal/store/secret.go:114-170 | of any request, by whether it gets through and is answered: it is a success exactly if the version it is based on is the stored one (none, for a create) and it is answered, a conflict exactly if it gets through and the version is not, and a failure otherwise; each is the matching protocol step |
| SecretStore.SecretBackend.LoadAgain | internal/store/secret.go:77-96 | a reload that is answered reads the last stored document under its version, unless there is none, which is the protocol's reload step; any other is its failure |
| AccessStore.OpenWith | internal/store/store.go:179-195 | a replica that starts holds what is stored, under its version: what was there, or the empty model it has just created; it stays down only if it was not answered or its create did not succeed, and a create that is answered fails only where there is a document after all |
| AccessStore.Store.Mutate | internal/store/store.go:437-459 | success is answered exactly if the call is acknowledged, which is exactly if its last save was told so; a conflict exactly if the fifth save was refused; a failure only if a save or the reload after it was not answered, or there is no document; nothing changed and refused exactly if the last run of the change says so. One save for each run that has something to write, at most five, and at most four reloads. If it says saved, the last commit is this call's change on exactly the model of the last run and memory is that commit; after five conflicts the change can never be stored; the world afterwards is reached by a run of the protocol with exactly one more call of this replica, and the history only longer |
| StoreRuns.CallsAreCounted | internal/store/store.go:437-459 | a replica's counter of calls grows over a run by the calls it makes in it |
| AccessStore.Store.Persist | internal/store/store.go:463-474 | the document for memory is saved; the call is acknowledged exactly if the save was told it succeeded, and memory is then at the new version; otherwise it is superseded, or ahead with its change |
| AccessStore.Store.Reload | internal/store/store.go:199-220 | memory is replaced by the last stored document before the change is made again, or is left alone, which happens only if the reload was not answered or there is no document |
| AccessStore.Store.OnEvent | internal/store/store.go:254-274 | an event for the version held changes nothing; any other, older ones too, replaces memory |
| AccessStore.Store.Set | internal/store/store.go:225-247 | the fields become what the document decodes to: null users skipped, groups expanded in either format |
| AccessStore.Store.Get | internal/store/users.go:157-165 | a user is found under any spelling of the name, or there is none |
| AccessStore.Store.RecordSeen | internal/store/store.go:332-374 | the fields and the outcome are those of the sighting as a function of the model, whose effect `SightingRefreshes` states |
| Effects.SightingRefreshes | internal/store/store.go:332-374 | after a sighting every spelling of the name finds the username, email, provider and groups given, seen just now, with the initial roles if the record is new and otherwise the roles, password, managed flag and first-seen time it had; nobody else changes; it is written exactly if the record is new, was an invitation or said something else; and the same sighting again by any spelling is nothing to write |
| Effects.CreatingCreates | internal/store/users.go:41-94 | a local account or an invitation is found under every spelling afterwards with what was given, not yet seen; it is refused exactly if some spelling was there already, and then nothing changes |
| Effects.EditingEdits | internal/store/users.go:98-143 | after setting roles or a password, or deleting, every spelling of the name finds the record with just that changed, or none, and every other name finds what it did; refused exactly if there is no record, or the password is not kept here |
| Effects.LockingLocks | internal/store/users.go:195-243 | after a lockout is set that name is locked by every spelling until exactly then, after it is lifted not at all; nobody else is let in or out at any later time, and what had elapsed is dropped |
| Effects.SavedRoleIsThere | internal/store/roles.go:70-79 | a saved role is as it was saved and no other changes |
| Effects.DeletedRoleIsGone | internal/store/roles.go:85-105 | a deleted role is gone and no other changes; refused exactly if there is none |
| Effects.SeededIfEmpty | internal/store/roles.go:20-34 | the deployed roles are taken over exactly if there are none |
| Effects.RestoringRestores | internal/store/store.go:573-611 | restoring a snapshot gives the model it was taken of, whatever there was |
| AccessModel.KeyMeansSameName | internal/store/store.go:485 | two spellings are kept under one key exactly if they are the same but for capitals and for space around them |
| AccessStore.Store.ChangeRoleMembership | internal/store/roles.go:129-172 | the loops over names and roles give every user the roles of the bulk change, and report the three sorted lists |
| AccessStore.Store.DeleteRole | internal/store/roles.go:85-105 | the role is gone and the sorted list names each holder once |
| Calls.HoldersAreListed | internal/store/roles.go:85-105 | the list of a deleted role's holders names exactly the users that hold it, one name for each |
| AccessStore.Store.SeedRoles | internal/store/roles.go:20-34 | the deployed roles are copied exactly if there were none |
| AccessStore.Store.LockUntil | internal/store/users.go:211-243 | the lockout is recorded and only elapsed ones are dropped |
| AccessStore.Store.Unlock | internal/store/users.go:223-243 | a lockout is cleared, or nothing changed when there was none |
| Encoding.EncodeFile | internal/store/store.go:110-139 | whatever order the maps are walked in, the loops build the one document of the model |
| Encoding.ReadsEveryField | internal/store/store.go:90-105 | every record but a null one is read with all its fields; its groups are those written in full if there are no indices, as in version 2, and otherwise the names at the indices that are in the table, in order |
| Encoding.RoundTrip | internal/store/store.go:91-139 | any document written for a model reads back as that model: users, ordered group lists with repetitions, roles, lockouts |
| Encoding.WritesUnique | internal/store/store.go:107-139 | there is only one such document: its table is the strictly increasing list of the names in use, and every index is the place of its name |
| Encoding.RewritingKeepsTheModel | internal/store/store.go:86-105 | a document of any format, version 2 included, means the same once it is rewritten as version 3, and rewriting again changes nothing |
| Membership.SiftPartitions | internal/store/roles.go:136-159 | for every key, its mentions are split over the three lists: changed once exactly if the user's roles move, unknown exactly if there is no record |
| Membership.SiftCoversAll | internal/store/roles.go:136-159 | the three lists together are as long as the list of names |
| Membership.ReportPartitions | internal/store/roles.go:136-172 | the three lists the caller gets are sorted and together as long as the names; for every key its mentions are split over them, changed once exactly if the user's roles move and unknown exactly if there is no record, users spelled as in their records |
| Membership.OnlyTheRoleMoves | internal/store/roles.go:116-160 | users not listed, or already as asked, are untouched; of the others only the one role moves, every other is held exactly as often as before, and the roles are sorted |
| Membership.OppositeUndoes | internal/store/roles.go:121-124 | the opposite call on the changed users restores every role set, and every multiset of roles exactly if no removed role had been listed twice |
| Membership.SiftFindsMoves | internal/store/roles.go:165-167 | nothing is written exactly when no user's roles move |
| Membership.WrittenIffSomebodyMoves | internal/store/roles.go:129-172 | a bulk change is refused exactly if there is no such role, and written exactly if some record is not what it was |
| Lifecycle.EveryRunKeepsKeys | internal/store/store.go:161-163 | in every run every stored document and every memory keeps each record under the key of its own name, unless a document from outside does not |
| Lifecycle.AccountsKeepTheirStanding | internal/store/store.go:319-374 | between stored documents an account that is not deleted or restored over keeps first-seen time and managed flag, its roles unless assigned, its password unless set, and once claimed is never an invitation again |
| Lifecycle.OnlyWhatWasAskedIsTouched | internal/store/store.go:319-374 | the same by what calls asked for in the run: roles change only if some call asked to assign them, the password only if some call asked to set it |
| Lifecycle.SightingClaims | internal/store/store.go:349-373 | a sighting leaves no invitation, always writes when it claims or creates, touches no other record, and alters no role, password, first-seen time or managed flag |
| Lifecycle.ClaimIsCommitted | internal/store/store.go:349-367 | the commit that answers a sign-in holds the account as claimed |
| Lcs.LengthIsMaximal | web/src/lib/lineDiff.ts:79-89 | no common subsequence is longer than the length computed |
| Lcs.LengthIsReached | web/src/lib/lineDiff.ts:79-89 | some common subsequence is as long |
| LineDiff.FillTable | web/src/lib/lineDiff.ts:82-89 | every cell of the table holds the value of its pair of suffixes |
| LineDiff.BestIsLongest | web/src/lib/lineDiff.ts:82-89 | that value is the longest common subsequence of the two suffixes |
| LineDiff.Align | web/src/lib/lineDiff.ts:25-55 | the loops produce exactly the rows of the specification, above the exact limit too; what is matched off both ends is as much as there is |
| LineDiff.StrippedOnce | web/src/lib/lineDiff.ts:26-34 | there is one way to match off both ends so that nothing more can be, the top first, and it is the loops' |
| Alignment.StrippingLosesNothing | web/src/lib/lineDiff.ts:26-42 | matching off a common start and end loses none of the longest common subsequence |
| Alignment.AlignIsFaithful | web/src/lib/lineDiff.ts:25-124 | the left cells in order are exactly the first file numbered from 1, and the right cells exactly the second |
| Alignment.AlignIsHonest | web/src/lib/lineDiff.ts:57-124 | a same row shows equal lines, a one-sided row one line, and within the limit a changed row two different lines |
| Alignment.AlignIsNearOptimal | web/src/lib/lineDiff.ts:79-122 | same rows never exceed the longest common subsequence, and within the limit same and changed rows together reach it |
| Alignment.AlignIsLongestIff | web/src/lib/lineDiff.ts:91-114 | for the ends matched off, which are as long as can be, same rows fall short of the longest common subsequence by exactly the ties at which leaving out both lines costs one, or above the limit by all the middles have in common; so the pairing is the longest if and only if there are none |
| Alignment.AboveTheLimit | web/src/lib/lineDiff.ts:70-77 | above the limit exactly the lines matched off show as same, and each other line of the longer file is a changed row |
| Alignment.InsertionShowsAsInsertion | web/src/lib/lineDiff.ts:79-122 | when lines were only inserted, every row is same or right-only exactly if the middles are within the limit, with one same row per line of the first file |
| Alignment.DeletionShowsAsDeletion | web/src/lib/lineDiff.ts:79-122 | the same for lines that were only deleted |
| Alignment.SwappedLinesShowNothingSame | web/src/lib/lineDiff.ts:98-109 | the pairing need not be the longest: two lines that changed places give no same row |
| Alignment.NoDifferencesMeansEqual | web/src/components/SideBySide.tsx:20-26 | all rows are same exactly when the files are equal |
| ConfigPair.PageAgreesWithBadge | internal/configsource/pair.go:178-209 | the page shows no differences exactly when the server says the sides match |
| ConfigPair.BadgeSays | internal/configsource/pair.go:178-197 | which of the four states or which error is shown, for each exactly when |
| ConfigPair.SameConfigMeans | internal/configsource/pair.go:199-209 | two files match exactly if they are one text followed by nothing but line ends |
| Limiter.PruningReleasesNobody | internal/store/users.go:195-243 | pruning never releases an account that is locked out, then or later |
| Limiter.LockoutsAreTheStores | internal/store/users.go:211-232 | sharing and lifting a lockout are the store's own changes to its lockouts |
| Limiter.CleaningReleasesNobody | internal/auth/limiter.go:84-92 | a record dropped by the clean-up would not have mattered to any later attempt |
| Limiter.LoginLimiter.Allow | internal/auth/limiter.go:53-71 | an attempt is allowed exactly if no shared lockout is live and this replica has counted fewer than five failures since the last quiet window |
| Limiter.LoginLimiter.Fail | internal/auth/limiter.go:74-101 | the failure is counted, nobody else's live record is lost, and if over ten thousand records are left none of them has elapsed; from the fifth on, a known account that is not locked is locked everywhere for the window if the write is carried out, and nothing changes if not; it is logged exactly if the write was tried and not answered |
| Limiter.LoginLimiter.Reset | internal/auth/limiter.go:123-134 | a success clears the record here, and a live lockout everywhere if the write is carried out; it is logged exactly if that was tried and not answered, and no other lockout changes |
| Limiter.LoginLimiter.Login | internal/auth/auth.go:202-232 | refused exactly if locked out or with five failures remembered, before the password is looked at, and then nothing changes; otherwise accepted exactly by a valid credential, or the failure is counted, and from the fifth on a known account is locked for the whole window if the write is carried out, and it is logged exactly if the write was not answered |
| Lockout.StepKeepsRecord | internal/auth/limiter.go:53-90 | every step keeps what a record remembers of the window, whatever becomes of the lock |
| Lockout.StepKeeps | internal/auth/limiter.go:53-120 | where locks can be relied on, every step of every attempt, and of time, pruning and clean-up, keeps the window's invariant |
| LockoutRuns.EachRecordHolds | internal/auth/limiter.go:59-90 | in every run and every five-minute window, with locks that land late, shorten one another or fail, at most 4 + K attempts are let past the check of each record, where K are in progress at most |
| LockoutRuns.AtMostThisManyGetThrough | internal/auth/limiter.go:10-21 | if locks never fail, and land at the instant their end was read or attempts do not overlap, at most 4N + K of the attempts begun in a window get through N records, 4M + K through any M neighbouring ones and 4 + K through one: 4N + 1 and 5 with one attempt at a time, however late the lock lands |
| LockoutRuns.BoundIsMet | internal/auth/limiter.go:53-120 | for every N and K, with locks of any kind, some run does let 4N + K through, 4 + K of them past one record |
| LockoutRuns.WithoutLocksTheRecordsAreAll | internal/auth/limiter.go:116-119 | where locks may fail, some run lets 4 + K past each of N records |
| LockoutRuns.LateLockLetsOneMoreThrough | internal/auth/limiter.go:113-118 | where a lock may land after the clock was read for it, and two attempts overlap on two records, some run lets 4N + K + 1 through |
| LockoutRuns.BoundFailsIff | internal/auth/limiter.go:109-120 | some run exceeds 4N + K if and only if there are two records or more and locks may fail, or may land late while attempts overlap |
| LockoutRuns.RejectedLoginIsARun | internal/auth/limiter.go:53-120 | a rejected sign-in of a known account is the attempt's steps in a row, its lock landing or not, and they leave the record and the lockouts that the limiter leaves |
| LockoutRuns.RefusedLoginIsARun | internal/auth/limiter.go:60-70 | so is one refused by the replica's own record |
| LockoutRuns.SpellingsMultiply | internal/auth/limiter.go:48-50 | with M spellings of a name, each with a record of its own, a replica lets (4 + K)M past whatever becomes of the locks, and 4M + K, of 4MN + K together, if they can be relied on |
| AuditLog.Keep | internal/auditlog/auditlog.go:240-270 | an entry is kept exactly if it is in scope and matches what was asked |
| AuditLog.AdmitsWhatIsWanted | internal/auditlog/auditlog.go:240-270 | admitted are exactly the entries in scope of the operation asked for whose user mentions the user asked for and whose fields mention the text asked for, in capitals or not |
| AuditLog.NewestFirstSorts | internal/auditlog/auditlog.go:272-274 | the same entries, newest first |
| AuditLog.NewestFirstIsStable | internal/auditlog/auditlog.go:272-274 | entries of one moment stay in the order they came |
| PodLogs.Scan | internal/auditlog/podsource.go:63-83 | the entries of the first 200000 lines since the window's start that lie in it and may be seen; or a failure, if the cluster refuses the log or one of those lines, or the one after them, is too long |
| PodLogs.ReadPods | internal/auditlog/podsource.go:38-61 | the entries of every container whose pass did not fail, merged, newest first, cut to the room left |
| AuditReader.ReadWindow | internal/auditlog/auditlog.go:180-195 | a window's entries from pod logs, or from Loki's lines with those kept that may be seen |
| AuditReader.Read | internal/auditlog/auditlog.go:133-178 | no page without a source; otherwise a page is what at most seven windows give, walking back until it is full, with the cursor where it stopped. Over a source that answers as asked: newest first, no more than the limit if that is 1 to 500 and 200 otherwise, every entry admitted, no earlier than the start asked for or the horizon and no later than the end asked for or now; the cursor lies in that period too, a day from its end at least, and if there is one and the page is not full exactly seven |
| AuditReader.LokiIsSound | internal/auditlog/auditlog.go:184-194 | if Loki keeps to the limit and the range, its answers have no more entries than asked for, all in the window and admitted |
| AuditReader.KeptIsAllAdmitted | internal/auditlog/auditlog.go:188-194 | of Loki's lines every admitted entry is kept, as often as it is there |
| PodRuns.PodsAreSound | internal/auditlog/podsource.go:38-61 | so have those of the pods |
| PodRuns.NewestAreShown | internal/auditlog/podsource.go:55-60 | a window shows all that was gathered, or as much as there is room for, and then nothing left out is newer than anything shown |
| PodRuns.NoneHidesAnother | internal/auditlog/podsource.go:43-54 | what is read of one container is gathered whatever becomes of the others |
| PodRuns.ScannedIsTheFirst | internal/auditlog/podsource.go:63-83 | read are the first 200000 lines since the window's start, or none if the log is refused or one of them, or the next, is too long |
| PagingRuns.RunEnds | internal/auditlog/auditlog.go:150-178 | over any source, following the cursor ends after at most as many pages as there are days from the start to the floor, or one |
| PagingRuns.WindowsTile | internal/auditlog/auditlog.go:151-166 | the windows of a run cover the period from the floor to the start, each below the other with no gap |
| PagingRuns.RunCoversWhatIsAsked | internal/auditlog/auditlog.go:140-166 | by the fields of the request: the windows of its run hold exactly the moments no earlier than the horizon and the start asked for and no later than now and the end asked for, unless that is a single moment |
| PagingRuns.PageIsSound | internal/auditlog/auditlog.go:168-178 | over any source that answers as asked, a page is newest first, within the limit, and all of it may be seen, was asked for and lies between its start and the next page's |
| PagingRuns.ShortPageReachesBack | internal/auditlog/auditlog.go:151-178 | a page that is not full has gone back seven days, or to the floor |
| PagingRuns.RunIsInOrder | internal/auditlog/auditlog.go:168-178 | all pages of such a run one after the other are newest first and all admitted |
| PagingRuns.RunShowsItsWindows | internal/auditlog/auditlog.go:164-178 | the pages of a run hold what its windows gave, and nothing else |
| PagingRuns.EveryMomentIsHeld | internal/auditlog/podsource.go:77-78 | every moment of the period lies in one window, or in two if they meet there |
| PagingRuns.AskingAgain | internal/auditlog/auditlog.go:140-148 | asking again from a page's cursor, at the same time, continues the same run |
| PagingRuns.RoundedCursorLoses | internal/api/audit.go:99-102 | sent back in whole milliseconds, a cursor loses exactly the moments after the one sent and before the one meant, or all below the one meant if the one sent is at the floor or below it |
| PodRuns.CompleteUnlessCut | internal/auditlog/podsource.go:43-58 | a run over pod logs shows every admitted entry as often as it is logged, and twice if its time is where two windows meet, exactly if in every window all that the log holds was read and there was room for it |
| PodRuns.ReadableIsWhole | internal/auditlog/podsource.go:34-36 | all of a window is read for certain if the cluster hands everything out and no container printed over 200000 lines since the floor or a line that is too long, and then only the room decides |
| ListingCache.StepKeeps | internal/configsource/cache.go:45-116 | every list, refresh and save keeps the cache's invariant |
| ListingCache.ReadingServes | internal/configsource/cache.go:45-62 | a listing under ten minutes old is served as it is; a refresh starts exactly if it is served, thirty seconds old or more, and none is in flight; otherwise the reader gets what the source answers |
| ListingCache.FetchedIsServed | internal/configsource/cache.go:64-104 | what the source gives, to a reader or to a refresh, is served from then on for ten minutes and no longer, and the mark is cleared whether the refresh failed or not |
| ListingCache.ServedIsBacked | internal/configsource/cache.go:45-116 | after any run, a listing served without a fetch was given by the source and installed under ten minutes ago, after every successful save, and fetched after each save that found no refresh in flight; one refresh is in flight exactly while it is marked |
| ListingCache.FailuresChangeNothingServed | internal/configsource/cache.go:64-70 | a failed fetch, refresh or save changes nothing that is served |
| ListingCache.SaveCanBeOverwritten | internal/configsource/cache.go:89-116 | from every state, any refresh in flight during a save can put back a listing fetched before it, and it is served |
| ListingCache.SaveHoldsIffIdle | internal/configsource/cache.go:89-116 | everything served in every continuation of a successful save was fetched after it, if and only if no refresh was in flight at the save |
| ListingCache.Cached.ListEntries | internal/configsource/cache.go:45-70 | serves what is usable, marks at most one refresh, and asks the source only when nothing is |
| ListingCache.Cached.Refreshed | internal/configsource/cache.go:89-104 | the end of a refresh clears the mark and installs only a success |
| ListingCache.Cached.Saved | internal/configsource/cache.go:106-116 | a save that succeeded drops the listing, one that failed does not |
| Rbac.Allowed | internal/rbac/rbac.go:33-51 | true exactly if some held role grants the operation on that namespace or on all |
| Rbac.AllowedGlobal | internal/rbac/rbac.go:55-67 | true exactly if some held role grants the operation globally |
| Rbac.WhoMay | internal/rbac/rbac.go:33-67 | every way of being allowed: a held role that there is, a grant on the namespace or the wildcard, and the operation or the wildcard in it |
| Rbac.NamespacesForOp | internal/rbac/rbac.go:126-145 | the wildcard alone, or the sorted namespaces where the operation is granted, each once |
| Rbac.AuditScope | internal/api/audit.go:20-34 | the loop over those namespaces builds the caller's scope |
| Rbac.TrailShowsWhatIsAllowed | internal/auditlog/auditlog.go:237-256 | with nothing asked for, an entry is shown exactly to those the access model allows to read it in its namespace, or globally for an entry of none |
| Rbac.ScopeIgnoresOrder | internal/api/audit.go:20-34 | neither the order nor the repetition of roles and grants changes the scope |
| ConfigPath.CleanIsFinal | internal/api/configs.go:258-275 | an accepted path is unchanged by cleaning again and by the authorizer's trimming |
| ConfigPath.CleanRefuses | internal/api/configs.go:258-275 | a path is accepted exactly if what is left of it between slashes is not empty and none of its segments is empty, "." or "..", and it is sent on as that |
| ConfigPath.PrefixBySegments | internal/rbac/rbac.go:86-100 | the test on strings with a slash is the test on lists of segments |
| ConfigPath.GrantsGoBySegments | internal/rbac/rbac.go:70-100 | on an accepted path an operation is allowed exactly if some held role grants it on the wildcard or on a path whose segments the path begins with |
| ConfigPath.AllowedConfig | internal/rbac/rbac.go:70-84 | the nested loops find such a grant exactly if there is one |
| ImageReference.ParseIsExact | internal/gitlab/image.go:66-124 | an image parses to some parts exactly if it is an optional registry, the project path and a tag that starts with a configured environment and ends with the pipeline number |
| ImageReference.NothingToCut | internal/gitlab/image.go:76-84 | which of the first two errors, exactly when: no slash, or no colon after the last one |
| ImageReference.RefusedBecause | internal/gitlab/image.go:85-124 | of every other image, which error or which result: no project before a slash, nothing but a registry, a tag without a dash, an environment that is not configured, or no number at its end, in that order |
| ImageReference.PrintedIsParsedIff | internal/gitlab/image.go:66-124 | parts printed in the documented form parse back to themselves, whatever markers stand in between, if and only if the environment is a configured one without a dash, the number fits 64 bits, and the first segment looks like a host exactly when there is a registry |
| ImageReference.AtoiOfItoa | internal/gitlab/image.go:116-122 | a pipeline number printed in decimal is read back, within 64 bits |
| ImageReference.AtoiReads | internal/gitlab/image.go:116-122 | a number is read exactly from digits after at most one sign, within 64 bits |

## Left out

- JSON and gzip (`encoding/json`, `pack`, `unpack`): a document is a value here, and is taken to read back as it was written; a document of a newer format counts as one that cannot be read.
- The size limit of a Secret: a refusal for it is one of the failed saves.
- Save: a request whose answer is lost lands at once or never; one that lands only after its replica has given up on it is not a step.
- Pointers and aliasing: a user record is a value in a map that is replaced, so nothing is said of slices shared between a record and its caller.
- `Store.FlushSeen` and `KeepSeen`: flushing is a change like any other; the flag that decides whether to flush, cleared outside the lock, and the timer are not modelled.
- `Follow`'s callback to the authorizer: convergence is stated of the store's memory only, since a reload inside `mutate` skips the callback.
- `Restore`'s refusals before `mutate` (no users section, newer format) and `ValidateUsername`: single checks in front of the change.
- `fileBackend`: its version check and its rename are two steps, and it serves one writer.
- `RoleHolders`, `List`, `Stat` and the other readers of the store: they compute nothing the invariants need.
- Unicode: `strings.ToLower` and `strings.TrimSpace` are modelled for ASCII.
- Mutate: the clock and what becomes of each request are arbitrary, but a call is taken to finish or its replica to crash; nothing is said about how long it takes.
- AcknowledgedOnce: when a save had failed before, the commit may also hold the changes of those failed calls, because the code keeps them in memory.
- DeliveryConverges: with failed saves, changes told to have failed may remain on top of the delivered document when it is skipped as the replica's own.
- AccountsKeepTheirStanding: speaks of the documents stored, not of one replica's memory, which a late delivery may take back to an older document.
- AtMostThisManyGetThrough: no successful sign-in, and a lock that every replica sees as soon as it has landed.
- LoginLimiter: each method reads the clock once, where the code reads it up to three times within one call; what time passes in between is in the steps of `Lockout`.
- `logql`: the query language has no meaning in the repository; Loki's answer to a range query is a parameter, and nothing is said of what it misses.
- Read: a listing of pods or a range query that fails is an error instead of a page.
- CompleteUnlessCut: the log and the clock stand still for the length of a run, and the cursor is taken as it was meant; RoundedCursorLoses says what rounding it costs.
- Writing two sides of a configuration (`Pair.Put`, `PutSide`, `SecondaryState`): two calls in order with no property across them.
- HTTP handlers, sessions, LDAP, OIDC, bcrypt, the Kubernetes, Helm, GitLab and Consul clients: a credential check is a boolean, a backend is its contract.
- `VisibleNamespaces`, `VisibleConfigPaths`, `BuildJobNames`, `NormaliseRoles`: searches and substitutions that would add only easy members.
