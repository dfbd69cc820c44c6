# A Dafny model of the marketing integration's operator scripts

The repository's `scripts/` directory holds guarded operator scripts around Lark, Cloudflare D1, Google Ads and
Chatwoot. This project models the algorithms and protocols inside them and proves what they are relied on for.
`dafny verify dfyconfig.toml` checks all of it.

| modules | what they model |
|---|---|
| `LeaseLock`, `LeaseLockManager` | the local lease lock: acquire, renew and release as single file steps of any number of processes that crash anywhere; the class does the same operations on its own files |
| `Lexicographic`, `JsonValues`, `JsonReader`, `CanonicalJson` | JavaScript values, UTF-16 texts, a reader of JSON text by its grammar, and the canonical serializer that orders members by code unit as section 3.2.3 of RFC 8785 does |
| `Spaces`, `JsoncScanner`, `JsoncDocuments` | the comment and trailing-comma scanners, on any text and on documents written with comments |
| `JsonExtractor` | finding the first JSON document in a command's output |
| `DevVars` | the `.dev.vars` parser |
| `SqlPrefixRange` | the range comparison used instead of `LIKE` |
| `SignedChunks`, `SignedBodies`, `SignedSender`, `Utf8` | the signed Google Ads delivery: splitting, planning, what the receiver reads in each body, sending against any network, and the bytes that are counted |
| `IncidentClosure` | the three guarded updates that close an incident, under any interleaving |
| `NotificationLog`, `NotificationLogResume`, `NotificationLogLimits`, `NotificationLogApply` | planning and applying the Notification Log schema: whole runs, runs stopped anywhere, what the request guard blocks, and the requests one at a time |
| `ChatwootMetadata`, `ChatwootAnalysis`, `ChatwootDecision`, `ChatwootSchemaApply`, `ChatwootConvergence` | discovery and analysis of the Chatwoot tables, what that decides, the additive plan, and its effect |
| `DashboardConfig`, `WindowChartRewrite`, `CanonicalRebind`, `CanonicalConditions` | the dashboard rewriters over configuration trees, what becomes of every leaf and condition, and their patches |
| `DisplayBackfill`, `DisplayScope`, `DisplayConvergence` | planning the display field backfill, which records it is about, and planning it again once it is applied |
| `InsertOrIgnore`, `OrganicBridge`, `OrganicBridgeRuns`, `OrganicBridgeCoverage` | the append-only bridge: selection, chunks, statements, and their effect on the tables |
| `Wrappers`, `Sorting` | options, results, and sorting by any comparison |

Classes stand for what the program changes in place (lock files, the sender's log, the closure tables, the Lark
base, counters, the planner's lists, the database); each of their methods is tied to a function of the state, and
the lemmas are about those functions. Recursive rewriters stay functions, with methods beside them where the
program counts as it goes.

Statements found in the code's own comments, names or checks that hold only under a condition are stated with it,
exactly; an instance is an input on the other side of the condition:

- A Notification Log run can be blocked by its own guard. Its view reads have a closed form in what the first plan
  finds (`NotificationLogLimits.ReadsAre`). With the program's six views more than 40 are needed exactly when four or
  more views are there but not configured, or three and any is missing, or two and enough missing views come before
  them (`NotificationLogLimits.BlockedExactlyWhenTooMuch`); an accepted base that needs 42 is
  `NotificationLogLimits.SampleIsBlocked`. A base with a table but no view at all is blocked as well, by the limit on
  view creations. Neither ever happens to a base the program created itself, wherever its runs were stopped
  (`NotificationLogLimits.OwnRunsAreNotBlocked`), and no other limit ever binds
  (`NotificationLogLimits.OtherLimitsNeverBind`).
- An incident accepted as open can be closed by somebody exactly when the columns its updates compare are stored as
  they are read: the checks read a column trimmed and take a blank one for NULL, while the updates compare it as it is
  (`IncidentClosure.ClosesExactlyWhenAsRead`). With an empty text stored as the recovery reference it is open and stays
  closable for every reference, and none ever closes it (`IncidentClosure.BlankReferenceNeverCloses`).
- An incident accepted as open while locks are active is closable only once none is
  (`IncidentClosure.StaysClosableForTheFirst`, with `IncidentClosure.LockedIsNotClosable` as an instance).
- Bound table ids are pairwise distinct unless the remote list gives one id to two tables that are found by name
  (`ChatwootMetadata.SameIdExactlyWhenShared`, with `ChatwootMetadata.SharedIdIsBoundTwice` as an instance).
- The window chart rewrite keeps every key and array length unless an object beside a reference gives its field type
  as an array that reads as two (`WindowChartRewrite.ShapeKeptExactly`, with `WindowChartRewrite.ArrayTypeLosesShape`
  as an instance).
- A canonical rewrite is refused exactly when a condition cannot be sent or a reference to a retired display field
  stands where binding leaves it (`CanonicalRebind.RefusedExactlyForDisplay`); references to the window fields never
  remain.
- A row of a bridge plan ends with an observation unless it is a Facebook row of a day before the end of the period
  (`OrganicBridgeRuns.ObservedExactlyWhenTimed`).

Every lemma carries `{:induction false}`, so that each proof is the one written.

## Model

| member | source | states |
|---|---|---|
| LeaseLock.InvAfterRun | scripts/lib/file-lease-lock-manager.js:29-151 | after every run of steps, crashes, failures with or without something left behind, and orphan removals, each call in its critical part holds its guard and knows its file, and every grant that is not over is the file's |
| LeaseLock.MutualExclusion | scripts/lib/file-lease-lock-manager.js:29-151 | after every run at most one owner of a key has an unreleased grant that is not over |
| LeaseLock.GuardSerializes | scripts/lib/file-lease-lock-manager.js:118-151 | at most one call works on a key at a time, whatever crashed and whichever orphan guards were removed |
| LeaseLock.OperationsAreAtomic | scripts/lib/file-lease-lock-manager.js:36-115 | a guarded operation has done one atomic step when it drops its guard: acquire wins exactly on an absent, half-written or expired file and grants one lease from its last clock reading, the first when no file was there; renew changes only its owner's live entry, to the first reading plus the lease; release deletes only its owner's; a file missing after EEXIST and the fall-through of acquire cannot happen |
| LeaseLock.StepRefinesTable | scripts/lib/file-lease-lock-manager.js:36-115 | every file step and every failure is one allowed step of a table from key to owner and expiry; a lock write that fails after it was written strands an entry nobody was told of |
| LeaseLock.FilesRefineTable | scripts/lib/file-lease-lock-manager.js:29-151 | the same along every run, and the grants change exactly with the table |
| LeaseLockManager.FileLeaseLockManager.constructor | scripts/lib/file-lease-lock-manager.js:15-27 | the manager starts with no files and the given number of guard attempts |
| LeaseLockManager.FileLeaseLockManager.TakeGuard | scripts/lib/file-lease-lock-manager.js:118-144 | the guard is taken exactly when it becomes free within the allowed attempts |
| LeaseLockManager.FileLeaseLockManager.TryAcquire | scripts/lib/file-lease-lock-manager.js:29-62 | acquire run alone wins exactly on an absent, half-written or expired file, until its clock reading plus the lease, which is the second reading when a file was found; other keys and all guards stay as they were |
| LeaseLockManager.FileLeaseLockManager.TryRenew | scripts/lib/file-lease-lock-manager.js:64-96 | renew run alone is the atomic renew and leaves no renewal file behind |
| LeaseLockManager.FileLeaseLockManager.TryRelease | scripts/lib/file-lease-lock-manager.js:98-116 | release run alone is the atomic release |
| LeaseLockManager.AtomicIsDeterministic | scripts/lib/file-lease-lock-manager.js:36-115 | the outcome of an operation and the file it leaves are settled by the file it found and its clock readings |
| CanonicalJson.SerializeExactlyPrintable | scripts/google-ads-manager-script-signed-delivery.js:543-561 | serializing throws exactly for values that hold a non-finite number or a value JSON has no form for |
| CanonicalJson.UnescapeEscape | scripts/google-ads-manager-script-signed-delivery.js:545-557 | a quoted string can be read back to exactly its code units |
| CanonicalJson.ValueReadable | scripts/google-ads-manager-script-signed-delivery.js:543-561 | two canonical values whose texts agree up to what follows are one value, since each reads back as itself |
| CanonicalJson.ReadsPrint | scripts/google-ads-manager-script-signed-delivery.js:543-561 | read by the JSON grammar, the text of a canonical value is that value, whatever follows it |
| CanonicalJson.SerializedReadsBack | scripts/google-ads-manager-script-signed-delivery.js:543-561 | the serialized text of any value with a JSON form is JSON text of that value: read by the grammar it is the value with members in order, undefined members dropped, undefined items null and -0 zero |
| CanonicalJson.WrittenShortest | scripts/google-ads-manager-script-signed-delivery.js:545-557 | inside a string each code unit is written in the shortest way there is, with small hexadecimal digits |
| CanonicalJson.EscapePaired | scripts/google-ads-manager-script-signed-delivery.js:545-557 | a surrogate that is not half of a pair is written by its hexadecimal digits |
| CanonicalJson.PlainIsKept | scripts/google-ads-manager-script-signed-delivery.js:545-557 | a text without quotes, backslashes, control characters and lone surrogates is kept as it is |
| CanonicalJson.NormAgrees | scripts/google-ads-manager-script-signed-delivery.js:546-558 | two values have one canonical form exactly when they are the same up to member order, undefined members, undefined items and -0 |
| CanonicalJson.NormIsSame | scripts/google-ads-manager-script-signed-delivery.js:546-558 | a value and its canonical form mean the same document |
| CanonicalJson.MembersSorted | scripts/google-ads-manager-script-signed-delivery.js:553-558 | members come out in code-unit order, each key once |
| CanonicalJson.SameTextExactlyWhenSame | scripts/google-ads-manager-script-signed-delivery.js:543-561 | two values have one text exactly when they are the same up to member order, dropped undefined members, undefined items read as null, and -0 read as 0 |
| Lexicographic.SortSorts | scripts/google-ads-manager-script-signed-delivery.js:554-555 | sorting members with distinct keys puts them in strict code-unit order |
| Lexicographic.SortedUnique | scripts/google-ads-manager-script-signed-delivery.js:554-557 | two sorted member lists with the same members are equal |
| JsoncScanner.StripJsonComments | scripts/lib/chatwoot-safe-wrangler-config.js:187-243 | the index loop computes the scan of the text by its four modes |
| JsoncScanner.ClosesFrom | scripts/lib/chatwoot-safe-wrangler-config.js:262-270 | the look-ahead tells whether the next character that is no white space closes a container |
| JsoncScanner.RemoveTrailingCommas | scripts/lib/chatwoot-safe-wrangler-config.js:245-276 | the index loop drops exactly the commas outside strings that are followed by a closing bracket |
| JsoncScanner.StripKeepsNewlines | scripts/lib/chatwoot-safe-wrangler-config.js:187-243 | on any text all newlines are kept in order |
| JsoncScanner.StripIdempotent | scripts/lib/chatwoot-safe-wrangler-config.js:187-243 | on any text stripping twice is stripping once |
| JsoncDocuments.StripDocument | scripts/lib/chatwoot-safe-wrangler-config.js:187-243 | a document with comments between any tokens is stripped to the same document without them, every string kept |
| JsoncDocuments.ScannersKeepTheTree | scripts/lib/chatwoot-safe-wrangler-config.js:166-276 | both scanners together turn a document with comments and trailing commas into a text of the same tree without comments and trailing commas, every string character kept, and scanning that text again changes nothing |
| JsonExtractor.ReadJsonDocument | scripts/lib/chatwoot-final-source-config-recovery.js:384-408 | the bracket matching loop returns the document at a position, if there is one |
| JsonExtractor.ParseWranglerJsonOutput | scripts/lib/chatwoot-final-source-config-recovery.js:365-382 | the first bracketed slice that parses is returned |
| JsonExtractor.NestedExactlyReduces | scripts/lib/chatwoot-final-source-config-recovery.js:384-408 | matching brackets with a stack accepts exactly the properly nested sequences |
| JsonExtractor.DocumentIsShortestWhole | scripts/lib/chatwoot-final-source-config-recovery.js:384-408 | a slice is returned exactly when it is properly nested outside strings and no shorter prefix is |
| JsonExtractor.FirstThatParses | scripts/lib/chatwoot-final-source-config-recovery.js:365-382 | the document returned is that of the first position where a nested slice starts that parses; slices that do not parse, do not nest or never end are passed over |
| JsonExtractor.NoneExactlyWhenNothingParses | scripts/lib/chatwoot-final-source-config-recovery.js:365-382 | nothing is returned exactly when no position offers a slice that parses |
| JsonExtractor.RejectedDocumentIsPassed | scripts/lib/chatwoot-final-source-config-recovery.js:370-374 | a printed document that does not parse is passed over for what stands after its first bracket |
| JsonExtractor.PrintedDocumentIsFound | scripts/lib/chatwoot-final-source-config-recovery.js:365-408 | a printed object or array that parses is returned exactly, after any text no position of which offers a document that parses and before any text |
| DevVars.ParseValue | scripts/lib/dev-vars.js:59-94 | the scanning loop reads quoted values up to the closing quote and unquoted ones up to a comment |
| DevVars.ParseDevVars | scripts/lib/dev-vars.js:24-35 | the loop over lines builds the map of the assignments read |
| DevVars.UnquoteEscaped | scripts/lib/dev-vars.js:59-94 | a value written with its quote and backslashes escaped reads back as itself, whatever comment follows |
| DevVars.CutAtFirstComment | scripts/lib/dev-vars.js:96-100 | an unquoted value ends before the first white space that runs up to a `#`, and is trimmed |
| DevVars.BareReadsBack | scripts/lib/dev-vars.js:59-100 | a value written without quotes reads back as itself, whatever comment follows |
| DevVars.ParseWritten | scripts/lib/dev-vars.js:38-53 | a written line, with or without export, is split into its key and its raw value |
| DevVars.ReadWritten | scripts/lib/dev-vars.js:24-100 | a written file reads back as the last value of each key |
| DevVars.LastValuesLast | scripts/lib/dev-vars.js:24-35 | the map holds for each key the value of its last line |
| SqlPrefixRange.RangeIsPrefix | scripts/lib/chatwoot-final-30d-daily-uat.js:747-752 | a string lies between a prefix and the prefix with its last unit incremented exactly when it starts with the prefix |
| SqlPrefixRange.PrefixRangeSelectsPrefix | scripts/lib/chatwoot-final-30d-daily-uat.js:741-753 | for every accepted prefix the generated range selects exactly the strings that start with it |
| SqlPrefixRange.UnitBoundsSelectUnits | scripts/lib/chatwoot-initial-terminal-failure-recovery.js:392-393 | the written-out bounds `:unit:` and `:unit;` select exactly the units of a run |
| SignedChunks.BytesAre | scripts/google-ads-manager-script-signed-delivery.js:449-450 | the bytes of a list of rows are those of each row, the commas between them and the brackets |
| SignedChunks.PartFits | scripts/google-ads-manager-script-signed-delivery.js:449-465 | a part of a list within the bounds is within the bounds |
| SignedChunks.SplitBoundedRows | scripts/google-ads-manager-script-signed-delivery.js:444-469 | the loop computes the greedy split or the error of a single row that is too large |
| SignedChunks.SplitIsSplit | scripts/google-ads-manager-script-signed-delivery.js:444-469 | the chunks concatenate to the rows, each non-empty and within both bounds |
| SignedChunks.SplitFailsExactly | scripts/google-ads-manager-script-signed-delivery.js:463-465 | splitting fails exactly when some single row alone exceeds the byte bound |
| SignedChunks.SplitIsSmallest | scripts/google-ads-manager-script-signed-delivery.js:444-469 | no other contiguous split within the bounds has fewer chunks |
| SignedChunks.ChunksAreFull | scripts/google-ads-manager-script-signed-delivery.js:451-462 | each chunk but the last would exceed 500 rows or 409600 bytes with the next row |
| Utf8.DecodeEncode | scripts/google-ads-manager-script-signed-delivery.js:584-586 | a text reads back from its UTF-8 bytes |
| Utf8.LengthIsEncoded | scripts/google-ads-manager-script-signed-delivery.js:584-586 | the bytes that are counted are those of the encoded text |
| SignedChunks.SplitDatasets | scripts/google-ads-manager-script-signed-delivery.js:394-404 | the first pass splits every dataset and counts rows and chunks into the manifest |
| SignedChunks.EmitChunks | scripts/google-ads-manager-script-signed-delivery.js:409-441 | the second pass gives every chunk of every dataset its envelope and body, and fails exactly when some body is too large |
| SignedChunks.PlanSignedChunks | scripts/google-ads-manager-script-signed-delivery.js:393-442 | the plan is every chunk of every dataset in order; it fails for a row exactly when some row alone is too large, for the number of chunks exactly when all split and there are more than 64, and for a body exactly when all split into at most 64 and some body is too large |
| SignedChunks.SlotsCarryRows | scripts/google-ads-manager-script-signed-delivery.js:411-432 | the n-th chunk of a dataset carries its n-th group of rows and the dataset's counts |
| SignedChunks.RefusedRunsAreTooLarge | scripts/google-ads-manager-script-signed-delivery.js:405-407 | no way of splitting the datasets within the bounds has fewer chunks, so a run refused for too many could not have been split into 64 |
| SignedBodies.BodyReadsBack | scripts/google-ads-manager-script-signed-delivery.js:414-437 | a body is JSON text that names the run, its identity, the manifest of all datasets and the chunk's dataset, place, counts and rows, each number in decimal; it is refused exactly over 524288 bytes |
| SignedBodies.PlannedBodiesRead | scripts/google-ads-manager-script-signed-delivery.js:393-442 | in a planned run chunk j of dataset i stands at its place, and its body reads as that chunk |
| SignedBodies.PlanHoldsEveryChunk | scripts/google-ads-manager-script-signed-delivery.js:409-438 | every chunk of every dataset is in the plan, datasets in order and each from index 0 |
| SignedBodies.NumbersRead | scripts/google-ads-manager-script-signed-delivery.js:426-432 | counts are written as decimal numerals without leading zeros that read as the count |
| SignedSender.Sender.DeliverSignedChunk | scripts/google-ads-manager-script-signed-delivery.js:483-541 | one chunk is sent with one body and key until it is accepted, refused for good, or tried four times |
| SignedSender.Sender.SendAll | scripts/google-ads-manager-script-signed-delivery.js:157-159 | acknowledged chunks form a prefix of the plan, and sending stops at the first that is not |
| SignedSender.Sender.RunDelivery | scripts/google-ads-manager-script-signed-delivery.js:134-167 | a delivering run returns normally only if every chunk was acknowledged; a dry or disabled run sends nothing |
| SignedSender.KeysIdentifyChunks | scripts/google-ads-manager-script-signed-delivery.js:484-489 | two chunks of a run with one idempotency key are the same dataset and index |
| SignedSender.KeyReads | scripts/google-ads-manager-script-signed-delivery.js:484-489 | split at its colons an idempotency key names the sender, the run, the dataset and the number of the chunk |
| SignedSender.StatusRules | scripts/google-ads-manager-script-signed-delivery.js:527-536 | statuses of the 200s are accepted, 429 and those from 500 on are retried, and all others and errors that say so are final |
| SignedSender.PlanKeysDiffer | scripts/google-ads-manager-script-signed-delivery.js:411-439 | different chunks of a plan have different idempotency keys |
| SignedSender.EveryChunkTriedAtMostFourTimes | scripts/google-ads-manager-script-signed-delivery.js:471-541 | in the log of a run each stamped chunk appears under its own key, with one body, between one and four times |
| IncidentClosure.ClosureTables.UpdateDeadLetterJobs | scripts/lib/chatwoot-final-source-config-recovery.js:254-263 | the first statement updates its row exactly when the guard holds, and reports the count |
| IncidentClosure.ClosureTables.UpdateOperationMetadata | scripts/lib/chatwoot-final-source-config-recovery.js:265-280 | the second statement keeps what is set and fills what is not, for its own reference only |
| IncidentClosure.ClosureTables.UpdateSystemAlerts | scripts/lib/chatwoot-final-source-config-recovery.js:282-289 | the third statement resolves the alert exactly when its guard holds |
| IncidentClosure.ClosureTables.CloseIncident | scripts/lib/chatwoot-final-source-config-recovery.js:239-314 | a closure is accepted exactly when all three counts are one |
| IncidentClosure.RunKeeps | scripts/lib/chatwoot-final-source-config-recovery.js:195-291 | every interleaving keeps what the rows of an open incident say, changes only rows whose compared columns are stored as they are read, and gives the metadata row to the first reference |
| IncidentClosure.RunIsExactly | scripts/lib/chatwoot-final-source-config-recovery.js:253-290 | the rows any interleaving leaves, in full: the metadata row has the first update's reference, and its time as the times of beginning and completion unless they were set before; reruns change only when a row was last updated |
| IncidentClosure.StaysClosableForTheFirst | scripts/lib/chatwoot-final-source-config-recovery.js:217-237 | after every interleaving an open incident is closable for a reference exactly when no lock is active and it is the first that tried, or there is none yet, or the metadata row cannot be updated at all |
| IncidentClosure.OneReferenceWins | scripts/lib/chatwoot-final-source-config-recovery.js:265-314 | two metadata updates that both report one row have the same reference |
| IncidentClosure.RerunResolves | scripts/lib/chatwoot-final-source-config-recovery.js:239-335 | after every interleaving a full closure collects (1,1,1) exactly for the first reference of an incident whose compared columns are stored as they are read, and then the incident is resolved for it |
| IncidentClosure.ClosesExactlyWhenAsRead | scripts/lib/chatwoot-final-source-config-recovery.js:155-215 | an incident accepted as open can collect (1,1,1) after some statements exactly when its compared columns are stored as they are read and no reference is stored |
| IncidentClosure.BlankReferenceNeverCloses | scripts/lib/chatwoot-final-source-config-recovery.js:195-291 | an empty text as the recovery reference is accepted as open and closable for every reference, and is never closed |
| IncidentClosure.LockedIsNotClosable | scripts/lib/chatwoot-final-source-config-recovery.js:195-237 | with one active lock an incident is accepted as open where one is allowed, and closable for no reference |
| IncidentClosure.ReferenceIsText | scripts/lib/chatwoot-final-source-config-recovery.js:526-535 | a reference operators may give is read as it is stored |
| IncidentClosure.OtherRowsStay | scripts/lib/chatwoot-final-source-config-recovery.js:253-290 | no statement changes any other row |
| NotificationLog.AddTableAccepted | scripts/lib/lark-notification-log-schema.js:110-120 | creating the table leaves an accepted base with no field missing |
| NotificationLog.AddFieldAccepted | scripts/lib/lark-notification-log-schema.js:129-134 | creating a missing field leaves an accepted base and the states of the views that are there |
| NotificationLog.AddViewReady | scripts/lib/lark-notification-log-schema.js:140-149 | creating a view leaves an acceptable table and every other view's state |
| NotificationLog.SetFilterReady | scripts/lib/lark-notification-log-schema.js:151-167 | setting a filter completes that view and no other changes |
| NotificationLog.RunReachesZeroDrift | scripts/lib/lark-notification-log-schema.js:104-184 | from every accepted base the run ends in zero drift with at most V*V + 4*V view reads |
| NotificationLog.SecondRunIsIdle | scripts/lib/lark-notification-log-schema.js:122-127 | a second run finds nothing to do and sends nothing |
| NotificationLog.NothingRequestedTwice | scripts/lib/lark-notification-log-schema.js:104-184 | no run sends one request twice |
| NotificationLog.FieldRequestedExactlyWhenMissing | scripts/lib/lark-notification-log-schema.js:262-268 | a field is created exactly when it was not there |
| NotificationLog.ViewRequestedExactlyWhenIncomplete | scripts/lib/lark-notification-log-schema.js:286-310 | a view is created exactly when it was not there, and configured exactly when it has a rule and was not complete |
| NotificationLogResume.FirstRequest | scripts/lib/lark-notification-log-schema.js:104-171 | the first request of a run leaves an accepted base that needs exactly the other requests |
| NotificationLogResume.StoppedAnywhere | scripts/lib/lark-notification-log-schema.js:104-171 | a run stopped after any number of requests leaves an accepted base, and the next run sends exactly the requests that were left |
| NotificationLogResume.RunIsItsRequests | scripts/lib/lark-notification-log-schema.js:104-184 | performing the needed requests one by one is the run |
| NotificationLogResume.InterruptedRunsResume | scripts/lib/lark-notification-log-schema.js:104-184 | however many runs are stopped anywhere, the next needs only requests the first needed, and ends in the very base one whole run would have given |
| NotificationLogLimits.ReadsAre | scripts/lib/lark-notification-log-schema.js:104-184 | the view reads of a run, in closed form over the views its first plan finds to create, to configure and in which order |
| NotificationLogLimits.BlockedExactlyWhenTooMuch | scripts/lib/lark-notification-log-schema.js:26-36 | with the program's six views an accepted base needs more than 40 view reads exactly when too many views are left to configure |
| NotificationLogLimits.LimitBlocksFourUnconfigured | scripts/lib/lark-notification-log-schema.js:26-36 | with any six views that are all there, the limit is exceeded exactly when four or more are left to configure |
| NotificationLogLimits.SampleIsBlocked | scripts/lib/lark-notification-log-schema.js:26-36 | a base with three views to configure and two to create is accepted and needs 42 view reads |
| NotificationLogLimits.OwnRunsAreNotBlocked | scripts/lib/lark-notification-log-schema.js:104-234 | from a base without the table, however many runs are stopped anywhere, the next run stays within the limits on view reads and view creations |
| NotificationLogLimits.RequestsByKind | scripts/lib/lark-notification-log-schema.js:104-171 | how many requests of each kind a run sends, by what its first plan finds |
| NotificationLogLimits.OtherLimitsNeverBind | packages/config/src/lark-notification-log-schema-contract.js:47-79 | with the program's views no limit on listings, tables, fields or filters is ever exceeded, and the one on view creations exactly for a table without views |
| NotificationLogApply.HasUnexpectedField | scripts/lib/lark-notification-log-schema.js:244-252 | a field outside the contract is found exactly when there is one |
| NotificationLogApply.CompareFields | scripts/lib/lark-notification-log-schema.js:254-273 | the loop accepts exactly the fields that match once or can be created, and lists the missing ones |
| NotificationLogApply.BuildFieldActions | scripts/lib/lark-notification-log-schema.js:244-273 | both checks together give the actions or refuse |
| NotificationLogApply.LarkClient.GetView | scripts/lib/lark-notification-log-schema.js:226-234 | a view read past the guard's limit is refused |
| NotificationLogApply.LarkClient.PlanView | scripts/lib/lark-notification-log-schema.js:286-310 | one view's state, with the one read it costs |
| NotificationLogApply.LarkClient.BuildViewPlans | scripts/lib/lark-notification-log-schema.js:275-312 | the loop accepts exactly the acceptable views and reads each one there once |
| NotificationLogApply.LarkClient.PlanSchema | scripts/lib/lark-notification-log-schema.js:38-102 | a plan succeeds exactly on an accepted base within the read limit |
| NotificationLogApply.LarkClient.CreateFields | scripts/lib/lark-notification-log-schema.js:129-134 | the loop sends one request per missing field, every base in between accepted |
| NotificationLogApply.LarkClient.FillTable | scripts/lib/lark-notification-log-schema.js:129-136 | the missing fields are created, and the plan that follows finds the views as before |
| NotificationLogApply.LarkClient.BringView | scripts/lib/lark-notification-log-schema.js:138-168 | the requests of one view's turn, refused exactly by the limits on view reads and creations; the conflict branch cannot be taken |
| NotificationLogApply.LarkClient.ConfigureView | scripts/lib/lark-notification-log-schema.js:137-169 | one turn of the view loop with the plan after it |
| NotificationLogApply.LarkClient.ConfigureViews | scripts/lib/lark-notification-log-schema.js:137-169 | the whole view loop, refused exactly by the limits on view reads and view creations, with one plan for each view left |
| NotificationLogApply.LarkClient.ApplySchema | scripts/lib/lark-notification-log-schema.js:104-184 | apply succeeds exactly on an accepted base that has a view or no table and whose closed-form reads fit, and ends in zero drift with exactly the needed requests and plans; however it ends, every base in between is accepted |
| NotificationLogApply.LarkClient.ApplyProgramSchema | scripts/lib/lark-notification-log-schema.js:26-184 | with the program's views and limit, a new process succeeds exactly on an accepted base where not too much is left to configure and a table has a view |
| ChatwootMetadata.DiscoverTables | scripts/lib/chatwoot-lark-metadata-readiness.js:94-150 | the loop files every blueprint table by what is found for it |
| ChatwootMetadata.DiscoveredOnce | scripts/lib/chatwoot-lark-metadata-readiness.js:103-140 | every blueprint key is in exactly one of bound, missing, ambiguous or mismatched, and listed for binding exactly when it is bound by name |
| ChatwootMetadata.FoundExactly | scripts/lib/chatwoot-lark-metadata-readiness.js:107-137 | a table is ambiguous exactly with two candidates by id or by name, missing exactly with none, found or mismatched by the one under its configured id, and otherwise found by its name, which repairs a configured id that leads nowhere |
| ChatwootMetadata.SameIdExactlyWhenShared | scripts/lib/chatwoot-lark-metadata-readiness.js:107-137 | two keys are bound to one id exactly when no remote table has either's configured id, exactly one carries a name of each, and those two share an id |
| ChatwootMetadata.BoundIdsDistinct | scripts/lib/chatwoot-lark-metadata-readiness.js:103-140 | with unique remote ids the bound ids are pairwise distinct |
| ChatwootMetadata.SharedIdIsBoundTwice | scripts/lib/chatwoot-lark-metadata-readiness.js:127-137 | two remote tables under one id are both bound by name |
| ChatwootAnalysis.CheckDuplicates | scripts/lib/chatwoot-lark-metadata-readiness.js:177-189 | a repeated field name is found exactly when there is one |
| ChatwootAnalysis.AnalyzeFields | scripts/lib/chatwoot-lark-metadata-readiness.js:191-221 | the loop over a table's fields |
| ChatwootAnalysis.AnalyzeMetadata | scripts/lib/chatwoot-lark-metadata-readiness.js:152-275 | the analysis fails exactly for a repeated field name of a bound table and otherwise reports actions, problems and the decision |
| ChatwootAnalysis.ReadMetadata | scripts/chatwoot-lark-schema-apply.mjs:188-201 | discovery, the fields of every bound table, and the analysis of both |
| ChatwootAnalysis.CheckedTables | scripts/lib/chatwoot-lark-metadata-readiness.js:172-222 | nothing blocks exactly when every field of every bound table fits or can be added |
| ChatwootAnalysis.TableActionsAt | scripts/lib/chatwoot-lark-metadata-readiness.js:191-208 | a field is to be created exactly when its bound table lacks it and it is not primary |
| ChatwootDecision.DecisionExactly | scripts/lib/chatwoot-lark-metadata-readiness.js:226-230 | which of the four decisions is taken, in terms of the remote base: an ambiguous table blocks first, then a mismatched one or a wrong field; ready is exactly every table under its configured id with every field |
| ChatwootDecision.FailsExactly | scripts/lib/chatwoot-lark-metadata-readiness.js:177-189 | the reading fails exactly when a found table has two fields of one name |
| ChatwootDecision.ReportedExactly | scripts/lib/chatwoot-lark-metadata-readiness.js:191-221 | a problem is reported exactly when a field of a found table gives rise to it |
| ChatwootSchemaApply.NormalizeSafeActions | scripts/lib/chatwoot-lark-schema-apply.js:353-384 | actions are refused exactly when one is repeated or names an unknown table |
| ChatwootSchemaApply.BuildPlan | scripts/lib/chatwoot-lark-schema-apply.js:122-170 | a plan is made exactly from a ready analysis, or an additive one whose tables were reviewed and whose actions can be carried out |
| ChatwootSchemaApply.LarkBase.CreateTable | scripts/chatwoot-lark-schema-apply.mjs:110-124 | a table is added under a new id |
| ChatwootSchemaApply.LarkBase.CreateField | scripts/chatwoot-lark-schema-apply.mjs:126-135 | a field is added to the table with that id |
| ChatwootSchemaApply.LarkBase.Apply | scripts/chatwoot-lark-schema-apply.mjs:98-142 | the loop over the plan's actions, recording the created ids |
| ChatwootSchemaApply.EnvironmentUpdates | scripts/lib/chatwoot-lark-schema-apply.js:172-192 | one entry per blueprint table, refused exactly when one is not bound |
| ChatwootSchemaApply.RunOld | scripts/chatwoot-lark-schema-apply.mjs:101-141 | a run leaves every old table as it was but for the fields created in it |
| ChatwootSchemaApply.RunNew | scripts/chatwoot-lark-schema-apply.mjs:101-141 | the new tables are exactly those the commands asked for, under the recorded ids |
| ChatwootConvergence.TransportFits | scripts/lib/chatwoot-lark-schema-apply.js:326-351 | the type a field is created with is one the blueprint accepts for it |
| ChatwootConvergence.AdditiveCanBePlanned | scripts/lib/chatwoot-lark-schema-apply.js:282-384 | an additive analysis repeats no action and asks for none that cannot be carried out |
| ChatwootConvergence.ApplyReachesReady | scripts/chatwoot-lark-schema-apply.mjs:98-145 | the actions carried out in any order leave a base that reads as ready with no actions, every table bound by its configured id |
| ChatwootConvergence.FieldsAfter | scripts/lib/chatwoot-lark-schema-apply.js:326-342 | after the actions a field that was missing is there with its name, as a number for a checkbox or date that accepts one, as a text for a single select that accepts one, and otherwise with its own type; a field that was there is as it was |
| ChatwootConvergence.EmittedEnvironmentIsReady | scripts/lib/chatwoot-lark-schema-apply.js:172-192 | the same under the environment entries that are emitted |
| ChatwootConvergence.ApplyAdditiveSchema | scripts/chatwoot-lark-schema-apply.mjs:81-163 | the whole apply succeeds exactly from a ready or reviewed additive reading, changes nothing otherwise, and its entries read as ready |
| DashboardConfig.SameContains | scripts/lib/lark-dashboard-window-chart-rebind-v3-2.js:210-227 | configurations with one text hold the same references |
| DashboardConfig.ContainsExactly | scripts/lib/lark-dashboard-window-chart-rebind-v3-2.js:210-217 | the search finds a reference exactly when its text stands somewhere in the tree |
| DashboardConfig.ChangedTopLevelKeys | scripts/lib/lark-dashboard-window-chart-rebind-v3-2.js:199-208 | the loop collects the members whose text changed |
| DashboardConfig.OverlayIsOutput | scripts/lib/lark-dashboard-window-chart-rebind-v3-2.js:199-208 | laying a patch over the input gives the output, and the patch has exactly the changed keys |
| WindowChartRewrite.NodeRedirects | scripts/lib/lark-dashboard-window-chart-rebind-v3-2.js:142-197 | after the rewrite no source reference is left anywhere and each kind of reference has moved to its target |
| WindowChartRewrite.NodeKeeps | scripts/lib/lark-dashboard-window-chart-rebind-v3-2.js:142-197 | a tree whose text the rewrite does not change is not changed at all |
| WindowChartRewrite.ShapeKeptExactly | scripts/lib/lark-dashboard-window-chart-rebind-v3-2.js:142-197 | every key and array length is kept exactly unless a field type beside a reference is an array that reads as two |
| WindowChartRewrite.ArrayTypeLosesShape | scripts/lib/lark-dashboard-window-chart-rebind-v3-2.js:142-181 | an object beside a reference with field type [2] gets the number 3 for it |
| WindowChartRewrite.EveryLeafBecomes | scripts/lib/lark-dashboard-window-chart-rebind-v3-2.js:142-197 | each leaf of the tree becomes what its place says: a preset number or text of a window under a value key beside a reference becomes the text of that same number, a source reference its target, and every other leaf but a field type that reads as two stays |
| WindowChartRewrite.FieldTypeBecomesSelect | scripts/lib/lark-dashboard-window-chart-rebind-v3-2.js:142-181 | a field type beside a reference that reads as two becomes three |
| WindowChartRewrite.RewriteNode | scripts/lib/lark-dashboard-window-chart-rebind-v3-2.js:142-174 | the recursion computes the rewrite and counts every reference |
| WindowChartRewrite.RewritePresetValue | scripts/lib/lark-dashboard-window-chart-rebind-v3-2.js:183-197 | the recursion computes the rewrite of a preset value and counts the numbers among them; what becomes of each leaf is EveryLeafBecomes |
| WindowChartRewrite.CountedExactlyWhenHeld | scripts/lib/lark-dashboard-window-chart-rebind-v3-2.js:142-158 | a reference is counted exactly when the tree holds it |
| WindowChartRewrite.ChecksPass | scripts/lib/lark-dashboard-window-chart-rebind-v3-2.js:90-111 | the three checks after the rewrite can never fire |
| WindowChartRewrite.PatchIsRewrite | scripts/lib/lark-dashboard-window-chart-rebind-v3-2.js:112-119 | the patch laid over the configuration is the rewritten one and has exactly the changed keys |
| WindowChartRewrite.RewriteNumberWindowChart | scripts/lib/lark-dashboard-window-chart-rebind-v3-2.js:67-120 | a chart is refused exactly when it holds no reference, and otherwise rewritten, counted and patched |
| CanonicalRebind.SanitizedIsClean | scripts/lib/lark-dashboard-canonical-rebind-v1.js:224-243 | what is sent for a condition is sent unchanged when it comes back |
| CanonicalRebind.CountFilterResponseMetadata | scripts/lib/lark-dashboard-canonical-rebind-v1.js:245-257 | the loop counts the members a response added, or refuses a malformed filter |
| CanonicalRebind.ReplaceRewindows | scripts/lib/lark-dashboard-canonical-rebind-v1.js:259-277 | replacing leaves no window reference and every display reference |
| CanonicalRebind.OneMetricCondition | scripts/lib/lark-dashboard-canonical-rebind-v1.js:203-222 | a bound block holds exactly one condition on the metric key, asking for the expected value |
| CanonicalConditions.BoundExactly | scripts/lib/lark-dashboard-canonical-rebind-v1.js:203-243 | binding keeps the conditions on other fields in order, each as a request carries it, adds the one on the metric and joins them by `and`; every other member stays |
| CanonicalConditions.EveryLeafRenewed | scripts/lib/lark-dashboard-canonical-rebind-v1.js:259-277 | each name of a retired window field becomes `window_days`, each window text under a value key the number it reads as, and every other leaf and the shape stay |
| CanonicalConditions.OutputLeaf | scripts/lib/lark-dashboard-canonical-rebind-v1.js:86-101 | the output is the bound block, with its leaves renewed exactly when the input names a retired window field |
| CanonicalRebind.HasCanonicalBinding | scripts/lib/lark-dashboard-canonical-rebind-v1.js:150-171 | the later check counts the exact conditions and accepts exactly one |
| CanonicalRebind.RebindTwice | scripts/lib/lark-dashboard-canonical-rebind-v1.js:76-115 | rewriting a rewritten block reports no change, an empty patch and no removals |
| CanonicalRebind.RefusedExactlyForDisplay | scripts/lib/lark-dashboard-canonical-rebind-v1.js:94-101 | a block to bind is refused for its filter exactly when a condition cannot be sent, and any block exactly when a display reference stands beside the filter or in a condition that is kept |
| DisplayBackfill.Planner.Take | scripts/lib/lark-dashboard-display-v2-compatibility-v1.js:97-202 | one turn of the loop places, counts, tallies and lists one record |
| DisplayBackfill.PlanMissing | scripts/lib/lark-dashboard-display-v2-compatibility-v1.js:204-219 | the slots without a record become conflicts |
| DisplayBackfill.PlanBackfill | scripts/lib/lark-dashboard-display-v2-compatibility-v1.js:79-236 | the planner computes the counts, tallies and lists of the records in the order of their ids |
| DisplayConvergence.TalliesSplitTotals | scripts/lib/lark-dashboard-display-v2-compatibility-v1.js:86-134 | each platform's tally is that of its own records, and together they are the totals |
| DisplayConvergence.CountedOnce | scripts/lib/lark-dashboard-display-v2-compatibility-v1.js:110-202 | every record in scope is counted as exactly one of converged, to be updated, or in conflict |
| DisplayConvergence.OutcomeOf | scripts/lib/lark-dashboard-display-v2-compatibility-v1.js:97-145 | a record has an outcome exactly when it is in scope, and the outcome is for its own slot |
| DisplayScope.ScopeExactly | scripts/lib/lark-dashboard-display-v2-compatibility-v1.js:97-110 | a record belongs to a slot exactly when it is a rolling organic report of the customer on the slot's metric and window, and stops the run exactly when it has no id or its window cannot be read |
| DisplayScope.CellForms | scripts/lib/lark-dashboard-display-v2-compatibility-v1.js:271-282 | how a cell shows a text: as it is, alone in a list, or under the first of three names |
| DisplayScope.PlanCounts | scripts/lib/lark-dashboard-display-v2-compatibility-v1.js:221-232 | each count of a plan is the number of its records found so |
| DisplayScope.ExpectedAre | scripts/lib/lark-dashboard-display-v2-compatibility-v1.js:148-159 | a record is expected to show its slot's label exactly when it holds the slot |
| DisplayConvergence.EveryRecordJudged | scripts/lib/lark-dashboard-display-v2-compatibility-v1.js:121-202 | the first record with a settled window in its slot is converged exactly when it shows the label, an update exactly when it shows nothing or a reviewed alias, and a conflict with its text otherwise; later ones and unsettled windows are conflicts |
| DisplayConvergence.UpdatesAreReviewed | scripts/lib/lark-dashboard-display-v2-compatibility-v1.js:161-202 | every update is of a record that shows nothing or a reviewed alias, to its slot's label |
| DisplayConvergence.MissingAreUnclaimed | scripts/lib/lark-dashboard-display-v2-compatibility-v1.js:204-219 | a slot is reported missing exactly when no record claims it |
| DisplayConvergence.NoConflictsIsBijection | scripts/lib/lark-dashboard-display-v2-compatibility-v1.js:135-219 | with no conflicts the records in scope and the slots of platform, window and metric correspond one to one |
| DisplayConvergence.PlanAgain | scripts/lib/lark-dashboard-display-v2-compatibility-v1.js:79-236 | planning again after the updates gives no updates, the same conflicts, and every updated record converged |
| InsertOrIgnore.Database.ExecuteUpTo | scripts/customer-newer-only-organic-bridge.mjs:133-139 | a run executes its statements in order up to where it is cut off and changes no row |
| InsertOrIgnore.OnlyAppends | scripts/lib/customer-newer-only-organic-bridge.js:644-647 | no statement changes or removes a row |
| InsertOrIgnore.ExecutedAreIgnored | scripts/lib/customer-newer-only-organic-bridge.js:644-647 | a statement that has run does nothing more |
| InsertOrIgnore.AttemptsThenAll | scripts/lib/customer-newer-only-organic-bridge.js:423-449 | any number of runs cut off anywhere and one that is not give what one whole run gives |
| OrganicBridge.IndexMasterRows | scripts/lib/customer-newer-only-organic-bridge.js:371-381 | the index holds every allowed master row by its key and fails exactly for a repeated key |
| OrganicBridge.LatestRowsByContent | scripts/lib/customer-newer-only-organic-bridge.js:383-391 | the index holds a newest row of every content |
| OrganicBridge.BuildSqlChunk | scripts/lib/customer-newer-only-organic-bridge.js:423-449 | the loops give the statements of a chunk in order |
| OrganicBridge.BuildScopedBridgePlan | scripts/lib/customer-newer-only-organic-bridge.js:91-175 | a plan is made exactly when the boundaries, counts, account row and master rows are as required |
| OrganicBridgeRuns.SelectedAreNewer | scripts/lib/customer-newer-only-organic-bridge.js:339-344 | exactly the rows in scope that are newer than the boundary and not after the period are selected |
| OrganicBridgeRuns.ChunksPartitionRows | scripts/lib/customer-newer-only-organic-bridge.js:121-154 | every selected row is in exactly one chunk |
| OrganicBridgeRuns.EveryContentHasState | scripts/lib/customer-newer-only-organic-bridge.js:101-139 | after the statements have run every observed content has a state row |
| OrganicBridgeRuns.ObservedExactlyWhenTimed | scripts/lib/customer-newer-only-organic-bridge.js:393-406 | after the statements have run a row of the plan has its observation exactly when one was there before, it is TikTok's, or it is of the last day of the period; which time that is states TimeOfDay |
| OrganicBridgeRuns.TimeOfDay | scripts/lib/customer-newer-only-organic-bridge.js:393-406 | the j-th TikTok date is observed at the time of generation less the number of dates plus j, the last Facebook date when its account row was fetched |
| OrganicBridgeRuns.KeysTellDays | scripts/lib/customer-newer-only-organic-bridge.js:393-406 | timed rows of a plan with different contents or dates have different observation keys |
| OrganicBridgeRuns.TimedRowsAreStored | scripts/lib/customer-newer-only-organic-bridge.js:482-507 | on a database without observations under their keys, every timed row of a plan is stored with its day, source and metrics |
| OrganicBridgeRuns.MissingStatesAreStored | scripts/lib/customer-newer-only-organic-bridge.js:443-480 | a state that the snapshot and the database lack is stored, with the master row's metadata and the newest row's metrics |
| OrganicBridgeRuns.AccountFactIsStored | scripts/lib/customer-newer-only-organic-bridge.js:438-442 | where Facebook is in scope its one account row is stored unless its day was there before |
| OrganicBridgeCoverage.CoverageExactly | scripts/lib/customer-newer-only-organic-bridge.js:423-449 | a plan asks for coverage exactly so: a run with its number of rows for each platform and date, an entity for each row, and both for the account row |
| OrganicBridgeCoverage.CountsAreReviewed | scripts/lib/customer-newer-only-organic-bridge.js:101-120 | a plan is made only from as many rows of each platform and date as were reviewed |
| OrganicBridgeRuns.RunsGiveOneResult | scripts/lib/customer-newer-only-organic-bridge.js:423-449 | the plan's statements keep every existing row and give one result however often they are cut off before |

## Left out

- Vendor calls, the file system, clocks, randomness and subprocesses: outcomes and times are parameters of the methods or events of the runs.
- Signatures, nonces and fingerprints: a hash from a lock key to its file is taken to be injective, and coverage run ids are a parameter.
- Lease lock: a grant is recorded at the file write, rename or removal that makes it true; a file that was opened but not fully written is unreadable, whichever part of it was written; owners and the clock are shared by all processes; an orphan guard is removed only after the call that made it is over.
- Confirmation phrases, argument parsing, evidence files and hard-coded incident and block lists: they are long comparisons with constants.
- Floating-point printing and reading: numbers are the numerals JSON prints; where a text or a cell is read as a number the reading is a parameter.
- Unicode normalization, time zones and locale comparison: names in the Chatwoot tables are normalized names, dates are texts, and where texts are compared by locale the comparison is a parameter.
- Member names `__proto__` in dashboard configurations, to which JavaScript assignment gives another meaning, and block names that are names of built-in object members.
- JSON.parse: whether a slice parses is a parameter of the extractor.
- IncidentClosure.StaysClosableForTheFirst: every text column may be NULL or hold any text, also where a CHECK of the schema forbids it; the sync, coverage and lock facts around the incident stay as they are while it is closed.
- NotificationLogApply.LarkClient.ApplySchema: of the guard's limits those on view reads and view creations refuse requests and the others are counted; a listing is one request and tokens are not counted; the filter of a view is taken to be decided by its rule and the identities of the fields it names, and tables of other names play no part.
- NotificationLog.RunReachesZeroDrift: the field descriptions and colours that a creation sends are not compared by the planner and are not modelled.
- ChatwootConvergence.ApplyReachesReady: remote table ids are taken to be unique and new ids to be new.
- DisplayBackfill.PlanBackfill: record ids carry no white space around them.
- OrganicBridgeRuns.EveryContentHasState: a state row counts by its key or by its platform, account and content; the last date of Facebook is the end of the period, as in both scopes of the program.
- OrganicBridge.BuildSqlChunk: statements are rows with their keys; quoting of values and the scan for other statements are not modelled.
- The rows read from Google Ads, the mappers of their fields, and the checks of the configuration: any rows with a canonical text are covered.
- Wrangler configuration checks after parsing, metadata evidence and environment text rendering.
