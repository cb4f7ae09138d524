# GophKeeper server: a Dafny model

This project models the server side of GophKeeper, a keeper of users' secrets, and proves what
its components keep over every input, every failure point and every interleaving. It covers the
two-store vault behind `keeper.Service` under concurrent calls, the chunked Postgres storage with
its streaming reader, the password strings of `pkg/hash`, the refresh-token lifecycle under retried
statements, the registration race, and the relational schema with its cascades.

`dafny verify dfyconfig.toml` checks everything.

## How it is modelled

- `Common.dfy`: bytes and options.
- `Base64.dfy`, `Phc.dfy`: unpadded base64 (section 4 of RFC 4648, padding omitted per section
  3.2), decimal numerals, `strings.Split`, `strconv.Atoi`, the `%d` verb of `fmt.Sscanf`, and on
  top of them the PHC printer and the password check. Argon2id (section 3.1 of RFC 9106) is a
  function parameter.
- `Retry.dfy`: `WithRetry`, first on the reports of the attempts, then on a state that a statement
  changes when each attempt may take effect whatever the caller hears.
- `Sessions.dfy`: the `refresh_tokens` table, `TokenRepository` and `session.Manager`;
  `SessionRuns.dfy`: any number of concurrent manager calls, interleaved at every attempt.
- `Schema.dfy`: the tables with their foreign keys, uniqueness constraints and checks, the insert
  statements, and deletion as the cascade the foreign keys prescribe.
- `SealedRepo.dfy`, `SealedLoad.dfy`: the transaction and read loop of `SealedRepo.Put`, with the
  dropped insert errors, the int32 index, and the reader shared by retried attempts. SHA-256 is a
  function parameter.
- `Pipe.dfy`: the producer goroutine of `SealedRepo.Get` and the caller on the two ends of an
  `io.Pipe`, as a state machine over all schedules.
- `SealedGet.dfy`: the read query, and Put followed by Get.
- `Vault.dfy`: `AddSealed`, `Delete`, `GetSealed`, `List` and `Sync` as any number of concurrent
  calls, interleaved at every store call and every callback, with the invariant they keep.
- `VaultRuns.dfy`: what whole runs of that protocol guarantee: refinement to one map, calls that do
  what their arguments asked for, what readers are given, and the accounting of objects.
- `Keeper.dfy`, `AddStream.dfy`: the same service as objects that change their stores in place, and
  the streaming `Add` handler; `AddStreamRuns.dfy`: the handler among other calls of the protocol.
- `LostRows.dfy`: the metadata insert under `WithRetry`, with answers that get lost.
- `PostgresObjects.dfy`: the tables as the object store the vault takes for granted;
  `PostgresRuns.dfy`: `AddSealed` calls on them, interleaved at every transaction and statement.
- `Registration.dfy`: any number of concurrent `Register` calls, interleaved at every statement.

Whatever the surroundings decide is a parameter: the answer of each store call, the fate of each
attempt, the identifiers and locators handed out, the random salt, the clock, and the ending of a
client stream. A failed store call of the vault has no effect unless said otherwise. Locators, row
ids and tokens that are handed out are new; statements on the schema check this themselves, as
primary keys do. For the Postgres object store, that a put's locator is new is proved from the
manifest's primary key (`PostgresObjects.PutIsPutObject`). Metadata that is listed or delivered
carries no user, as the metadata repository leaves it out.

## What turned out not to hold

Each of these is stated as a lemma, with the exact condition under which the code does meet the
intent.

- `GenerateFromPassword` passes the memory and the time cost in the opposite order to the printer's
  parameters, so a registered user is let in exactly when the key derivation does not tell the two
  orders apart (`Phc.LoginAfterRegistration`, `Phc.SwappedCostsLockOut`).
- A retried `Put` finds its reader consumed, so it can report success with nothing stored
  (`SealedGet.SuccessWithoutData`); the data is there exactly when no statement of the first attempt
  that read failed and its commit took effect (`SealedRepo.PutLeaves`).
- `Put` checks every chunk against one digest and records the requested size as every chunk's
  length, so what was put reads back exactly when all chunks have that digest and the size divides
  the data (`SealedGet.RoundTripIff`); `AddSealed`, which puts one chunk, is such a case.
- A metadata put that is retried after a lost success leaves two rows on one object, or one row on
  none. The stores stay consistent exactly when no answer is lost, or one is, none is heard and the
  compensation fails too (`LostRows.ConsistentIffHeard`, with failing networks in
  `LostRows.LostAnswersBreakStores`).
- A `GetSealed` or `Sync` that overlaps a `Delete` may hand its callback an empty object
  (`VaultRuns.DeliversNothing`); the bytes are the recorded ones exactly when no delete of that
  entry has reached its object before the read (`VaultRuns.DeliveryExact`).
- On the Postgres tables alone, what `AddSealed` adds does not read back: the object is filed under
  the client's identifier, while the read goes by the id of the metadata row, which is a new one
  (`PostgresObjects.AddedReadsEmpty`). A read finds the bytes exactly when one row carries the locator
  and they are stored under that row's own id (`PostgresObjects.ReadFindsIff`). The round trips of
  `SealedGet` are about that case.
- Deletes by locator go the same way and miss as well: the compensation of `AddSealed` leaves the
  object (`PostgresObjects.CompensationMisses`), and a `Delete` that reports success leaves the secret's
  bytes (`PostgresObjects.DeleteLeavesObject`). The object goes exactly when the one row that carries
  the locator is the one it was stored under (`PostgresObjects.DeleteFindsIff`); for both halves of
  `Delete`, exactly when that row carries the locator at all (`PostgresObjects.BothDeletesFindIff`).
- A put needs an object row, and object rows come only from successful puts: on tables without
  object rows `AddSealed` is never accepted unless the commit of its data is reported lost
  (`PostgresRuns.NothingIsAccepted`), and then nothing is stored
  (`PostgresRuns.AcceptedWithoutObject`). Binary data is never added at all, since the table does not
  know its type name with the leading space (`PostgresRuns.BinaryIsNeverAdded`).
- One refresh token can buy several sessions: the manager's delete does not tell whether the token
  was there. Concurrent refreshes of one token all succeed exactly when their deletes and saves are
  acknowledged (`SessionRuns.OneTokenTwoSessions`, with such a run in `SessionRuns.RefreshedTwice`).
- A registration that is reported as failed may have left its row, and then its login can never be
  registered again (`Registration.FailedButTaken`, with such a run in
  `Registration.FailureThatTakes`). It has exactly when one of its inserts took effect unheard or
  the session of its new user could not be created (`Registration.FailedLeftRowIff`).
- The password check takes parts of a stored string without counting them, so it panics instead of
  reporting an error exactly on strings with fewer than three parts, or with the right version and
  fewer than six (`Phc.PanicsIff`, for instance `Phc.PlainTextPanics`).
- With a chunk size of zero the loop of `Put` ends exactly when there is nothing to read
  (`SealedRepo.LoopEndsIff`).

Two departures of the code from its comments are taken as the code has them: `Put` treats a size of
zero as a chunk size, although the interface offers it for unknown sizes, and `DataTypeBinary`
starts with a space.

## Model

| member | source | states |
|---|---|---|
| Vault.RunKeepsInv | internal/service/server/keeper/keeper.go:91-241 | in every state of every interleaving, each row is as recorded and names a live object, no two rows share one, objects in the hands of a call are unnamed and held once, every item a reader has is a recorded entry, every byte string passed on is the recorded one or empty with the object deleted, and objects = rows + held + leaked |
| VaultRuns.RunRefines | internal/service/server/keeper/keeper.go:91-264 | every run of the two stores is a run of one map from id to metadata and bytes: a recorded row adds one new entry, a deleted row removes its entry, no other store call changes anything, and each addition or removal is the one the call that makes it was given as arguments |
| VaultRuns.StepRefines | internal/service/server/keeper/keeper.go:115-129 | each single store call, successful or failed, is exactly its abstract effect on the map |
| VaultRuns.CallIsHonoured | internal/service/server/keeper/keeper.go:91-241 | from its start on, every call stands by its arguments in every interleaving: AddSealed carries and records its own metadata and bytes, Delete removes the id it was given and after success row and object are gone, GetSealed delivers the id it was given, Sync lists its user in its mode |
| VaultRuns.AddedExactlyOnce | internal/service/server/keeper/keeper.go:123-131 | an AddSealed ended as Added(id) exactly when it is the one call that recorded id, and the entry is its own metadata, user and bytes; failed calls recorded nothing |
| VaultRuns.EntryPersists | internal/service/server/keeper/keeper.go:91-198 | an entry stays unchanged through any run that does not delete its id |
| VaultRuns.LiveIffNotRemoved | internal/service/server/keeper/keeper.go:179-189 | a recorded entry has its row exactly until a delete of its id takes effect |
| VaultRuns.AddThenGet | internal/service/server/keeper/keeper.go:91-161 | after AddSealed returned id, and while no delete of id takes effect, the map holds its metadata and bytes under id and every GetSealed of id that calls back delivers exactly them: id, type, name, description and bytes of the AddSealed call, and no user |
| VaultRuns.GoneIffDropped | internal/service/server/keeper/keeper.go:190-195 | the object of a recorded entry is there exactly until the second half of a Delete of its id succeeds |
| VaultRuns.DeliveryExact | internal/service/server/keeper/keeper.go:146-160 | the bytes GetSealed or Sync passes on are the recorded ones if and only if no Delete of that entry has reached its object before the read, and empty otherwise |
| VaultRuns.DeliveredIsRecorded | internal/service/server/keeper/keeper.go:137-161 | a finished GetSealed delivered the id it was asked for with the columns and the bytes the AddSealed of that id was called with, or with no bytes if a Delete of it reached its object |
| VaultRuns.DeliversNothing | internal/service/server/keeper/keeper.go:137-161 | a run in which an accepted, non-empty entry is delivered empty |
| VaultRuns.ItemsWereListed | internal/service/server/keeper/keeper.go:164-176 | the items of List and Sync are all rows of the user at one moment, each once, whatever goes on meanwhile |
| VaultRuns.ListedWereAdded | internal/repo/db/metadata_repo.go:121-134 | each item of List and Sync shows id, type, name and description, and no user, as some AddSealed of that same user was called with them |
| VaultRuns.SyncedIsRecorded | internal/service/server/keeper/keeper.go:201-241 | a finished Sync, under any interleaving, called back for a prefix of such a list, in order, each item with the columns and bytes its AddSealed was called with, or no bytes if a Delete reached its object; success in short mode means the whole list, in any other mode exactly the empty list |
| VaultRuns.DeletesAreSafe | internal/service/server/keeper/keeper.go:124-129 | neither the compensating delete of AddSealed nor the second half of Delete ever touches an object a row names |
| VaultRuns.OrphanAccounting | internal/service/server/keeper/keeper.go:115-195 | objects minus rows is the number of calls between their two store calls plus the number of failed deletes, hence zero when all is done and none failed |
| LostRows.InsertsUnder | internal/repo/db/metadata_repo.go:30-54 | the retried insert leaves one row for each answer lost and one for the acknowledged attempt, and no more |
| LostRows.LossesExactly | internal/repo/db/common.go:29-45 | the combinations of lost and heard answers that the four attempts admit: up to three lost before a success, up to four without one, and all of them occur |
| LostRows.ConsistentIffHeard | internal/repo/db/metadata_repo.go:30-61 | for every network, the stores stay consistent if and only if no answer was lost, or one was, no attempt was acknowledged and the compensation failed too |
| LostRows.LostAnswersBreakStores | internal/service/server/keeper/keeper.go:123-129 | two networks that break any consistent stores: a lost answer followed by a success, and a lost answer followed by an error and a compensation |
| LostRows.HeardIsOneStep | internal/repo/db/metadata_repo.go:30-61 | without a lost answer the retried put is the single store call of the protocol |
| Keeper.AddKeepsVault | internal/service/server/keeper/keeper.go:110-131 | AddSealed past its checks keeps the stores consistent and either adds exactly one new entry or leaves the abstract map alone; undone, it leaves no trace |
| Keeper.DeleteKeepsVault | internal/service/server/keeper/keeper.go:179-198 | Delete removes the entry exactly when the metadata delete succeeds, touches no other entry, and leaves one object over exactly when its delete failed |
| Keeper.AddIsASchedule | internal/service/server/keeper/keeper.go:91-132 | an undisturbed AddSealed is one schedule of the concurrent protocol, with the same result and stores |
| Keeper.DeleteIsASchedule | internal/service/server/keeper/keeper.go:179-198 | likewise an undisturbed Delete |
| Keeper.LostDeleteIsASchedule | internal/service/server/keeper/keeper.go:179-189 | a Delete whose metadata delete took effect unheard fails, with its entry gone and its object left |
| Keeper.GetIsASchedule | internal/service/server/keeper/keeper.go:137-161 | an undisturbed GetSealed of an id with a row delivers that row's columns, without the user, and its object's bytes; an error of either store is an error |
| Keeper.ListIsASchedule | internal/service/server/keeper/keeper.go:164-176 | an undisturbed List succeeds with all rows of its user unless the store fails |
| Keeper.SyncIsASchedule | internal/service/server/keeper/keeper.go:201-241 | an undisturbed Sync, however far its loop gets, is a schedule of the concurrent protocol with the same callbacks and the same success |
| Keeper.BadArgumentsFail | internal/service/server/keeper/keeper.go:96-109 | calls with empty or unacceptable arguments fail at once |
| Keeper.Service.AddSealed | internal/service/server/keeper/keeper.go:91-132 | rejected calls change nothing; accepted ones write the user into the caller's metadata, leave the stores as the saga prescribes, and the abstract map with one entry more or unchanged |
| Keeper.Service.Load | internal/service/server/keeper/keeper.go:245-264 | the object's bytes when opening, reading and closing all succeed, an error otherwise |
| Keeper.Service.GetSealed | internal/service/server/keeper/keeper.go:137-161 | at most one callback, with id, type, name, description and bytes of exactly the entry of that id and no user; the exact condition for success; success means the callback was made |
| Keeper.Service.List | internal/service/server/keeper/keeper.go:164-176 | every row of the user, each once, column by column without the user |
| Keeper.Service.Delete | internal/service/server/keeper/keeper.go:179-198 | new stores, new abstract map, and exactly when it succeeds |
| Keeper.Service.Sync | internal/service/server/keeper/keeper.go:201-241 | undisturbed, the callbacks made are a prefix of the user's list, in order, each item with its own entry's columns and bytes, as far as Progress says; under concurrency see VaultRuns.SyncedIsRecorded |
| Keeper.ProgressMeaning | internal/service/server/keeper/keeper.go:215-240 | in short mode success comes exactly when every item goes through and then the whole list was delivered; in any other mode no callback is made and success is exactly the empty list |
| Keeper.MetadataRepo.ListByUser | internal/repo/db/metadata_repo.go:98-136 | the rows of the user in some order, each exactly once, column by column without the user |
| AddStream.Handler.Add | internal/api/v1/keeper_service.go:80-148 | undisturbed, nothing is stored unless the stream was received to its end; then the vault holds what it held before plus exactly the requests before the first that is invalid or fails, each under its own id, and the status says which; a failed SendAndClose is passed on; among other calls see AddStreamRuns |
| AddStream.StoredExactly | internal/api/v1/keeper_service.go:111-147 | storing k requests adds exactly k entries, one per request under its own id, and changes no other |
| AddStream.FirstStop | internal/api/v1/keeper_service.go:111-145 | the first request that is invalid, refused or not stored: all before it go, it does not |
| AddStreamRuns.StreamRecords | internal/api/v1/keeper_service.go:111-145 | in every interleaving with other calls, every request of the stream before the last one called for has recorded its own entry, the last has or has not, no call of the stream has recorded anything else, and each entry is in the vault exactly as long as no delete of its id takes effect |
| AddStreamRuns.StreamIdsDiffer | internal/api/v1/keeper_service.go:111-145 | different requests of a stream have different ids |
| AddStreamRuns.StreamRecordsAll | internal/api/v1/keeper_service.go:111-147 | a stream that ends well has recorded every one of its requests |
| SealedRepo.Repo.PutLogic | internal/repo/db/sealed_repo.go:78-114 | whenever the loop ends at all, it ends after one read more than there are chunks, with the reader consumed, and leaves the database as the transaction prescribes |
| SealedRepo.LoopEndsIff | internal/repo/db/sealed_repo.go:99-106 | some read of the loop finds end of file if and only if the chunk size is not zero or there is nothing to read |
| SealedRepo.EofAfterChunks | internal/repo/db/sealed_repo.go:99-106 | and it is exactly the one after the last chunk |
| SealedRepo.Repo.PutRetried | internal/repo/db/sealed_repo.go:116-120 | without an attempt that reads, nothing changes and Put fails; with one, the shared reader is consumed, the database holds that attempt's chunks exactly when its statements all succeeded and its commit took effect; Put fails if a statement did, unless that commit was reported lost, and succeeds if that commit was acknowledged |
| SealedRepo.ChunkCount | internal/repo/db/sealed_repo.go:99-106 | the loop sees ceil(size of data / chunk size) chunks |
| SealedRepo.IndexWraps | internal/repo/db/sealed_repo.go:99-106 | the chunk index counts to 2147483647 and then wraps to -2147483648 |
| SealedRepo.ChunksAreTheData | internal/repo/db/sealed_repo.go:36-47 | the chunks concatenate to the data, none is empty, all but the last are full |
| SealedLoad.LoadHolds | internal/repo/db/sealed_repo.go:49-72 | a transaction still active after the loop lost no insert: it holds every chunk of the requested digest at its own index with its own bytes, all indices differ, and nothing else is new |
| SealedLoad.LoadKeepsConstraints | internal/repo/db/sealed_repo.go:53-71 | and it breaks no constraint of the schema |
| SealedLoad.LoadGoesThrough | internal/repo/db/sealed_repo.go:49-72 | on an object that is there and has nothing stored, with statements that reach the database, the transaction of any data in up to 2^31 chunks stays active |
| SealedGet.RoundTripIff | internal/repo/db/sealed_repo.go:33-136 | for every data, size, digest and failure pattern, a committed put reads back as the data with all length checks passed if and only if all chunks have the digest and the size divides the data |
| SealedGet.StorableReadsBack | internal/repo/db/sealed_repo.go:33-188 | for all data that is storable in this way, a reader of the committed put that meets no failure gets exactly the data and a clean end |
| SealedGet.TooManyChunksAbort | internal/repo/db/sealed_repo.go:99-106 | data that would be storable but for needing more than 2^31 chunks is never committed, because the index wraps |
| SealedGet.TooManyChunksTooShort | internal/repo/db/sealed_repo.go:99-106 | and whatever else is committed from so many chunks reads back too short |
| SealedGet.SealedRoundTrip | internal/service/server/keeper/keeper.go:114-116 | with AddSealed's arguments the manifest gains exactly one entry, at index 0 with the right length, and the query finds exactly the sealed bytes |
| SealedGet.ReaderGetsSealed | internal/repo/db/sealed_repo.go:138-188 | for every schedule and read size, a reader of that stream that ends cleanly has exactly the data, it never sees a length error, and without failures its first Read after the producer has finished ends cleanly with all of the data |
| SealedGet.SealedIsReadable | internal/repo/db/sealed_repo.go:138-188 | there is a run that reads the sealed bytes to their clean end |
| SealedRepo.PutLeaves | internal/repo/db/sealed_repo.go:78-116 | what a retried Put leaves: if a statement of the first attempt that reads failed, nothing, and an error unless that attempt's commit was reported lost; otherwise the chunks exactly when that commit took effect |
| SealedRepo.FirstReader | internal/repo/db/sealed_repo.go:79-82 | the first attempt whose Begin succeeds, all before it refused retryably |
| SealedGet.PutThenGet | internal/repo/db/sealed_repo.go:75-136 | after AddSealed's put reports success, retries included, the read query finds exactly the sealed bytes if no statement of the first attempt that read failed and its commit took effect, and an empty object otherwise |
| SealedRepo.PutWithoutReading | internal/repo/db/sealed_repo.go:79-97 | if no attempt begins, or the identifier is no UUID, nothing changes and Put fails |
| SealedGet.SuccessWithoutData | internal/repo/db/sealed_repo.go:108-116 | a Put that reports success and stores nothing |
| Pipe.RunKeeps | internal/repo/db/sealed_repo.go:141-177 | the invariant of producer, pipe and reader in every interleaving |
| Pipe.ReaderSeesPrefix | internal/repo/db/sealed_repo.go:158-177 | the bytes read are a prefix of the chunks in order; a clean end means every chunk was sound and all was read; a length or scan error names the first unsound row, with exactly the rows before it read |
| Pipe.CleanEndIff | internal/repo/db/sealed_repo.go:143-177 | a finished producer has closed with end of file if and only if every row was sound, neither the query nor its rows failed, and no Write found the reader gone |
| Pipe.SoundStreamEndsCleanly | internal/repo/db/sealed_repo.go:144-177 | with sound rows, no failure and a reader that does not close, the first Read after the producer has finished sees end of file with everything read |
| Pipe.FirstFailureIsReported | internal/repo/db/sealed_repo.go:152-175 | the first failure decides the error the writing side has closed with, for good: query, scan of that row, length of that row, rows, or closed pipe |
| Pipe.ClosedForGood | internal/repo/db/sealed_repo.go:141-141 | once the reader has closed it gets nothing more and every Read says so |
| Pipe.AnythingCanFail | internal/repo/db/sealed_repo.go:152-175 | when the query, the rows and the reader can fail; a closing reader releases the Write in progress |
| Pipe.ReadTakes | internal/repo/db/sealed_repo.go:168-170 | a Read of the open pipe takes as much as it asks for or as is being written |
| Pipe.FirstErrorWins | internal/repo/db/sealed_repo.go:152-175 | once the writing side has closed, its error never changes and nothing more is delivered |
| Pipe.EveryMoveProgresses | internal/repo/db/sealed_repo.go:158-171 | every producer step and every non-empty read of the open pipe decreases a natural-number measure by at least one, and no other step increases it |
| Pipe.RunsAreBounded | internal/repo/db/sealed_repo.go:158-171 | any run makes at most three such steps per row, one per byte and two more, so none goes on for ever |
| Pipe.NoDeadlock | internal/repo/db/sealed_repo.go:143-179 | some such step that does not fail is always possible until the producer has finished, and then the next read tells with which error, or end of file, the stream was closed |
| Pipe.CanFinish | internal/repo/db/sealed_repo.go:143-179 | every run without a failed query or broken rows can be brought to its end by moves that do not fail either |
| Base64.RoundTrip | pkg/hash/hash.go:85-92 | decoding undoes encoding for every byte string, in all three length residues |
| Base64.DecoderAcceptance | pkg/hash/hash.go:85-92 | the decoder accepts exactly the strings that, without CR and LF, consist of symbols and do not end in a single dangling one |
| Base64.NewlinesAreSkipped | pkg/hash/hash.go:85-92 | CR and LF, and nothing else, are skipped wherever they stand |
| Base64.TestVectors | pkg/hash/hash.go:123-124 | the test vectors of RFC 4648, without padding |
| Base64.EncodingIsSymbols | pkg/hash/hash.go:123-124 | encodings consist of the 64 symbols and have the unpadded length |
| Numerals.AtoiOfPrint | pkg/hash/hash.go:67-71 | Atoi reads back what %d prints, exactly for 64-bit integers |
| Numerals.AtoiShapes | pkg/hash/hash.go:67-71 | what Atoi takes is digits with an optional sign and a value of 64 bits, with that value; nothing else |
| Numerals.ScanOfPrint | pkg/hash/hash.go:80 | the %d verb of Sscanf reads back a printed number that fits and stops right after it; one that does not fit is an error |
| Numerals.ScanSkipsSpace | pkg/hash/hash.go:80 | it skips spaces and tabs before the number and refuses a newline |
| Splitting.SplitUndoesJoin | pkg/hash/hash.go:65 | splitting at '$' recovers any list of parts without '$' |
| Splitting.JoinUndoesSplit | pkg/hash/hash.go:65 | joining the parts of a split gives the string back, and no part holds a '$' |
| Phc.PhcSplits | pkg/hash/hash.go:37-37 | the printed string splits into exactly six parts, each its own field |
| Phc.ParametersRoundTrip | pkg/hash/hash.go:80-83 | the cost parameters are read back from their printed form exactly if they fit 32, 32 and 8 bits, whatever follows |
| Phc.CompareOfGenerated | pkg/hash/hash.go:57-126 | on every printed string, a password is accepted if and only if the key derived with the printed salt, costs and length is the printed hash; any other version is reported; versions and costs that do not fit are errors |
| Phc.VerdictsMean | pkg/hash/hash.go:57-107 | on any string at all, what each verdict says about its fields |
| Phc.PanicsIff | pkg/hash/hash.go:65-85 | the check runs past the parts exactly on strings with fewer than three, or with version 19 and fewer than six |
| Phc.GeneratedIsInjective | pkg/hash/hash.go:109-126 | two settings with one printed form are the same setting |
| Phc.GeneratedText | pkg/hash/hash.go:39-55 | the stored string, field by field: argon2id, version 19, m=2,t=65536,p=1, salt, and the 32-byte key derived with time 2, memory 65536 and one thread |
| Phc.LoginAfterRegistration | pkg/hash/hash.go:39-55 | a freshly registered user is let in with an attempt if and only if its key under swapped costs is the stored key |
| Phc.SwappedCostsLockOut | pkg/hash/hash.go:47-54 | with a key function that tells the two orders apart the right password is refused |
| Retry.WithRetryIsFirstStop | internal/repo/db/common.go:29-45 | the first attempt that succeeds, is not retryable or exhausts the bound decides; from counter c it is one of at most 4 - c, and the pauses before it add up to (c+k)^2 - c^2 |
| Retry.FourAttempts | internal/repo/db/common.go:35-43 | in numbers: from counter c, attempts that fail retryably up to counter 3 are 4 - c with 9 - c^2 seconds of pauses, and a success with counter 3 still counts |
| Retry.FirstStopExists | internal/repo/db/common.go:29-45 | there is exactly one such attempt |
| Retry.RetriedIsAtMostOnce | internal/repo/db/common.go:29-63 | a retried idempotent statement leaves the state of one application when it succeeds and of zero or one when it fails |
| Retry.RetriedEffect | internal/repo/db/common.go:29-63 | and which of the two, exactly: one if any attempt up to the deciding one took effect |
| Retry.RetriedFollowsWithRetry | internal/repo/db/common.go:29-45 | a retried statement succeeds exactly when WithRetry returns a value |
| Retry.Connection.Execute | internal/repo/db/common.go:29-45 | on state changed in place: success exactly when WithRetry returns, and an idempotent statement applied once if any attempt up to the deciding one took effect, which success implies, and not at all otherwise |
| Sessions.SaveIsAtMostOnce | internal/repo/db/token_repo.go:31-63 | a token save is exactly one upsert when it succeeds, zero or one when it fails, and moves no other token |
| Sessions.DeleteIsAtMostOnce | internal/repo/db/token_repo.go:96-113 | likewise for a token delete |
| Sessions.ValidationFollowsHistory | internal/repo/db/internal/sqlc/tokens.sql.go:14-63 | after any run of create, refresh and revoke a token validates for a user at a time if and only if its last effective write saved it for that user with a later expiry |
| Sessions.RefreshSwaps | pkg/session/session.go:55-69 | a successful refresh swaps exactly the old token for the new; in no outcome are both stored; no other token moves |
| Sessions.RefreshCount | pkg/session/session.go:55-69 | a successful refresh keeps the number of tokens exactly when the old one was stored and adds one otherwise; a failed one stays within those bounds |
| Sessions.RevokedStaysInvalid | pkg/session/session.go:91-99 | a revoked or refreshed token validates for nobody in any later state unless the same bytes are issued again |
| SessionRuns.ValidInEveryRun | internal/repo/db/internal/sqlc/tokens.sql.go:14-63 | in every interleaving of manager calls at every attempt, a token validates if and only if the last write of it that took effect saved it for that user with a later expiry |
| SessionRuns.CallIsHonoured | pkg/session/session.go:33-99 | in every interleaving a refresh or revoke deletes the token it was given, a session is for the user of its call with the token and expiry issued to it, and a revoke has succeeded exactly when its delete was acknowledged |
| SessionRuns.DeletesWhatWasAsked | pkg/session/session.go:55-99 | every delete attempt of a call removes exactly the token named in the call |
| SessionRuns.RevokedIff | pkg/session/session.go:91-99 | a revoke has succeeded if and only if its delete was acknowledged, and then its token, if handed out, validates for nobody from there on |
| SessionRuns.CreateIsASchedule | pkg/session/session.go:33-53 | an undisturbed CreateSession, retries included, is a schedule of the protocol with the same table and success |
| SessionRuns.RefreshIsASchedule | pkg/session/session.go:55-69 | likewise RefreshSession |
| SessionRuns.RevokeIsASchedule | pkg/session/session.go:91-99 | likewise RevokeSession |
| SessionRuns.RefreshedIff | pkg/session/session.go:55-69 | a refresh has a new session if and only if its delete and its save were acknowledged, whatever other calls do and whether or not the old token was stored |
| SessionRuns.OneTokenTwoSessions | pkg/session/session.go:55-69 | two refreshes of one old token both get a session if and only if both heard their delete and their save; the sessions differ, and each is valid until it expires unless its token was deleted |
| SessionRuns.RefreshedTwice | pkg/session/session.go:55-69 | a run in which one stored token becomes two |
| SessionRuns.DeletedForGood | pkg/session/session.go:91-99 | once a delete of a handed-out token took effect, heard or not, it validates for nobody in any later state of any interleaving |
| Sessions.TokenRepository.Save | internal/repo/db/token_repo.go:31-63 | success exactly when WithRetry returns; then the table has the row under the token, otherwise that or what it had; no other token moves |
| Sessions.TokenRepository.Delete | internal/repo/db/token_repo.go:96-113 | success exactly when WithRetry returns; then the table is the old one without the token, otherwise that or the old one |
| Sessions.TokenRepository.Validate | internal/repo/db/token_repo.go:65-94 | succeeds exactly when an attempt is answered within the bound and the table validates the token |
| Sessions.Manager.CreateSession | pkg/session/session.go:33-53 | if nothing could be issued nothing changes and it fails; otherwise after success the token validates for its user exactly until it expires, and the table differs at most in that token |
| Sessions.Manager.RefreshSession | pkg/session/session.go:55-69 | deletes, then creates; after success the old token validates for nobody |
| Sessions.Manager.RevokeSession | pkg/session/session.go:91-99 | after success the token is gone |
| Registration.LoginsStayUnique | sql/migrations/00001_init.up.sql:2-6 | in every interleaving of registrations with retried inserts, no two users share a login hash and all constraints hold |
| Registration.AtMostOneSucceeds | internal/api/v1/auth_service.go:143-184 | at most one registration per login obtains a user, and none if the login existed before |
| Registration.SessionBelongsToRow | internal/api/v1/auth_service.go:162-184 | the session of a successful registration belongs to the row that registration made |
| Registration.RegisteredAsAsked | internal/api/v1/auth_service.go:160-184 | in every interleaving a registration that succeeded has a row with exactly the login hash and password string it was called with, and a session token with the expiry it was issued with |
| Registration.MadeAsAsked | internal/repo/db/user_repo.go:30-51 | every row a registration has made carries the login hash and password string it was called with |
| Registration.RegisterIsASchedule | internal/api/v1/auth_service.go:147-184 | where the login is free a registration gets its row after up to three retryable failures of its insert and succeeds if its session is saved; after four it fails with nothing left |
| Registration.TurnedAway | internal/api/v1/auth_service.go:147-170 | a registration that could not check its login or found it taken has failed for good and inserts nothing; one whose insert was refused has failed for good |
| Registration.EveryRowHasItsMaker | internal/repo/db/user_repo.go:30-51 | every new row was inserted by exactly one registration of its login, which holds it, or lost the answer, or failed to get a session |
| Registration.FailedLeftRowIff | internal/api/v1/auth_service.go:147-170 | over every run, a failed registration left a row of its own if and only if one of its inserts took effect unheard or its session could not be created |
| Registration.FailedButTaken | internal/api/v1/auth_service.go:147-170 | once a failed registration had an insert applied unheard or lost its session, its login is taken in every later state and no registration of it succeeds in any continuation |
| Registration.FailureThatTakes | internal/repo/db/user_repo.go:30-51 | such a run, on any database where the login is free |
| Schema.InsertUserKeeps | internal/repo/db/internal/sqlc/users.sql.go:14-30 | inserting a user keeps all constraints |
| Schema.SaveTokenKeeps | internal/repo/db/internal/sqlc/tokens.sql.go:24-41 | the token upsert keeps all constraints |
| Schema.InsertObjectKeeps | internal/repo/db/internal/sqlc/metadata.sql.go:112-145 | inserting an object row keeps all constraints |
| Schema.InsertObjectColumns | internal/repo/db/internal/sqlc/metadata.sql.go:112-145 | when the insert goes through, and each column of the new row, the type by its number; nothing else changes |
| Schema.InsertBlobKeeps | internal/repo/db/internal/sqlc/objects.sql.go:27-43 | inserting a blob keeps all constraints |
| Schema.PutManifestKeeps | internal/repo/db/internal/sqlc/objects.sql.go:45-65 | inserting a manifest row keeps all constraints, among them that its blob belongs to the same object |
| Schema.Cascade | sql/migrations/00001_init.up.sql:8-59 | the cascade takes exactly the rows from which some chain of references leads to a deleted row |
| Schema.Delete | sql/migrations/00001_init.up.sql:8-59 | a delete removes exactly what the deleted rows own, leaves every other row as it was, and keeps all constraints |
| Schema.DeleteKeepsConstraints | sql/migrations/00001_init.up.sql:49-59 | whatever is deleted with its cascade, no surviving row points at a removed one and no other constraint breaks |
| Schema.OwnedExactly | sql/migrations/00001_init.up.sql:8-47 | what a user or an object owns through chains of references, said in the columns: its tokens, objects, blobs and chunks and no others |
| Schema.BlobsTakeManifest | internal/repo/db/internal/sqlc/objects.sql.go:14-25 | deleting the blobs of some objects takes exactly them and those objects' whole manifests, thanks to the composite foreign key |
| PostgresObjects.PutIsPutObject | internal/repo/db/sealed_repo.go:94-122 | a committed put of AddSealed has a locator under which nothing was stored, because of the manifest's primary key, and adds exactly that object to the store |
| PostgresObjects.PutGoesThroughIff | sql/migrations/00001_init.up.sql:34-59 | when the statements reach the database, the put goes through if and only if the object row is there and nothing is stored under it |
| PostgresObjects.ReadFindsIff | internal/repo/db/sealed_repo.go:125-136 | the read query finds given bytes if and only if exactly one row carries the locator and the bytes are stored under that row's id |
| PostgresObjects.AddedReadsEmpty | internal/service/server/keeper/keeper.go:114-124 | after AddSealed's put and its metadata insert, a read by the new locator finds nothing, or fails if the locator was in use |
| PostgresObjects.DeleteObject | internal/repo/db/internal/sqlc/objects.sql.go:14-25 | the blobs of the row that carries the locator go, with the cascade; several such rows are an error, none deletes nothing; constraints and object rows stay |
| PostgresObjects.DeleteFindsIff | internal/repo/db/internal/sqlc/objects.sql.go:14-25 | what is stored under a locator is deleted by it if and only if the one row that carries it is the row it was stored under |
| PostgresObjects.DeleteIsDropObjectIff | internal/repo/db/internal/sqlc/objects.sql.go:14-25 | the delete is the object store's delete of that locator if and only if that is so, or nothing is stored under either id |
| PostgresObjects.CompensationMisses | internal/service/server/keeper/keeper.go:124-129 | with no row carrying the locator before, the compensation of a committed put reports success and leaves the object with its bytes |
| PostgresObjects.BothDeletesFindIff | internal/service/server/keeper/keeper.go:179-198 | after both halves of Delete the object behind the locator is gone if and only if the row it was stored under carries the locator; otherwise its bytes are still there |
| PostgresObjects.DeleteLeavesObject | internal/service/server/keeper/keeper.go:179-198 | AddSealed's put and insert followed by both halves of Delete, all successful, leave the sealed bytes stored |
| PostgresRuns.NothingIsAccepted | internal/repo/db/sealed_repo.go:54-61 | in every interleaving from tables without object rows, no AddSealed gets past its put, and no object row appears, until some attempt with data to insert has its commit reported lost |
| PostgresRuns.AcceptedWithoutObject | internal/repo/db/sealed_repo.go:78-116 | a run in which that happens and AddSealed succeeds with nothing stored |
| PostgresRuns.BinaryIsNeverAdded | internal/model/model.go:19 | on any database, in every interleaving, no AddSealed of binary data succeeds |
| PostgresRuns.TypesInTable | sql/migrations/00002_data_types.up.sql:2-5 | of the types the service accepts, the table knows exactly those other than the binary one |
| PostgresRuns.TypesOfTable | internal/service/server/keeper/keeper.go:105-109 | of the types in the table the service accepts all but the binary one |
| PostgresRuns.PutAllIsPut | internal/repo/db/sealed_repo.go:116-120 | the attempts of a put, undisturbed, are the retried Put with the same database and success |
| PostgresRuns.InsertIsASchedule | internal/repo/db/metadata_repo.go:30-61 | a call past its put records its metadata, column by column under pg:// and its identifier, after up to three retryable failures; after four it turns to its compensation |
| PostgresRuns.RefusedInsertIsUndone | internal/service/server/keeper/keeper.go:124-129 | an insert that is refused is not repeated: the call deletes by locator and fails |

## Left out

- SealedRepo.Repo.PutLogic: takes the size as a natural number, since a negative one panics in make; inputs on which the loop never ends are characterised by SealedRepo.LoopEndsIff.
- Vault.RunKeepsInv: takes failed object puts and deletes and failed metadata puts as without effect, as the repository interfaces promise; lost metadata puts are the subject of LostRows.ConsistentIffHeard.
- The vault running on the Postgres tables: the protocol takes an object to be read and deleted by the locator its put gave, which the tables do not do (PostgresObjects.AddedReadsEmpty, PostgresObjects.DeleteFindsIff), and locators never to be given out twice, where the tables only promise that nothing is stored under one (PostgresObjects.PutIsPutObject).
- Phc.CompareOfGenerated: takes the key derivation as total; the library panics on a zero time cost or zero threads.
- Registration.AtMostOneSucceeds: no user is deleted in between; after a deletion the login is free again.
- The metadata fields created_at and chunk_descriptor, and the description column being stored as NULL: carried through unchanged by the interfaces.
- Rows of chunk_manifest with a NULL blob_id: no statement of the repository writes one.
- The surrogate key of refresh_tokens: no statement reads it.
- `isRetryableError`: the list of SQLSTATE codes; an attempt's report simply says whether it is retryable.
- The undefined alias in the blob delete statement, which is taken to be the deleted table, `==` in the user query, and the missing ErrNotFound mapping, where the interface contracts are taken instead.
- `internal/repo/router`: its locator table is never filled, so there is no routing to state anything about.
- Access tokens, the auth interceptor, Login and Logout beyond the session calls, HMAC, SHA-256, Argon2id and random generation: library code or thin wrappers.
- The conversion of protobuf metadata, health service, configuration, TLS, migrations tooling and server start-up: they would only add easy members.
- Full sync mode and S3 storage: not implemented in the source.
