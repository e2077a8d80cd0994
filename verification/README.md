# Laminara: a verified model

This project models the stateful parts of the Laminara launcher and server and proves what they
keep. Each part has a specification of its own, the loops and objects of the program written as
methods and classes proved against it, and laws about whole runs.

| part | modules |
|---|---|
| the launcher's game log, and the console window that mirrors it | `SuffixFit`, `LogText`, `GameLog`, `LineChunks`, `ConsoleView`, `ConsoleStore`, `ConsoleProtocol`, `ConsoleFollows`, `ConsoleLinked`, `ConsoleAgreement`, `ConsoleStatus`, `ConsoleRuns` |
| optional features of a build, resolved in Rust and again in TypeScript | `FeatureModel`, `FeatureLaws`, `FeatureAddresses`, `FeatureResolver`, `FeatureWindow` |
| publication, rollback, indexing and serving of releases | `ReleaseHistory`, `ReleaseLaws`, `ReleaseStore`, `ReleaseIndex`, `Catalog`, `ReleaseServing` |
| resumable upload of build files, both ends | `Upload`, `UploadService`, `UploadClient` |
| the log of a job, its recovery, and watching a job over broken connections | `JobLog`, `JobEvents`, `JobWatch` |
| moving a build to the shared layout | `LayoutModel`, `LayoutMigration` |
| the access cache, the crash report limiter, the command line | `AccessCache`, `AccessProtocol`, `CrashLimiter`, `JsonText`, `CommandLine`, `CommandLineLaws`, `CommandParser` |
| what several of them use | `Wrappers`, `FileSizes`, `ManifestNames` |

`dafny verify dfyconfig.toml` verifies everything.

## How things are modelled

- Encodings and digests are terms: a term stands for the bytes an encoder gives, decoding is matching
  on it, and SHA-256 is a constructor, so it is injective.
- Files are maps from names to contents. A failing write, a broken connection, a clock reading and a
  reply from a service not modelled are arbitrary choices (`:= *`) or parameters. Random names are
  parameters.
- Crashes: `ReleaseStore` records every state its directories pass through (`trail`). An upload that
  fails cleans nothing up, so what a crash leaves is what a failure at that place leaves (`CutOff`).
- Concurrency: `ConsoleProtocol` and `AccessProtocol` are state machines over atomic steps, and their
  theorems hold after any list of steps. Inside the access cache's critical section fetches settle
  entries at any point (`Meanwhile`). Uploads are serialised by the server's lock.
- Lists that the program changes in place are fields of classes; the window's chunk arrays are objects,
  so that an array given away earlier can be seen not to change.

## What the proofs found

- The console can stay behind the log in three ways, and `Agreement` gives the exact condition. The window
  attaches its listeners at once but not atomically: if the start of a game is heard while its first
  batch is not, the start waits behind the snapshot and wipes it (`ConsoleRuns.TornAttach`). If the
  snapshot request fails after a start that was not heard, the window stays with the session before
  (`ConsoleRuns.NeverTold`). And a pump that is aborted without being awaited can record a line after the
  last batch, which no batch ever carries (`ConsoleRuns.LateLine`, `LostLine`). Attaching the log
  listener first rules out the first (`ConsoleCatchesUp`).
- The console can say for good that a game runs when none does, for two reasons, and `RunningAgrees` gives
  the exact condition. The exit of a game comes before the exit listener, and the waiting start overwrites
  the snapshot's status (`ConsoleRuns.RunningForGood`). Or the snapshot is that of a session begun by a
  login or logout, which has the status of a running game and never ends (`RunningWithoutGame`). Such a
  session emits nothing, so an open window goes on naming the one before (`LogoutUnseen`).
- The catalog files a manifest beside the builds by the build it names, but hides it only by its file name:
  a manifest of a build under another name is offered beside its current release
  (`ReleaseServing.AnotherNameIsStray`); `Serve` and `StraysDecide` give the exact condition.
- The window's feature resolver throws on a build with a top-level group named like a property of every
  JavaScript object, such as `constructor`, while nothing is saved for it; the Rust resolver takes the
  defaults, and the checks on a build let such a name pass (server/internal/manifest/features.go:170-206).
  On every other model and selection the two agree (`FeatureWindow.ActiveAddresses`).
- A job goes on writing to its log after a write has failed. If that write left bytes behind, the next
  line makes the whole log unreadable, and a server that stops before it has saved the job does not
  start again (`JobLog.ReadableUnlessSpoilt`, `LostWithTheResult`, `TornWriteStopsTheServer`).
- The first publication of a build drops its older manifest for 64-bit ARM Linux from the index, because
  only the game platforms are carried over (`ReleaseIndex.FirstPublication`, `OneIsLost`).
- A partial upload that is longer than its file can never be completed while it stays in the directory;
  any other bad partial file costs one refused push (`UploadClient.PushFile`).
- A publication does not check the workspace name in its metadata. With an unsafe one the new pointer is
  refused by every later reading, and with it the whole index (`UnsafeWorkspaceHidesTheBuild`,
  `PublishedIsIndexed`). Publishing by name and the declarative apply both pass safe names.
- A first publication copies older flat manifests without checking them; the index then accepts the build
  only if they name the build and are signed (`PublishedIsIndexed`).
- Bare words that start with a bracket can merge into one JSON argument (`BracketsMerge`); `RoundTrip`
  gives the exact condition.
- An upload client that is alone needs at most one request for each 1 MiB chunk and one more: a partial
  file it does not know of costs a single request (`UploadClient.PushFile`).

## Model

| member | source | states |
|---|---|---|
| GameLog.GameLog.Begin | client/core/src/gamelog.rs:96-104 | a new session one number higher, with nothing recorded and nothing sent |
| GameLog.GameLog.Record | client/core/src/gamelog.rs:114-136 | the buffer after a line is the longest fitting suffix of the whole history with that line at its level; `dropped + len == next_seq`, `text_bytes` is the exact sum, and no subtraction underflows (`Valid`) |
| GameLog.GameLog.EvictOverflow | client/core/src/gamelog.rs:129-135 | popping the oldest lines stops exactly at the longest suffix within both limits |
| GameLog.GameLog.PumpLine | client/core/src/gamelog.rs:208-213 | a pump of an older session writes nothing into a newer one |
| GameLog.GameLog.TakeUnsent | client/core/src/gamelog.rs:138-147 | hands out what was recorded since the last hand-out and is still held |
| GameLog.GameLog.Finish | client/core/src/gamelog.rs:149-155 | sets the status of the current session only |
| GameLog.GameLog.TakeSnapshot | client/core/src/gamelog.rs:157-167 | the held lines with the count of the others before them |
| GameLog.GameLog.TailText | client/core/src/gamelog.rs:174-187 | the newest whole lines that fit a number of bytes, joined by line feeds |
| GameLog.NewestText | client/core/src/gamelog.rs:174-187 | the backward loop finds the longest suffix whose lines and separators fit |
| GameLog.JoinedBytes | client/core/src/gamelog.rs:174-187 | the bytes counted by that loop are one more than the bytes of the joined text |
| GameLog.HeldIsLongestFitting | client/core/src/gamelog.rs:129-135 | what is held fits both limits, and no longer suffix of the history does |
| GameLog.FirstOnlyGrows | client/core/src/gamelog.rs:129-135 | a line once dropped would not fit again, however the session goes on |
| GameLog.HandedAtMostOnce | client/core/src/gamelog.rs:138-147 | over any run, what is handed out is in strictly rising order, each line once and as recorded |
| GameLog.HandedUnlessEvicted | client/core/src/gamelog.rs:138-147 | a line is handed out at the first hand-out after it was recorded if and only if it had not been evicted |
| GameLog.LevelOfEachLine | client/core/src/gamelog.rs:115-120 | each line has the level of its own marker, or of the nearest earlier marked line of its stream, or of its stream |
| GameLog.CarriedIsStreamLevel | client/core/src/gamelog.rs:115-120 | the two carried slots always equal that definition over the whole history |
| SuffixFit.KeptFits | client/core/src/gamelog.rs:129-135 | the kept suffix fits a limit on count and a limit on total |
| SuffixFit.EarlierDoesNotFit | client/src/lib/gameLog.ts:68-78 | no suffix that begins earlier fits |
| SuffixFit.DroppedStaysDropped | client/core/src/gamelog.rs:129-135 | adding items never brings back what was dropped |
| LogText.UnitsAtMostBytes | client/src/lib/gameLog.ts:68-84 | the JavaScript length of a text never exceeds its UTF-8 length, so the window never runs out of room before the launcher |
| LineChunks.AppendLines | client/src/lib/gameLog.ts:48-66 | flattens to the concatenation, keeps chunks non-empty and their keys rising, and changes no array that was there before |
| LineChunks.WithLinesFlat | client/src/lib/gameLog.ts:48-66 | dividing lines into chunks loses and reorders nothing |
| LineChunks.WithLinesKeyed | client/src/lib/gameLog.ts:40-66 | chunk keys stay strictly increasing when sequence numbers rise |
| LineChunks.Overflow | client/src/lib/gameLog.ts:68-78 | the least number of oldest lines whose removal meets both limits |
| LineChunks.DropOldest | client/src/lib/gameLog.ts:86-103 | splits the flat list exactly there and keeps the chunks well formed |
| LineChunks.TextLength | client/src/lib/gameLog.ts:80-84 | the sum of the lengths |
| LineChunks.CountLevels | client/src/lib/gameLog.ts:28-32 | adds or removes exactly the number of lines of each level |
| LineChunks.TallyConcat | client/src/lib/gameLog.ts:28-32 | counts from scratch add up over concatenation |
| ConsoleStore.Console.Load | client/src/consoleStore.ts:33-47 | replaces everything shown by the snapshot |
| ConsoleStore.Console.BeginSession | client/src/consoleStore.ts:49-60 | shows an empty new session under the limits so far |
| ConsoleStore.Console.Append | client/src/consoleStore.ts:62-82 | the chunked store does what the flat view does: unseen lines of the current session are added and the oldest dropped to the limits |
| ConsoleStore.Console.Extended | client/src/consoleStore.ts:67-80 | the running total, text size and level counts equal recomputation from scratch after adding and trimming |
| ConsoleStore.Console.Finish | client/src/consoleStore.ts:84-87 | an exit of another session changes nothing |
| ConsoleStore.Console.WhenLive | client/src/consoleStore.ts:118-118 | before the snapshot events only queue up |
| ConsoleStore.Console.Connected | client/src/consoleStore.ts:124-130 | applies the snapshot, or nothing when it fails, and then every waiting event in order |
| ConsoleProtocol.AlwaysSafe | client/src-tauri/src/console.rs:45-144 | the invariant of every interleaving of launcher threads, event delivery and the connecting window |
| ConsoleProtocol.ConsoleNeverWrong | client/src/consoleStore.ts:62-82 | in every state the window shows lines of one session only, strictly rising, without repeats, each as it was recorded |
| ConsoleProtocol.ApplyShowsPart | client/src/consoleStore.ts:49-82 | no event, however late or repeated, can make the window show anything else |
| ConsoleLinked.AlwaysLinked | client/src-tauri/src/console.rs:131-144 | the invariant that relates what is queued, emitted and missed to what the window will show |
| ConsoleFollows.BatchFollows | client/src/consoleStore.ts:62-82 | a batch keeps the window a superset of what the log holds |
| ConsoleFollows.TrimKeeps | client/src/consoleStore.ts:72-80 | the window never drops a line that the log still holds |
| ConsoleFollows.FitsInWindow | client/src/lib/gameLog.ts:68-78 | what fits the log in bytes fits the window in UTF-16 units |
| ConsoleAgreement.Agreement | client/src/consoleStore.ts:115-134 | once nothing is under way the window ends with exactly the lines the log holds, if and only if there are none, or the window was told of the session, no line still held was in a batch emitted to nobody after a heard start, and none was recorded after both the last batch and the snapshot |
| ConsoleAgreement.SessionsMeet | client/src/consoleStore.ts:124-130 | the session the window then shows: that of the last start it heard, or else the snapshot's; of a game it was not told of it shows no line |
| ConsoleAgreement.ConsoleCatchesUp | client/src/consoleStore.ts:119-130 | if the start listener is never on before the log listener, the window catches up if and only if it was told of the session and no line was recorded after both the last batch and the snapshot |
| ConsoleRuns.TornAttach | client/src/consoleStore.ts:119-123 | a concrete run in which the start is heard, its first batch is lost, and the queued start wipes the snapshot: the window stays behind the log |
| ConsoleRuns.NeverTold | client/src/consoleStore.ts:124-130 | a concrete run in which the start comes before the listeners and the snapshot fails: the window stays with the session before |
| ConsoleRuns.LateLine | client/src-tauri/src/console.rs:90-103 | from any quiet state after a game, a line that its pump still records is in no batch, no step is left that could bring it, and the window stays behind |
| ConsoleRuns.LostLine | client/src-tauri/src/console.rs:90-103 | a concrete run that ends so, with every event heard and delivered |
| ConsoleStatus.AlwaysHeaded | client/src-tauri/src/console.rs:106-125 | the invariant that relates exits emitted, missed and under way, and sessions without a game, to the build and status the window will show |
| ConsoleStatus.HeadingAgrees | client/src/consoleStore.ts:84-87 | once nothing is under way, whichever session is current, the window names the session, build and status of the log if and only if it was told of the session and the exit of the last session whose start it heard was not emitted to nobody |
| ConsoleStatus.RunningAgrees | client/src/consoleStore.ts:49-60 | the window says that a game runs if and only if one plays of which it was told, or an exit passed it by, or it shows the snapshot of a session without a game; so it agrees with the launcher about that in exactly the cases given |
| ConsoleRuns.RunningForGood | client/src/consoleStore.ts:119-132 | a concrete run in which the game ends before the exit listener is attached: the queued start overwrites the snapshot's status |
| ConsoleRuns.RunningWithoutGame | client/core/src/gamelog.rs:96-104 | a concrete run in which a login begins a session before the window asks: told of it, with no exit missed, the window says that a game runs |
| ConsoleRuns.LogoutUnseen | client/src-tauri/src/accounts.rs:126 | whenever nothing is under way, a login or logout leaves an open window naming an earlier session |
| FeatureLaws.NeverOutOfPasses | client/core/src/features.rs:171-179 | the constraint loop always ends because nothing violates a constraint, never because its limit is used up |
| FeatureLaws.EnforcedIsConsistent | client/core/src/features.rs:171-209 | the result is closed under `requires` and under parents and holds no conflicting pair |
| FeatureLaws.GreatestClosed | client/core/src/features.rs:171-209 | without incompatibilities the loop computes the greatest set of options closed under needs and parents |
| FeatureLaws.AnyOrderAgrees | client/core/src/features.rs:181-193 | whatever order the violating options are dropped in, the same options remain |
| FeatureLaws.CarefreeSurvives | client/core/src/features.rs:181-209 | an option survives if it and its ancestors need nothing and conflict with nothing declared earlier |
| FeatureLaws.SettleIsOnly | client/core/src/features.rs:171-209 | the loop only leaves options out: the rest keep their declaration order |
| FeatureAddresses.AddrInjective | client/core/src/features.rs:141-163 | with ids free of the separators, an address determines its place in the tree |
| FeatureAddresses.PrefixIsDescent | client/core/src/features.rs:206-209 | removal by the prefix `addr/` reaches exactly the descendants in the tree |
| FeatureAddresses.WalkDistinct | client/core/src/features.rs:131-169 | the walk lists each address once, with its ancestors |
| FeatureAddresses.ActiveInTree | client/core/src/features.rs:82-95 | every active option stands at a place of the tree that spells its address, under active ancestors |
| FeatureAddresses.ActiveFilesAreOptional | client/core/src/features.rs:14-31 | files of active options are among `optional_paths` |
| FeatureAddresses.GreatestSelection | client/core/src/features.rs:131-209 | for ids free of the separators and without incompatibilities, the active options are the greatest set of options found that is closed under needs and under nesting in the tree |
| FeatureResolver.Walk | client/core/src/features.rs:131-169 | filling the map with a running counter lists the options as the tree walk does |
| FeatureResolver.InOrder | client/core/src/features.rs:182-183 | sorting the map by that counter gives the declaration order back |
| FeatureResolver.FirstViolation | client/core/src/features.rs:181-204 | finds the first option with an unmet need, or else the first that conflicts with an earlier one |
| FeatureResolver.DropWithDescendants | client/core/src/features.rs:206-209 | the map without the victim and everything under it |
| FeatureResolver.EnforceConstraints | client/core/src/features.rs:171-179 | the bounded loop reaches the fixpoint |
| FeatureResolver.ResolveActive | client/core/src/features.rs:97-109 | the addresses and files of exactly the options that remain |
| FeatureResolver.ResolveExtras | client/core/src/features.rs:111-129 | launch arguments of exactly the active options, once each, in declaration order |
| FeatureWindow.SameEffective | client/src/lib/features.ts:79-91 | the TypeScript choice within a group is the Rust one, defaults (lines 11-19) included, unless the lookup finds an inherited property and throws |
| FeatureWindow.Walk | client/src/lib/features.ts:25-40 | the TypeScript walk lists the same options in the same order, or throws at a top-level group |
| FeatureWindow.FirstViolation | client/src/lib/features.ts:58-71 | the same victim |
| FeatureWindow.DropWithDescendants | client/src/lib/features.ts:51-54 | deleting while iterating over a copy of the keys removes exactly the victim and what is under it |
| FeatureWindow.EnforceConstraints | client/src/lib/features.ts:46-56 | the same fixpoint |
| FeatureWindow.ActiveAddresses | client/src/lib/features.ts:21-44 | for every model and selection, with ids of any shape, the same active set as the Rust resolver, if and only if no top-level group with options and nothing saved has the name of an inherited property; otherwise it throws |
| FeatureWindow.ConstructorThrows | client/src/lib/features.ts:79-82 | a build with one group called `constructor`, for which the Rust resolver takes the default and the window throws |
| ReleaseHistory.SignaturesApart | server/internal/catalog/catalog.go:47-49 | signature names are never taken for manifests, and no two manifests share one |
| ReleaseHistory.SafeNames | server/internal/catalog/releases.go:40-42 | manifest and signature names of a safe build are safe inventory names |
| ReleaseLaws.DirectoryIsVerified | server/internal/catalog/releases.go:167-199 | a finished release directory passes `VerifyRelease` |
| ReleaseLaws.DirectoryIsComplete | server/internal/catalog/index.go:45-78 | the index accepts a finished directory just when every file in it names the build and is signed |
| ReleaseLaws.PointerAfter | server/internal/catalog/releases.go:113-148 | what reading the pointer gives after a publication |
| ReleaseLaws.WritingChangesNothing | server/internal/catalog/releases.go:113-145 | writing beside the listed releases changes neither the pointer read nor what the index accepts |
| ReleaseLaws.PublishedIsIndexed | server/internal/catalog/releases.go:85-150 | after a publication the index accepts the build if and only if the workspace is safe and what is kept was acceptable: the releases listed so far or, first, the files from before releases |
| ReleaseLaws.UnsafeWorkspaceHidesTheBuild | server/internal/catalog/releases.go:140-148 | a concrete publication with an unsafe workspace, which nothing checks, after which the index refuses the build |
| ReleaseLaws.RollbackPointer | server/internal/catalog/rollback.go:55-89 | the restored record with a history of the same releases |
| ReleaseLaws.RolledBackIsIndexed | server/internal/catalog/rollback.go:55-89 | a rollback loses no release and changes nothing about acceptance |
| ReleaseLaws.KnownGrows | server/internal/catalog/releases.go:113-135 | each step adds exactly its own releases to the history: one for a publication, two for a first one with older files, none for a rollback |
| ReleaseLaws.StaysHealthy | server/internal/catalog/releases.go:113-150 | ids stay distinct, the current one is not retained, all listed releases are complete and restorable, and `current.json` is the current `release.json` except for Retained |
| ReleaseLaws.HistoryStaysHealthy | server/internal/catalog/releases.go:113-150 | the same over any run, with the size of the history counted exactly |
| ReleaseLaws.PublishedForGood | server/internal/catalog/releases.go:167-199 | whatever follows in a run, a published release stays listed with its very files and metadata |
| ReleaseLaws.RollbackServesThePast | server/internal/catalog/rollback.go:55-89 | after any run, a rollback to any earlier publication succeeds and serves its bytes and metadata |
| ReleaseStore.CheckFiles | server/internal/catalog/releases.go:89-99 | accepts exactly lists of distinct, signed manifests of the build under their own names |
| ReleaseStore.VerifyRelease | server/internal/catalog/rollback.go:16-53 | the loops over inventory and directory decide exactly whether the directory is intact |
| ReleaseStore.LegacyRelease | server/internal/catalog/releases.go:213-231 | the older files of all known platforms, or an error when a signature is missing |
| ReleaseStore.RetainedAfter | server/internal/catalog/rollback.go:78-83 | the rebuilt history: the former current release first, without the restored one |
| ReleaseStore.ReleaseStore.ReadRelease | server/internal/catalog/releases.go:44-67 | refuses exactly the pointers that are not sound |
| ReleaseStore.ReleaseStore.Index | server/internal/catalog/index.go:32-81 | of one build: accepts exactly the indexed builds and lists every manifest of every listed release, the current ones as active |
| ReleaseStore.ReleaseStore.IndexDirectory | server/internal/catalog/index.go:41-78 | accepts a release just when it is verified and complete |
| ReleaseStore.ReleaseStore.WriteRelease | server/internal/catalog/releases.go:167-199 | every state on the way only adds to what was there; at the end the directory holds the files and their inventory |
| ReleaseStore.ReleaseStore.WriteReleaseMetadata | server/internal/catalog/releases.go:152-165 | adds the release record to the directory being filled |
| ReleaseStore.ReleaseStore.KeepHistory | server/internal/catalog/releases.go:113-135 | the history to keep, with older files written out as a release first |
| ReleaseStore.ReleaseStore.PublishReleaseWithMetadata | server/internal/catalog/releases.go:85-150 | every state it passes through is the old one with unlisted files added or the finished one |
| ReleaseStore.ReleaseStore.PublishRelease | server/internal/catalog/releases.go:77-83 | the same, keeping the workspace of the release before |
| ReleaseStore.ReleaseStore.RollbackRelease | server/internal/catalog/rollback.go:55-89 | succeeds just when allowed (unless a write fails) and changes nothing but the pointer |
| ReleaseStore.AcceptedThroughout | server/internal/catalog/releases.go:113-150 | wherever a publication or rollback is cut off, the pointer is the old or the new one and the index accepts the build |
| ReleaseIndex.Index | server/internal/catalog/index.go:19-112 | succeeds if and only if every build is accepted, and then lists exactly the manifests of listed releases and those beside the builds that belong to no build with releases, with a stamp line for each |
| ReleaseIndex.IndexBuild | server/internal/catalog/index.go:27-81 | the part of one build |
| ReleaseIndex.IndexFiles | server/internal/catalog/index.go:82-110 | the manifests beside the builds, without the older ones of builds that have releases |
| ReleaseIndex.IsOlder | server/internal/catalog/index.go:86-95 | the loop that skips a manifest decides exactly whether a build with releases owns it |
| ReleaseIndex.SameStampSameIndex | server/internal/catalog/catalog.go:99-111 | as long as a finished release and a file of the same time and size stay the same, an equal stamp means the same places with the same manifests and signatures behind them |
| ReleaseIndex.OthersUnmoved | server/internal/catalog/index.go:32-103 | what happens to one build moves no manifest of another, in its releases or beside them |
| ReleaseIndex.FirstPublication | server/internal/catalog/releases.go:213-231 | the first publication takes each older manifest of its build out of the index, and it comes back as a retained one with the same bytes if and only if its name is that of a game platform |
| ReleaseIndex.OneIsLost | server/internal/catalog/releases.go:213-231 | the manifest for 64-bit ARM Linux does not come back |
| Catalog.Gather | server/internal/catalog/catalog.go:143-167 | the loop files each readable manifest under its build, active and retained apart |
| Catalog.Collect | server/internal/catalog/catalog.go:143-175 | each build's variants ordered by platform, names in order, owners by definition |
| Catalog.IndexOwners | server/internal/catalog/catalog.go:177-193 | although repeats are looked for in the last place alone, each list is exactly the owners in order |
| Catalog.OwnersAreExactly | server/internal/catalog/catalog.go:177-193 | the owners of an object are sorted, without repeats, and exactly the builds that contain it |
| Catalog.OwnersOfCollected | server/internal/catalog/catalog.go:177-193 | the same end to end: exactly the active builds with an active or retained variant containing the object |
| Catalog.Pick | server/internal/catalog/catalog.go:225-237 | the first suiting variant, or none only when none suits |
| Catalog.Get | server/internal/catalog/catalog.go:209-223 | the bytes and signature of a suiting variant, and the exact reasons for each refusal |
| ReleaseServing.Serve | server/internal/catalog/catalog.go:99-111 | from the directories over index and snapshot to the choice: without stray manifests beside the builds a player is given exactly what the current release has for the platform, or else for any platform, or is refused because it has neither |
| ReleaseServing.FiledAre | server/internal/catalog/catalog.go:143-167 | under a build with releases exactly the manifests of its current release and the strays are filed |
| ReleaseServing.StraysDecide | server/internal/catalog/catalog.go:225-237 | the condition on strays is exact: one that the current release does not have suits some platform |
| ReleaseServing.AnotherNameIsStray | server/internal/catalog/index.go:86-95 | a concrete stray: a manifest of the build under another name |
| ReleaseServing.ServedWhileCurrent | server/internal/catalog/catalog.go:209-223 | after any run of publications and rollbacks, while a publication is current each platform is given exactly the bytes and signature published for it |
| ReleaseServing.ServedAfterRollback | server/internal/catalog/rollback.go:55-89 | after any run a rollback to any earlier publication succeeds, and each platform is given what was published then |
| Upload.StaysWithinQuota | server/internal/buildsvc/upload.go:47-66 | no chunk, finished or cut off anywhere, takes the directory over 16 GiB |
| Upload.StaysCommitted | server/internal/buildsvc/upload.go:93-105 | every finished object hashes to its name |
| Upload.StaysPrefix | server/internal/buildsvc/upload.go:67-92 | while all senders of a digest send its content, the partial file is a prefix of that content |
| Upload.ObjectsStay | server/internal/buildsvc/upload.go:56-61 | nothing but age removes a finished object |
| Upload.AlwaysSafe | server/internal/buildsvc/upload.go:19-109 | all of this over any interleaving of chunks, purges and failures |
| UploadService.UploadServer.Purge | server/internal/buildsvc/upload.go:43-63 | the loop removes exactly what is older than a day and sums the rest |
| UploadService.UploadServer.UploadBuildChunk | server/internal/buildsvc/upload.go:19-109 | answers and leaves what the step allows, and without failures exactly what is specified |
| UploadService.UploadServer.Append | server/internal/buildsvc/upload.go:80-86 | a write that fails may have written any part of its data |
| UploadService.WholePrefix | server/internal/buildsvc/upload.go:90-101 | an honest upload never fails its digest |
| UploadService.StaysReached | server/internal/buildsvc/upload.go:77-88 | the server never falls behind what it has told a client, as long as nothing is purged |
| UploadService.Progress | server/internal/cli/build.go:155-179 | every reply that does not end the upload takes the client strictly further, whoever else sends the same content |
| UploadService.AloneReply | server/internal/buildsvc/upload.go:73-89 | what the server answers a client that is alone |
| UploadService.Counted | server/internal/cli/build.go:155-179 | each such reply brings a client that is alone one request nearer its end |
| UploadService.NeededAtMost | server/internal/cli/build.go:155-179 | at most one request a chunk and one more are needed, also for empty files and full partial files |
| UploadService.OnwardStep | server/internal/buildsvc/upload.go:67-105 | an honest request never makes a file of the content worse: finished stays finished, a prefix a prefix, and a partial file longer than the content stays as it is |
| UploadService.Advance | server/internal/cli/build.go:155-179 | whatever the partial file holds, a partial reply takes the client nearer its end, or tells it that the file is too long |
| UploadService.AloneSpoilt | server/internal/buildsvc/upload.go:93-99 | a client that is alone fills a spoilt partial file up, and the digest that fails removes it |
| UploadClient.PushFile | server/internal/cli/build.go:152-180 | whatever the partial file holds, the loop ends, with the object on the server unless a request is refused or the partial file was longer than the content; alone within ceil(size / 1 MiB) + 1 requests from a prefix, and with the bad file removed otherwise |
| UploadClient.PushBuildFiles | server/internal/cli/build.go:135-188 | a push that succeeds leaves every requested object on the server, also those pushed first; each way to fail has its cause |
| JobLog.ReadEvents | server/internal/jobs/events.go:56-90 | the loop over the lines gives the events after the cursor in order if the file is short enough and its lines are events numbered from one, and an error otherwise; a last line without a line feed is not read |
| JobLog.JobRecord.AppendEvent | server/internal/jobs/events.go:24-54 | one write as it succeeds, is cut off anywhere, or fails after its bytes are written; output past the limit is dropped |
| JobLog.ReadableUnlessSpoilt | server/internal/jobs/events.go:24-90 | whatever fails, the file reads as a sequence of events if and only if no write reached its line feed after one that had failed and left bytes behind; then it has every acknowledged event and at most one more |
| JobLog.LogReadsBack | server/internal/jobs/events.go:24-90 | without failures, and with lines of at most 512 KiB, what was written is read back from any cursor, the limit on readers notwithstanding |
| JobLog.DyingSpoilsNothing | server/internal/jobs/events.go:38-45 | a server that dies in a write leaves a readable log |
| JobLog.LostWithTheResult | server/internal/jobs/manager.go:212-240 | because the result is always written last, a log is lost if and only if an earlier write failed and left bytes behind |
| JobLog.WholeUntilAFailure | server/internal/jobs/events.go:24-54 | until a write fails the file holds exactly the acknowledged events |
| JobLog.Recover | server/internal/jobs/manager.go:87-104 | a job under way at a restart ends with the last result in its log or is interrupted |
| JobLog.Restart | server/internal/jobs/manager.go:51-111 | the server starts if and only if the log of every job that was under way can be read |
| JobLog.RestartKeeps | server/internal/jobs/manager.go:83-108 | after a restart no acknowledged event is lost and a watcher goes on from any cursor, unless the log is spoilt or too long |
| JobLog.ResultCounts | server/internal/jobs/manager.go:94-103 | interrupted if and only if the log has no result; otherwise the last result counts |
| JobLog.TornWriteStopsTheServer | server/internal/jobs/manager.go:87-91 | a concrete failed write of output after which a restart refuses to start the server |
| JobEvents.JobService.Stream | server/internal/jobs/events.go:92-129 | sends the log from the cursor on, in order, ends without error only when the job has finished and all was sent, and gives each error in its own case: a foreign job, a cursor past the end, a failed write, an unreadable log |
| JobEvents.JobService.Look | server/internal/jobs/events.go:94-113 | an error in its own case, or the events after the cursor |
| JobEvents.JobService.Die | server/internal/jobs/manager.go:83-108 | a server that dies, perhaps in a write, goes on from the file with every acknowledged event and at most one more, or does not start |
| JobEvents.JobService.Send | server/internal/jobs/events.go:114-119 | a connection may break after any event; what was sent is still a replay |
| JobEvents.JobService.Connect | server/internal/control/jobs.go:18-38 | a connection to that service or to one that answers anything |
| JobWatch.Receive | server/internal/control/jobs.go:20-35 | of one connection, exactly the next sequence numbers are passed on, old ones skipped and a gap refused |
| JobWatch.ReceiveOnce | server/internal/control/jobs.go:18-45 | what one connection brings, and what its failure can mean |
| JobWatch.WatchJob | server/internal/control/jobs.go:16-61 | against any service each event is delivered once and in order and the loop ends; from an honest one a normal end means that every acknowledged event was delivered and at most one more, also when the server died and restarted in between; it ends so when nothing else fails, unless the log is spoilt or too long |
| LayoutModel.OneMore | server/internal/buildsvc/migrate.go:59-90 | one file visited: moved to the shared tree or the overlay, or left as a duplicate |
| LayoutModel.Decides | server/internal/buildsvc/migrate.go:70-85 | comparing with the shared tree as it is during the walk decides as the tree at the start would |
| LayoutModel.TreeRemoved | server/internal/buildsvc/migrate.go:46-49 | the bytes removed with a tree are exactly those counted as freed |
| LayoutModel.StillMigrated | server/internal/buildsvc/migrate.go:35-50 | every file of every platform moved so far is found with its own bytes, no foreign byte is found, and the rest is untouched |
| LayoutModel.EveryPlatformSeesItsOwn | server/internal/buildsvc/migrate.go:26-92 | after the migration each platform finds each of its files unchanged, and otherwise only a file of the first platform or of the root at that same path |
| LayoutMigration.BuildRoot.SameContent | server/internal/buildsvc/migrate.go:108-132 | equal sizes and digests mean equal bytes; otherwise different or an error |
| LayoutMigration.BuildRoot.SharePlatform | server/internal/buildsvc/migrate.go:57-92 | the walk over one platform, in any order |
| LayoutMigration.BuildRoot.ShareCommonFiles | server/internal/buildsvc/migrate.go:26-55 | the whole migration: meaning kept, bytes before equal bytes after plus `freed`, and no error when nothing fails and no file stands where another needs a directory |
| LayoutModel.StillOpen | server/internal/buildsvc/migrate.go:86-89 | nothing moved so far stands in the way of the platforms still to come |
| AccessCache.HttpSource.EntryFor | server/internal/access/http.go:133-152 | hands out an entry that is unsettled or alive, and makes a new one only for a key without an entry or with an expired one; keeps to the limit unless the rest is all in flight |
| AccessCache.HttpSource.EvictLocked | server/internal/access/http.go:154-176 | removes every expired entry, and nothing else unless there is still no room, when only entries in flight stay |
| AccessCache.HttpSource.Sweep | server/internal/access/http.go:163-175 | one pass over the table while fetches settle entries beside it |
| AccessCache.HttpSource.Fill | server/internal/access/http.go:217-226 | the creator settles its entry, once |
| AccessCache.HttpSource.Reload | server/internal/access/http.go:280-284 | empties the table and leaves fetches under way alone |
| AccessProtocol.AlwaysSafe | server/internal/access/http.go:133-226 | the invariant of every interleaving of look-ups, fetches, answers, departures and reloads |
| AccessProtocol.SingleFlight | server/internal/access/http.go:133-152 | between reloads no two callers fetch for one key at once |
| AccessProtocol.CreatorSettles | server/internal/access/http.go:217-226 | an entry in flight can always be settled by its creator |
| AccessProtocol.AnswersAreFresh | server/internal/access/http.go:125-131 | every answer comes from an entry alive at the caller's look-up or settled after it |
| CrashLimiter.KeepRecent | server/internal/crash/service.go:132-138 | filtering a slice over its own storage keeps exactly the recent times |
| CrashLimiter.Service.ForgetStale | server/internal/crash/service.go:120-126 | forgetting senders leaves what is remembered exact |
| CrashLimiter.Service.Allow | server/internal/crash/service.go:128-151 | a report is let through if and only if fewer than the limit of that sender lie strictly within the hour before |
| CrashLimiter.FilteredRemembers | server/internal/crash/service.go:132-143 | after filtering, the number kept is the number of all accepted reports within the hour |
| CrashLimiter.NoHourExceeds | server/internal/crash/service.go:128-151 | however an hour is laid over the accepted reports, it covers no more than the limit |
| CrashLimiter.NoHourOfServiceExceeds | server/internal/crash/service.go:128-151 | the same of the service, for each sender held to one limit |
| CommandLineLaws.CharacterReadsBack | server/internal/command/arguments.go:30-37 | each character survives quoting and unquoting |
| CommandLineLaws.EscapedReadsBack | server/internal/command/arguments.go:73-82 | each word survives quoting and unquoting |
| CommandLineLaws.ClosesAtTheEnd | server/internal/command/arguments.go:16-26 | the scan for the closing quote stops at the quote that was added, not at an escaped one |
| CommandLineLaws.QuotedWordReadsBack | server/internal/command/arguments.go:15-44 | a quoted word is read back whatever follows it |
| CommandLineLaws.BareWordReadsBack | server/internal/command/arguments.go:45-60 | a bare word is read back if and only if it is not read on as a JSON value |
| CommandLineLaws.RoundTrip | server/internal/command/arguments.go:12-82 | `Split(Format(words)) == words` if and only if no bare word with a bracket opens a JSON value that ends in a later word |
| CommandLineLaws.QuotedBracketsRoundTrip | server/internal/command/arguments.go:12-82 | it is enough that words starting with a bracket have a quote, a backslash or a space |
| CommandLineLaws.BracketsMerge | server/internal/command/arguments.go:45-53 | two bare brackets come back as one JSON argument |
| CommandParser.FindClose | server/internal/command/arguments.go:16-29 | the scanning loop finds the closing quote |
| CommandParser.SplitLine | server/internal/command/arguments.go:12-63 | the loop computes the split, and ends on every line because each pass shortens it |
| CommandParser.FormatWords | server/internal/command/arguments.go:73-82 | the loop computes the printed line |

## Left out

- Integer widths: sequence numbers, offsets, sizes and times are unbounded integers.
- I/O itself: sockets, HTTP, windows, processes, gzip, fsync. Only the order of writes and the atomic rename are kept.
- GameLog.GameLog.PumpLine: reading bytes from a pipe, decoding them, and stripping colour codes and escapes come before it and are not part of this model.
- The console's search, filters, highlighting, visible-line cache and status texts (client/src/lib/gameLog.ts:105-150).
- ConsoleProtocol.ConsoleNeverWrong: events are taken to reach the window in the order in which they were emitted, as Tauri delivers them; an event emitted while nobody listens is lost.
- The order in which the pump tasks and the flusher are started and stopped (client/src-tauri/src/console.rs:74-105); the state machine lets them interleave more freely.
- FeatureResolver.ResolveExtras: `validate_manifest_path` is not part of this model; the paths it lets through are a parameter. `adopt_build` only puts a manifest's own arguments before these.
- FeatureLaws.GreatestClosed: with incompatibilities the code does not promise a maximal set, since an option can be dropped for a rival that is dropped later.
- `blockedReason` (client/src/lib/features.ts:73-77) and the settings pages.
- ReleaseStore.ReleaseStore.PublishReleaseWithMetadata: the checks that the release directories are real directories and no links, and the temporary names of atomic writes, which no reader takes for a manifest.
- ReleaseHistory.SafeNames: file names are lists of characters; bytes that are no UTF-8 are left out.
- Signatures are any non-empty bytes; checking them belongs to the client.
- Catalog.Collect: caching of the snapshot, its two-second window, and summaries for display; `ReleaseServing.Serve` reads the directories anew. Object keys are taken as given; `ObjectKey` fails on hashes under two bytes.
- UploadService.UploadServer.UploadBuildChunk: directory entries that are not regular files only make a request fail; digests are terms and not hexadecimal text.
- UploadClient.PushFile: sources are the contents whose digests the description has just taken (server/internal/cli/build.go:31-61). With a source that changes underneath, or another sender of wrong bytes, the loop need not end, because a failed digest removes the partial file. Nothing grows a day old during a push.
- Use of finished uploads by a build (server/internal/buildsvc/sync.go:134-290).
- JobEvents.JobService.Connect: a connection is a finite list of events, so a service that replays old events for ever inside one connection is not modelled.
- JobLog.ReadEvents: the JSON of an event is a term with a size; a piece of one event followed by another is taken to be no event. Output in chunks of 16 KiB (server/internal/jobs/events.go:137-160) and the rate limit on progress are left out.
- JobLog.Recover: a saved record that is behind its log because the log's last write failed while the record was saved keeps its own last number; `JobEvents` takes an ended job's record and log to agree when the log can be read. `JobService.Die` is a death while the job runs; a job that had ended before is `JobService.Restarted`.
- ReleaseIndex.Index: paths are terms and the lists are sets, since the order of a directory listing only decides which error is reported first; the text of the stamp is a set of its lines.
- JobWatch.WatchJob: the waiting times between attempts, and the fallback for servers without jobs (server/internal/control/jobs.go:63-126).
- LayoutMigration.BuildRoot.ShareCommonFiles: says nothing about a migration that is cut off. Resuming one fails on a platform directory that is already gone (server/internal/buildsvc/migrate.go:59-62), so the code does not promise it.
- LayoutModel.EveryPlatformSeesItsOwn: holds where no file stands in the way at the destination (`Clean`); empty directories and file modes are left out.
- AccessCache.HttpSource.EntryFor: keys are terms; in the program they are texts joined by NUL characters. The HTTP request, the rosters it brings and `failOpen` are not part of this model.
- CrashLimiter.NoHourOfServiceExceeds: a sender must be held to one limit throughout, as the two kinds of senders are by their keys. Delivery to the sinks is left out.
- CommandLine: texts are Unicode characters; bytes that are no UTF-8, and escapes over 0x7F that stand for single bytes, are left out. Which characters Go prints as they are is a parameter.
- The doctor, configuration, command rendering, hardware recognition, client sync and the React pages.
