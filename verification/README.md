# ThoroTest: verified models

Dafny models of the parts of ThoroTest whose correctness rests on state, interleaving or a round trip:
the leased job queue, the two rate limiters, the tests-as-code pipeline between git, rows, folders and CI
results, the CLI's YAML subset parser, the folder forest and the run counters. `dafny verify dfyconfig.toml`
checks the whole project.

Where the source changes an object step by step, the model is a class whose methods do the same and whose
contracts equate the new state with a function of the old one; what the source promises is then proved of
those functions, as lemmas over all inputs, all runs or all reachable states.

| file | what it holds |
|---|---|
| `JobTable.dfy` | job rows, every conditional UPDATE as a function, and the class `JobStore` that performs them |
| `LeaseProtocol.dfy`, `LeaseTheorems.dfy`, `JobColumns.dfy`, `JobProgress.dfy`, `RepeatedLease.dfy` | any number of workers, orphaned calls and leftover threads over one table; the invariant, what every run guarantees, what it leaves in the columns, how every job can still be served, and a run in which one lease is written twice |
| `IsoTime.dfy` | text order of ISO timestamps is time order |
| `RateLimiter.dfy`, `LimiterRuns.dfy`, `LimiterTheorems.dfy` | the in-process limiter, its runs against a plain log and count, and what every run guarantees |
| `SharedLimiter.dfy` | the Redis script against the same plain rule and against the in-process limiter |
| `Text.dfy`, `Paths.dfy`, `TestTable.dfy`, `Prelude.dfy` | strings, slash paths, the table of tests, an option type |
| `Folders.dfy`, `FolderTheorems.dfy` | the sync's folder resolver with its cache, the rebuilt path, and their inverse laws |
| `FolderTree.dfy` | the folder forest built over a parent map that may be cyclic |
| `TestYaml.dfy`, `Letters.dfy` | a test as a loaded mapping: parsing, serializing, exactly which rows round-trip, letter case, and the aliases of types, statuses and priorities |
| `RepoSync.dfy`, `RepoSyncTheorems.dfy`, `ResyncTheorems.dfy` | upserting files into rows, writing rows back, runs of edits, syncs and pushes, and syncing the same files again |
| `CaseId.dfy` | the case id in a test name |
| `ImportFolders.dfy`, `Persist.dfy`, `Importer.dfy` | importing results: the importer's own folder resolver, its loops, and what they compute |
| `PersistTheorems.dfy`, `ReimportTheorems.dfy`, `ResultLinks.dfy`, `ImportContents.dfy`, `ImportFolderTheorems.dfy`, `ClassNames.dfy` | conservation and references, importing twice, which test and status a result ends at, what an import leaves in tests, runs, defects and folders, and which class names nest or fail an import |
| `YamlSubset.dfy`, `PlainScalars.dfy`, `YamlRoundTrip.dfy`, `YamlErrors.dfy`, `YamlNoise.dfy` | the CLI parser line by line, how it types plain scalars, printing followed by parsing, which problem it reports on which line, and which lines it skips |
| `RunCounters.dfy` | the recount, the simulator's incremental counters, and their agreement |

## Assumptions

- Each session of the job queue that reads, checks and writes is one atomic step; each conditional UPDATE is
  atomic. All workers read one clock that never runs backwards. A fence names a worker, not an attempt, so
  ownership is stated per worker.
- Calls enter a limiter's lock in order of the time they read.
- A generated id is not in use. `.first()` without an order is the first row inserted. Python and SQL lower-case
  alike. Text columns are compared bytewise.
- Loading YAML undoes dumping it, on mappings of strings and lists of strings.
- Writing a file to git is guarded by the blob sha read with it, so the read, the conflict check and the write
  are one step.

## Findings

The models follow the code where the code does not do what its surroundings lead one to expect. Each finding is
a lemma with an input, or with the exact condition.

- A failing job whose exception has an empty text is recorded as done (`FailureIsRecordedIfItHasAText`).
- A claim can follow a renewal that started from the same row when the renewal writes back the very lease the
  claim saw (`RenewalBeatsClaim`). A run that does it exists: a worker closed while it renews, started again, and
  reclaiming its job at the same reading of the clock (`RenewalAndClaimCanBothLand`). In every run a claim lands
  exactly while the row's lease was written at the reading the query saw (`ClaimLandsIffSameStamp`); so one claim
  or renewal wins from each snapshot unless a job's lease is written twice from one reading (`OneWinner`), which
  takes a worker closed in the middle of a call (`OneWinnerPerSnapshot`).
- The result importer fails on every folder path that is not the slash-join of its trimmed non-empty parts
  (`GetOrCreate`), such as that of every JUnit class name with an empty part inside, like `a..b`
  (`EmptyPartFailsTheImport`).
- Importing with `rename` remembers a renamed test only under its new title, so a result with the old one goes to
  the test remembered under it before, or to none (`RenamedTestLosesItsResults`); `CaseGoesToItsOwner` tells, in
  every mode, which test a result goes to and when there is none.
- Importing with `rename` a test that carries a synced test's id takes the results with that id away from the
  synced test; in every other case they reach it (`ResultsFindTheSyncedTest`).
- A test id without an upper-case `TC` token is found by no CI result (`FoundIffSameToken`).
- A file without an id loses its row to a file that carries the row's id, and the next sync of the same files
  creates a test for it (`TwoFilesOfOneRowCreateAgain`). The next sync creates nothing exactly if after the first
  one every file is found by its id or at its path (`NothingIsCreatedAgainIff`), and the one after that never
  creates anything (`ThirdSyncCreatesNothing`).
- The CLI parser takes an escaped quote for the end of a double-quoted string when it looks for comments
  (`DoubleQuotedIffUncut`, `QuoteThenHashIsCut`).
- The recount takes a skipped case for blocked and the importer does not, so the two disagree on an imported run
  exactly if one of its cases was skipped (`ImportedRunAgreesWithRecountIff`).
- Importing with `overwrite` sets a test's type and leaves its `auto` flag, so that the two can disagree
  (`OverwrittenFlagAgreesIff`).
- A run whose given total exceeds its number of cases ends complete in the simulator and incomplete in the
  recount (`RecountKeepsTheEndIff`).

## Model

| member | source | states |
|---|---|---|
| JobTable.JobStore.QueryCandidates | backend/ci_worker.py:38-56 | the candidates are eligible rows, oldest start first, at most ten, and no eligible row left out started earlier |
| JobTable.JobStore.TryCandidates | backend/ci_worker.py:57-78 | the first candidate whose row is still as it was read is claimed and only its row changes; none is claimed only if every candidate's row has changed |
| JobTable.JobStore.ClaimNext | backend/ci_worker.py:34-78 | undisturbed, nothing is returned only if nothing is eligible, and otherwise the eligible job with the oldest start |
| JobTable.JobStore.RenewLease | backend/ci_worker.py:83-104 | the lease moves, and true is returned, exactly if the worker owns the processing row |
| JobTable.JobStore.FinishJob | backend/ci_worker.py:109-121 | exactly if the worker is the recorded one, whatever the queue status, queue, status and error column say one outcome: done without an error, or error with the text handed over |
| JobTable.JobStore.UpdateJob | backend/routers/ci.py:100-119 | a write lands exactly if its worker owns the row, or without a fence if the row is there, and sets its fields; otherwise it is the one error or the other and changes nothing |
| JobTable.JobStore.CleanupExpired | backend/ci_worker.py:127-140 | exactly the finished rows older than the cutoff go, and they are counted |
| JobTable.JobStore.EnqueueSync | backend/routers/integrations.py:101-127 | an unfinished sync of the integration is returned unchanged, the latest first; only without one a row is inserted |
| LeaseProtocol.TurnIsGood | backend/ci_worker.py:171-213 | one move of a worker, its claim loop, heartbeat or finish, has at most one effect, on a row it owns or claims |
| LeaseProtocol.StepEffect | backend/ci_worker.py:34-140 | a step of the whole system has at most one effect, and rows without one stay as they were or are purged when finished |
| LeaseProtocol.StepKeepsInv | backend/ci_worker.py:34-213 | claims, renewals, writes, finishes, restarts, orphans, purges and ticks keep the invariant of rows, workers and history |
| LeaseProtocol.RunKeepsInv | backend/ci_worker.py:34-213 | the invariant holds in every state of every run |
| LeaseTheorems.NothingFromTheOldOwner | backend/routers/ci.py:96-119 | after a worker has claimed a job, nothing of another worker reaches the row before that worker claims it again |
| LeaseTheorems.OneOutcome | backend/ci_worker.py:109-121 | over every run a job is finished at most once, and nothing reaches it afterwards |
| LeaseTheorems.RowsTellTheHistory | backend/ci_worker.py:65-77 | attempts is the number of successful claims, the recorded worker is the last claimant, and a row is terminal exactly if its outcome is in the history |
| LeaseTheorems.OnlyOwnersAndClaimantsChangeRows | backend/routers/ci.py:265-311 | a step changes a row only if its worker owns it then, or claims it by that step; never a finished row |
| LeaseTheorems.FinishedRowsAreFinal | backend/ci_worker.py:127-140 | a finished row stays as it is until it is purged, and its id never comes back |
| LeaseTheorems.HeartbeatsKeepTheJob | backend/ci_worker.py:21-22 | while each renewal lands before the lease last written runs out, no other claim of the job succeeds until it finishes |
| LeaseTheorems.ClaimBeatsItsRivals | backend/ci_worker.py:58-77 | once a claim has landed, a rival's claim from the same snapshot and the former owner's renewal, write and finish all miss |
| LeaseTheorems.RenewalBeatsClaim | backend/ci_worker.py:86-102 | a claim still lands after the owner's renewal exactly if the renewal wrote the lease the claim had seen |
| LeaseTheorems.ClaimLandsIffSameStamp | backend/ci_worker.py:58-64 | in every run, orphans included, a claim from what a query showed of a processing row lands exactly while the row is processing under a lease written at the same reading of the clock |
| LeaseTheorems.OneWinner | backend/ci_worker.py:58-78 | in every run in which no lease of the job is written twice from one reading of the clock, a claim lands exactly while the row has the status the query showed and nobody has claimed or renewed it since |
| LeaseTheorems.OneWinnerPerSnapshot | backend/ci_worker.py:63-64 | the same holds in every run in which no worker is closed in the middle of a call |
| LeaseTheorems.OnlyTheFirstLands | backend/ci_worker.py:58-102 | after one claim or renewal of a row has landed, no claim from a query before it ever lands |
| RepeatedLease.RenewalAndClaimCanBothLand | backend/ci_worker.py:63-102 | a run exists in which, from one snapshot of a row, one worker's renewal and another's claim both land |
| LeaseTheorems.NothingIsStranded | backend/ci_worker.py:41-51 | every unfinished job is queued or becomes eligible the moment its lease has passed, at most one lease from now |
| LeaseTheorems.EmptyHandedMeansChangedSinceTheQuery | backend/ci_worker.py:37-78 | when a claim goes back with nothing, each candidate of its query matched its row when the query read it and no longer did at some moment after |
| LeaseTheorems.SyncsCoalesce | backend/routers/integrations.py:101-109 | at most one unfinished sync per integration in every state |
| LeaseTheorems.FailureIsRecordedIfItHasAText | backend/ci_worker.py:115-117 | a failed execution is recorded as failed exactly if its error text is not empty |
| JobColumns.ColumnsTellTheHistory | backend/routers/ci.py:114-116 | over every run, a column shows what the last write or finish that set it set it to |
| JobColumns.OutcomeIsRecorded | backend/ci_worker.py:115-117 | over every run, a terminal row says done without an error, or error with the non-empty text its finish was given, in the queue and in the columns alike, and a queued row says queued |
| JobColumns.UnsetColumnsStay | backend/routers/ci.py:114-116 | over every run, a column nobody sets stays, and so do the job's kind, integration and start |
| JobColumns.RequestsAreServed | backend/routers/integrations.py:101-127 | a requested run is queued as it was asked for, and a requested sync is afterwards unfinished for its integration |
| JobColumns.OlderJobsStartFirst | backend/ci_worker.py:53-53 | over every run, a job that was there before another came has a start no later, which is the order of the claim query |
| JobColumns.PurgedAfterItsFinish | backend/ci_worker.py:127-140 | over every run, a row goes only by a purge, and by it exactly if it was finished before the cutoff |
| JobProgress.EveryJobCanBeServed | backend/ci_worker.py:171-213 | from every state that a run can reach, one worker, restarted and left alone, can give every unfinished job the outcome of its execution, whatever that is, and leaves the finished ones as they are |
| JobProgress.HeartbeatTellsTheOwner | backend/ci_worker.py:192-197 | in every run a heartbeat moves the lease, and its worker goes on with the job, exactly if it still owns the row; otherwise nothing changes and it claims again |
| JobProgress.WriteLandsIffOwned | backend/routers/ci.py:100-119 | an execution's write lands, with its fields, exactly if its worker owns the row, and otherwise changes nothing |
| IsoTime.CompareTails | backend/ci_worker.py:30-31 | the order survives the omitted fraction: no fraction sorts before every fraction |
| IsoTime.CalendarOrder | backend/ci_worker.py:26-27 | the first calendar field that differs decides which instant is earlier, leap years included |
| IsoTime.TextOrderIsTimeOrder | backend/ci_worker.py:38-48 | comparing the stored texts is comparing the instants, and equal texts are one instant |
| RateLimiter.NewLimiter | backend/rate_limit.py:71-83 | limits that are not positive are refused, otherwise the limiter starts empty |
| RateLimiter.SlidingWindowLimiter.Prune | backend/rate_limit.py:85-95 | exactly the events inside the window are kept, and an empty key is dropped |
| RateLimiter.SlidingWindowLimiter.Check | backend/rate_limit.py:97-107 | the decision by the events inside the window, and the key moved to the recently used end |
| RateLimiter.SlidingWindowLimiter.Record | backend/rate_limit.py:109-123 | the same decision, and the event appended and the table evicted if allowed |
| RateLimiter.SlidingWindowLimiter.Clear | backend/rate_limit.py:125-128 | exactly the key is gone |
| RateLimiter.SlidingWindowLimiter.Reset | backend/rate_limit.py:130-133 | nothing is left |
| RateLimiter.SlidingWindowLimiter.EvictIfNeeded | backend/rate_limit.py:136-147 | the loops list and delete the expired entries and then pop the least recently used, which `ExpiredEntriesGoFirst` says the meaning of |
| RateLimiter.DeletingTheDeadSweeps | backend/rate_limit.py:140-145 | deleting the listed dead keys one by one leaves the live entries in their order |
| LimiterRuns.StepKeepsInv | backend/rate_limit.py:97-147 | every operation keeps: the stored events count as the accepted log does, from now on; accepts a limit apart are a window apart; the table is in order of touch |
| LimiterRuns.RunKeepsInv | backend/rate_limit.py:97-147 | the invariant holds after every run of checks, records, clears and resets |
| LimiterTheorems.DecidesByThePlainRule | backend/rate_limit.py:100-107 | in every reachable state the limiter allows exactly if the log of accepts has fewer than the limit inside the window |
| LimiterTheorems.AtMostMaxEventsInAnyWindow | backend/rate_limit.py:113-123 | over every run, any half-open interval as long as the window holds at most the limit of accepts of a key |
| LimiterTheorems.TableIsBoundedAndOrdered | backend/rate_limit.py:105-122 | the table never exceeds its bound and is strictly in the order of last touch |
| LimiterTheorems.EvictionIsFair | backend/rate_limit.py:135-147 | the key just recorded stays, and a key with a live event goes only if as many other keys as the bound were touched after it |
| LimiterTheorems.ExpiredEntriesGoFirst | backend/rate_limit.py:136-147 | over every run, when a record exceeds the bound every entry left has an event inside the window, as many keys stay as have one if there is room, and one that has one goes only if more than the bound have |
| LimiterTheorems.LiveKeysAreHad | backend/rate_limit.py:141-145 | the live keys of a table are exactly those whose last event is inside the window |
| LimiterTheorems.FewKeysMeansThePlainLog | backend/rate_limit.py:135-138 | with no more keys in play than the bound, the limiter's log is the one the plain rule builds with no table at all |
| LimiterTheorems.RefusalIsFromTheOldest | backend/rate_limit.py:102-104 | a refusal counts its wait from the oldest event inside the window |
| LimiterTheorems.FullKeyOpensWithTheOldest | backend/rate_limit.py:90-92 | a full key opens exactly when its oldest event leaves the window |
| LimiterTheorems.WaitingOutRetryAfterSucceeds | backend/rate_limit.py:102-104 | whoever waits the returned seconds, with nothing accepted meanwhile, is allowed |
| SharedLimiter.SharedWindow.Evaluate | backend/rate_limit.py:32-61 | the script's commands on a sorted set with a time to live compute the decision and the new set |
| SharedLimiter.CallFollowsThePlainRule | backend/rate_limit.py:39-60 | the script allows exactly if the log has fewer than the limit inside the window, keeps its invariant, and refuses naming the oldest |
| SharedLimiter.ExpiryIsHarmless | backend/rate_limit.py:51-57 | a set that Redis has dropped after its time to live held nothing that counts |
| SharedLimiter.ScriptLogIsThePlainLog | backend/rate_limit.py:32-61 | however often expired sets are dropped, the script accepts exactly what the plain rule accepts |
| SharedLimiter.TheTwoLimitersAgree | backend/rate_limit.py:32-123 | on one sequence of times both limiters answer alike, and the in-process wait exceeds the script's by at most one second |
| SharedLimiter.RetriesDifferOnlyOnWholeSeconds | backend/rate_limit.py:46-49 | the two waits differ, by one second, exactly if the wait is a whole number of seconds |
| SharedLimiter.ScriptRetryIsLeast | backend/rate_limit.py:43-50 | the script's wait is the least whole number of seconds after which the key opens |
| Folders.FolderSync.GetOrCreate | backend/github_sync.py:134-163 | whatever the cache holds, the outcome is that of resolving the trimmed non-empty parts against the table, and the cache stays in agreement with it |
| Folders.FolderSync.Descended | backend/github_sync.py:148-162 | one level: the cached folder, or the first that matches ignoring case, or a new one |
| FolderTheorems.ResolvedFolderHasThePath | backend/github_sync.py:134-163 | the resolved folder's rebuilt path is the path's trimmed non-empty parts, up to letter case |
| FolderTheorems.OnlyMissingLevelsAreAdded | backend/github_sync.py:157-162 | exactly the missing levels are added, one inside the other, below the levels that are there |
| FolderTheorems.SiblingsStayUnique | backend/github_sync.py:150-153 | siblings stay unique ignoring case |
| FolderTheorems.ResolvingAgainFindsIt | backend/github_sync.py:138-141 | a path that differs in case or spacing resolves to the same folder and adds nothing |
| FolderTheorems.FolderPath | backend/git_push.py:29-42 | the rebuild loop ends on every table, cyclic parents included, with the path of the names from the root down |
| FolderTheorems.RebuildingStops | backend/git_push.py:32-42 | no folder is named twice |
| FolderTheorems.RebuiltPathFindsItsFolder | backend/git_push.py:29-42 | the rebuilt path resolves back to its folder and adds nothing, when siblings are unique and names are trimmed and slash-free |
| FolderTree.BuildTree | backend/routers/folders.py:15-28 | the loop builds the forest, and terminates for every parent map |
| FolderTree.NewOnThePath | backend/routers/folders.py:18-19 | a repeated id on a call path would give a root folder a parent, so each nested call adds an id |
| FolderTree.EveryFolderUnderTheRootOnce | backend/routers/folders.py:15-23 | each folder whose parents lead to the root occurs exactly once, and no other |
| FolderTree.ForestIsWellBuilt | backend/routers/folders.py:17-27 | children hang under their parent and every level is in the order of lower-cased names |
| FolderTree.InOrderIff | backend/routers/folders.py:24-27 | a level is in that order exactly if of any two of its folders the earlier one's lower-cased name is the start of the later one's or has the lesser character where they first differ |
| FolderTree.SortIsStable | backend/routers/folders.py:24-27 | folders whose names differ only in case keep the order of the table |
| TestYaml.Serialize | backend/importers/yaml_importer.py:97-118 | the document collected key by key is the non-empty fields in the documented order, and always a title |
| TestYaml.WrittenIsReadAgain | backend/importers/yaml_importer.py:40-86 | a written row with a title is read back with each field trimmed and mapped |
| TestYaml.NoTitleIsNotRead | backend/importers/yaml_importer.py:52-54 | a row without a title is written as a file the parser refuses |
| TestYaml.RoundTripIffNormalForm | backend/importers/yaml_importer.py:97-105 | writing and reading gives the same fields exactly for rows in normal form |
| TestYaml.KindComesBack | backend/importers/yaml_importer.py:56-57 | a type comes back exactly if it is one the importer maps to |
| TestYaml.PriorityComesBack | backend/importers/yaml_importer.py:59-60 | a priority comes back exactly if it is one the importer maps to |
| TestYaml.CommaStringGivesTheTags | backend/importers/yaml_importer.py:65-71 | tags written as one comma-separated string are the tags written as a list |
| TestYaml.NothingIsMissing | backend/importers/yaml_importer.py:52-85 | a field that is null, empty, zero or false is read like a missing one |
| TestYaml.OtherIsItsText | backend/importers/yaml_importer.py:52-85 | any other value that is no text and no list is read like its text, and as tags like none |
| TestYaml.DocumentIsInOrder | backend/importers/yaml_importer.py:90-118 | the keys of a row with a title are written in the documented order |
| Letters.LowerTells | backend/github_sync.py:150-153 | lower-casing makes two texts equal exactly if they differ in the case of letters only |
| Text.TrimLeavesTheMiddle | backend/git_push.py:61-63 | trimming leaves the text between the white space around it |
| Letters.ParsedWordsAreRead | backend/importers/yaml_importer.py:22-60 | type, status and priority are read as what their words stand for, in any letter case, and as manual, pending and medium otherwise |
| RepoSync.Repo.SyncRepo | backend/github_sync.py:200-254 | the loop over files computes the upserts one after the other, with the folder cache, and their counts |
| RepoSync.Repo.Upsert | backend/github_sync.py:213-250 | the row matched by id, or else by repository and path, takes the file's fields; otherwise a row is added |
| RepoSync.Repo.PushTest | backend/github_sync.py:275-298 | on a conflict nothing changes; otherwise the rendered text is written and remembered |
| RepoSyncTheorems.EveryFileIsCounted | backend/github_sync.py:200-249 | created, updated and skipped add up to the files, skipped files have a warning, and the table grows by the created |
| RepoSyncTheorems.StatusIsLeftAlone | backend/github_sync.py:226-226 | a sync never changes the status or the id of a test that was there |
| RepoSyncTheorems.WrittenRowsAreStamped | backend/github_sync.py:223-238 | a sync leaves every row as it was, or with its commit and time and an auto flag that agrees with the type |
| RepoSyncTheorems.FileSettles | backend/github_sync.py:203-250 | after a file is synced it matches its row and has nothing left to change there |
| RepoSyncTheorems.FileStaysSettled | backend/github_sync.py:213-221 | a file with another path, id and row does not disturb it |
| ResyncTheorems.LastFileShows | backend/github_sync.py:203-243 | over a whole sync, the row that a file is the last to be written to shows the file's fields, text, path and identity, in the folder its path leads to |
| ResyncTheorems.NothingIsCreatedAgainIff | backend/github_sync.py:213-221 | over every table and files with distinct paths, the second sync of the same files creates nothing exactly if after the first one each is found by its id or at its path |
| ResyncTheorems.ThirdSyncCreatesNothing | backend/github_sync.py:203-250 | whatever the first two syncs of the same files create, the third creates nothing |
| ResyncTheorems.NothingChangesAgainIff | backend/github_sync.py:203-250 | the second sync changes nothing but commit and times exactly if after the first each file is found and every row already says what the files that find it say together |
| ResyncTheorems.SyncingAgainChangesNothing | backend/github_sync.py:203-250 | when each file finds again the row it was written to, several files on one row included, the second sync creates nothing and changes only commit and times |
| ResyncTheorems.FilesApartAreFoundAgain | backend/github_sync.py:213-223 | files with pairwise distinct paths, ids and rows find again the rows they were written to |
| ResyncTheorems.TwoFilesOfOneRowCreateAgain | backend/github_sync.py:213-223 | in a table of one row, a file without an id at the row's path followed by a file with the row's id: the first sync keeps one row, the next one creates a second |
| RepoSyncTheorems.PushThenSyncKeepsTheTest | backend/git_push.py:45-58 | pushing a row in normal form and syncing the file keeps id, title, type, runner, priority, owner, tags, folder and status, and the next push finds no conflict |
| RepoSyncTheorems.PushOverwritesOnlyWhatWasSeen | backend/git_push.py:66-78 | over every run of git edits, UI edits, syncs and pushes, a push changes only a file whose text is, up to surrounding white space, what the row was last synced from or pushed to |
| RepoSyncTheorems.PushIsRefusedIff | backend/git_push.py:61-78 | over every such run, a push is refused exactly if the file is there and differs by more than surrounding white space from what the row was last synced from or pushed to; otherwise the row's text is on git and remembered |
| CaseId.TokenGivesTheId | backend/importers/junit_xml.py:20-35 | a name with a token has the id of the token's words, whatever their case, the separators and the text around |
| CaseId.FoundTailHasWords | backend/importers/junit_xml.py:20-20 | whatever the pattern matches is made of words joined by single dashes or underscores |
| CaseId.ExtractingAgain | backend/importers/junit_xml.py:23-35 | an extracted id is its own case id |
| CaseId.ExtractedIdIsUpper | backend/importers/junit_xml.py:23-35 | an extracted id has upper-case letters, digits and dashes only |
| Letters.IdKeepsLetters | backend/importers/junit_xml.py:23-35 | it keeps the token's letters and digits, whatever their case, with a dash for each separator |
| CaseId.FoundIffSameToken | backend/github_sync.py:241-243 | a result has a synced test's key exactly if both carry a token with the same id |
| ImportFolders.FolderImport.GetOrCreate | backend/importers/persist.py:30-63 | fails exactly on a path that is not canonical, whatever the cache holds, and otherwise resolves it by exact names |
| ImportFolderTheorems.ImportedFolderHasThePath | backend/importers/persist.py:30-63 | the folder a path is put in has exactly that path when it is rebuilt |
| ImportFolderTheorems.ImportAddsOnlyMissingLevels | backend/importers/persist.py:40-61 | exactly the missing levels are added, one inside the other, below the levels that are there |
| ImportFolderTheorems.ImportedSiblingsStayUnique | backend/importers/persist.py:46-51 | siblings keep distinct names |
| Importer.ImportSession.PlaceTest | backend/importers/persist.py:69-135 | a test is matched by source id, or else by title and folder, and skipped, overwritten, renamed or created |
| Importer.ImportSession.Resolve | backend/importers/persist.py:137-151 | neither the cache of linked ids nor statuses set earlier change which test a case belongs to |
| Importer.ImportSession.LinkCases | backend/importers/persist.py:186-195 | the cases that have a test are linked in order, and their statuses set on the tests if asked |
| Importer.ImportSession.AddRuns | backend/importers/persist.py:154-198 | the loop adds the runs not imported before with their counters and linked cases, whose numbers are those of `ImportedRunsShowTheirCases` |
| Importer.ImportSession.AddDefects | backend/importers/persist.py:201-227 | defects not imported before are added, linked by title |
| Importer.Database.PersistImportResult | backend/importers/persist.py:14-230 | the whole import is committed exactly if every folder path is empty or canonical, and otherwise nothing is |
| PersistTheorems.EverythingIsCounted | backend/importers/persist.py:25-25 | in every mode tests, runs, defects and skipped add up to the tests, runs and defects of the result |
| ImportContents.CountsAreGrowths | backend/importers/persist.py:25-25 | folders, runs and defects reported are by how much the tables grew, and tests too with skip; the other modes report every test |
| PersistTheorems.RunCasesReferToRunsAndTests | backend/importers/persist.py:186-190 | in every mode every run case refers to an existing run and test |
| PersistTheorems.IdentityIsKept | backend/importers/persist.py:95-111 | in every mode an existing test keeps its id, its title and any external identity it had |
| ImportContents.ImportedRunsShowTheirCases | backend/importers/persist.py:154-184 | the runs added are those not there yet, in order, and passed, failed and blocked are the numbers of their cases with that status |
| ImportContents.ImportedRunAgreesWithRecountIff | backend/importers/persist.py:165-178 | a recount of the same cases finds the counters right exactly if none was skipped, and the progress exactly if none is pending |
| ImportContents.ImportedTestsShowTheirFields | backend/importers/persist.py:69-135 | in every mode, the row a test is the last to be written to shows it: all fields if new, the overwritten ones with overwrite, none with skip |
| ImportContents.OverwrittenFlagAgreesIff | backend/importers/persist.py:95-102 | an overwrite leaves type and auto flag in agreement exactly if the old flag says what the new type does |
| ImportContents.ImportedDefectsShowTheirFields | backend/importers/persist.py:201-227 | the defects added are those not there yet, with their fields and the test remembered last under the title they name |
| ReimportTheorems.ImportingAgainAddsNothing | backend/importers/persist.py:69-94 | importing the same result again with skip adds no folder, no test, no run with a source id and no defect with one |
| ResultLinks.LastResultIsTheStatus | backend/importers/persist.py:191-195 | with status sync a test is left with the status of the last case linked to it in run order, and otherwise keeps its own |
| ResultLinks.RunsAddTheNewCases | backend/importers/persist.py:154-195 | the run cases added are those of the new runs, linked as the table was after the tests |
| ResultLinks.CaseGoesToItsOwner | backend/importers/persist.py:137-151 | in every mode, a case goes to the last test of the result with its id, else the one in the table, else the last test remembered under its title, and to none exactly if there is none of these |
| ResultLinks.NoCaseIsLost | backend/importers/persist.py:186-190 | in every mode a run has as many cases as its total says exactly if each has such a test; except with rename, a case whose title is that of a test in the result has one |
| ResultLinks.ResultsFindTheSyncedTest | backend/github_sync.py:239-243 | after a sync under a provider, in every mode, an import for it links to the synced test every case with the id, exactly unless it renames and brings a test with that id; it makes no second one then |
| ResultLinks.RunsLeaveTheResults | backend/importers/persist.py:154-198 | over the whole import, the run cases added are those of the results linked, and with status sync a test ends with the status of the last result linked to it |
| ResultLinks.ResultsReachTheSyncedTest | backend/importers/persist.py:137-198 | from sync to status: every case with the id in a run not there yet becomes a run case of the synced test, and the last of them sets its status unless a later result without the id goes to the same test |
| ClassNames.DoubleSlashFailsTheImport | backend/importers/persist.py:63-63 | a double slash in the folder path of any test fails the import |
| ClassNames.EmptyPartFailsTheImport | backend/importers/junit_xml.py:55-71 | every class name without a slash that has an empty part between two others gives such a path |
| ClassNames.ClassNameIsTheFolder | backend/importers/junit_xml.py:55-71 | a class name of dotted parts, `::` included, is the canonical path of its parts, so that its test goes into their nested folder |
| ClassNames.SlashPathIsTheFolder | backend/importers/junit_xml.py:63-71 | a slash path is the folder, without the slashes around it, and so is the suite's name without a class name |
| ResultLinks.RenamedTestLosesItsResults | backend/importers/persist.py:112-113 | a renamed test is remembered only under its new title, so a result by its old title goes to the test remembered under it before, and to none if there was none |
| YamlSubset.StripTrailingComment | cli/lib/yaml.js:32-43 | everything before the first unquoted hash that starts the line or follows a blank |
| YamlSubset.UnescapeDouble | cli/lib/yaml.js:56-68 | the escapes are replaced, and an unknown or dangling one is an error |
| YamlSubset.ParseInlineList | cli/lib/yaml.js:94-111 | the top-level commas outside quotes separate the items |
| YamlRoundTrip.LineKeepsFlat | cli/lib/yaml.js:125-200 | every line that is read keeps the document flat with distinct identifier keys, and notes a key exactly if there is one |
| YamlSubset.Parse | cli/lib/yaml.js:117-209 | the loop over lines, whose results and reports are those of `PrintedDocumentIsParsed` and `MistakeIsReported` |
| PlainScalars.NumberIff | cli/lib/yaml.js:51-52 | what is recognized as a number is exactly what the grammar of sign, digits, point and exponent writes |
| PlainScalars.PlainScalarIsTyped | cli/lib/yaml.js:45-54 | a plain scalar is typed as null, a truth value, a number of that grammar, or else text |
| YamlRoundTrip.PrintedDocumentIsParsed | cli/lib/yaml.js:117-209 | a non-empty document of distinct keys comes back from its text: quoted strings whatever they hold, plain scalars as what they spell, missing values as null, however each list is written |
| YamlRoundTrip.LineEndsDoNotMatter | cli/lib/yaml.js:119-119 | the same with any of the three line ends |
| YamlErrors.MistakeIsReported | cli/lib/yaml.js:125-205 | after a printed document, each of the documented mistakes is reported as that problem with the number of its line, whatever follows |
| YamlErrors.EntryIff | cli/lib/yaml.js:170-175 | a line starts an entry exactly if letters, digits, underscores, dots and dashes stand before a colon |
| YamlNoise.NoiseDoesNotMatter | cli/lib/yaml.js:126-144 | in any text, good or bad, a blank line, a comment or an end marker leaves what is read, or which problem is reported, and only moves the lines after it |
| YamlNoise.StartMarkerDoesNotMatter | cli/lib/yaml.js:137-143 | a document may begin with a start marker |
| YamlNoise.TwoMarkersAreRefused | cli/lib/yaml.js:137-141 | a second start marker is reported as a second document, on its line |
| YamlRoundTrip.DashAloneIsNull | cli/lib/yaml.js:149-158 | a dash alone adds a null to the list |
| YamlNoise.StripLeavesTheMiddle | cli/lib/yaml.js:135-135 | stripping leaves the text between the white space of JavaScript around it |
| YamlRoundTrip.ListStylesAgree | cli/lib/yaml.js:147-197 | a list in brackets and the same list line by line parse alike |
| YamlRoundTrip.AcceptedDocumentIsFlat | cli/lib/yaml.js:2-18 | whatever text is accepted, the document is not empty, its keys are distinct identifiers, and every value is a scalar or a list of scalars |
| YamlRoundTrip.TrailingCommentIsIgnored | cli/lib/yaml.js:32-43 | a trailing comment never changes how a line is read |
| YamlRoundTrip.DoubleQuotedIffUncut | cli/lib/yaml.js:32-43 | a double-quoted value is read back exactly if its text has no hash after a space outside quotes, counting each escaped quote as a quote |
| YamlRoundTrip.DoubleQuotedWithoutQuotesComesBack | cli/lib/yaml.js:56-68 | every string without a double quote is read back from its double-quoted form |
| YamlRoundTrip.QuoteThenHashIsCut | cli/lib/yaml.js:36-40 | every string with one quote and after it, before any other quote or apostrophe, a hash after a space is cut short |
| RunCounters.RunRow.constructor | backend/routers/runs.py:107-122 | a new run's counters agree with its pending cases |
| RunCounters.RunRow.Retest | backend/routers/runs.py:138-166 | a retest has one pending case for each failed or blocked one, and that many as its total |
| RunCounters.RunRow.UpdateCase | backend/routers/runs.py:229-258 | marking a result leaves the counters as the numbers of cases by status, the progress as the percentage of finished cases rounded down, and the status they call for, and sends them |
| RunCounters.RunRow.Simulate | backend/ws_manager.py:83-133 | from agreeing counters, each message tells the outcome of the next pending case, the numbers so far and the percentage rounded down, never a lower one, as the recount would; the run ends with full progress and fail exactly if some case failed |
| RunCounters.CountersAddUp | backend/routers/runs.py:233-236 | passed, failed and blocked add up to the cases that are not pending |
| RunCounters.CountersAreNumbers | backend/routers/runs.py:232-236 | the counters are the numbers of cases with their statuses, a skipped case counting as blocked |
| RunCounters.ProgressIsThePercentage | backend/routers/runs.py:238-238 | below completion the progress p satisfies p * total <= 100 * finished < (p + 1) * total |
| RunCounters.MarkingNeverLowersProgress | backend/routers/runs.py:236-238 | marking a pending case never lowers the progress |
| RunCounters.FullProgressIffNothingPending | backend/routers/runs.py:236-238 | progress stays in 0 to 100 and, with the total the number of cases, is 100 exactly if none is pending |
| RunCounters.RecountEndsInFailIffSomeFailed | backend/routers/runs.py:241-242 | a recount of a complete run ends in fail exactly if some case failed |
| RunCounters.RecountKeepsTheEndIff | backend/ws_manager.py:131-132 | a recount keeps what the simulator left exactly if the total is no more than the number of cases |

## Left out

- Provider calls, polling, sleeps, routing and notifications: a provider call is an arbitrary result.
- Status steps of `_orchestrate` and `_orchestrate_gitlab`: any sequence of fenced writes at any time, which includes theirs.
- Side effects of a job that the code does not fence (imported runs, pipeline rows): nothing is claimed about them after a lost lease.
- Redaction of error texts, metrics, logging and WebSocket transport.
- The integration's own `status` and `last_sync` columns, and the merge of secrets in `update_integration`.
- JobTable.JobStore.EnqueueSync: one atomic step, although the code checks and then inserts without a unique constraint; two concurrent requests can insert two syncs.
- ResyncTheorems.NothingIsCreatedAgainIff: for files with distinct paths and generated ids that no file carries.
- Binary rounding of clock readings, leases and percentages: times are whole ticks and percentages exact.
- The script's member ids, and its clock, which Redis reads itself; it takes the time as an argument.
- Lower-casing of letters outside ASCII, and white space outside ASCII in Python's `strip`.
- An empty id, which the rebuild loop would take for no parent, and collisions of generated ids.
- The YAML library, the regular-expression engine, XML and CSV parsing; the case-id pattern is an explicit matcher.
- Values other than strings in a YAML file, beyond their truth value and their text.
- The loops of `parse_junit_xml` over suites; an import takes any list of tests and runs.
- GitLab's sync, which calls `sync_repo` with another fetcher; parsing of repository URLs; dry runs.
- Deleting tests and folders between syncs, and the `last_run_at`, `duration` and custom fields of a test.
- RepoSyncTheorems.PushThenSyncKeepsTheTest: for a folder that hangs under the root and whose names resolve uniquely; other folders are rebuilt or created anew.
- An unknown conflict mode of an import, which the code treats as creating.
- JavaScript's number conversion: a number keeps its numeral. The key `__proto__`, and the order of keys that look like indexes.
- Writers other than the simulator while it runs.
- Authentication, event bus, front end, migrations, `scripts/merge-folders.py`.
