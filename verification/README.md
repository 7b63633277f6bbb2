# Veilence backend: a verified model

This project models five parts of the backend in Dafny and proves what they promise.

* **The diff engine** (`EditScript`, `Slices`, `Hunks`, `HunkShape`, `Patch`, `Text`, `FileDiff`, `ReadPatch`,
  `Filter`, `TierRules`, `Packing`, `PackingExample`, `ReadDiff`, `DiffSummary`). The LCS table, the backtrack and
  the size cut-off; the loop that groups the script into hunks; the printed section of one file; the tiers of paths;
  and the three passes that pack sections under a byte budget. `Patch.Apply` is a strict patch tool,
  `ReadPatch.ReadSection` a reader of printed sections and `ReadDiff.ReadDiff` one of whole diffs: all are
  independent of how the text is made, and the round trips are stated against them. `DiffSummary` says what such a
  reader can count and see for himself: the statistics, the order of the files, and why the list stops where it does.
* **The job queue and its worker** (`QueueState`, `QueueInvariant`, `QueueOperations`, `QueueBulk`, `Queue`,
  `Backoff`, `WorkerLoop`, `Workers`, `Runs`, `RunTheorems`, `JobRecords`, `HandOut`, `SampleRuns`). Redis is a
  `Store` value: per job type a pending list, a processing and a dead sorted set, and the job table and counters. The
  class `Queue.Queue` performs each operation command by command and is proved against the functions of `QueueState`;
  the class `WorkerLoop.Worker` is the dispatcher. `Workers` is the whole system as a state machine: requests, ticks
  split into taking a slot, dequeuing and deciding, the end of a job, the exit of its goroutine, the passing of time,
  crashes, and a boot at which recovery runs for both job types before any worker. `Runs`, `RunTheorems`, `JobRecords`
  and `HandOut` are about all its runs.
* **The JSON extractor** (`JsonExtract`). The scanner, and printing of JSON with arbitrary white space and escapes
  after RFC 8259, sections 2 (grammar), 4 (objects), 5 (arrays) and 7 (strings).
* **Release detection** (`Poller`, `PollerRuns`). One poll as a relation (the tie-break of the query and of the sort
  is left open) and as a class, and all sequences of polls, including those in which queries, inserts or enqueues
  fail.
* **Workspaces, members and invitations** (`Workspaces`, `WorkspaceService`, `WorkspaceRuns`, `WorkspaceEffects`).
  Four tables, thirteen operations as functions and as methods of a class, and all sequences of calls.
  `WorkspaceEffects` says of each operation when exactly it succeeds, everything it then changes, and why it refuses.

## What the proofs showed about the code

* The retry delay is computed in nanoseconds in a 64-bit integer. It is exact for the first 29 failures and wraps
  around from the 30th on (`Backoff.DelayExactIffAtMost29`), which a maximum of 31 or more attempts can reach. A
  float64 out of range becomes an int64 as on amd64 processors.
* `RequeueDead` trusts its job-type argument. Called with another type than the job's own it leaves the job in two
  places (`QueueBulk.RequeueSafeIffOwnType`). This is a precondition and not something that happens: its callers
  pass the job's own type (`backend/internal/controller/restapi/v1/queue.go` line 217, and the bulk operations).
* Recovery at boot takes only jobs whose lock has timed out. A job dequeued shortly before a crash stays in the
  processing set until some later boot (`RunTheorems.OrphanWaits`, `SampleRuns.CrashStrandsJob`).
* A brace in the prose before the JSON object defeats the extractor (`JsonExtract.BraceBeforeObjectBreaksIt`).
* The back-fill of preceding context in the hunk loop never adds a line (`Hunks.NoBackfill`).
* Documentation files can be left out of a diff without its being marked truncated (`Packing.LeftOutUnmarkedIff`
  says exactly when, `PackingExample.NotesLeftOutUnmarked` shows it).
* A release whose insertion fails while a newer one goes in is passed over by later polls
  (`PollerRuns.FailedInsertIsPassedOver`, `PollerRuns.PassedOverStaysOut`) until a poll lists it among its first two
  versions while the query for the latest release fails, or lists it with a newer publish time. In the first case it
  is then created behind newer releases (`PollerRuns.FailedInsertComesBackLate`).
* The comment in `backend/internal/usecase/rbac/service.go` lines 407-409 says expired invitations cannot be resent;
  the code, and the model, resend them.

## Model

| member | source | states |
|---|---|---|
| EditScript.FillTable | backend/internal/usecase/differ/differ.go:824-839 | The nested loops fill the table so that cell (i, j) is the length of a longest common subsequence of the first i old and first j new lines. |
| EditScript.LcsIsLongest | backend/internal/usecase/differ/differ.go:824-839 | What the table holds is a maximum: a common subsequence of that length exists and none is longer. |
| EditScript.LcsIsUpperBound | backend/internal/usecase/differ/differ.go:824-839 | No line sequence that is a subsequence of both files is longer than the table entry. |
| EditScript.ReadOff | backend/internal/usecase/differ/differ.go:841-856 | The backtrack over the table, with its preference for additions, collects the script in reverse order in at most m + n cells. |
| Slices.ReverseSlice | backend/internal/usecase/differ/differ.go:858-861 | The two-index swap loop reverses the first n cells in place and touches no other. |
| EditScript.FallbackScript | backend/internal/usecase/differ/differ.go:866-876 | Above the cut-off the script deletes every old line and then adds every new one. |
| EditScript.ComputeEditScript | backend/internal/usecase/differ/differ.go:813-864 | The function returns the fallback script exactly above the cell cut-off and the backtrack script otherwise. |
| EditScript.ScriptTurns | backend/internal/usecase/differ/differ.go:812-876 | In both branches context and deleted lines spell the old file, context and added lines the new one. |
| EditScript.ScriptIsMinimal | backend/internal/usecase/differ/differ.go:812-864 | Below the cut-off the script has exactly m + n - 2 LCS additions and deletions, and no script that turns the old file into the new one has fewer. |
| EditScript.ChangesIffDifferent | backend/internal/usecase/differ/differ.go:812-876 | Different files always get a change; equal files below the cut-off get none. |
| EditScript.DeletionsFirst | backend/internal/usecase/differ/differ.go:841-876 | In every group of changed lines the deleted ones come first: no added line is directly followed by a deleted one, below and above the cut-off. |
| EditScript.ScriptCounts | backend/internal/usecase/differ/differ.go:812-876 | Below the cut-off a script adds and deletes exactly the lines outside a longest common subsequence, above it all lines of both files. |
| Hunks.IsNearChange | backend/internal/usecase/differ/differ.go:711-728 | The backward and forward look-ups report a change at most contextLines operations away, exactly when there is one. |
| Hunks.NextChangeDistance | backend/internal/usecase/differ/differ.go:738-745 | The look-ahead returns the distance to the nearest later change, and 0 exactly when there is none. |
| Hunks.PrecedingContext | backend/internal/usecase/differ/differ.go:763-772 | The back-fill collects the longest run of at most contextLines context lines directly before a change, in file order. |
| Hunks.NoBackfill | backend/internal/usecase/differ/differ.go:759-774 | Whenever the back-fill runs it finds nothing to add, so it never duplicates a line. |
| Hunks.MergeRule | backend/internal/usecase/differ/differ.go:737-754 | The flush distance 2c + 1, applied step by step, keeps a context line exactly when it lies between two changes with at most 3c + 1 operations between them. |
| Hunks.StartHunk | backend/internal/usecase/differ/differ.go:759-773 | A change without an open hunk opens an empty one at the current old and new positions. |
| Hunks.ContextLine | backend/internal/usecase/differ/differ.go:710-757 | One context line: the finished and open hunks stay the maximal runs of printed operations seen so far. |
| Hunks.ChangedLine | backend/internal/usecase/differ/differ.go:758-797 | One added or deleted line: the same. |
| Hunks.GroupIntoHunks | backend/internal/usecase/differ/differ.go:701-805 | The whole loop produces one hunk for each maximal run of operations that are near a change or bridged, with start and count fields of that run. |
| Hunks.ComputeUnifiedHunks | backend/internal/usecase/differ/differ.go:693-805 | Edit script and grouping together. |
| Hunks.RunsAreSeparated | backend/internal/usecase/differ/differ.go:748-754 | Hunks are in order and never touch. |
| Hunks.RunsCover | backend/internal/usecase/differ/differ.go:730-754 | The blocks hold exactly the operations to be printed. |
| HunkShape.MergedIffClose | backend/internal/usecase/differ/differ.go:737-754 | All context between two consecutive changes is printed if and only if it is at most 3c + 1 lines. |
| HunkShape.Edges | backend/internal/usecase/differ/differ.go:708-802 | The operations right before and right after a hunk are not printed; its first and last are. |
| HunkShape.ExactContext | backend/internal/usecase/differ/differ.go:711-736 | Every hunk has exactly c context lines before its first change and after its last one, fewer only where the script begins or ends. |
| HunkShape.EveryChangeInOneHunk | backend/internal/usecase/differ/differ.go:758-797 | Every change is in exactly one hunk. |
| Patch.PatchForward | backend/internal/usecase/differ/differ.go:693-805 | Applied by a strict patch tool, which checks headers, counts and expected lines, the hunks turn the old lines into exactly the new ones, for every contextLines and cut-off. |
| Patch.PatchBackward | backend/internal/usecase/differ/differ.go:693-805 | The same hunks applied in reverse turn the new lines into exactly the old ones. |
| Patch.BlocksApply | backend/internal/usecase/differ/differ.go:693-805 | Any ordered, disjoint blocks of a script that cover its changes are such a patch. |
| Text.JoinSplit | backend/internal/usecase/differ/differ.go:514-515 | Splitting a file into lines loses nothing: joining gives the file back, and no line holds a newline. |
| FileDiff.WriteHunk | backend/internal/usecase/differ/differ.go:518-530 | The header and lines of one hunk are appended, and the additions and deletions in it are counted. |
| FileDiff.WriteHunks | backend/internal/usecase/differ/differ.go:517-531 | The same for all hunks of a file. |
| FileDiff.WritePrefixed | backend/internal/usecase/differ/differ.go:500-504 | Every line of an added or removed file is appended with its prefix. |
| FileDiff.GenerateFileDiff | backend/internal/usecase/differ/differ.go:487-538 | One file, written as the source writes it; what the text shows is DiffReadsBack, and what the three counts are is ReportedIff and SectionCounts. |
| FileDiff.ReportedIff | backend/internal/usecase/differ/differ.go:487-538 | A file in both releases is reported exactly if its contents differ, a file in one of them exactly if it is not empty; what is not reported has no text and no counts. |
| FileDiff.SectionCounts | backend/internal/usecase/differ/differ.go:498-537 | Each count by itself: an added file counts all its lines as added and none as removed, a removed file the other way round, a modified file the new and the old lines outside a longest common subsequence, and above ten million table cells all new and all old lines. |
| FileDiff.ThreeLinesOfContext | backend/internal/usecase/differ/differ.go:512-531 | Every hunk of a modified file shows three lines before its first change and after its last one, fewer only if it reaches the first or last line of both versions. |
| FileDiff.HunksCountChanges | backend/internal/usecase/differ/differ.go:517-530 | The additions and deletions counted through the hunks are all those of the edit script. |
| FileDiff.SectionBalance | backend/internal/usecase/differ/differ.go:487-538 | A file is reported as changed exactly when its contents differ, a missing file reading as empty, and added minus removed is the change in its line count, a missing file counting no lines. |
| ReadPatch.SectionRead | backend/internal/usecase/differ/differ.go:512-532 | A reader that knows only the text recovers exactly the hunks from the printed section, whatever the lines contain. |
| ReadPatch.TextRebuildsFile | backend/internal/usecase/differ/differ.go:512-532 | From the printed text alone the new content can be rebuilt from the old and the old from the new. |
| ReadDiff.DiffReadsBack | backend/internal/usecase/differ/differ.go:483-618 | From the text of a whole diff alone, for paths without a newline, a reader recovers every file it shows, in order, as added, removed or modified with its lines or hunks, and whether it was truncated. |
| ReadDiff.EntryRebuilds | backend/internal/usecase/differ/differ.go:487-538 | What is recovered of a file gives its new content from the old and its old content from the new. |
| DiffSummary.StatsMatchText | backend/internal/usecase/differ/differ.go:483-618 | For paths without a newline the statistics are those of the text: as many files as the reader finds, as many lines added and removed as it finds '+' and '-' lines, truncated exactly if it finds the marker. |
| DiffSummary.ShownInOrder | backend/internal/usecase/differ/differ.go:481-607 | Code comes before CI configuration and that before documentation; within a tier the paths ascend in byte order, none twice. |
| DiffSummary.WhereItStops | backend/internal/usecase/differ/differ.go:540-607 | The first code file is always shown, alone and marked if it is over the limit; otherwise the output stays within the limit, a marked diff stops before a file that would exceed it, an unmarked one shows everything or stops before the documentation, and documentation is tried exactly if code and CI files take less than four fifths of the limit in whole bytes. |
| DiffSummary.FourFifths | backend/internal/usecase/differ/differ.go:590 | The integer arithmetic of the 80 % test, for every limit, negative ones included. |
| Filter.ClassifyFile | backend/internal/usecase/differ/filter.go:100-132 | The loop over directory names and the table look-ups compute the tier. |
| Filter.Tier2IffCiDirectoryFirst | backend/internal/usecase/differ/filter.go:103-111 | A path is tier 2 exactly when one of its segments is a CI directory and no earlier segment is an excluded or CI directory. |
| TierRules.TierIff | backend/internal/usecase/differ/filter.go:100-132 | All four tiers, each if and only if: the first listed directory decides alone; without one a path is excluded by its name or extension, documentation by its extension if not excluded, and code otherwise. |
| TierRules.BaseIsLastElement | backend/internal/usecase/differ/filter.go:114 | The name looked up is the last element of the path, whatever slashes follow it. |
| TierRules.BaseOfNoElement | backend/internal/usecase/differ/filter.go:114 | For a path without any element it is the root, or a dot for the empty path. |
| TierRules.ExtAfterLastDot | backend/internal/usecase/differ/filter.go:120 | The extension looked up is what follows the last dot of the last element, with the dot. |
| TierRules.NoDotNoExt | backend/internal/usecase/differ/filter.go:120 | A last element without a dot has no extension, whatever dots the directories have. |
| TierRules.LowerCase | backend/internal/usecase/differ/filter.go:114-120 | The look-ups ignore the case of ASCII letters and nothing else. |
| Filter.PartitionPaths | backend/internal/usecase/differ/filter.go:135-153 | Each of the four results holds the paths of its tier, each as often as it was given, in ascending byte order. |
| Filter.LessEqIsByteOrder | backend/internal/usecase/differ/filter.go:148-151 | One string sorts up to another exactly if it is a prefix of it or has the smaller byte at the first difference. |
| Filter.SortAscends | backend/internal/usecase/differ/filter.go:148-151 | Sorting arranges the same strings in ascending byte order. |
| Filter.SortIsSorted | backend/internal/usecase/differ/filter.go:148-151 | Sorting gives an arrangement that is ordered by the comparison function. |
| Filter.SortedUnique | backend/internal/usecase/differ/filter.go:148-151 | There is only one ascending arrangement, so the sort used does not matter. |
| Filter.OrderIrrelevant | backend/internal/usecase/differ/filter.go:135-153 | The tiers depend on the paths, not on the order in which they come. |
| Packing.WalkKeys | backend/internal/usecase/differ/differ.go:465-479 | Walking both maps in any order collects every path once. |
| Packing.WalkOrderIrrelevant | backend/internal/usecase/differ/differ.go:465-481 | Whatever the order of map iteration, the tier lists are the same. |
| Packing.EmitTier | backend/internal/usecase/differ/differ.go:540-567 | One pass emits changed files in order until one does not fit; the first file of the first pass is emitted even then. |
| Packing.EmitTiers | backend/internal/usecase/differ/differ.go:540-607 | The three passes, with their conditions on truncation and on 80 % of the limit, emit the files the budget rule selects. |
| Packing.ThreePasses | backend/internal/usecase/differ/differ.go:540-607 | The pass-by-pass rule is the rule on one list of all changed files: a prefix in tier order that fits unless it is the single first code file, with the next file over the limit on any other truncation. |
| Packing.GenerateDiff | backend/internal/usecase/differ/differ.go:465-618 | Text, counts and truncation flag are those of the selected files, and the marker follows exactly when truncated. |
| Packing.BudgetedIsUnique | backend/internal/usecase/differ/differ.go:540-607 | The budget rule determines the number of emitted files and the flag. |
| Packing.UntruncatedIsComplete | backend/internal/usecase/differ/differ.go:540-607 | Not truncated: no changed code or CI file is missing, and documentation is missing only if 80 % of the limit (integer arithmetic) was already used; the output is within the limit. |
| Packing.LeftOutUnmarkedIff | backend/internal/usecase/differ/differ.go:540-607 | Files are left out without the truncation flag if and only if documentation changed, all changed code and CI files fit, and they use at least 80 % of the limit. |
| PackingExample.NotesLeftOutUnmarked | backend/internal/usecase/differ/differ.go:590 | Two releases and a limit for which exactly that is the one possible outcome. |
| Packing.TotalsBalance | backend/internal/usecase/differ/differ.go:487-606 | Over the emitted files, reported additions minus deletions equal the change in line counts. |
| Packing.TierListsChangedFiles | backend/internal/usecase/differ/differ.go:465-481 | A tier lists exactly the paths of that tier, in either release, whose contents differ. |
| Queue.Queue.constructor | backend/pkg/queue/queue.go:95-109 | Configured values, with 5 attempts and ten minutes in place of values that are not positive; the queue takes up whatever is stored. |
| Queue.Queue.EnqueueJob | backend/pkg/queue/queue.go:121-156 | A new id, a record with that id at the left end of the pending list, and the counter; the fields of the record are those of SubmittedRecord. |
| Queue.Queue.DequeueJob | backend/pkg/queue/queue.go:158-188 | The right end of the list is taken, the job marked and put into the processing set; an empty list and a missing record are told apart; the temporary list is left as it was. |
| Queue.Queue.PutBackJob | backend/pkg/queue/worker.go:79-88 | The dispatcher gives a job in backoff back: pending again, at the left end, out of the processing set. |
| Queue.Queue.CompleteJob | backend/pkg/queue/queue.go:190-202 | Out of the processing set, both completion counters up by one. |
| Queue.Queue.FailJob | backend/pkg/queue/queue.go:204-256 | One more attempt; dead at the maximum, otherwise pending at the left end with a delay; the fields of the record are those of FailureRecord. |
| Queue.Queue.Range | backend/pkg/queue/queue.go:261-266 | The ids of a sorted set up to a cut-off, each once, by ascending score. |
| Queue.Queue.RecoverStuckJobs | backend/pkg/queue/queue.go:258-302 | The ids whose lock timed out are gone through in order of score, those without a record being skipped; under the invariant all of them go back to pending, and the count is their number. |
| Queue.Queue.RequeueDeadJob | backend/pkg/queue/queue.go:304-329 | A dead job starts again with no attempts; anything else is an error that changes nothing. |
| Queue.Queue.RequeueAllDead | backend/pkg/queue/queue.go:331-346 | Every dead id is tried, those that fail being skipped; under the invariant the dead set of the type is emptied and its former size returned. |
| Queue.Queue.RequeueAllDeadForWorkspace | backend/pkg/queue/queue.go:731-753 | Every dead id of the workspace is tried; under the invariant exactly the dead jobs of other workspaces stay, and the count is the number that left. |
| Queue.Queue.Stats | backend/pkg/queue/queue.go:348-376 | Under the invariant the three sizes are the numbers of job records of the type with that status. |
| Runs.StatsAccountForAll | backend/pkg/queue/queue.go:348-376 | In every reachable state the statistics of the two types, taken together, account for every job ever enqueued, and both show the same number completed. |
| Queue.Queue.PendingJobs | backend/pkg/queue/queue.go:381-434 | Under the invariant entry k of the page is the record of the pending job at place offset + k from the right end of the list, the page is as long as asked for as far as there are jobs, and the total is the length of the list; a limit that is not positive counts as 20, one above 100 as 100, a negative offset as 0. |
| Queue.AllLoaded | backend/pkg/queue/queue.go:425-433 | With no record missing, a page shows every one of its ids in order. |
| Queue.PagesTile | backend/pkg/queue/queue.go:397-423 | Consecutive pages tile the queue without gap or repetition. |
| Queue.FirstPageFirst | backend/pkg/queue/queue.go:378-434 | The first job of the first page is the one the next Dequeue returns. |
| Backoff.DelayExactIffAtMost29 | backend/pkg/queue/queue.go:235-237 | The next run is exactly 30 * 2^(a-1) seconds after the a-th failure if and only if a is at most 29; beyond that the nanoseconds do not fit 64 bits. |
| Backoff.ThirtiethRetryHasNoDelay | backend/pkg/queue/queue.go:235-237 | At the 30th failure the delay wraps around and the next run lies in the past. |
| QueueInvariant.EmptyInv | backend/pkg/queue/queue.go:80-110 | An empty store satisfies the queue invariant. |
| QueueInvariant.OneMoved | backend/pkg/queue/queue.go:121-346 | Changing one job and leaving the places of all others alone keeps the queue invariant. |
| QueueOperations.MoveKeeps | backend/pkg/queue/queue.go:158-329 | Moving a job from the place its status names to another keeps the invariant: one place per job, status in agreement, attempts in bounds, counters adding up. |
| QueueOperations.EnqueueKeeps | backend/pkg/queue/queue.go:121-156 | So does adding a job, which disturbs no other. |
| QueueOperations.DequeueMoves | backend/pkg/queue/queue.go:158-188 | Dequeue moves the right-most pending job to processing. |
| QueueOperations.PutBackMoves | backend/pkg/queue/worker.go:79-88 | Putting back moves it to pending. |
| QueueOperations.CompleteMoves | backend/pkg/queue/queue.go:190-202 | Completing moves it out of all three places. |
| QueueOperations.FailMoves | backend/pkg/queue/queue.go:204-256 | Failing moves it to pending or, at the maximum, to dead. |
| QueueOperations.RecoverOneMoves | backend/pkg/queue/queue.go:272-299 | Recovery moves a stuck job to pending; the branch that declares it dead is never taken. |
| QueueOperations.RecoverOneGivesUp | backend/pkg/queue/queue.go:281-290 | What that branch would do: the record is dead with the fixed message, the id is in the dead set and out of processing, and it waits nowhere. |
| QueueOperations.RequeueDeadMoves | backend/pkg/queue/queue.go:304-329 | Requeuing under the job's own type moves it from dead to pending. |
| QueueBulk.RecoverDrains | backend/pkg/queue/queue.go:271-299 | Recovery of any set of stuck jobs takes exactly those out of processing and keeps the invariant. |
| QueueBulk.RequeueAllDrains | backend/pkg/queue/queue.go:337-345 | Bulk requeue takes exactly the selected jobs out of the dead set, resets their records and keeps the invariant. |
| QueueBulk.RequeueAllEmpties | backend/pkg/queue/queue.go:331-346 | Requeuing everything leaves the dead set empty and counts its former size. |
| QueueBulk.RequeueWorkspaceTakesItsOwn | backend/pkg/queue/queue.go:731-753 | Requeuing for a workspace leaves exactly the jobs of other workspaces. |
| QueueBulk.RequeueSafeIffOwnType | backend/pkg/queue/queue.go:304-329 | RequeueDead keeps the invariant if and only if it finds no dead job or is called with the job's own type. |
| WorkerLoop.Worker.constructor | backend/pkg/queue/worker.go:28-42 | A concurrency that is not positive becomes 1. |
| WorkerLoop.Worker.OnTick | backend/pkg/queue/worker.go:59-94 | One tick: with all slots taken it changes nothing; otherwise it takes a slot, dequeues, puts back a job in backoff or starts it, and gives the slot back on every path that starts nothing. The slots taken never exceed the concurrency. |
| WorkerLoop.Worker.OnProcessed | backend/pkg/queue/worker.go:98-124 | A processed job fails or completes. |
| WorkerLoop.Worker.OnGoroutineExit | backend/pkg/queue/worker.go:90-93 | The goroutine's deferred receive gives its slot back. |
| WorkerLoop.TickIsARun | backend/pkg/queue/worker.go:59-94 | Every tick is a run of steps of the state machine below, the empty one exactly if all slots are taken, so what holds of its runs holds of the loop. |
| WorkerLoop.TickKeeps | backend/pkg/queue/worker.go:59-94 | In particular a tick keeps the system invariant, and the slots stay within the concurrency. |
| Workers.StepKeeps | backend/pkg/queue/worker.go:48-130 | Every step of the system, including crash, boot recovery and requests, keeps the invariant on queue, slots and held jobs. |
| Workers.InitialInv | backend/pkg/queue/queue.go:80-110 | It holds at start-up of an empty queue. |
| Runs.RunKeeps | backend/pkg/queue/worker.go:44-130 | It holds along every run. |
| Runs.OnePlace | backend/pkg/queue/queue.go:121-346 | In every reachable state an issued job occurs once in the place of its type that its status names, and nowhere else; a completed one occurs nowhere. |
| Runs.AttemptsBounded | backend/pkg/queue/queue.go:204-256 | In every reachable state dead jobs have exactly the maximum number of attempts and all others fewer. |
| Runs.CountersConserved | backend/pkg/queue/queue.go:147-232 | total_enqueued is what is pending, processing, dead or completed, and the workspaces' completion counters add up to total_completed. |
| Runs.SlotsAndProcessing | backend/pkg/queue/worker.go:48-96 | Slots taken are running jobs, goroutines about to exit and one for the dispatcher between taking and giving back, never above the concurrency; the processing set is made up of running jobs, the dispatcher's job and jobs left by crashes, without overlap. |
| Runs.StepEffect | backend/pkg/queue/queue.go:158-329 | What each step does to the record of each job, and that jobs not involved keep theirs. |
| RunTheorems.StartedIsDue | backend/pkg/queue/worker.go:79-93 | No job starts before it is due, and none that is already running or orphaned. |
| RunTheorems.BackoffRespected | backend/pkg/queue/queue.go:235-243 | After the a-th failure at time t (a at most 29 and below the maximum) no run starts the job before t + 30 * 2^(a-1), whatever happens in between. |
| RunTheorems.ExecutionsBounded | backend/pkg/queue/queue.go:204-329 | Without a dead-letter requeue a job is executed at most as often as its maximum of attempts plus its recoveries. |
| RunTheorems.RecoveredIffLockTimedOut | backend/pkg/queue/queue.go:258-302 | Boot recovery takes an orphaned job back if and only if it was dequeued at least the lock timeout ago. |
| RunTheorems.OrphanWaits | backend/pkg/queue/queue.go:258-302 | An orphan whose lock had not timed out at boot is neither run nor moved until a boot at which it has. |
| JobRecords.FailureRecord | backend/pkg/queue/queue.go:204-256 | What a failure makes of a record: one attempt more, the message, the time; dead exactly if that uses up the attempts, the run time then as it was, otherwise pending with a run time exactly 30 * 2^(a-1) seconds ahead after the a-th failure (a at most 29); everything else as it was. |
| JobRecords.RetryStartsExactlyWhenDue | backend/pkg/queue/worker.go:79-93 | Through any steps that neither report nor requeue the job, a dispatcher that has fetched it after its a-th failure starts it if and only if the delay has passed, and puts it back if and only if not; for a up to 29 the delay is 30 * 2^(a-1) seconds. |
| JobRecords.DecidedByRunTime | backend/pkg/queue/worker.go:79-93 | A fetched job is started exactly if its stored run time has come, and pending again exactly if not. |
| JobRecords.SubmittedRecord | backend/pkg/queue/queue.go:121-156 | The record of a new job, field by field: pending, no attempts, no error, due at once. |
| JobRecords.FirstStartIsImmediate | backend/pkg/queue/worker.go:79-93 | The first dispatcher that fetches a new job starts it. |
| JobRecords.RunsWhatWasSubmitted | backend/pkg/queue/queue.go:121-329 | Whatever happens in between, a running job has the type, workspace, reference, metadata, creation time and maximum of attempts it was submitted with, and runs on the worker of its type. |
| JobRecords.CompletedPerWorkspace | backend/pkg/queue/queue.go:190-202 | In every reachable state the completed counter of each workspace is the number of its completed jobs. |
| SampleRuns.SubmittedJobRuns | backend/pkg/queue/worker.go:59-93 | There is a run, for every sensible configuration, in which a submitted job is fetched and started. |
| SampleRuns.CrashStrandsJob | backend/pkg/queue/queue.go:258-302 | A crash right after that and an immediate restart leave the job in the processing set, pending nowhere and running nowhere. |
| HandOut.NoOvertaking | backend/pkg/queue/queue.go:149-188 | The job with k others to its right is the (k+1)-th one handed out, in every run. |
| HandOut.PagesShowWhatIsHandedOut | backend/pkg/queue/queue.go:378-434 | Entry k of the paged pending jobs, on whichever page it falls, is the (k+1)-th job handed out, in every run. |
| HandOut.RecoveredOldestFirst | backend/pkg/queue/queue.go:258-302 | Jobs recovered at boot are handed out in the order in which they were once fetched, after everything that was already waiting. |
| HandOut.RequeuedOldestFirst | backend/pkg/queue/queue.go:331-346 | Of the dead jobs requeued together, the one that died first is handed out first. |
| HandOut.DeadTotalAccounted | backend/pkg/queue/queue.go:222 | In every run from start-up, total_dead is the size of the dead sets plus all successful requeues. |
| JsonExtract.IndexByte | backend/pkg/llm/parse.go:81-84 | The first opening brace, or -1 exactly when there is none. |
| JsonExtract.ExtractJSONObject | backend/pkg/llm/parse.go:80-125 | The scan returns the shortest text from the first opening brace that balances outside string literals, and nothing exactly when none does. |
| JsonExtract.ExtractionIsUnique | backend/pkg/llm/parse.go:80-125 | That contract admits one result. |
| JsonExtract.ValueNeutral | backend/pkg/llm/parse.go:86-122 | Reading any printed JSON value outside a string leaves the scanner's state as it was and never goes below the depth it started at, whatever braces, quotes and backslashes its strings hold. |
| JsonExtract.PrintedObjectText | backend/pkg/llm/parse.go:113-121 | A printed object balances at its end and at no earlier point. |
| JsonExtract.ExtractsObjectIff | backend/pkg/llm/parse.go:78-125 | The printed object is what comes out if and only if it starts at the first opening brace of the text. |
| JsonExtract.ExtractUndoesPrint | backend/pkg/llm/parse.go:78-125 | From any prose without an opening brace before it, and anything after it, extraction returns exactly the printed object (RFC 8259, sections 2, 4, 5 and 7). |
| JsonExtract.BraceBeforeObjectBreaksIt | backend/pkg/llm/parse.go:81-91 | A brace in the prose before the object makes it fail: on "{ {}" nothing is found. |
| Poller.Poller.FindLatestRelease | backend/internal/repo/persistent/poller_repo.go:97-119 | Some release with the greatest publish time, nothing exactly for an empty table. |
| Poller.SortOldestFirst | backend/internal/usecase/poller/poller.go:324-328 | Ascending by publish time and a permutation; nothing is promised about equal times. |
| Poller.Poller.CreateReleases | backend/internal/usecase/poller/poller.go:330-381 | The create-if-absent loop, with its exits for a failed look-up, a failed insert and a failed enqueue. |
| Poller.Poller.CheckPackageForNewReleases | backend/internal/usecase/poller/poller.go:290-384 | One poll: the versions after the latest known release, or the first two for a new package, oldest first. |
| Poller.PollKeeps | backend/internal/usecase/poller/poller.go:290-381 | Whatever fails, versions stay unique, no release has two jobs, both tables only grow, and only what the branch at the top takes up is added. |
| Poller.PollAddsInTimeOrder | backend/internal/usecase/poller/poller.go:324-376 | Within every poll, whatever fails in it, releases are created and diff jobs enqueued in publish order. |
| Poller.PollKeepsTimeOrderIff | backend/internal/usecase/poller/poller.go:305-328 | When no look-up or insertion fails, a table in publish order stays so if and only if the query for the latest release succeeds or neither of the first two listed versions is both unknown and older than a known one. |
| Poller.PollKeepsTimeOrder | backend/internal/usecase/poller/poller.go:305-328 | One half of this for every poll, whatever else fails in it. |
| Poller.PollAddsExactlyOffered | backend/internal/usecase/poller/poller.go:300-354 | When no look-up or insertion fails, an absent version is added if and only if it is one of the first two listed (nothing known, or the query for the latest release fails) or is newer than everything known (otherwise). |
| Poller.PollAddsExactlyNewer | backend/internal/usecase/poller/poller.go:305-313 | In particular, for a package with releases whose query succeeds: exactly what is listed as newer than the latest. |
| Poller.FirstPollAddsFirstTwo | backend/internal/usecase/poller/poller.go:314-318 | A first poll in which no look-up or insertion fails adds exactly the first two listed versions. |
| Poller.PollIsIdleIff | backend/internal/usecase/poller/poller.go:301-354 | A poll that takes up only known versions adds nothing, whatever fails; when no look-up or insertion fails, only such a poll adds nothing. |
| Poller.CreateAllQueuesIff | backend/internal/usecase/poller/poller.go:330-381 | The loop adds one job per release it creates if and only if no enqueue for a created release fails. |
| PollerRuns.RepeatCreatesNothing | backend/internal/usecase/poller/poller.go:290-384 | After a poll of a newest-first list that skipped nothing, the same list creates nothing, whatever fails then, as long as the query for the latest release succeeds; if it fails, and nothing is skipped, exactly when the first two versions are known. The first poll may have had a failing query only for a package without releases. |
| PollerRuns.RepeatOfFirstIff | backend/internal/usecase/poller/poller.go:300-318 | For a list in any order without duplicates, and polls that skip nothing, repeating the first poll creates nothing if and only if no later entry is newer than the first two or the query for the latest release fails. |
| PollerRuns.RepeatOfUnorderedListCreates | backend/internal/usecase/poller/poller.go:314-318 | An oldest-first list for which the repeat does create a release. |
| PollerRuns.RunKeeps | backend/internal/usecase/poller/poller.go:330-381 | Over any sequence of polls, with any failures: unique versions, at most one job per release, nothing taken back. |
| PollerRuns.EachPollInTimeOrder | backend/internal/usecase/poller/poller.go:324-376 | In every run, with any failures, each poll creates its releases and enqueues their jobs in publish order. |
| PollerRuns.JobsInTimeOrder | backend/internal/usecase/poller/poller.go:305-376 | The jobs of all polls together are in publish order too, if no poll whose query for the latest release fails meets an unknown version, among the first two, that is older than a known one. |
| PollerRuns.OneJobPerReleaseIff | backend/internal/usecase/poller/poller.go:341-376 | In every run every release has exactly one job, in order, if and only if no enqueue for a created release has failed; queries, look-ups and insertions may fail. |
| PollerRuns.OneJobPerRelease | backend/internal/usecase/poller/poller.go:341-376 | In particular when every enqueue succeeds. |
| PollerRuns.KnownIffOffered | backend/internal/usecase/poller/poller.go:300-354 | In every run a version is known only if some poll took it up, and, when no look-up or insertion fails, whenever one did. |
| PollerRuns.PassedOverStaysOut | backend/internal/usecase/poller/poller.go:300-318 | A version that is absent stays so for as long as polls list it only as no newer than the latest release there was, or, when their query for it fails, not among the first two. |
| PollerRuns.FailedInsertIsPassedOver | backend/internal/usecase/poller/poller.go:332-354 | A version whose look-up or insertion fails while a release at least as new is in the table afterwards is absent and no newer than the latest, so that it is passed over from then on. |
| PollerRuns.FailedInsertComesBackLate | backend/internal/usecase/poller/poller.go:300-354 | An example: the insertion of the older of two versions fails, the next poll passes it over, and a poll whose query for the latest release fails adds it after all, behind the newer one. |
| WorkspaceService.Service.CreateWorkspace | backend/internal/usecase/rbac/service.go:86-142 | Free slug, workspace, the four default roles, and the creator as member with the owner role; or the slug is taken and nothing changes. |
| WorkspaceService.Service.CreateDefaultRoles | backend/internal/usecase/shared/roles.go:74-101 | The four roles are created for the workspace; the one named owner is returned. |
| WorkspaceService.Service.UpdateWorkspace | backend/internal/usecase/rbac/service.go:166-188 | A new slug must be free among the other live workspaces. |
| WorkspaceService.Service.DeleteWorkspace | backend/internal/repo/persistent/rbac_repo.go:79-205 | Members, invitations and roles of the workspace go, its row is marked. |
| WorkspaceService.Service.InviteMember | backend/internal/usecase/rbac/service.go:207-264 | Checks in order, then an open invitation that expires in seven days. |
| WorkspaceService.Service.FindInvitationByToken | backend/internal/repo/persistent/rbac_repo.go:415-427 | The invitation with the token, if there is one. |
| WorkspaceService.Service.AcceptInvitation | backend/internal/usecase/rbac/service.go:269-330 | By token: state before address; then acceptance and membership together, or neither. |
| WorkspaceService.Service.AcceptInvitationByID | backend/internal/usecase/rbac/service.go:496-553 | By id: address before state; then the same. |
| WorkspaceService.Service.JoinWorkspace | backend/internal/usecase/rbac/service.go:298-325 | The transaction of both: an existing member changes nothing. |
| WorkspaceService.Service.DeclineInvitationByToken | backend/internal/usecase/rbac/service.go:335-369 | Declining by token. |
| WorkspaceService.Service.DeclineInvitationByID | backend/internal/usecase/rbac/service.go:458-492 | Declining by id. |
| WorkspaceService.Service.RevokeInvitation | backend/internal/usecase/rbac/service.go:396-405 | Only an unanswered invitation of the workspace is deleted. |
| WorkspaceService.Service.ResendInvitation | backend/internal/usecase/rbac/service.go:410-454 | A new token and a new expiry for an unanswered invitation, expired or not. |
| WorkspaceService.Service.RemoveMember | backend/internal/usecase/rbac/service.go:564-580 | The checks in order, then the membership goes; that it does, and that nothing else does, is RemoveDoes. |
| WorkspaceService.Service.UpdateMemberRole | backend/internal/usecase/rbac/service.go:584-618 | Anybody but the owner can be given any role of the workspace but the owner's. |
| WorkspaceService.Service.AddUserToWorkspace | backend/internal/usecase/rbac/service.go:721-819 | An existing or new account becomes a member with a role of the workspace that is not the owner's. |
| WorkspaceRuns.StepKeeps | backend/internal/usecase/rbac/service.go:86-819 | Every operation keeps the invariant, in its success and in all its error branches. |
| WorkspaceRuns.RunKeeps | backend/internal/usecase/rbac/service.go:86-819 | In every reachable state each live workspace's owner holds its owner role and nobody else does, roles of members and invitations belong to their workspace, memberships are unique per user and workspace, and no invitation is both accepted and declined; slugs and tokens are unique too. |
| WorkspaceRuns.OwnerForLife | backend/internal/usecase/rbac/service.go:563-618 | A workspace keeps one owner, seated with the owner role, until the call that deletes it. |
| WorkspaceRuns.InvitationFate | backend/internal/usecase/rbac/service.go:207-553 | No operation changes what an invitation offers or to whom, or touches an answer; an invitation disappears only while unanswered or with its workspace, and never returns. |
| WorkspaceRuns.AnswersStand | backend/internal/usecase/rbac/service.go:269-553 | Over any run an accepted or declined invitation stays exactly as it is for as long as it exists. |
| WorkspaceRuns.AdmissionIsEarned | backend/internal/usecase/rbac/service.go:269-330 | Acceptance needs an open, unexpired invitation to the caller's own address, and gives exactly its workspace and role. |
| WorkspaceRuns.AdmitsOnce | backend/internal/usecase/rbac/service.go:269-553 | No invitation admits twice in a run, by token or by id. |
| WorkspaceRuns.WhoJoins | backend/internal/usecase/rbac/service.go:86-819 | A user becomes a member only by founding the workspace, accepting an invitation to it or being added to it. |
| WorkspaceRuns.WhoLeaves | backend/internal/usecase/rbac/service.go:563-580 | A member ceases to be one only by removal, which the owner is exempt from, or with the workspace. |
| WorkspaceRuns.OldTokenIsDead | backend/internal/usecase/rbac/service.go:410-454 | After a resend the former token is not found any more. |
| WorkspaceRuns.RoutesAgreeIff | backend/internal/usecase/rbac/service.go:269-553 | Accepting by token and by id have the same outcome if and only if the address is right, the invitation is open or invitations are disabled. |
| WorkspaceEffects.CreateDoes | backend/internal/usecase/rbac/service.go:86-142 | Succeeds exactly if no live workspace has the slug; then there are the workspace, four named roles, and the creator's membership in the owner role, and nothing else has changed. |
| WorkspaceEffects.RenameDoes | backend/internal/usecase/rbac/service.go:166-188 | Succeeds exactly if the workspace is live and keeps its slug or takes one no other live workspace has; only the slug changes. |
| WorkspaceEffects.DeleteDoes | backend/internal/repo/persistent/rbac_repo.go:79-205 | Succeeds exactly for a live workspace; it is marked, its roles, members and invitations are gone, and all others stay. |
| WorkspaceEffects.OfferDoes | backend/internal/usecase/rbac/service.go:207-264 | Succeeds exactly if invitations are enabled, the domain allowed, the role one of the workspace's but the owner's, and the token new; the only change is an unanswered invitation for that address, role and token, valid for 604800 seconds. |
| WorkspaceEffects.AcceptIDDoes | backend/internal/usecase/rbac/service.go:496-553 | Succeeds exactly if invitations are enabled, the invitation exists, is for that address, unanswered and not expired, and the user is no member; then the user is one, in the role offered, the invitation is marked as accepted, and nothing else has changed. |
| WorkspaceEffects.DeclineIDDoes | backend/internal/usecase/rbac/service.go:458-492 | The same condition without the membership; the invitation is marked as declined, not as accepted, and nothing else changes. |
| WorkspaceEffects.TokenDoes | backend/internal/usecase/rbac/service.go:269-369 | Accepting and declining by token do what they do by the id of the invitation that has the token, and succeed for no token that none has. |
| WorkspaceEffects.WithdrawDoes | backend/internal/usecase/rbac/service.go:396-405 | Succeeds exactly for an unanswered invitation of the workspace, which is gone; all others stay. |
| WorkspaceEffects.SendAgainDoes | backend/internal/usecase/rbac/service.go:410-454 | Succeeds exactly for an unanswered invitation of the workspace and a token no other has; token and expiry change, address, role and everything else stay. |
| WorkspaceEffects.SentInvitationAdmits | backend/internal/usecase/rbac/service.go:207-553 | An invitation just sent or sent again admits for seven days whoever has its address, by id and by token, if and only if that user is no member yet. |
| WorkspaceEffects.RemoveDoes | backend/internal/usecase/rbac/service.go:564-580 | Succeeds exactly if the workspace is live, the user is a member and not its owner; then the user is no member, and every other row stays. |
| WorkspaceEffects.ChangeRoleDoes | backend/internal/usecase/rbac/service.go:584-618 | Succeeds exactly if the workspace is live, the user a member and not its owner, and the role one of the workspace's but the owner's; then the member has that role, and every other row stays. |
| WorkspaceEffects.AddDoes | backend/internal/usecase/rbac/service.go:721-819 | Succeeds exactly if the role is one of the workspace's but the owner's, the domain allowed, and there is or can be made an account that is no member; then it is one in that role, and nothing else has changed. |
| WorkspaceEffects.RefusalsTellWhy | backend/internal/usecase/rbac/service.go:86-819 | A refused call changes nothing, and the reason it gives is true, for every call and every error. |
| WorkspaceEffects.FirstReasons | backend/internal/usecase/rbac/service.go:166-618 | Switched-off invitations and missing workspaces are reported exactly when they are so, before any other reason. |

## Left out

* Queue.Queue.DequeueJob: one atomic step. Between the Redis commands the id is in no place (it leaves the temporary list before it joins the processing set), so a crash inside the method is not covered; the same holds for the other methods.
* Queue.Queue.RequeueDeadJob: the invariant is promised only for calls with the job's own type, see RequeueSafeIffOwnType.
* Queue.Queue.Stats: the clean-up of stale set members, which finds nothing as long as no record expires.
* Queue.Queue.FailJob: the sanitised error text is a parameter.
* RunTheorems.BackoffRespected: limited to failures 1 to 29, the ones for which the delay is exact.
* WorkspaceService.Service.DeleteWorkspace: the packages, releases, settings and other records that go with a workspace.
* WorkspaceService.Service.CreateDefaultRoles: the permissions attached to each role, and checks of permissions.
* WorkspaceService.Service.InviteMember: e-mail normalisation and the domain list; the normalised address and the verdict on its domain are parameters.
* Poller.Poller.CheckPackageForNewReleases: package metadata and file hashes; publish times are taken to survive storage unchanged.
* Redis errors, expiry of job records, recovery while workers run, more than one server process.
* The listings of processing and dead jobs, and the listings for one workspace, which ask for 10000 rows but get at most 100.
* Job types other than the two the program defines; a job id is the number of the counter it comes from.
* Downloading and unpacking archives and walking directories: the diff starts from two maps of path to text. A path with a newline in it is outside ReadPatch.SectionRead and ReadDiff.DiffReadsBack.
* Strings are sequences of bytes; lower-casing covers ASCII only. sort.Strings and sort.Slice are modelled by what they promise.
* Parsing the extracted JSON, fenced code blocks and the fallback verdict of ParseResponse.
* Invitation tokens stand for their SHA-256 hashes, which is faithful as long as hashing is injective; random generation is a parameter that may fail.
* Failures of the relational database during the workspace operations, other than its two unique indexes.
* Clocks (parameters that never go backwards in the queue), logging, notifications, audit records and e-mail.
* HTTP handlers, configuration, LLM clients, sign-on, sessions and the frontend.
