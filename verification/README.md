# Proofs about the qbit mining bootstrap

A Dafny model of the parts of this repository whose correctness is an argument
rather than a branch: a parallel reader that must equal a serial one, a branch
many writers append to, a replayed judgement, a scheduler, a parallel exporter,
Stratum header arithmetic, a difficulty controller and a process supervisor.

Code that updates things in place is a class or a method with a loop, proved
against a function of the same step; what the source promises is then proved
about that function, for every input or every run. SHA-256, JSON parsing and
canonical encoding, `int()` of a text and the clock are parameters.

| files | what they model |
|---|---|
| `Values`, `Evidence`, `Summarizer` | the recovery-evidence summarizer: JSON values under Python's operators, its checks as a state machine, and its object |
| `Items`, `Ranges`, `ParallelSummary` | the parallel path: batching, newline-aligned ranges, replay, and every fallback to the serial reader |
| `CarryLedger`, `Structure`, `Refusals`, `CarryOrder`, `Totals`, `Sample` | what acceptance means: the carry-forward balances, the order of records and when it is refused, the totals; and one export that is accepted |
| `JsonOrder` | Python's order on values is transitive where it is defined |
| `Trend`, `TrendText`, `TrendProtocol`, `TrendSample` | the append-only evidence branch: rows and identities, the files' text, any number of writers, and an encoding of rows that does what is asked of it |
| `Shards` | the longest-first shard scheduler |
| `Regression` | the replayed regression rule |
| `Export` | the range-partitioned exporter and its in-order writer |
| `ByteOrder`, `Merkle`, `Header`, `VersionRolling`, `Submission` | coinbase Merkle branches, three header builders, version rolling, and the way from a job to a submitted block |
| `Vardiff`, `Tracking`, `Arrival` | variable difficulty: one retarget, a client that follows its smoothed estimate, and where it ends |
| `Supervisor` | the ckpool supervisor loop |
| `Basics` | shared types |

## Main results

- `ParallelSummary.SummarizeFile`: for every content, job count, chunk size and
  fate of every worker, the result is the serial summarizer's, report or refusal.
- `CarryLedger.AcceptedBalances`, `AcceptedFinding`, `OneLabelNoFindings`:
  what an accepted report vouches for; `ProgramChains` gives the exact condition.
- `Refusals.RefusedExactly`: a record is refused for its place if and only if it
  breaks a rule stated on the records before it; `Structure.TakenExactly` and
  `CarryOrder.CarryOrderIsPairwise` give the rules pair by pair.
- `TrendProtocol.NothingIsLost`, `ReturnedIsRecorded`, `ReturnedHasAssets`: on
  any branch, for writers asked to record anything, over every interleaving and
  with pushes that land late or lose their reply, files only grow and a normal
  return means the batch is recorded. `BranchStaysValid` adds that a branch of
  valid rows stays one, `UniqueExactlyWithoutClash` when identities stay unique.
- `Shards.WithinGraham`: Graham's 4/3 - 1/(3m) bound against every assignment.
- `Regression.ShiftIsAccepted`: at most window squared alarms after a shift.
- `Submission.SolveJob`, `JobRebuildsExactly` and `SubmittedBlockCommits`: the
  share found for a plain job is one the server accepts, for no other job does
  the server rebuild what the miner hashed, and the block submitted commits to
  its transactions.
- `Tracking.SettlesExactlyIfSteers`: a configuration brings every client within
  its tolerance of every steady rate, whatever estimate the client still holds,
  if and only if in either direction a full step is worth taking or the lane is
  too narrow to need one. `ClientComesWithin` counts the windows, logarithmic in
  the error and in the distance; `Arrival.ClientRests` proves that under a
  tolerance above zero the client stops; `Vardiff.ClientConverges` is the case of
  an estimate that holds nothing of an earlier rate.
- `Supervisor.RunSupervisor`: stopped for the watchdog exactly when an unbroken
  stretch of failed checks spans the limit; reaped on every path.

## What turned out false, and the exact condition

- A batch that mixes a preset row with the promotion row it could recover writes
  one identity twice: `Trend.SampleClashes` is such a batch, `Trend.ClashRepeats`
  builds the branch, and `Trend.SafeExactlyWithoutClash` proves that `NoClash` is
  necessary and sufficient for one attempt, `TrendProtocol.UniqueExactlyWithoutClash`
  for every run of any writers. Batches of one of the two kinds never clash
  (`UnmixedDoesNotClash`).
- Identities do not hold the lane, so of two batch rows with one identity and two
  lanes only the first is recorded: `Trend.SampleInTwoLanes` are two such rows,
  and `Trend.InLaneExactly` gives the exact condition.
- A field the header codec accepts may hold white space, which `bytes.fromhex`
  skips: `Header.ShortHeader` builds 76 bytes, and `Header.CodecHeaderLength`
  proves the header is 80 bytes if and only if no field holds any. White space
  that is accepted totals a multiple of eight; any other amount the word flip
  refuses (`Header.CodecAcceptsExactly`). The lane's builder makes the same bytes
  if and only if no number holds any (`Header.BuildersAgreeExactly`), and the server
  rebuilds the header a miner hashed if and only if no field does
  (`Header.RebuildsExactly`).
- A client whose estimate is of an earlier rate is not near the new rate after as
  many windows as full steps cover the way (`Arrival.StaleIsLate`), and without a
  tolerance it may never be (`Arrival.StaleNeverArrives`). It comes within the
  tolerance and any slack (`Tracking.SettlesExactlyIfSteers` has the exact
  condition), and without a tolerance it is ever exactly there if and only if the
  estimate is fresh, the rate is beyond the lane, or the client stands whole full
  steps beyond it (`Arrival.ReachedExactly`).
- A retarget tolerance wider than the largest step leaves a far client where it
  is, in configurations the checks allow: `Vardiff.WideToleranceNeverMoves`.

## Model

| member | source | states |
|---|---|---|
| Ranges.TwoReplacements | scripts/prism-recovery-evidence.py:391-393 | the worker's two replacements are the text reader's universal newlines, for every text |
| Ranges.UniversalCut | scripts/prism-recovery-evidence.py:391-393 | cut after a line feed, newline translation of the parts is the translation of the whole: no CRLF is parted |
| Ranges.LinesCut | scripts/prism-recovery-evidence.py:292-302 | the lines joined are the text, each ends at its only line feed, and only the last may lack one |
| Ranges.TextLines | scripts/prism-recovery-evidence.py:292-302 | the search loop yields exactly those lines |
| Ranges.CutRanges | scripts/prism-recovery-evidence.py:436-448 | for every content and chunk size it ends with consecutive covering ranges, all but the open last ending just after a line feed, each longer than the chunk by no more than a line |
| Ranges.RangesReadAll | scripts/prism-recovery-evidence.py:436-448 | the lines of the ranges, in order, are the lines of the whole file |
| Items.RowsTwice | scripts/prism-recovery-evidence.py:199-206 | a run of hashed rows and one row more is a run one longer, with the same refusal |
| Items.ShareRunTwice | scripts/prism-recovery-evidence.py:208-215 | a share run checked by its first and last sequence only is the same as its rows checked one by one |
| Items.ShareIsRun | scripts/prism-recovery-evidence.py:361-366 | a fast share's line does to every state what a run of one does |
| Items.ShareFieldsSuffice | scripts/prism-recovery-evidence.py:305-310 | the two fields kept decide the share checks, refusals included, as the row itself does |
| Items.AddedRow | scripts/prism-recovery-evidence.py:334-343 | appending a hashed row to a batch is replaying it after the batch, whether or not it lengthens a run |
| Items.AddedShare | scripts/prism-recovery-evidence.py:345-354 | the same for a share, including one out of order, which opens a run the summary refuses |
| Items.AddRowIsLine | scripts/prism-recovery-evidence.py:414-431 | batching any record is checking its line after everything batched before |
| Items.UnreadLine | scripts/prism-recovery-evidence.py:402-410 | a line that fails to parse is refused after every earlier row, and after the completion marker's own refusal |
| Items.ReplayIsSerial | scripts/prism-recovery-evidence.py:372-433 | a range taken by a worker and replayed from any state gives the state or the first refusal of its lines fed one by one |
| Items.SerialIsWhole | scripts/prism-recovery-evidence.py:402-413 | a range left to the serial reader contributes no item at all |
| Summarizer.Summary.Start | scripts/prism-recovery-evidence.py:128-131 | refuses exactly once complete, and changes nothing |
| Summarizer.Summary.BlockRow | scripts/prism-recovery-evidence.py:150-154 | marks a block with an as-issued audit, and refuses after the first carry row |
| Summarizer.Summary.CarryRow | scripts/prism-recovery-evidence.py:155-174 | extends the head, checks the order, judges the balances and posts to both ledgers, refusing where Python raises |
| Summarizer.Summary.ShareRow | scripts/prism-recovery-evidence.py:175-179 | takes a sequence above the last one and adds its flag |
| Summarizer.Summary.CandidateRow | scripts/prism-recovery-evidence.py:180-184 | counts pending candidates and those in no terminal state |
| Summarizer.Summary.Record | scripts/prism-recovery-evidence.py:133-197 | the whole record dispatch leaves the object at the state machine's next state, or raises its refusal |
| Summarizer.Summary.Line | scripts/prism-recovery-evidence.py:122-126 | one line: the completion check, the parse, the record |
| Summarizer.Summary.Rows | scripts/prism-recovery-evidence.py:199-206 | one run of hashed rows at once |
| Summarizer.Summary.ShareRun | scripts/prism-recovery-evidence.py:208-215 | one run of shares at once |
| ParallelSummary.Collector.Flush | scripts/prism-recovery-evidence.py:327-332 | closes the open run into one item |
| ParallelSummary.Collector.Hashed | scripts/prism-recovery-evidence.py:334-343 | extends the run of its kind or closes it and opens one |
| ParallelSummary.Collector.Share | scripts/prism-recovery-evidence.py:345-354 | extends a rising share run, or opens a new one at an out-of-order sequence |
| ParallelSummary.Collector.Record | scripts/prism-recovery-evidence.py:356-358 | closes the open run and adds the row whole |
| ParallelSummary.ParseRange | scripts/prism-recovery-evidence.py:372-433 | a worker returns SERIAL alone or the items of exactly its range's lines, with the line count unless an error ended it |
| ParallelSummary.Replay | scripts/prism-recovery-evidence.py:459-473 | replays every item, or stops at the first refusal; on SERIAL the summary is untouched |
| ParallelSummary.SummarizeRanges | scripts/prism-recovery-evidence.py:549-594 | whichever ranges fail, the object is at the serial state after exactly the lines reported as checked, or the refusal is the serial one |
| ParallelSummary.CheckLines | scripts/prism-recovery-evidence.py:283-289 | feeding a summary line by line continues the serial run |
| ParallelSummary.SummarizeFile | scripts/prism-recovery-evidence.py:520-546 | for every content, jobs, chunk and host the report or refusal is the all-serial one, as lines 25-32 of the script promise |
| CarryLedger.FeedMirrors | scripts/prism-recovery-evidence.py:155-174 | the running balances, breaks and marks kept row by row are sums and sets over the whole export |
| CarryLedger.ProgramChains | scripts/prism-recovery-evidence.py:166-170 | no legacy break is counted if and only if every unmarked row's three balances are its program's running sum (`Chained`) |
| CarryLedger.AcceptedBalances | scripts/prism-recovery-evidence.py:242-244 | acceptance vouches for every unmarked carry row's three stored balances |
| CarryLedger.AcceptedFinding | scripts/prism-recovery-evidence.py:231-252 | every finding an accepted report clears names an unmarked row whose program carried something under another label before |
| CarryLedger.OneLabelNoFindings | scripts/prism-recovery-evidence.py:248-252 | with one label to a program, acceptance forces an empty finding list |
| Structure.TakenIsStructured | scripts/prism-recovery-evidence.py:128-197 | whatever is taken keeps the pairwise rules on the records: kinds, markers, share and carry order |
| Structure.TakenExactly | scripts/prism-recovery-evidence.py:128-197 | readable records are taken if and only if they keep those rules |
| Refusals.RefusedExactly | scripts/prism-recovery-evidence.py:128-197 | after records that were taken the next is refused for its place if and only if it breaks a rule the records before it set, whether or not its own fields can be read |
| CarryOrder.CarryOrderIsPairwise | scripts/prism-recovery-evidence.py:158-161 | the check against the row before is strict order of every two carry rows, for whatever heights and numbers compare |
| CarryOrder.IntegersInOrder | scripts/prism-recovery-evidence.py:158-159 | for integers that order is lexicographic: the height, then the number |
| JsonOrder.AllLessTransitive | scripts/prism-recovery-evidence.py:159-159 | strict order of tuples is transitive wherever the comparisons are defined, at any depth |
| Structure.ReportedIsStructured | scripts/prism-recovery-evidence.py:217-230 | a report needs the completion marker last and exactly one integrity report before it |
| Structure.MarkedIsFixed | scripts/prism-recovery-evidence.py:150-157 | from the first carry row on no line changes which blocks are marked |
| Totals.ReportTotals | scripts/prism-recovery-evidence.py:257-280 | counts, hashed rows, hash chain head, accepted sum and candidate counts of a report are totals over exactly its records |
| Totals.ReportAgrees | scripts/prism-recovery-evidence.py:229-262 | the report's last sequence is the last share's, the database checked exactly the carry rows exported, and a deferral excludes every row it defers |
| Sample.SomeExportIsAccepted | scripts/prism-recovery-evidence.py:283-289 | a concrete export with an unmarked carry row is accepted, so the claims about acceptance are not empty |
| Trend.RecoveredIsValid | scripts/prism_load_trend.py:597-605 | a recovered promotion row, which the writer never checks, satisfies the row checks |
| Trend.DistinctFrom | scripts/prism_load_trend.py:614-617 | the batch kept has one row to an identity, all from the rows given |
| Trend.DistinctKeeps | scripts/prism_load_trend.py:614-617 | no identity of the rows given is missing from it |
| Trend.AttemptRecords | scripts/prism_load_trend.py:619-654 | one attempt, whatever the batch and the branch, commits a tree that extends the branch, records the whole batch and points at its promoted bundles |
| Trend.AttemptIsValid | scripts/prism_load_trend.py:612-654 | valid rows keep a branch of valid rows valid, clash or no clash |
| Trend.AttemptIsUnique | scripts/prism_load_trend.py:619-654 | a batch that does not clash repeats no identity on a branch that repeats none, whatever rows it holds |
| Trend.AttemptHasAssets | scripts/prism_load_trend.py:632-640 | after one attempt every promoted bundle of the batch is pointed at by a recorded row; `ReturnedHasAssets` carries it over runs |
| Trend.UnmixedDoesNotClash | scripts/prism_load_trend.py:150-163 | a batch without preset rows or without promotion rows does not clash |
| Trend.SampleClashes | scripts/prism_load_trend.py:150-163 | a batch of two valid rows, a promoted preset row and its promotion, clashes |
| Trend.ClashRepeats | scripts/prism_load_trend.py:632-640 | a clashing batch writes an identity twice to a branch that is built here |
| Trend.SafeExactlyWithoutClash | scripts/prism_load_trend.py:608-654 | an attempt repeats no identity on any branch without repeats if and only if the batch does not clash |
| Trend.OtherLaneIsLost | scripts/prism_load_trend.py:614-617 | of any two rows with one identity and two lanes, valid or not, one is not recorded in its lane on a new branch |
| Trend.SampleInTwoLanes | scripts/prism_load_trend.py:614-617 | two valid rows of which that is so |
| Trend.InLaneExactly | scripts/prism_load_trend.py:614-640 | every row is recorded in its own lane on every branch if and only if rows of one identity name one lane |
| TrendText.TextIsFaithful | scripts/prism_load_trend.py:585-594 | appending a row to any text, however its lines end and its last line finished or not, adds that row after the rows read from it and only extends the text |
| TrendText.JoinedIsAppended | scripts/prism_load_trend.py:644-649 | ending the last line once and joining all rows is appending them one by one |
| TrendText.FileContents | scripts/prism_load_trend.py:644-649 | the new text of a file is that |
| TrendProtocol.ReadLane | scripts/prism_load_trend.py:628-630 | the lane's dictionary holds exactly the identities recorded in any month of the lane, each with a row held there |
| TrendProtocol.Collect | scripts/prism_load_trend.py:621-640 | the additions are those of the batch against the lanes read, grouped by file in order |
| TrendProtocol.PlanAttempt | scripts/prism_load_trend.py:620-654 | an attempt returns early exactly with nothing to add, or commits the tree with all its additions |
| TrendSample.SomeCodecIsFaithful | scripts/prism_load_trend.py:585-594 | there are lines that round-trip, built here, so the results about files and branches are not empty |
| TrendProtocol.InvNext | scripts/prism_load_trend.py:608-667 | every step of every writer, and every late landing, keeps growth from the first branch and each writer's promise |
| TrendProtocol.BranchStaysValid | scripts/prism_load_trend.py:612-667 | over every run from a branch of valid rows, whoever writes, every recorded row is valid |
| TrendProtocol.BranchStaysUnique | scripts/prism_load_trend.py:608-667 | over every run from a branch that repeats no identity in a lane, whatever its rows, none is repeated while no writer that makes an attempt has a batch that clashes |
| TrendProtocol.UniqueExactlyWithoutClash | scripts/prism_load_trend.py:608-667 | given writers repeat no identity in any run from any such branch if and only if none of them has a batch that clashes |
| TrendProtocol.NothingIsLost | scripts/prism_load_trend.py:644-654 | over every run, from any branch and for any rows asked, each file's later contents extend its earlier contents |
| TrendProtocol.ReturnedIsRecorded | scripts/prism_load_trend.py:608-667 | after a normal return every identity of the batch is recorded then and ever after, and every row in its own lane where rows of one identity name one lane |
| TrendProtocol.ReturnedHasAssets | scripts/prism_load_trend.py:608-667 | after a normal return every promoted bundle of the rows kept is pointed at by a recorded row then and ever after |
| Shards.SortedLongestFirst | scripts/run_rust_test_shard.py:74-74 | the order is longest first, targets of one duration in their own order, and a permutation of the targets |
| Shards.GreedyBound | scripts/run_rust_test_shard.py:74-77 | m times a shard's load is at most the total so far plus m - 1 times its last job |
| Shards.LongJobsFit | scripts/run_rust_test_shard.py:74-77 | where the last job is over a third of some assignment's makespan, a shard has room for it under any assignment of the others |
| Shards.ShardBound | scripts/run_rust_test_shard.py:74-77 | 3m times a shard's load is at most 4m - 1 times any assignment's makespan |
| Shards.WithinGraham | scripts/run_rust_test_shard.py:69-80 | the same of the targets each shard is given |
| Shards.EveryTargetOnce | scripts/run_rust_test_shard.py:69-80 | over all shard indexes each target is run as often as it is listed |
| Shards.EmptyExactlyBeyond | scripts/run_rust_test_shard.py:78-80 | a shard is refused as empty if and only if there are no more targets than its index |
| Shards.TypicalShards | scripts/run_rust_test_shard.py:40-80 | with the durations in use a shard is refused as empty if and only if there are no more targets than its index |
| Shards.LightestOf | scripts/run_rust_test_shard.py:75-75 | the first of the lightest shards |
| Shards.Place | scripts/run_rust_test_shard.py:72-77 | the loop fills each shard with what the greedy assignment gives it, in order |
| Shards.ShardTargets | scripts/run_rust_test_shard.py:69-80 | both refusals exactly when they apply, and otherwise exactly the shard's targets, in target order |
| Regression.SortedReals | scripts/prism_load_regress.py:426-430 | the median is taken of the same values in ascending order |
| Regression.RuleIsSensible | scripts/prism_load_regress.py:415-434 | under the loaded settings a run at the level of its whole baseline is never worse than its threshold |
| Regression.JudgedExactly | scripts/prism_load_regress.py:462-487 | a run is judged if and only if `min_baseline` runs came before it |
| Regression.ReportedStreak | scripts/prism_load_regress.py:495-511 | no reported streak is longer than a window |
| Regression.ReportedRangeStays | scripts/prism_load_regress.py:495-511 | one more regressed run, while the streak is below the window, keeps the first bad run and lengthens the streak by one |
| Regression.AcceptedLevel | scripts/prism_load_regress.py:472-478 | after a window of flagged runs at one value the next run there is within |
| Regression.ShiftIsAccepted | scripts/prism_load_regress.py:462-487 | after a permanent shift to a constant at most window squared later runs are judged regressed |
| Regression.StreakBefore | scripts/prism_load_regress.py:472-474 | the backward scan counts the flagged runs just before an index |
| Regression.AcceptBefore | scripts/prism_load_regress.py:475-478 | a streak of a window is unflagged and marked accepted in place, and nothing else |
| Regression.BaselineBefore | scripts/prism_load_regress.py:479-479 | the baseline is the last window of unflagged values |
| Regression.JudgeNext | scripts/prism_load_regress.py:471-487 | one round of the loop moves both arrays to the replay's next state |
| Regression.EvaluateNumber | scripts/prism_load_regress.py:448-511 | the method returns what the replay concludes: status, threshold, good run and its basis, first bad run, streak, provisional spread |
| Export.ExactlyOneRange | scripts/prism-recovery-evidence-parallel.py:126-139 | under SQL's three-valued logic every key, NULL included, satisfies exactly one range predicate |
| Export.RangesExportTable | scripts/prism-recovery-evidence-parallel.py:98-139 | the sorted ranges one after the other hold every row as often as the table, sorted with NULLs last |
| Export.OneExport | scripts/prism-recovery-evidence-parallel.py:98-139 | where the key tells rows apart a table has one sorted export |
| Export.ExportIsSerial | scripts/prism-recovery-evidence-parallel.py:98-123 | the parts joined in order are the serial export of shares, middle kinds, share hashes and closing kinds |
| Export.WriteInOrder | scripts/prism-recovery-evidence-parallel.py:301-324 | for every completion order the output is the joined parts if and only if all parts and the commit succeeded, and otherwise a prefix of parts short of the marker's |
| Export.OutputGrows | scripts/prism-recovery-evidence-parallel.py:307-315 | output only grows, by whole parts in order |
| Export.StartsEachOnce | scripts/prism-recovery-evidence-parallel.py:298-300 | the submission order is a permutation of the parts |
| Merkle.BuildBranch | lab/auxpow/auxpow_coordinator.py:410-426 | the loop over levels returns the siblings of the leftmost path |
| Merkle.CoinbaseRoot | lab/auxpow/auxpow_coordinator.py:429-433 | the loop over the branch is the fold from the coinbase's hash |
| Merkle.BranchProvesRoot | lab/auxpow/auxpow_coordinator.py:410-433 | folding the branch from any leaf gives the duplicate-last Merkle root of the list with that leaf first |
| Merkle.BranchIgnoresCoinbase | lab/auxpow/auxpow_coordinator.py:410-426 | the branch is the same whatever coinbase it was built with |
| Merkle.SubmissionCommits | lab/auxpow/auxpow_coordinator.py:410-433 | with the root folded from its coinbase a block commits to its own transactions |
| Submission.SubmittedBlockCommits | lab/auxpow/auxpow_coordinator.py:1949-2001 | the block submitted for a share, its root read back from the header the server rebuilt, commits to its own transactions |
| Merkle.SplitsExactlyOnce | lab/auxpow/auxpow_coordinator.py:1444-1447 | the coinbase is split if and only if its placeholder occurs exactly once, overlaps counted |
| Merkle.SplitRollsPlaceholder | lab/auxpow/auxpow_coordinator.py:1460-1461 | an extranonce of the placeholder's length changes that place only |
| Header.FlipTwice | lab/auxpow/stratum_codec.py:66-69 | word flipping undoes itself |
| Header.MinerAgrees | lab/miner-sim/miner_sim.py:173-180 | the miner builds what the codec builds, whenever the codec accepts |
| Header.CodecLayout | lab/auxpow/stratum_codec.py:102-127 | where no number holds white space, what the codec builds is the little-endian block header |
| Header.LaneLayout | scripts/prism_shipped_image_lane.py:355-370 | so does the lane's builder, from numbers |
| Header.BuildersAgreeExactly | scripts/prism_shipped_image_lane.py:355-370 | whatever both accept, the codec and the lane build the same bytes if and only if no number holds white space |
| Header.BuildersAgree | lab/miner-sim/miner_sim.py:173-180 | in particular the three builders make the same 80 bytes of plain fields |
| Header.CodecHeaderLength | lab/auxpow/stratum_codec.py:20-29 | what the codec builds is short by half its fields' white space, so it is 80 bytes if and only if there is none |
| Header.CodecAcceptsExactly | lab/auxpow/stratum_codec.py:102-127 | fields that pass their checks make a header if and only if their white space totals a multiple of eight |
| Header.ShortHeader | lab/auxpow/stratum_codec.py:20-29 | fields with white space that are accepted and make 76 bytes |
| Header.PrevhashSerializes | lab/auxpow/stratum_codec.py:72-77 | with a converted display hash the header holds that hash reversed, as Bitcoin serializes it |
| Header.NonceRebuilds | lab/miner-sim/miner_sim.py:189-199 | for plain fields the header hashed for a nonce is the header the server rebuilds from its eight digits |
| Header.RebuildsExactly | lab/miner-sim/miner_sim.py:173-199 | whenever the miner builds a header, the server rebuilds the one it hashes if and only if the fields are plain |
| Header.PlainExactly | lab/auxpow/stratum_codec.py:20-29 | fields are plain if and only if they pass their checks and hold no white space |
| Header.SolveNonce | lab/miner-sim/miner_sim.py:193-199 | on a header of any length, the least nonce whose hashed header meets the target, and none only if the deadline passed or none does |
| Header.SolveShare | lab/miner-sim/miner_sim.py:186-199 | for one extranonce and any fields: refused exactly if they do not decode, else the first nonce that meets the target or none; for plain fields that is what the server would accept |
| Submission.SolveJob | lab/miner-sim/miner_sim.py:183-203 | over all extranonces and for any job, a share found meets the target and a search in vain means there is none unless the deadline passed; for a plain job the same of the shares the server accepts |
| Submission.JobRebuildsExactly | lab/miner-sim/miner_sim.py:173-203 | the server rebuilds what the miner hashed for a job's share if and only if the job is plain |
| VersionRolling.NegotiatedExactly | lab/auxpow/stratum_codec.py:56-57 | bits pass the mask's check if and only if every bit set is set in the mask |
| VersionRolling.RolledBit | lab/auxpow/stratum_codec.py:58-59 | each bit of the mask becomes the miner's and every other stays the job's |
| VersionRolling.VersionRolls | lab/auxpow/stratum_codec.py:51-59 | for any two texts the version is refused if and only if a text is or a bit lies outside the mask, and otherwise is eight digits of the rolled number |
| VersionRolling.VersionStays | lab/auxpow/stratum_codec.py:51-54 | without bits the version is refused if and only if the job's fails its check, and otherwise reads as the same bytes, for plain digits as the same number |
| VersionRolling.OnlyMaskBitsDiffer | lab/auxpow/stratum_codec.py:51-127 | where the fields' numbers are plain, the header of a rolled share is the job's header but for version bits inside the mask, which are the miner's |
| Vardiff.NextIsBounded | lab/auxpow/vardiff.py:187-243 | whatever the window saw, the next difficulty is in the lane and within both step factors |
| Vardiff.RetargetIsMove | lab/auxpow/vardiff.py:235-243 | clamping the ratio and then the product is clamping the aim between the two full steps |
| Vardiff.MoveIsBetween | lab/auxpow/vardiff.py:235-243 | a retarget never passes its aim |
| Vardiff.NearStays | lab/auxpow/vardiff.py:125-135 | a client near its aim is not moved any more |
| Vardiff.ClimbTakes | lab/auxpow/vardiff.py:125-243 | upward, retargets are near the aim after as many windows as full factors cover the distance |
| Vardiff.DescentTakes | lab/auxpow/vardiff.py:125-243 | downward likewise |
| Vardiff.SettlesExactly | lab/auxpow/vardiff.py:125-243 | retargets toward a constant aim come near it if and only if they start near, one step reaches it, or a full step toward it is worth taking |
| Vardiff.WideToleranceNeverMoves | lab/auxpow/vardiff.py:44-84 | a configuration the checks allow, and a client it never moves |
| Vardiff.EstimateConverges | lab/auxpow/vardiff.py:108-122 | the estimate's error under a constant in-lane observation is the first error times (1 - alpha) to the number of windows |
| Vardiff.Client.Retarget | lab/auxpow/auxpow_coordinator.py:1041-1090 | the estimate is always replaced; the difficulty moves only when worth it and not changed since the window closed, and stays in the lane |
| Vardiff.EqualWindowsRetarget | lab/auxpow/auxpow_coordinator.py:1053-1090 | windows that all observe one difficulty, in the lane or beyond it, drive a client whose estimate holds nothing of an earlier rate (none, that difficulty, or weight one on the new) as retargets toward it do |
| Vardiff.ClientConverges | lab/auxpow/auxpow_coordinator.py:1053-1090 | such a client, with such an estimate, is near that difficulty after as many windows as full factors cover the distance |
| Vardiff.ClientConvergesExactly | lab/auxpow/auxpow_coordinator.py:1053-1090 | and, with such an estimate, ever comes near it if and only if it starts near or can reach it |
| Tracking.EstimateNears | lab/auxpow/vardiff.py:108-122 | wherever the observation lies, the estimate's error is at most the first error times (1 - alpha) to the number of windows |
| Tracking.ClientFollows | lab/auxpow/auxpow_coordinator.py:1053-1090 | with any in-lane estimate a client makes bounded moves toward each next estimate |
| Tracking.ClientComesWithin | lab/auxpow/auxpow_coordinator.py:1053-1090 | with any in-lane estimate a client is within the tolerance and a slack of what its windows observe from the window on that follows those needed to forget the earlier rate and the full steps needed from there |
| Tracking.SettlesExactlyIfSteers | lab/auxpow/vardiff.py:44-135 | every client comes and stays within the tolerance, and any slack, of every steady rate if and only if in either direction a full step is worth taking or the lane is too narrow to need one |
| Arrival.ClientRests | lab/auxpow/vardiff.py:125-135 | under a tolerance above zero and that condition every client, with any in-lane estimate, stops, and stops within the tolerance |
| Arrival.ReachedExactly | lab/auxpow/vardiff.py:108-135 | without a tolerance and with full steps both ways a client is ever exactly at what its windows observe if and only if its estimate holds nothing of an earlier rate, the observation is beyond the lane, or the client stands whole full steps beyond it, away from the estimate |
| Arrival.StaleIsLate | lab/auxpow/auxpow_coordinator.py:1053-1090 | a client one full step from its rate that is not near it after that window, for its estimate is of an earlier rate |
| Arrival.StaleNeverArrives | lab/auxpow/auxpow_coordinator.py:1053-1090 | the same without a tolerance is never near, after any number of windows |
| Supervisor.TerminateAndReap | docker/ckpool/qbit-ckpool-preflight.py:731-738 | the child is reaped, signalled only if still running, and killed exactly when the grace period ran out |
| Supervisor.ForwardSignals | docker/ckpool/qbit-ckpool-preflight.py:759-768 | the first signal fixes the exit code and the deadline, and each is passed on exactly if the child was still running |
| Supervisor.Watch | docker/ckpool/qbit-ckpool-preflight.py:791-813 | a check stops the child if and only if an unbroken stretch of failures ending there spans the limit |
| Supervisor.RunSupervisor | docker/ckpool/qbit-ckpool-preflight.py:774-829 | over every trace the run ends in the first round that decides an end, with that round's exit code, and the child is reaped on every path |
| Supervisor.FailuresAreShort | docker/ckpool/qbit-ckpool-preflight.py:793-808 | while the run goes on no stretch of failures has reached the limit |
| Supervisor.StopsInTime | docker/ckpool/qbit-ckpool-preflight.py:791-822 | with rounds at most a gap apart a lasting failure stops the child before limit plus gap |
| Supervisor.SuccessResets | docker/ckpool/qbit-ckpool-preflight.py:809-813 | after a passed check a stop needs the whole limit again |

## Left out

- UTF-8: bytes stand for the decoded text, and a range that does not decode is one the host cannot read; `_decodes` is an answer of the host.
- JSON: `NaN`, `Infinity` and Python's limit on digits are not modelled, floats are reals, and `_canonical` is a total function of a row.
- Process pools, pickling and files that change while they are read: a worker returns its items, returns SERIAL, or fails.
- Messages: a refusal is a reason with its numbers, not the sentence the script prints.
- Summarizer.Summary.Record: does not say what the object holds after a refusal, because nothing reads it then.
- Structure.TakenExactly: asks that every record be readable by itself, because balances after a first differing one are never read and so may have any shape; `TakenIsStructured` and `Refusals.RefusedExactly` need no such condition.
- Trend rows are typed (their `isinstance` checks are left out), and timestamps use ASCII digits.
- The branch's own README file, git plumbing, `gh` and releases: fetch, commit on a tip and fast-forward push are the steps.
- TrendProtocol.BranchStaysUnique: is about writers whose batches do not clash, because for others it is false; see `TrendProtocol.UniqueExactlyWithoutClash`.
- cargo command lines and the runs of ignored tests: a shard's targets stand for them.
- Statistics are on reals, and the texts of thresholds and points are not built.
- Sampling of range bounds, the legacy header guard in SQL, and a disk that fails in the middle of a part.
- Sockets, locks, RPC and the Bitcoin test framework's helpers: transactions are byte strings and a lock-protected section is one step.
- Header.SolveShare: covers one extranonce; `Submission.SolveJob` covers them all, with the coinbase and branch as bytes that were decoded already.
- Header.LaneLayout: leaves open what `int` makes of signs, underscores and prefixes; `BuildersAgreeExactly` covers whatever it makes of them.
- Header.BuildersAgree: is for plain fields, because others need not make 80 bytes; `BuildersAgreeExactly` covers them.
- VersionRolling.VersionRolls: leaves open what `int` makes of a text that is not plain digits.
- VersionRolling.OnlyMaskBitsDiffer: is for numbers without white space, because with it the version need not be the header's first four bytes.
- The lane's `solve_share` searches the same nonces with half the target, and `initial_convergence_ready` only gates one early window.
- Vardiff.Client.Retarget: does not model sending the new job or the worker's logs.
- Decimal rounding in vardiff.
- Supervisor.RunSupervisor: takes the watchdog check, preflight and restoring of signal handlers as given.
- The Rust server and ledger, lint scripts, metric generators, load probes and the readiness probe.
