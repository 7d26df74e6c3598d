# Verified model of ocbench

ocbench runs coding agents against tasks, records their event streams and sessions, validates the
results and compares configurations. This project models the parts of it where a mistake would be
hard to see in a test, and proves what they promise for all inputs and all runs.

| file | models |
|---|---|
| `SessionStream.dfy`, `SessionGuarantees.dfy` | the streaming session: child, reaper, polling tailer, bounded channel, consumer, killer and waiter as a transition system with any interleaving, chunk size and timing |
| `LineTailer.dfy` | the tailer's read and split loops, and the runner's drain, as imperative code |
| `FixtureCache.dfy` | the multi-process fixture cache: lock file, fast path, re-check, clear, write, commit, with failures and crashes anywhere |
| `CanonicalJson.dfy` | the canonical JSON printer, against a reader of the grammar |
| `Redaction.dfy`, `PermissionOrder.dfy` | redaction and path normalisation, and the order-independent form of permission values |
| `SessionCapture.dfy` | depth-bounded discovery and export of child sessions |
| `GlobMatch.dfy` | the two `**` glob matchers |
| `Signatures.dfy` | the count of distinct behaviours as maximal partial maps |
| `WilsonInterval.dfy`, `SampleSize.dfy` | the score interval and experiment sizing over the reals |
| `Allocate.dfy`, `Pager.dfy` | the reference solutions of two tasks of the hard suite |
| `GitPaths.dfy` | the parsers of git's NUL-separated output and the list of changed files |
| `AgentMetrics.dfy`, `AgentUsages.dfy` | per-agent usage written as metric keys by one package and read back by another |
| `RunGroups.dfy`, `Medians.dfy`, `CohortGate.dfy` | grouping of an experiment's runs and the gate that allows a ranking by cost |
| `EventMetrics.dfy`, `TraceTimeline.dfy` | the event metrics and the per-step timeline of the same stream |
| `RunOutcome.dfy`, `RunTimeout.dfy`, `RunVerdict.dfy` | how a run's status is decided while its child, its clock, a deadline timer, a cancellation watcher, Wait and the validators interleave, and which status each run is recorded with |
| `RunScore.dfy` | the metrics derived from a run's validators |
| `Sorting.dfy`, `Options.dfy` | what library sorts promise, and the optional value, shared by the others |

`dafny verify dfyconfig.toml` checks everything.

Protocols are transition systems: a state, steps that are enabled or not, and runs as lists of enabled
steps. Every step is one atomic action, so a statement about all runs covers all schedules. Loops that
update variables are methods with invariants, and objects that update fields are classes; both are
proved against specification functions, about which the lemmas then speak.

## Where the code promises more than it does

- `FixtureCache`: the comments say an existing repository with a commit is reused. The re-check under
  the lock treats any failing git query as "no commit" and then clears the directory.
  `SafeIffNeverBlind` gives the exact condition and `BlindRecheckErasesCommit` a run. A lock file that
  could not be removed stays, as after a crash, and blocks everyone for good.
- `RunTimeout`: the comments say a process that finishes just before the deadline must not be
  misclassified. Whether the child had ended by itself is no part of the condition under which a timeout
  is recorded (`TimeoutIff`), and such a child can be misread exactly as long as the deadline can pass
  before Wait's select (`MisreadingPossibleIff`). There are three schedules, each with a run: the timer
  stores late, Wait's select takes the expired context although the child has been reaped, or the timer
  fires while the ended child's lines are still queued.
- `TraceTimeline`: retries and compactions that ride on a step's own envelope are counted by the
  metrics and not by the timeline; a second `step_finish` of a step overwrites tokens and cost; a
  missing total is recomputed by the timeline and skipped by the metrics.
- `CohortGate`: an arm counts as having a cost figure as soon as one of its tasks has all its costs.
  Observed tasks outside the declared selection must still have three runs per arm and agree on the
  drift fields, although their runs need not succeed.
- `Pager`: the walk visits every item exactly once only if no page boundary separates two items with
  the same rank and id.
- `SampleSize`: the formula squares the quantile sum, so for a sum that is not positive it does not
  return the least number of repeats, unless the formula asks for at most one run.
- `SessionGuarantees`: the comments say a reaped group is never signalled. Kill looks at the reap and signals
  in two steps, and the grace goroutine may take the end of its period although the child has been reaped;
  `LateSignalIff` gives the exact states from which a signal can follow the reap.
- `SessionGuarantees`: calling Wait before Events has been drained can lose a line, and a Wait called after
  the deadline may report the deadline although the child exited with 0 by itself before it.

## Model

| member | source | states |
|---|---|---|
| SessionStream.StepKeepsInv | internal/opencode/session.go:109-291 | every atomic step of child, reaper, tailer, consumer, killer and waiter keeps the invariant: bytes logged, queued, pending and dropped add up to bytes read, and without drops they are those bytes in order |
| SessionStream.RunKeepsInv | internal/opencode/session.go:109-291 | the same over any sequence of enabled steps |
| SessionGuarantees.DrainedLogIsOutput | internal/runner/runner.go:413-433 | in every interleaving that drains Events to close before calling Wait, the log equals the child's output plus one newline only where the last line lacks it; it fails exactly when the tailer could not open a non-empty file |
| SessionGuarantees.DrainedLogLosesOnlyDrops | internal/opencode/session.go:276-282 | with no discipline at all: the drained log is the output if and only if the discard branch was never taken, and the lengths differ by exactly the dropped bytes |
| SessionGuarantees.LogIsPrefix | internal/opencode/session.go:206-271 | at every moment of a disciplined drain the log is a prefix of the final text |
| SessionGuarantees.WaitBeforeDrainCanLoseALine | internal/opencode/session.go:273-282 | a concrete run, without the discipline, in which a line is lost although the channel has room |
| SessionGuarantees.StepLowersMeasure | internal/opencode/session.go:109-159 | after the reap every step of the session's own actors lowers a measure of unread bytes, buffered bytes, queued lines and program points |
| SessionGuarantees.SystemStepsAreBounded | internal/opencode/session.go:109-159 | hence any continuation holds at most as many of their steps as the measure says |
| SessionGuarantees.NextMove | internal/opencode/session.go:109-159 | until Wait has returned some actor other than the consumer and the environment can always move |
| SessionGuarantees.QuiescentMeansReturned | internal/opencode/session.go:109-159 | a run in which only environment and consumer steps remain has returned from Wait |
| SessionGuarantees.WaitCanReturn | internal/opencode/session.go:109-159 | from any such state there is a way to the return of Wait that never uses the consumer and is no longer than the measure |
| SessionGuarantees.DrainCanFinish | internal/runner/runner.go:423-433 | after the reap the tailer and a consumer that goes on reading reach the close of Events within the measure, with nothing dropped and no step of Wait |
| SessionGuarantees.EndedContextCanReturn | internal/opencode/session.go:114-135 | in every run: once Wait has seen the context's end it can return that error without the child ending by itself and without the consumer, through the signal, the grace period's kill and the reap |
| SessionGuarantees.GraceIffSignalled | internal/opencode/session.go:171-185 | in every run the grace period has begun if and only if a kill, anyone's or Wait's own, has signalled the group |
| SessionGuarantees.KilledDrainFinishes | internal/runner/runner.go:190-204 | in every run in which the child still runs and the consumer drains: one call of Kill is enough for the drain to end, through the grace period's kill and the reap, without the child writing or exiting, without Wait, and with nothing dropped |
| SessionGuarantees.LateSignalIff | internal/opencode/session.go:164-173 | once the child has been reaped a signal can still follow if and only if the grace goroutine waits, or nobody has signalled yet and some caller of Kill stands between its look at the reap and its signal |
| SessionGuarantees.WaitReportsItsChoice | internal/opencode/session.go:112-149 | Wait reports the context's error exactly in the runs in which its select took the context |
| SessionGuarantees.ExpiredContextHidesACleanExit | internal/opencode/session.go:112-117 | a concrete disciplined run: a child that exited with 0, unsignalled, reaped and fully drained, for which Wait returns the deadline error |
| SessionGuarantees.QueueIsBounded | internal/opencode/session.go:276-282 | no more than 256 lines are ever queued, in any run |
| SessionGuarantees.EventsCloseOnceBeforeReturn | internal/opencode/session.go:202-208 | Events is closed at most once, and exactly once before Wait returns, with no tailer left |
| SessionGuarantees.WaitReportsChild | internal/opencode/session.go:144-158 | Wait reports the context error it observed, otherwise exactly the child's own result |
| SessionGuarantees.ReturnIsFinal | internal/opencode/session.go:104-107 | nothing after the return changes the result or the captured output |
| LineTailer.SplitIsExact | internal/opencode/session.go:261-270 | lines and remainder put together are the text |
| LineTailer.ChunksDoNotMatter | internal/opencode/session.go:250-271 | splitting in two reads finds the same lines as splitting at once, for every cut |
| LineTailer.FlushTerminates | internal/opencode/session.go:229-234 | emitting the remainder last gives the newline-terminated text |
| LineTailer.Reader.constructor | internal/opencode/session.go:218-220 | a reader starts at the beginning with nothing buffered |
| LineTailer.Reader.ReadToEnd | internal/opencode/session.go:251-260 | for any chunk size the read loop appends exactly the unread bytes |
| LineTailer.Reader.EmitLines | internal/opencode/session.go:261-270 | the split loop emits every complete line in order and keeps the rest |
| LineTailer.Reader.ReadAvailable | internal/opencode/session.go:250-271 | one call on a grown file leaves everything read so far split |
| LineTailer.Reader.Finish | internal/opencode/session.go:229-234 | after the last call the emitted lines join to the newline-terminated file |
| LineTailer.DrainEvents | internal/runner/runner.go:413-433 | which error the drain returns, and what it leaves: every received line with one newline, up to the first failing write and what that one wrote; the metrics see exactly the lines written whole |
| FixtureCache.StepKeepsInv | internal/runner/gitsource.go:68-131 | every action of every process, failures and crashes included, keeps: one lock holder, a commit only of the complete fixture, and what each program point knows of the repository |
| FixtureCache.AtMostOneInside | internal/runner/gitsource.go:241-272 | in every run at most one process is between lock and unlock |
| FixtureCache.BaselinesAreComplete | internal/runner/gitsource.go:79-131 | every baseline returned, through the lock or the unlocked fast path, is the complete fixture's commit |
| FixtureCache.EmptyFixtureIsNeverCommitted | internal/runner/gitsource.go:105-131 | a fixture without files never gets a commit: git refuses one with nothing staged |
| FixtureCache.SafeIffNeverBlind | internal/runner/gitsource.go:92-99 | a committed repository is never about to be cleared if and only if no re-check under the lock overlooked a commit |
| FixtureCache.CommitIsForever | internal/runner/gitsource.go:92-99 | under that condition a committed repository never changes again |
| FixtureCache.AtRiskCanLose | internal/runner/gitsource.go:97-99 | otherwise the very next step can erase it |
| FixtureCache.BlindRecheckErasesCommit | internal/runner/gitsource.go:194-207 | a concrete two-process run: a failing git query at the re-check erases a returned baseline |
| FixtureCache.OnlyReleaseFreesTheLock | internal/runner/gitsource.go:248-252 | the lock file is created by acquiring and removed by releasing, and by no failure and no crash |
| FixtureCache.CrashInside | internal/runner/gitsource.go:248-252 | a crash between lock and unlock leaves the lock file, the repository and a process that is known to have held it |
| FixtureCache.CrashedRunBlocksForEver | internal/runner/gitsource.go:241-272 | over runs: after such a crash nobody else is ever inside, the lock file stays, the repository is as the crash left it, and no new baseline appears unless the commit had landed |
| FixtureCache.FastPathNeedsNoLock | internal/runner/gitsource.go:79-85 | a process that sees a committed repository returns its commit in two looks, whatever the lock is, and changes nothing |
| FixtureCache.StaleLockBlocksForEver | internal/runner/gitsource.go:241-272 | when the lock file is there and nobody is left to remove it, in every continuation nobody enters, the repository stays as it was, and no new baseline appears unless the commit had landed |
| FixtureCache.FailedReleaseLeavesStaleLock | internal/runner/gitsource.go:252 | a lock file that could not be removed is such a lock, which nobody reports |
| FixtureCache.CrashInsideBlocksForEver | internal/runner/gitsource.go:241-272 | a crash between lock and unlock leaves the lock for good: nobody enters and the repository stays as it was |
| FixtureCache.UnreportedCommitIsThere | internal/runner/gitsource.go:105-131 | a commit that landed although git reported a failure is the complete fixture's and is there for the next process |
| FixtureCache.LoneProcessRecovers | internal/runner/gitsource.go:68-131 | while the lock is free, a process left alone ends with the complete commit, whatever earlier ones left behind; a repository that has its commit is left as it is |
| CanonicalJson.ToCanonicalIsIdentity | internal/canon/canon.go:30-60 | rebuilding a decoded value changes nothing |
| CanonicalJson.SortedKeysAscend | internal/canon/canon.go:33-37 | object keys are printed in strictly ascending order |
| CanonicalJson.ParseOfJson | internal/canon/canon.go:16-28 | a reader of the grammar of RFC 8259 (sections 3 to 7, names ascending, no white space), which knows nothing of the printer, reads every printed value back |
| CanonicalJson.ValueIsRead | internal/canon/canon.go:16-28 | and it does so in front of any text that may follow a value |
| CanonicalJson.StringIsRead | internal/canon/canon.go:21-27 | every string is read back from its quoted text by the escapes of section 7 |
| CanonicalJson.GrammarNumbersAreNumbers | internal/canon/canon.go:16-28 | every number of section 6 of RFC 8259 is among the numbers read and printed |
| CanonicalJson.EscapeIsShortest | internal/canon/canon.go:21-23 | no text read as the same character is shorter than the escape printed, the two line separators excepted; with lower-case digits none other is as short |
| CanonicalJson.EscapePrefixFree | internal/canon/canon.go:21-27 | no escape starts another |
| CanonicalJson.QuoteTailPrefixFree | internal/canon/canon.go:21-27 | no quoted string is a proper prefix of another |
| CanonicalJson.NumberPrefixFree | internal/canon/canon.go:21-27 | a number ends where a following character says so |
| CanonicalJson.PrintPrefixFree | internal/canon/canon.go:16-28 | two values whose texts start a common text are equal |
| CanonicalJson.JsonIsInjective | internal/canon/canon.go:16-28 | equal canonical text means equal values |
| PermissionOrder.TextLeIsOrder | internal/profile/fingerprint.go:674 | comparing by canonical text is a total order on values |
| PermissionOrder.SortForgetsOrder | internal/profile/fingerprint.go:655-684 | two lists sort to the same list if and only if they are permutations of each other |
| PermissionOrder.SortedFormIsCanonical | internal/profile/fingerprint.go:655-693 | two values have the same sorted form if and only if they are equal up to permuting array elements at any depth |
| PermissionOrder.HashedTextIgnoresOrderOnly | internal/profile/fingerprint.go:651-693 | the same for the text that is hashed |
| PermissionOrder.SortingIsIdempotent | internal/profile/fingerprint.go:655-693 | sorting a sorted value changes nothing |
| PermissionOrder.RedactKeepsSameness | internal/profile/fingerprint.go:626-632 | redaction respects equality up to order |
| PermissionOrder.NormalizeKeepsSameness | internal/profile/fingerprint.go:626-632 | path normalisation respects it too |
| Redaction.RedactKeepsPlaces | internal/canon/redact.go:20-49 | at every place in a value that no sensitive name guards, redaction leaves the redaction of what was there, and nothing where nothing was |
| Redaction.RedactHidesSecrets | internal/canon/redact.go:20-31 | of a member with a sensitive name the mark is left, and no place inside it |
| Redaction.RedactionsAgreeIff | internal/canon/redact.go:15-49 | two values have the same redaction if and only if they are the same but for what stands under sensitive names |
| Redaction.NormalizeKeepsPlaces | internal/profile/fingerprint.go:626-632 | path normalisation keeps every place and every name |
| Redaction.PlacesAreKept | internal/profile/fingerprint.go:626-632 | the two together at any unguarded place: strings rewritten, other leaves equal, containers of the same shape |
| PermissionOrder.FingerprintIgnoresOrder | internal/profile/fingerprint.go:643-649 | the whole pipeline gives one result for all orderings |
| PermissionOrder.FingerprintsAgreeIff | internal/profile/fingerprint.go:626-693 | and tells apart everything else: equal hashed text if and only if what redaction and path normalisation leave is equal up to order |
| SessionCapture.DiscoveredIsSound | internal/session/session.go:237-261 | discovery lists each referenced session once |
| SessionCapture.DiscoverChildren | internal/session/session.go:237-261 | the loop with its seen map computes that list |
| SessionCapture.DiscoverInExport | internal/runner/runner.go:535-546 | the parts of all messages, re-presented as one event list |
| SessionCapture.ReferencedInAnyMessage | internal/runner/runner.go:535-546 | the sessions an export references are those named by a task part of any of its messages |
| SessionCapture.UnsafeIff | internal/runner/runner.go:479-483 | the refused ids are those with a path separator or with two dots in a row |
| SessionCapture.ReachIsReachable | internal/runner/runner.go:466-468 | the level-by-level sets are exactly the ends of short enough reference chains |
| SessionCapture.Visit | internal/runner/runner.go:471-503 | one id is refused, exported, parsed and written, or counted as a failure |
| SessionCapture.CaptureLevel | internal/runner/runner.go:469-505 | one level takes on every id not seen before and gathers what the captured ones reference |
| SessionCapture.CaptureSessions | internal/runner/runner.go:453-508 | on any reference graph, cycles included, exactly the non-primary ids within five references through captured sessions are attempted, each once, and captured plus failed is attempted |
| SessionCapture.ExportedOnce | internal/runner/runner.go:471-483 | each export is asked for at most once, and never for an id that could leave the directory |
| SessionCapture.CapturedAreWritten | internal/runner/runner.go:484-503 | the captured sessions are the attempted ones whose export parsed and was written |
| GlobMatch.DenotesOne | internal/evaluation/context.go:314-321 | how a single-segment pattern splits a path |
| GlobMatch.DenotesAny | internal/evaluation/context.go:302-313 | how `**` splits a path |
| GlobMatch.AnyTwiceIsAny | internal/runner/artifacts.go:528-533 | a second `**` in a row adds nothing |
| GlobMatch.MatchForEvaluation | internal/evaluation/context.go:300-323 | true if and only if the path splits into consecutive pieces, one per pattern segment |
| GlobMatch.MatchForRunner | internal/runner/artifacts.go:525-552 | the same for the other, differently written matcher |
| GlobMatch.MatchersAgree | internal/runner/artifacts.go:518-552 | both give the same answer on all segment lists |
| GlobMatch.UnexpectedFiles | internal/runner/runner.go:615-623 | exactly the changed paths no glob allows, in order |
| Signatures.KeyIsInjective | internal/history/calibration.go:261-269 | the rendered key identifies the signature |
| Signatures.IsRestriction | internal/history/calibration.go:218-225 | decides restriction of partial maps |
| Signatures.Index | internal/history/calibration.go:231-239 | the map and order the first loop builds |
| Signatures.IsRedundant | internal/history/calibration.go:243-252 | decides whether another recorded signature strictly extends this one |
| Signatures.DistinctSignatures | internal/history/calibration.go:230-258 | the count is the number of maximal elements of the input set |
| Signatures.CountedCoverAll | internal/history/calibration.go:227-258 | every input is a restriction of a counted one, counted ones are incomparable, and the count is zero only for no input |
| Signatures.RestrictionsAddNothing | internal/history/calibration.go:227-258 | repeating, reordering or adding restrictions never changes the count |
| WilsonInterval.UnclampedIffAccepts | internal/stats/stats.go:40-42 | centre minus half to centre plus half is the region of the score test |
| WilsonInterval.IntervalIsScoreRegion | internal/stats/stats.go:25-44 | q lies in the interval if and only if n(p-q)^2 <= z^2 q(1-q) |
| WilsonInterval.EndsInUnit | internal/stats/stats.go:42-43 | both ends already lie in [0, 1] |
| WilsonInterval.IntervalContainsProportion | internal/stats/stats.go:25-44 | the interval contains the observed proportion and clamping does nothing |
| WilsonInterval.FailuresMirror | internal/stats/stats.go:25-44 | swapping successes with failures mirrors it |
| WilsonInterval.LargerQuantileWidens | internal/stats/stats.go:25-44 | a larger quantile never narrows it |
| SampleSize.RepeatsAreExact | internal/stats/power.go:120-131 | with a positive quantile sum, m repeats detect the effect if and only if m is at least the number returned |
| SampleSize.AnswersIff | internal/stats/power.go:120-131 | there is an answer if and only if effect and spread are positive, and it is at least one repeat |
| SampleSize.DetectableIff | internal/stats/power.go:150-156 | for a positive quantile sum something is detectable if and only if the spread is positive and there is a repeat |
| SampleSize.LeastIffPositiveQuantile | internal/stats/power.go:120-131 | the number returned is the least detecting one if and only if the quantile sum is positive or the formula asks for at most one run |
| SampleSize.NegativeSumAsksForTooMany | internal/stats/power.go:120-131 | a concrete input where two repeats are asked for and one already counts as detecting |
| SampleSize.MoreRepeatsDetectLess | internal/stats/power.go:150-156 | the detectable effect is positive and strictly decreases in the repeats |
| Allocate.Allocate | suites/hard/tasks/js-allocate-cents/evaluator/reference/lib/allocate.js:1-33 | the four errors exactly when they apply, in their order, and otherwise a largest-remainder split |
| Allocate.LargestRemainderIsUnique | suites/hard/tasks/js-allocate-cents/prompt.md:6-16 | those conditions leave exactly one list of parts |
| Allocate.SharesAddUp | suites/hard/tasks/js-allocate-cents/evaluator/reference/lib/allocate.js:16 | the exact shares sum to the cents |
| Allocate.SpareCents | suites/hard/tasks/js-allocate-cents/evaluator/reference/lib/allocate.js:17-18 | flooring leaves between zero and as many cents as there are broken shares |
| Allocate.OrderIsPermutation | suites/hard/tasks/js-allocate-cents/evaluator/reference/lib/allocate.js:20-25 | the order is a permutation sorted by fraction, ties to the left |
| Allocate.NoExtraForWholeShares | suites/hard/tasks/js-allocate-cents/evaluator/reference/lib/allocate.js:27-31 | a spare cent never reaches a whole share |
| Allocate.WholeSharesAreExact | suites/hard/tasks/js-allocate-cents/evaluator/reference/lib/allocate.js:16-32 | no part is negative, a whole share is paid exactly, a zero weight gets zero |
| Allocate.TiesGoLeft | suites/hard/tasks/js-allocate-cents/prompt.md:11-14 | among all whole splits that are as close, the result gives the first payee on whom they differ more |
| Allocate.ClosestToExact | suites/hard/tasks/js-allocate-cents/prompt.md:11-14 | no other whole split of the same cents is closer to the exact shares in total distance |
| Pager.Search | suites/hard/tasks/go-pager-cursor/evaluator/reference/pager.go:34-40 | binary search finds the first item above the cursor |
| Pager.PageAfter | suites/hard/tasks/go-pager-cursor/evaluator/reference/pager.go:19-57 | the page is the first `size` items of the sorted list after the cursor; a cursor exactly when more follow; panic for no size |
| Pager.PageIsAfterCursor | suites/hard/tasks/go-pager-cursor/prompt.md:14-20 | on any list: only items strictly after the cursor, none too often, and a full page whenever there is a cursor, which is its last key |
| Pager.PagesAreFull | suites/hard/tasks/go-pager-cursor/prompt.md:17-20 | every page of a walk but the last holds exactly `size` items |
| Pager.DistinctKeysAreComplete | suites/hard/tasks/go-pager-cursor/prompt.md:21-22 | with distinct keys the pages put together are the sorted list |
| Pager.WalkIsCompleteIff | suites/hard/tasks/go-pager-cursor/prompt.md:21-22 | on any list the walk shows every item exactly once if and only if no page boundary separates two equal items; it never shows one too often |
| Pager.SplitTieLosesAnItem | suites/hard/tasks/go-pager-cursor/evaluator/reference/pager.go:34-40 | two equal items with pages of one: the second is never shown |
| GitPaths.ParseStatusZ | internal/runner/worktree.go:106-124 | the index loop reads the fields as the specification does |
| GitPaths.StatusRoundTrip | internal/runner/worktree.go:103-124 | printing any well-formed status entries and parsing gives their paths in order, both of a rename |
| GitPaths.ParseNameStatusZ | internal/runner/worktree.go:129-150 | the index loop, which may run past the end, reads the fields as the specification does |
| GitPaths.NamesRoundTrip | internal/runner/worktree.go:126-150 | the same round trip for name-status entries |
| GitPaths.DedupeSorted | internal/runner/worktree.go:153-164 | removes adjacent repetitions |
| GitPaths.DedupeOfSorted | internal/runner/worktree.go:153-164 | of a sorted list it leaves a strictly increasing one with the same elements |
| GitPaths.IncreasingIsUnique | internal/runner/worktree.go:58-63 | a strictly increasing list is determined by its elements |
| GitPaths.ChangedFiles | internal/runner/worktree.go:64-82 | fails exactly on an empty argument or a failed git call; otherwise the strictly increasing list of the union of both sources |
| GitPaths.ChangedFilesAreTheRecordedPaths | internal/runner/worktree.go:58-82 | for printed entries these are exactly the recorded paths |
| AgentMetrics.AddMessage | internal/session/session.go:195-203 | one message added, its tool calls counted one at a time |
| AgentMetrics.Rollup | internal/session/session.go:183-212 | one entry per agent that sent a message, in strict name order, with the sum of that agent's messages |
| AgentMetrics.Merge | internal/runner/artifacts.go:449-471 | one entry per shown name with the sum over every message shown under it; collisions are raw agents minus shown names |
| AgentMetrics.KeyIsInjective | internal/runner/artifacts.go:473-474 | the metric keys of different names or metrics differ, whatever dots a name holds |
| AgentMetrics.WriteAgents | internal/runner/artifacts.go:472-484 | exactly ten entries per merged agent and no other agent entry |
| AgentMetrics.SessionMetrics | internal/runner/artifacts.go:435-506 | the agent entries, and the collision, sub-agent and cross-check entries exactly when they apply |
| AgentUsages.ReadUsages | internal/history/usage.go:23-63 | one record per agent named by a key, heaviest first then by name, with the values under its keys |
| AgentUsages.HeaviestFirst | internal/history/usage.go:56-61 | tokens do not increase down the list, and agents of equal tokens stand by name |
| AgentUsages.TruncateIsTowardsZero | internal/history/usage.go:43-46 | a recorded number read as an integer loses its fraction, towards zero |
| AgentUsages.ReadBack | internal/history/usage.go:26-51 | reading what was written gives exactly the shown names with their summed usage |
| AgentUsages.EveryMetricIsConserved | internal/runner/artifacts.go:435-484 | each of the ten metrics, summed over the written entries, is its sum over all messages |
| AgentUsages.UsageIsConserved | internal/history/usage.go:23-63 | messages, tool calls, tokens and cost summed over the agents read back are those of all messages |
| RunGroups.RunSucceeded | internal/experiment/aggregate.go:362-371 | a veto, then the recorded success, then the status |
| RunGroups.AggCounts | internal/experiment/aggregate.go:91-101 | what a group's counters say about its runs: all succeeded, some succeeded, all costed |
| RunGroups.Group | internal/experiment/aggregate.go:143-196 | the grouping loop puts each attributed, non-dry run into exactly its arm and task |
| Medians.MedianIsMiddle | internal/stats/stats.go:73-84 | the median is the number with as many before it as after, or the mean of the two middle ones |
| Medians.KthIsUnique | internal/stats/stats.go:73-84 | the number at a rank is unique, whatever the order of the list |
| CohortGate.DriftWarnings | internal/experiment/aggregate.go:529-549 | a warning for exactly the tasks and fields on which runs differ |
| CohortGate.CostFigureIff | internal/experiment/aggregate.go:214-234 | an arm has a cost figure if and only if some task of it was solved with all its costs recorded |
| CohortGate.SolvedCostIs | internal/experiment/aggregate.go:214-234 | a solved and fully costed task costs its recorded costs together over the number of its solutions |
| CohortGate.InsufficientData | internal/experiment/aggregate.go:553-565 | some arm ran some observed task fewer than three times, or nothing ran |
| CohortGate.Summarize | internal/experiment/aggregate.go:112-246 | task list, groups, cost figures and guards in terms of the raw runs |
| CohortGate.CohortTaskIds | internal/experiment/cohort.go:246-268 | the declared tasks without empty names and repetitions, else the observed ones |
| CohortGate.ArmItem | internal/experiment/cohort.go:122-209 | counts, least repeats, cost and eligibility of one arm in terms of the raw runs |
| CohortGate.SummarizeCohort | internal/experiment/cohort.go:71-241 | the gate is the one read off the raw runs, and the arms are listed in the cohort's order |
| CohortGate.RankableIff | internal/experiment/cohort.go:212-231 | ranked if and only if seven conditions on the raw runs hold |
| CohortGate.CohortOrder | internal/experiment/cohort.go:231-241 | in any cohort eligible arms come first, by cost, a missing figure counting as 0; the others, and those of equal cost, by name |
| CohortGate.RankedIsByCost | internal/experiment/cohort.go:233-241 | in a ranked cohort every arm is eligible, has a cost figure, and costs do not decrease down the list |
| EventMetrics.Metrics.constructor | internal/evaluation/metrics.go:37-47 | fresh metrics represent the empty stream |
| EventMetrics.Metrics.ObserveTool | internal/evaluation/metrics.go:103-151 | what one tool call does to all counters |
| EventMetrics.Metrics.Observe | internal/evaluation/metrics.go:67-90 | after each event the metrics are those of the events so far |
| EventMetrics.Metrics.ObserveLine | internal/evaluation/metrics.go:94-101 | a malformed line counts as one parse error |
| EventMetrics.CountedByKeyAfter | internal/evaluation/metrics.go:103-151 | calls by tool keep summing to the tool calls, calls by server to the MCP calls |
| EventMetrics.CountedReadsAfter | internal/evaluation/metrics.go:117-125 | redundant reads plus distinct files stay the reads that name a file |
| EventMetrics.TotalledAfter | internal/evaluation/metrics.go:153-173 | tokens, cost, texts and edit timing are those of the events |
| EventMetrics.MetricsOf | internal/evaluation/metrics.go:37-101 | the same for a whole stream |
| TraceTimeline.BuildTool | internal/trace/trace.go:150-188 | one span, and the captured child noted the first time it is named |
| TraceTimeline.ChildrenAreTheNamed | internal/trace/trace.go:73-74 | every captured session some task names is listed once |
| TraceTimeline.Build | internal/trace/trace.go:75-141 | the timeline of any event list, step by step: each step has the tokens of its last step_finish, the last cost one carried, its own retries, compactions and tool spans, and the time between its first and last marking event |
| TraceTimeline.SlicesAreTheSteps | internal/trace/trace.go:68-73 | the events of a step: from its step_start, or the first event that needs a step, up to the next step_start; put together they are the events from the first such event on |
| TraceTimeline.TimesAreExtremes | internal/trace/trace.go:90-97 | the times of a step are the least and the greatest timestamp of its marking events |
| TraceTimeline.StepsAreBuilt | internal/trace/trace.go:99-132 | what the steps add up to: spans, interruptions, tokens and cost of the whole event list |
| TraceTimeline.TraceAgreesWithMetrics | internal/trace/trace.go:66-74 | a span per tool call; a step per step, one more exactly when something came before the first start; retries and compactions agree if and only if none rides on a step's own envelope |
| TraceTimeline.RidingRetryIsNotShown | internal/trace/trace.go:99-132 | a concrete stream of one event: one retry in the metrics, none in the timeline |
| TraceTimeline.TotalsDifferByOverwrites | internal/trace/trace.go:114-120 | how timeline totals differ from the metrics: overwritten and recomputed amounts |
| TraceTimeline.CostsAgreeIff | internal/trace/trace.go:114-120 | with costs that are not negative, the costs agree if and only if no step that shows a cost reports another one |
| TraceTimeline.TotalsAgreeWhenFinishedOnce | internal/trace/trace.go:114-120 | tokens and cost agree when each step is finished at most once with a total |
| RunOutcome.StepKeepsInv | internal/runner/runner.go:197-357 | every step of child, clock, timer, watcher, Wait and the run keeps: a decided status is the switch's, the last re-check is not forgotten, unstarted validators are skips, and skips have a reason |
| RunOutcome.CancelledRunIsErrorOrTimeout | internal/runner/runner.go:321-329 | in every interleaving a cancellation before the last re-check ends in error or timeout |
| RunOutcome.NoLaterValidator | internal/runner/runner.go:551-584 | once the request's context has ended no validator is started; what is recorded after is a skip, but for the one running |
| RunOutcome.PassedMeansClean | internal/runner/runner.go:331-355 | passed means exit code 0, no Wait error, no cancellation, and for every validator of the task a result that says passed, or a skip only for a missing requirement |
| RunVerdict.VerdictIff | internal/runner/runner.go:338-355 | over all runs with a status: unless it is a timeout, an error if and only if one of the three looks saw a cancellation or the child did not end with exit code 0; without either, failed if and only if a reported result blocks, and passed if and only if none does |
| RunVerdict.DecidedStatusIff | internal/runner/runner.go:338-355 | the same on the state: error, failed and passed by cancellation, Wait's error, exit code and results |
| RunVerdict.RunTells | internal/runner/runner.go:234-329 | what any run leads to: its results are those its validators reported, it is cancelled if and only if a look saw it, the watcher's flag is up if and only if it was stored, and Wait reports what the child ended with |
| RunVerdict.EarlyCancelAsksNobody | internal/runner/runner.go:296-321 | a run that has seen its cancellation before the validators starts none and records no result |
| RunVerdict.RunFromOutside | internal/runner/runner.go:190-234 | what lies outside the run, read off the steps: the child's end, whether a kill or the deadline came before it, the session's context following the request's, the drain ending with the reap, the watcher acting on the request's end only, and no validator for a missing requirement |
| RunTimeout.TimeoutIff | internal/runner/runner.go:190-234 | over all runs: recorded as a timeout if and only if Wait's select took a context ended by a deadline, or the timer loaded `drainDone` before it was stored and stored its flag before the status was chosen; whether the child ended by itself plays no part |
| RunTimeout.TimeoutPossibleIff | internal/runner/runner.go:190-234 | in every reachable state: a timeout can still be recorded if and only if it is recorded already, or the run is undecided and Wait has the deadline error or has yet to select on a context that no cancellation ended, or the timer's flag is up, about to be stored, or can still be loaded for before the drain is noted |
| RunTimeout.MisreadingPossibleIff | internal/runner/runner.go:190-197 | while no deadline has passed a timeout can still be recorded, also of a child that has ended by itself, if and only if Wait has not made its choice yet and a cancellation has not closed that way after the drain was noted |
| RunTimeout.TimeoutAfterDrainIff | internal/runner/runner.go:198-204 | the timer alone: once the drain is noted, its flag is up later on if and only if it is up already or the timer is between its load and its store |
| RunTimeout.LateStoreMisreadsACleanRun | internal/runner/runner.go:198-204 | a concrete run: the timer loads before the drain is noted and stores before the status is chosen, and a clean exit that Wait reported is recorded as a timeout |
| RunTimeout.SelectMisreadsACleanRun | internal/opencode/session.go:112-117 | a concrete run: the deadline passes between the reap and Wait's select, which takes the expired context; the timer's flag stays down |
| RunTimeout.QueuedLinesMisreadACleanRun | internal/runner/runner.go:198-204 | a concrete run: the child was reaped with lines still queued, the timer loads, stores and kills nothing before the drain ends |
| RunScore.ScoreOf | internal/runner/artifacts.go:366-385 | passed weight over scored weight, or nothing |
| RunScore.ScoreIsOneIff | internal/runner/artifacts.go:361-385 | a score exists if and only if some validator was not skipped, lies in [0, 1], and is 1 if and only if none blocks |
| RunScore.ScoreAfterFlip | internal/runner/artifacts.go:366-385 | a validator counts by its own weight, or 1: had a blocking one passed, the score would be higher by its share of the scored weight |
| RunScore.ValidatorsFailed | internal/runner/runner.go:626-634 | true if and only if some status blocks a pass |
| RunScore.DerivedMetrics | internal/runner/artifacts.go:387-421 | failures, success, first-shot success and score of a run |
| RunScore.PassedRunScoresOne | internal/runner/artifacts.go:387-421 | in every decided reachable state first-shot success equals success, and a passed run scores 1 unless all validators were skipped |
| RunScore.StoredRowIff | internal/runner/runner.go:338-355 | the stored texts of a run: timeout, error, failed and passed read off the run's steps, and of each validation |
| RunScore.AggregateAgrees | internal/store/run.go:156-169 | the experiment aggregate counts the stored row as solved if and only if the runner said passed |
| Sorting.StrLeIsLexicographic | internal/profile/fingerprint.go:674 | string comparison: the first difference decides, and a string that ends first comes first |
| Sorting.SortSorted | internal/profile/fingerprint.go:674 | library sorts, as the modelled code uses them: the result is sorted |
| Sorting.SortKeeps | internal/profile/fingerprint.go:674 | and a permutation of the input |
| Sorting.SortedIsUnique | internal/profile/fingerprint.go:674 | and, under a total order, the only sorted permutation |

## Left out

- Real processes, signals, git, SQLite, HTTP, YAML and the command line: environment steps, or values
  handed to a method. A killed process group is taken to die and to write nothing after the reap; a
  commit is a function of the tree.
- Clocks, tickers, backoffs and timeouts as durations: a timeout is a step that may happen.
- Floating point and fixed-width integers: reals and unbounded integers. Square roots enter through
  their defining equation, normal quantiles as parameters.
- JSON decoding: values, parts, exports and event lines are taken as decoded, with a case for those
  that do not decode. SHA-256 and the printing of numbers are taken as injective.
- `path.Match` inside one segment, Unicode letter classes, the verification-command pattern, key
  sensitivity and path rewriting: parameters shared by all members that use them.
- `path.Clean`, which one of the two glob front ends applies to the path first: the matchers are
  compared on segment lists.
- The bounded channel's discard signal is taken to exist from the start; the code creates it on first
  use. Read errors other than the end of the file are not modelled.
- What `git add` ignores, an enclosing repository around the cache directory, and URL sources of
  fixtures.
- Session ids captured from the stream, standard error and temporary files of a session.
- Durations, titles and statuses of the timeline's tool spans, and the usage attached to them.
- Pass rates, intervals, token medians, graded scores, runner environments, profile differences and
  the text of warnings in the experiment and cohort summaries; the regression decision and its
  permutation tests.
- The order in which equal labels, ids or keys come from the store.
- Validators themselves: their result is any status but a skip.
- Sample means, standard deviations and the sample form of the detectable effect.
- Random shuffles, bootstrap intervals, report rendering, the dashboard and the suite's deliberately
  faulty fixtures.
- PermissionOrder.FingerprintIgnoresOrder: one direction only, because redaction and path
  normalisation deliberately identify values that differ in more than order; `FingerprintsAgreeIff`
  states both directions for what they leave.
- CohortGate.Summarize: does not state token and duration figures, graded scores and permutation tests,
  which the gate never reads.
- CohortGate.ArmItem: does not state the arm's pass rate, graded score, token median and profile changes,
  which are shown and not used for the ranking.
- CohortGate.SummarizeCohort: does not state the runner environments, the baseline and the warnings'
  texts, which no condition of the gate reads.
- TraceTimeline.BuildTool: does not state a span's title, status and duration and the child's usage.
- TraceTimeline.Build: does not state the details of tool spans.
- RunScore.DerivedMetrics: does not state the file counts, diff lines, duration and session entries of the
  metric map; the session entries are `AgentMetrics`.
- RunOutcome.StepKeepsInv: Kill's look at the reap and its signal are one step, and Wait's work after the
  reap is part of its return; `SessionStream` has these steps one by one.
- TraceTimeline.TotalsAgreeWhenFinishedOnce: a sufficient condition on the stream; the exact difference
  is the statement of `TotalsDifferByOverwrites`, and `CostsAgreeIff` the exact condition for the cost.
- LineTailer.Reader.EmitLines: does not model that sending a line may block or be discarded, because the
  transition system does.
- Progress of the fixture cache, of the run's outcome and of validators under fair scheduling is not
  stated, except for a process left alone.
