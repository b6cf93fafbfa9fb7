# Hacker Typer: models and proofs

Dafny models of the two parts of the plugin repository that decide something: the live text pipeline that colours the
typed source (`SyntaxHighlight.js`, `HackerTyper.qml`), and seven of the programs under `sources/`, each a small system
with its own protocol. `dafny verify dfyconfig.toml` checks everything.

Each program that changes objects in place is modelled twice. A class has the program's fields and its methods its
loops and branches; a state machine over values says what one operation does. Every method is proved to take one step
(or a run of steps) of the state machine, and the theorems are about all runs of that machine. Where the original is
concurrent, a run is any interleaving of its atomic steps: each locked section is one step, each `await` and each gap
between atomic accesses is a place where others may move.

| module | models |
|---|---|
| `Regex` | patterns and their ordered backtracking semantics, with a flag for attempts that inspected the end of the input |
| `SyntaxHighlight`, `Tokenizer`, `Languages`, `Settling` | the scanner of each language, the deterministic scanner it agrees with, the token walk, the cache, and what typing more text can change |
| `Lexing` | what the first token of a text is, in terms of its characters |
| `Markup` | escaping, colouring, and reading the markup back |
| `Sorting` | the stable sort used by several models |
| `Reconciler`, `SnapshotStore` | greedy placement, and optimistic commits of reconcile calls among clients that edit |
| `OrchestratorSpec`, `Orchestrator` | leases, retries, reclaims, priority queues and worker load |
| `PageIndex`, `Pulse`, `PulseRuns` | masked circular pages and lanes; emitters, drainers and one reclaimer interleaved |
| `Telemetry` | the overwriting ring and the stop protocol of publishers, workers and owner |
| `PipelineSpec`, `EventPipeline` | intake, watermark, partitions with lanes, and routing by hash |
| `Limiter` | the pruned log of admissions |
| `CoordinatorSpec`, `Coordinator` | dispatches split at the `await`, leases, reaping and the journal |

Clocks, allocation, cancellation and the interleaving are parameters of the operations; random identifiers are numbers.

Where the code does less than one would expect, the model follows the code and a theorem gives the exact condition:

- Attempts can exceed `maxAttempts`, because reclaiming an expired lease ignores the limit: `AttemptLimitIff`, with
  `AttemptsAreUnbounded` for how far.
- `heartbeat` and a second registration overwrite a worker's load, and a worker registered under the empty name is not
  released by a reclaim: `AccountedThroughoutIff`, with `UndisciplinedRunsMiscount` and `NamelessWorkerMiscounts`.
- The stalled phase and its message are always overwritten at the end of `plan`: `PlanWaitsIff` says when a plan waits,
  and `ShortPlanIsReady` is a plan that is ready with a replica left over.
- Reaping or removing under a dispatch in flight takes its lease away and keeps the loads; a load goes wrong when such a
  dispatch ends while its node, or its command, has been given away again: `LoadsRightThroughoutIff`, with
  `ReapedRunMiscounts` and `RemovedRunMiscounts`. `InStepThroughoutIff` says when dispatches keep their leases.
- A publisher past its running check can push after the last worker has left: `StopMayLeaveASampleIff`,
  with `LatePublisherRun`.
- Samples reach the sink in push order with one worker, and may overtake each other with two:
  `OneWorkerDeliversInOrder`, with `TwoWorkersMayOvertake`.
- A key whose hash is the least 32-bit value can make routing raise: `RouteFailsIff`, with `LeastHashRaises`.
- Records in a rotated page are never delivered: `NothingStrandedIff`, with `SixtyFourEmitsStrand`. The accepted counter counts attempts, so the
  dropped ones are a part of it: `RecordsAreConserved`.
- A revision wraps at 2^64, and a commit that is late by a multiple of that is accepted:
  `CommitAcceptedIff`, with `LatePlanOverwrites`.
- The keyword test and the language lookup are property lookups on plain objects, so inherited names such as
  `constructor` count as keywords, and as a language make `tokenize` raise: `WordIsListedIff`, with
  `InheritedNameIsColoured`.
- With a clock that goes back the pruned limiter can forget admissions: `AgreedIff`, with `ClockGoingBackDiffers`.
- A tab and a no-break space are displayed as spaces, so the markup does not determine them: `DecodeRestores`.

## Model

| member | source | states |
|---|---|---|
| `Regex.RunIsStable` | SyntaxHighlight.js:167 | Ordered backtracking (ECMA-262, section 22.2.2): an outcome reached without inspecting the end of the input is the same outcome after any text is appended, for every pattern |
| `SyntaxHighlight.EscapedTextIsLiteral` | SyntaxHighlight.js:149-151 | Reading the escaped text back as a pattern gives the literal of exactly the original characters |
| `SyntaxHighlight.BuildScanner` | SyntaxHighlight.js:153-168 | The loop pushes block comment, line comment, one alternative per delimiter, number, word, in that order, joined into one alternation |
| `SyntaxHighlight.LiteralRun` | SyntaxHighlight.js:156-159 | A literal alternative continues exactly when its text stands at the position |
| `SyntaxHighlight.CloserRun` | SyntaxHighlight.js:155-157 | The lazy block comment body stops at the first closer, or at the end of the text when there is none |
| `SyntaxHighlight.GreedyRun` | SyntaxHighlight.js:159 | Greedy runs with an accepting continuation end at the maximal run |
| `SyntaxHighlight.StringRun` | SyntaxHighlight.js:161-164 | The lazy string body stops at the first unescaped delimiter or the end, and fails exactly where the scanner says it does: a backslash before a line terminator or at the end |
| `SyntaxHighlight.NumberRun` | SyntaxHighlight.js:165 | Backtracking over digits, fraction and both word boundaries gives the closed-form number rule |
| `SyntaxHighlight.PartAgrees` | SyntaxHighlight.js:153-168 | For every alternative, text and position, the backtracking match ends where the deterministic scanner ends, or both fail |
| `SyntaxHighlight.ScannerAgrees` | SyntaxHighlight.js:153-168 | For the whole alternation, the backtracking match is the first alternative that the deterministic scanner accepts, with the same end |
| `Languages.BundledTableIsWellFormed` | SyntaxHighlight.js:28-147 | Every bundled language and the fallback meet the conditions of the theorems: non-empty openers, no delimiter that is a word character, no clash with the fallback cache key |
| `Tokenizer.ClassifyNamesTheAlternative` | SyntaxHighlight.js:178-187 | A match is never empty, and classifying from the matched text alone gives the type of the alternative that fired |
| `Tokenizer.WordIsListedIff` | SyntaxHighlight.js:184-186 | A word match is a keyword exactly when it is listed, if and only if it is not an inherited name that is not listed |
| `Languages.InheritedNameIsColoured` | SyntaxHighlight.js:184-186 | The C text `constructor` is one keyword token although C does not list it |
| `Languages.FallbackColoursNoWord` | SyntaxHighlight.js:147 | For every name that is neither a language nor inherited, every word that is no inherited name is one plain token |
| `Languages.FormsOfLanguages` | SyntaxHighlight.js:28-147 | Comment forms, delimiters and case rule of each of the fourteen languages |
| `Tokenizer.TokensAreLossless` | SyntaxHighlight.js:189-213 | For every configuration and text, the tokens are non-empty and concatenate to the text |
| `Lexing.WordIsFirst` | SyntaxHighlight.js:166 | At the front of any text that opens no comment there, a run of letters, digits and underscores that begins with no digit and ends before any other character is the first token: a keyword if it is listed, folded where case is ignored, or is an inherited name, and plain otherwise |
| `Lexing.IntegerIsFirst` | SyntaxHighlight.js:165 | Likewise digits not followed by a word character or a fraction are a number |
| `Lexing.FractionIsFirst` | SyntaxHighlight.js:165 | Likewise digits, a point and digits not followed by a word character are one number |
| `Lexing.GluedFractionIsLeftOut` | SyntaxHighlight.js:165 | A fraction followed by a letter or underscore is left out: the number is the digits before the point |
| `Lexing.GluedNumeralsFail` | SyntaxHighlight.js:165 | Digits followed at once by a letter or underscore begin no token |
| `Lexing.LineCommentIsFirst` | SyntaxHighlight.js:158-160 | A line comment is one token up to, and without, the next newline |
| `Lexing.BlockCommentIsFirst` | SyntaxHighlight.js:155-157 | A block comment is one token up to, and with, the first closer |
| `Lexing.OpenBlockCommentIsFirst` | SyntaxHighlight.js:155-157 | Without a closer, it is one token up to the end of the text |
| `Lexing.StringIsFirst` | SyntaxHighlight.js:161-164 | A string is one token up to, and with, the first delimiter that is not escaped |
| `Lexing.OpenStringIsFirst` | SyntaxHighlight.js:161-164 | Without such a delimiter, it is one token up to the end of the text |
| `Lexing.BrokenStringFails` | SyntaxHighlight.js:161-164 | A backslash before the end of a line or of the text makes the match at the opening delimiter fail |
| `Lexing.IdleTextIsPlain` | SyntaxHighlight.js:195-212 | A text of characters that begin no word, number, string or comment is one plain token |
| `Lexing.LanguageDecides` | SyntaxHighlight.js:191-193 | A language of the table is tokenized by its own configuration, a name that is neither listed nor inherited by the fallback, and an inherited one raises |
| `Lexing.KeywordIsColoured` | SyntaxHighlight.js:178-193 | For every table, language of it and word it lists, in lower case where case is ignored: that word is one keyword token of that language |
| `Tokenizer.FirstMatch` | SyntaxHighlight.js:199 | The match found is the leftmost at or after the position, and none is found only when the pattern matches nowhere there |
| `Tokenizer.RegExp.Exec` | SyntaxHighlight.js:199 | The stateful object finds the leftmost match from `lastIndex`, moves `lastIndex` to its end, and resets it to zero on failure |
| `Tokenizer.WalkToMatch` | SyntaxHighlight.js:199-206 | The walk over the text goes from one leftmost backtracking match to the next: plain gap, classified match, rest |
| `Tokenizer.Collect` | SyntaxHighlight.js:194-213 | The loop over the stateful matches yields exactly the tokens of the walk; the branch for zero-width matches is never entered |
| `Tokenizer.Highlighter.ScannerFor` | SyntaxHighlight.js:170-176 | Every cached scanner stays the one its key stands for and is handed out rewound; nothing else in the cache changes |
| `Tokenizer.Highlighter.Tokenize` | SyntaxHighlight.js:190-213 | After any history of calls over any mix of languages, the result is that of a fresh scanner of the language, or of the fallback for a name that is neither listed nor inherited; an inherited name raises a type error |
| `Tokenizer.AttemptIsStable` | SyntaxHighlight.js:199-203 | A match attempt that did not inspect the end finds the same text with the same type after more text is appended |
| `Tokenizer.TypingKeepsSettledTokens` | HackerTyper.qml:39 | Tokens ending strictly before the first attempt that inspected the end of the text, and those ending at it when no plain run is open there, reappear unchanged, at the same place, for every appended text |
| `Settling.DistantAttemptsAreSettled` | SyntaxHighlight.js:153-168 | An attempt that leaves room for the comment openers, is no string dangling at a final backslash, and fails or matches up to two characters before the end, did not inspect the end |
| `Settling.OnlyTheTailIsUnsettled` | HackerTyper.qml:39 | The first attempt that inspects the end starts within an opener of the end, matches a piece with at most one character after it, or is a string that dangles at a final backslash; so only the tail can be recoloured |
| `Markup.ChainDoesNotRewriteItself` | HackerTyper.qml:42-50 | No replacement of the chain rewrites what an earlier one has produced |
| `Markup.EscapeIsCharacterwise` | HackerTyper.qml:42-50 | The six sequential replacements equal one map over the characters |
| `Markup.PieceOfToken` | HackerTyper.qml:59-79 | A plain token is its escaped text; a keyword, string or number is its escaped text in a font tag with its fixed colour, and a comment in one with the muted colour of the theme |
| `Markup.DecodeEscaped` | HackerTyper.qml:42-50 | Decoding the escaped text gives the text as displayed, tabs as four spaces and no-break spaces as spaces |
| `Markup.DecodeRestores` | HackerTyper.qml:42-50 | Decoding restores the text if and only if it holds no tab and no no-break space |
| `Markup.BuildHighlightedMarkup` | HackerTyper.qml:67-82 | The loop over the tokens yields the markup of the tokens of the text, for every cache state; empty text gives empty markup |
| `Markup.StripMarkup` | HackerTyper.qml:67-82 | Removing the font tags from the markup of any tokens gives their escaped texts in order |
| `Markup.MarkupRoundTrip` | HackerTyper.qml:42-82 | For every language configuration and text: stripping the tags gives the escaped text, and decoding that gives the text back if and only if it has no tab and no no-break space |
| `Markup.TypingKeepsSettledMarkup` | HackerTyper.qml:39 | The markup of the settled tokens stays in front of the markup of every longer text |
| `Sorting.SortSorted` | sources/cluster-reconciler.go:78-84 | Sorting by a weak order yields an ordered sequence |
| `Sorting.SortElements` | sources/cluster-reconciler.go:78-84 | Sorting permutes |
| `Sorting.TextBeforeIff` | sources/cluster-reconciler.go:82 | The text order is lexicographic: a common prefix, then the end of the smaller text or a smaller character |
| `Sorting.SortForgetsOrder` | sources/cluster-reconciler.go:78-84 | Under an order that is total on the elements, sorting gives the same sequence for every permutation of its input |
| `Reconciler.SortNodes` | sources/cluster-reconciler.go:78-84 | The in-place sort permutes the nodes into the order of their free capacity, greatest first, then of their names |
| `Reconciler.FreestFirst` | sources/cluster-reconciler.go:78-84 | In the sorted list the earlier of two nodes has more free capacity, or as much and no greater name |
| `Reconciler.TurnsGoByName` | sources/cluster-reconciler.go:100-101 | Workloads get their turns by name |
| `Reconciler.FitsIff` | sources/cluster-reconciler.go:105-109 | A node fits exactly when its free capacity is at least the weight and every entry of the selector equals the label of the node, a missing label counting as empty |
| `Reconciler.FirstGoesToTheFreest` | sources/cluster-reconciler.go:78-109 | In every plan, the first replica placed at a turn goes to a listed node that fits and whose free capacity at that turn is the greatest among those that fit |
| `Reconciler.FirstFit` | sources/cluster-reconciler.go:105-109 | The index found fits and none before it does; none is found only when no node fits |
| `Reconciler.Choose` | sources/cluster-reconciler.go:104-109 | The scan returns the first node with room and matching labels, or -1 |
| `Reconciler.PlaceAll` | sources/cluster-reconciler.go:103-113 | The replica loop over the node array places and charges like the specification, whatever the phase and message it overwrites |
| `Reconciler.Plan` | sources/cluster-reconciler.go:97-119 | The loops over array, workloads and replicas produce exactly the specified snapshot, charging only a working copy of the nodes |
| `Reconciler.ReplicasMakeGoodSegment` | sources/cluster-reconciler.go:103-113 | A workload appends the ordinals 0, 1, 2, ... on listed nodes that match its selector, and stops short of its count only when no node fits any more |
| `Reconciler.PlacedSoFar` | sources/cluster-reconciler.go:103-113 | For positive weights exactly min(count, total slots) replicas are placed, and that many slots are used up |
| `Reconciler.WeightlessPlacedSoFar` | sources/cluster-reconciler.go:103-113 | For weights of zero or less, all replicas are placed if some node fits and none otherwise |
| `Reconciler.PlanPlacesAsManyAsFit` | sources/cluster-reconciler.go:97-115 | For distinct workload names and any weights: each workload gets exactly min(replicas, room at its turn) placements, ordinals 0..k-1, on matching nodes |
| `Reconciler.PlanNeverOverloads` | sources/cluster-reconciler.go:97-118 | For distinct names and any weights, no node that receives placements exceeds its capacity |
| `Reconciler.PlanWaitsIff` | sources/cluster-reconciler.go:110-117 | No plan is ever stalled; it is waiting if and only if there are workloads and for each of them nothing is asked for or no listed node fits, and ready otherwise |
| `Reconciler.ShortPlanIsReady` | sources/cluster-reconciler.go:110-117 | A plan that finds a node for one of two replicas is ready |
| `Reconciler.PlanForgetsOrder` | sources/cluster-reconciler.go:78-84 | With distinct names, placements and phase do not depend on the order in which nodes and workloads are listed, nor on the time |
| `Reconciler.PlanIsIdempotent` | sources/cluster-reconciler.go:97-118 | Planning again from the produced snapshot changes only the time in its message |
| `SnapshotStore.MemoryStore.Read` | sources/cluster-reconciler.go:57-60 | A read returns the stored snapshot |
| `SnapshotStore.MemoryStore.Commit` | sources/cluster-reconciler.go:61-65 | A commit is accepted exactly with the next revision, modulo 2^64, and then replaces the state; otherwise nothing changes |
| `SnapshotStore.MemoryStore.Reconcile` | sources/cluster-reconciler.go:87-96 | With nobody in between, the retry loop succeeds at its first attempt and stores the plan of the old state with the next revision |
| `SnapshotStore.CommitAcceptedIff` | sources/cluster-reconciler.go:61-65 | In every interleaving a commit is accepted if and only if the number of commits since its read is a multiple of 2^64 |
| `SnapshotStore.NoLostUpdate` | sources/cluster-reconciler.go:57-96 | In every interleaving of reconcile calls, clients that read and then commit any edit, and strangers that commit blindly: the k-th snapshot has revision k modulo 2^64; a snapshot a call commits is the plan of the one it read, with its nodes and workloads, and that is the one just before it if and only if the read is less than 2^64 commits old; the same for what a client read, so nobody overwrites an edit he has not seen |
| `SnapshotStore.FewCommitsMeansSuccess` | sources/cluster-reconciler.go:87-96 | In every run in which no commit step of the call finds its context done: if the call has ended and fewer than four commits fell between its beginning and its end, it has committed, and the snapshot at that place of the history is its own |
| `SnapshotStore.RefusedCommit` | sources/cluster-reconciler.go:88-95 | A refused commit changes nothing stored; the call reads again if it has made fewer than four attempts, ends with the conflict after the fourth, and as cancelled when the context is done |
| `SnapshotStore.SpanIsHonest` | sources/cluster-reconciler.go:87-96 | Under any step, the span of a call runs from the length of the history when it began to that when it ended |
| `SnapshotStore.OpenIsNotCancelled` | sources/cluster-reconciler.go:92-94 | In every run, a call whose context is never found done does not end as cancelled |
| `SnapshotStore.CallsProgress` | sources/cluster-reconciler.go:87-96 | Every own step of an unfinished call brings it closer to its end and leaves other callers alone |
| `SnapshotStore.LatePlanOverwrites` | sources/cluster-reconciler.go:57-96 | A run past the bound: a call plans the empty store, a client commits 2^64 edits, the late plan is accepted and the nodes of the last edit are gone |
| `Orchestrator.PushCorresponds` | sources/task-orchestrator.ts:64-70 | Pushing a shared mutable record and re-sorting yields the same queue as pushing its immutable sort keys |
| `Orchestrator.TaskOrchestrator.Submit` | sources/task-orchestrator.ts:134-140 | Refused while draining; otherwise exactly one new queued record, at its place in the queue of its kind |
| `Orchestrator.TaskOrchestrator.RegisterWorker` | sources/task-orchestrator.ts:142-145 | Registering sets a fresh worker, also over an existing one |
| `Orchestrator.TaskOrchestrator.Heartbeat` | sources/task-orchestrator.ts:147-152 | Overwrites the load of a known worker with the reported value, at least zero |
| `Orchestrator.TaskOrchestrator.Lease` | sources/task-orchestrator.ts:154-171 | The result and the new state are those of the lease step; the record is handed out exactly when the worker may take from a non-empty queue |
| `Orchestrator.TaskOrchestrator.Begin` | sources/task-orchestrator.ts:173-179 | Goes through exactly for the lease owner of a leased task, and raises the right error otherwise |
| `Orchestrator.TaskOrchestrator.Complete` | sources/task-orchestrator.ts:181-187 | Goes through exactly for the owner of a live task; result, record, load and queues as in the step |
| `Orchestrator.TaskOrchestrator.Fail` | sources/task-orchestrator.ts:189-200 | Goes through exactly for the owner of a live task; dead-letters at the maximum, else queues again |
| `Orchestrator.TaskOrchestrator.ReclaimExpired` | sources/task-orchestrator.ts:202-215 | The sweep over shared records equals a run of single reclaims in creation order, releasing owners except the one with the empty name, and returns how many leases had expired |
| `Orchestrator.TaskOrchestrator.Drain` | sources/task-orchestrator.ts:217-221 | Stops intake and marks every registered worker, nothing else |
| `Orchestrator.TaskOrchestrator.Pending` | sources/task-orchestrator.ts:233 | The queue sizes sum to the pending count |
| `OrchestratorSpec.FirstNonEmpty` | sources/task-orchestrator.ts:157-160 | The queue taken from is one of the worker's and not empty; none only when all of them are empty |
| `OrchestratorSpec.LeaseTakesTheHead` | sources/task-orchestrator.ts:154-166 | In a state with the queue invariant, what a lease takes is the head of the queue, a waiting task of that kind |
| `OrchestratorSpec.LeaseTakesTheForemost` | sources/task-orchestrator.ts:64-171 | After every run: a lease by a worker that may lease, with a task waiting in one of its queues, takes from the first such queue the waiting task of the greatest priority, the oldest and first pushed among those, and marks it leased to the worker for 25 seconds with one attempt more; otherwise it changes nothing |
| `OrchestratorSpec.QueuesHoldExactlyTheWaiting` | sources/task-orchestrator.ts:64-74 | After every run, a task is in the queue of its kind exactly while it is queued or retrying, once, and in no other, with the priority and creation time of its record; of two entries the earlier has the greater priority, or the same and the smaller creation time, or the same of both and was pushed first |
| `OrchestratorSpec.PendingCountsTheWaiting` | sources/task-orchestrator.ts:233 | After every run the pending count is the number of queued or retrying tasks |
| `OrchestratorSpec.TerminalIsFinal` | sources/task-orchestrator.ts:181-200 | No run changes the record of a succeeded or failed task |
| `OrchestratorSpec.RetryLedger` | sources/task-orchestrator.ts:154-215 | After every run: attempt = lease entries in the trace = retries + reclaims + 1 unless waiting; at most three retries; attempt at most the maximum plus the reclaims; the last trace entry tells the state |
| `OrchestratorSpec.AttemptKeptIff` | sources/task-orchestrator.ts:154-166 | From at most the maximum, an operation takes the attempt of a task beyond it if and only if it leases out that task with its attempt at the maximum |
| `OrchestratorSpec.AttemptLimitIff` | sources/task-orchestrator.ts:154-214 | Over all runs: the attempt of a task is at most the maximum after every prefix if and only if no lease is ever granted on it while its attempt is at the maximum |
| `OrchestratorSpec.AttemptsAreUnbounded` | sources/task-orchestrator.ts:202-214 | For every n there is a run, a worker that lets n leases expire and leases once more, that ends with attempt n + 1; n = 4 passes the maximum |
| `OrchestratorSpec.SpareAttemptIff` | sources/task-orchestrator.ts:202-214 | Over all runs: a task never waits with its attempts used up if and only if it is never reclaimed on its last attempt |
| `OrchestratorSpec.AccountingKeptIffDisciplined` | sources/task-orchestrator.ts:142-209 | An operation keeps `active` equal to the tasks held if and only if it is no registration of a worker that holds tasks, no heartbeat with a wrong count, and no reclaim of an expired lease of the worker with the empty name |
| `OrchestratorSpec.AccountedThroughoutIff` | sources/task-orchestrator.ts:142-236 | Over all runs: load accounting holds throughout if and only if none of these operations occurs |
| `OrchestratorSpec.UndisciplinedRunsMiscount` | sources/task-orchestrator.ts:142-152 | In a run in which a worker leases a task and then sends a heartbeat of zero, or registers again, its load is zero while it holds the task |
| `OrchestratorSpec.NamelessWorkerMiscounts` | sources/task-orchestrator.ts:205-209 | In a run in which the only lease of a worker registered under the empty name expires and is reclaimed, its load stays one with nothing held |
| `OrchestratorSpec.ActiveCountsHeldTasks` | sources/task-orchestrator.ts:154-236 | In such runs `active` is the number of live tasks owned, within capacity, every live task has a registered owner, and releasing it never clips at zero |
| `OrchestratorSpec.ReclaimLeavesNoneExpired` | sources/task-orchestrator.ts:202-215 | A sweep at one time leaves no expired lease, returns every expired task to waiting without an owner, with one reclaim more, and touches no other record |
| `OrchestratorSpec.LostOwnerIsRefused` | sources/task-orchestrator.ts:173-215 | A worker that does not own a task is refused by begin, complete and fail in every continuation until it leases that very task again, whatever else it leases |
| `PageIndex.MaskGoesRound` | sources/kernel-like.c:86 | Masked 32-bit index arithmetic is counting round 64 slots |
| `PageIndex.MaskedNext` | sources/kernel-like.c:86 | The masked computation on words that push, pop and the full test use yields the next slot |
| `Pulse.PulsePage.Full` | sources/kernel-like.c:71-74 | The masked test says exactly that 63 records are held, and there are never more |
| `Pulse.PulsePage.Empty` | sources/kernel-like.c:76-79 | Equal indices say exactly that no record is held |
| `Pulse.PulsePage.Push` | sources/kernel-like.c:81-93 | Appends to the bounded queue of 63 records, across wrap-around, and refuses exactly when it is full |
| `Pulse.PulsePage.Pop` | sources/kernel-like.c:95-107 | Takes the oldest record, and refuses exactly when there is none |
| `Pulse.RingPush` | sources/kernel-like.c:86-91 | Writing at the head index and moving it on appends to the ring contents, wherever the ring stands |
| `Pulse.PulseLane.Number` | sources/kernel-like.c:229 | Sequence numbers count the accepted attempts of the lane |
| `Pulse.PulseLane.RotatePage` | sources/kernel-like.c:200-213 | A fresh empty page becomes active and the old one is last on the retired list, or nothing changes |
| `Pulse.PulseLane.PushOrRotate` | sources/kernel-like.c:242-247 | The record goes into the active page or, when that is full and a page can be had, into a fresh one, where it always fits |
| `Pulse.PulseLane.EmitLocked` | sources/kernel-like.c:236-262 | The whole lane afterwards, in all branches; after a rotation the push always fits, so -ENOSPC is never returned |
| `Pulse.PulseLane.ReclaimLane` | sources/kernel-like.c:410-426 | Exactly the retired pages with other readers stay, in order, and the records lost are those of the freed pages |
| `Pulse.DrainPage` | sources/kernel-like.c:306-321 | The drain loop terminates although invalid records use no budget, and delivers exactly the valid records among those popped, in order |
| `Pulse.PulseLane.DrainLane` | sources/kernel-like.c:297-322 | A drain touches only the active page of the lane |
| `Pulse.DrainDeliversUpToBudget` | sources/kernel-like.c:306-321 | A drain delivers min(budget, valid records of the page), and leaves records behind only when the budget is used up |
| `Pulse.ValidsSay` | sources/kernel-like.c:264-274 | A record popped is delivered exactly when its lane is below the lane count, its source is not zero and its time is not after the clock at that pop |
| `PulseRuns.RecordsAreConserved` | sources/kernel-like.c:200-426 | In every interleaving: accepted = dropped + popped + in the active page + in retired pages + lost with reclaimed pages + held by emitters between number and lock |
| `PulseRuns.SequenceNumbersDiffer` | sources/kernel-like.c:229-246 | In every interleaving the sequence numbers of all pushed records and of those that emitters hold differ, and none is zero or beyond the accepted count |
| `PulseRuns.PushedAsEmitted` | sources/kernel-like.c:229-246 | In every interleaving, time, source, lane, flags and payload of a record in the active page are together those of one emit of the run |
| `PulseRuns.PopsFollowPushes` | sources/kernel-like.c:229-322 | In every interleaving the popped stream is a subsequence of the push order without repetition |
| `PulseRuns.PopTakesTheLogged` | sources/kernel-like.c:95-107 | What a pop hands out is the record pushed at the position logged for it |
| `PulseRuns.RetiredIsNeverPopped` | sources/kernel-like.c:200-213 | Records that have left the active page, popped or with a rotated page, are never popped later |
| `PulseRuns.NothingStrandedIff` | sources/kernel-like.c:200-262 | Over all runs: every pushed record has been popped or is in the active page if and only if no emit, not throttled, found the page full and got a fresh one |
| `PulseRuns.SixtyFourEmitsStrand` | sources/kernel-like.c:200-262 | Sixty-four emits without a pop leave one record in the active page and 63 in a retired one |
| `Telemetry.SampleRing.Push` | sources/telemetry-engine.cpp:36-42 | Refused exactly with capacity zero; otherwise the oldest sample makes room when the ring is full |
| `Telemetry.SampleRing.Drain` | sources/telemetry-engine.cpp:43-51 | Takes the oldest samples, up to the limit, in order, and leaves the rest |
| `Telemetry.RingKeepsTheLatest` | sources/telemetry-engine.cpp:36-42 | After any pushes the ring holds the latest samples, as many as fit, in push order |
| `Telemetry.SamplesAreConserved` | sources/telemetry-engine.cpp:76-118 | In every run: pushes = evicted + in the ring + in batches + given to the sink; both counters lag by exactly the threads between action and increment |
| `Telemetry.DeliveredIsNowhereElse` | sources/telemetry-engine.cpp:89-118 | In every run, every sample that reached the sink is there once, and in no batch, not in the ring, not evicted and in no publisher's hand |
| `Telemetry.NothingIsDeliveredTwice` | sources/telemetry-engine.cpp:89-118 | In every run, samples at different places of the sink have different numbers |
| `Telemetry.EveryNumberHasItsPlace` | sources/telemetry-engine.cpp:89-118 | In every run with room in the ring, every sequence number handed out, from one on without a gap, is in exactly one place: in hand, in the ring, evicted, in a batch or at the sink |
| `Telemetry.OneWorkerDeliversInOrder` | sources/telemetry-engine.cpp:89-118 | In every run with one worker, however many publishers there are and whatever is evicted, the samples at the sink are a subsequence of the pushed ones, in their order |
| `Telemetry.TwoWorkersMayOvertake` | sources/telemetry-engine.cpp:103-118 | With two workers there is a run, for every capacity, that delivers two samples in the wrong order |
| `Telemetry.DeliveredAsPublished` | sources/telemetry-engine.cpp:89-118 | In every run, name, value and labels of a delivered sample are together those of one publish call |
| `Telemetry.BatchesOfThirtyTwo` | sources/telemetry-engine.cpp:104-107 | A worker takes the oldest 32 samples, or all when there are fewer, and idles exactly when there is none |
| `Telemetry.CleanStopDeliversEverything` | sources/telemetry-engine.cpp:82-88 | With a worker and no publisher past its check when the flag was cleared: when `stop` returns the ring and all batches are empty and every published sample was evicted or delivered |
| `Telemetry.CleanStopTerminates` | sources/telemetry-engine.cpp:82-118 | While a clean stop waits, every worker step shortens the ring or brings the workers closer to leaving, nothing else changes the engine, and `stop` returns exactly when all have left |
| `Telemetry.StopMayLeaveASampleIff` | sources/telemetry-engine.cpp:82-98 | In every run with a worker and room in the ring: `stop` may return with a sample left behind if and only if some publisher was past its running check, and had not pushed, when the flag was cleared |
| `Telemetry.LatePublisherRun` | sources/telemetry-engine.cpp:82-98 | For every capacity and every published sample there is such a run: one worker is started and a publisher has only checked when the flag is cleared |
| `PipelineSpec.ToInt32` | sources/EventPipeline.java:123 | 32-bit wrap-around: the result is in range and congruent |
| `PipelineSpec.RouteFailsIff` | sources/EventPipeline.java:122-127 | Routing raises if and only if the key hashes to the least 32-bit value and the number of partitions does not divide it |
| `PipelineSpec.LeastHashRaises` | sources/EventPipeline.java:122-127 | The key `I<F;H@` is accepted by validation, hashes to the least 32-bit value, and raises with the three initial partitions |
| `EventPipeline.Partition.Stage` | sources/EventPipeline.java:197-199 | The signal goes to the back of the lane at the cursor, which moves on |
| `EventPipeline.Partition.FlushReady` | sources/EventPipeline.java:200-207 | One pass over the lanes, with the depth of the moment, gives the specified lanes and signals |
| `EventPipeline.StagedIsFlushedAtOnce` | sources/EventPipeline.java:197-207 | For every lane count and cursor, a signal staged into an empty partition is flushed at once and leaves it empty |
| `EventPipeline.EqualDepthsStay` | sources/EventPipeline.java:124-125 | The sort by depth leaves equally deep partitions in registration order |
| `EventPipeline.EventPipeline.ChoosePartition` | sources/EventPipeline.java:122-127 | Since all partitions are empty, the choice depends on the registration order and the hash of the key only |
| `EventPipeline.EventPipeline.Accept` | sources/EventPipeline.java:62-75 | Rejected, raised or queued for its partition, with the counters, as the step says |
| `EventPipeline.EventPipeline.PassThrough` | sources/EventPipeline.java:89-91 | Staging and flushing between operations returns exactly the staged signal and leaves every partition empty |
| `EventPipeline.EventPipeline.RegisterPartition` | sources/EventPipeline.java:46-52 | Refuses a blank name or no lane; a known name keeps its place |
| `EventPipeline.EventPipeline.SubscribeTo` | sources/EventPipeline.java:54-60 | Refuses a blank topic; otherwise later signals of the topic count as observed |
| `EventPipeline.EventPipeline.Drain` | sources/EventPipeline.java:77-100 | The two loops equal a run of single drains, keep all partitions empty, and the report counts what was visited, delivered and left; with a budget of one, a signal on time is delivered exactly if it is not marked discard=true |
| `PipelineSpec.VerdictSays` | sources/EventPipeline.java:112-127 | The checks in order, in terms of topic, key, field count and field names, and then the partition, or the failure, that the hash of the key and the number of partitions give |
| `PipelineSpec.AcceptSays` | sources/EventPipeline.java:62-75 | An accepted signal goes unchanged to the back of the inbox for its partition; a rejected one is counted, and one that cannot be routed leaves no trace |
| `PipelineSpec.RegisterAndSubscribeSay` | sources/EventPipeline.java:46-60 | A new partition comes last in the order that routing uses, and a topic is added to those observed |
| `PipelineSpec.DrainOneSays` | sources/EventPipeline.java:81-98 | One drained signal: late and nothing else if its time is before the watermark; else the watermark moves to its time and it is filtered if its field discard is true, and emitted once, with its fields completed, in every other case |
| `PipelineSpec.AcceptedIsAccountedFor` | sources/EventPipeline.java:62-100 | For every run: accepted = queued + late + filtered + emitted, and the watermark never decreases |
| `PipelineSpec.LateAreTheOvertaken` | sources/EventPipeline.java:84-97 | For every run and every clock: the late signals are exactly those drained after one with a later time; of the other drained signals, those marked discard=true are the filtered ones and the rest, completed by their phase, are the emitted stream, both in acceptance order |
| `PipelineSpec.NothingIsLateIff` | sources/EventPipeline.java:84-88 | Nothing has been late if and only if the signals were drained in the order of their times |
| `PipelineSpec.NothingIsLate` | sources/EventPipeline.java:62-100 | With a clock that never goes back nothing is ever late, and the emitted stream is the drained signals not discarded, in acceptance order |
| `PipelineSpec.DrainSplits` | sources/EventPipeline.java:77-100 | Draining a and then b is draining a + b, for positive budgets |
| `PipelineSpec.RoutingIsStable` | sources/EventPipeline.java:122-127 | While no new partition name is registered, equal keys go to the same partition, whatever is accepted and drained in between |
| `Limiter.SlidingWindowLimiter.Check` | sources/request-router.php:75-83 | Response and new stamps are those of the pruned step, also for unknown keys |
| `Limiter.FullResponseSays` | sources/request-router.php:75-83 | The reference counts every admission of the key after the cutoff; it admits below the limit, and the remaining count includes the call just admitted |
| `Limiter.SurvivorsIff` | sources/request-router.php:77-81 | For every run and clock: seen from a cutoff on, the stamps that survive are all admissions if and only if no admission after the cutoff was pruned by a later call on its key |
| `Limiter.StampsSurvive` | sources/request-router.php:77-81 | The stored stamps are these survivors |
| `Limiter.NextAgreesIff` | sources/request-router.php:75-83 | After a run on which the pruned and the full limiter agreed, they answer the next call alike if and only if no admission in its window was pruned too soon, or the surviving ones fill the limit anyway |
| `Limiter.AgreedIff` | sources/request-router.php:75-83 | For every run and clock, and limits and windows that may change from call to call: they answer every call alike if and only if that holds at every call |
| `Limiter.PrunedDecidesLikeFull` | sources/request-router.php:75-83 | When cutoffs never go back, as for non-decreasing times and a fixed window, the pruned list answers every call as counting over every admission ever made, whatever the limits |
| `Limiter.SameLogs` | sources/request-router.php:75-83 | On runs on which they agree, the full history consists of exactly the calls that the pruned limiter admitted |
| `Limiter.ClockGoingBackDiffers` | sources/request-router.php:77-81 | With a clock that goes back the pruned list can admit a call that the full history denies |
| `Limiter.AtMostLimitPerWindow` | sources/request-router.php:75-83 | On every run on which the two agree, with one limit and one window, the limiter itself admits at most `limit` calls per key in every half-open interval of the window's length |
| `CoordinatorSpec.SelectIsBest` | sources/CommandCoordinator.cs:125-132 | The selected node is eligible and has the least load, then the least id, among the eligible ones; none is selected exactly when none is eligible |
| `CoordinatorSpec.SelectedIsLeastLoaded` | sources/CommandCoordinator.cs:125-132 | In terms of status, role, capabilities and load: the selected node can serve the request, and every other node that can has a greater load, or the same and a greater id; none is selected only when none can |
| `CoordinatorSpec.AdmissionSays` | sources/CommandCoordinator.cs:55-67 | The checks of a dispatch in order, each in terms of the request and the leases |
| `CoordinatorSpec.ResumeEffect` | sources/CommandCoordinator.cs:78-99 | The end of a dispatch makes its object ready, lowers its load by one but not below zero, drops the lease of its command, and logs one event an action up to the cancellation and one for that |
| `CoordinatorSpec.ComparingSelects` | sources/CommandCoordinator.cs:125-132 | Comparing the nodes one by one, in any order, selects that node |
| `Coordinator.CommandCoordinator.Log` | sources/CommandCoordinator.cs:134-140 | Appends the next numbered event and keeps the last 1024 |
| `Coordinator.CommandCoordinator.AddNode` | sources/CommandCoordinator.cs:29-40 | Refuses a bad or known id; otherwise one ready node without load |
| `Coordinator.CommandCoordinator.RemoveNode` | sources/CommandCoordinator.cs:42-48 | Removes the node and every lease on it; the object stays with a dispatch that holds it |
| `Coordinator.CommandCoordinator.SelectNode` | sources/CommandCoordinator.cs:125-132 | The scan over the node objects returns the selected node of the state |
| `Coordinator.CommandCoordinator.DispatchStart` | sources/CommandCoordinator.cs:55-77 | The checks in order, then reservation, lease and event; a cancelled token ends the dispatch at once through the same cleanup |
| `Coordinator.CommandCoordinator.DispatchResume` | sources/CommandCoordinator.cs:78-100 | Acknowledges up to the cancellation, releases the object it holds and drops the lease, on both ways out |
| `Coordinator.CommandCoordinator.ReapExpiredLeases` | sources/CommandCoordinator.cs:102-116 | Reaps exactly the expired leases, once each, and returns their number |
| `CoordinatorSpec.ResumeSettles` | sources/CommandCoordinator.cs:78-99 | However a dispatch ends, the state but for the journal is that of its cleanup |
| `CoordinatorSpec.LeasesNameNodes` | sources/CommandCoordinator.cs:29-140 | In every interleaving each lease names a registered node, and the journal is the last min(n, 1024) of n contiguously numbered events |
| `CoordinatorSpec.StepKeepsLoadsIff` | sources/CommandCoordinator.cs:29-116 | An operation keeps every registered node's load equal to its lease count, at most one, and one exactly when reserved, if and only if it is not the end of a dispatch whose command is leased on another object, or has no lease while its object is registered with load one |
| `CoordinatorSpec.LoadsRightThroughoutIff` | sources/CommandCoordinator.cs:29-116 | Over all runs: the loads are right throughout if and only if no dispatch ends that way |
| `CoordinatorSpec.ReapedRunMiscounts` | sources/CommandCoordinator.cs:55-116 | For all names: after add, dispatch, reap, second dispatch and the end of the first, a ready node without load has a lease |
| `CoordinatorSpec.RemovedRunMiscounts` | sources/CommandCoordinator.cs:42-100 | For all names: after add, dispatch, removal, add, the same dispatch and the end of the first, a reserved node with load one has no lease |
| `CoordinatorSpec.StepMatchesIff` | sources/CommandCoordinator.cs:42-116 | An operation keeps every dispatch in flight in possession of its lease on its registered node, and the loads right, if and only if it removes no leased node and reaps no lease |
| `CoordinatorSpec.InStepThroughoutIff` | sources/CommandCoordinator.cs:42-116 | Over all runs: dispatches keep their leases and nodes, and the loads are right, throughout if and only if no leased node is removed and no lease is reaped |
| `CoordinatorSpec.LoadCountsLeases` | sources/CommandCoordinator.cs:55-100 | In such runs a node's load is its lease count, at most one, one exactly when it is reserved, and the leases are exactly those of the dispatches in flight |
| `CoordinatorSpec.ReapUnderDispatchMiscounts` | sources/CommandCoordinator.cs:95-114 | When the lease of a dispatch in flight is reaped and its node given to another command, the first dispatch ends by releasing the node under the second one's lease |

## Left out

- QML windows, panels, timers, focus, IPC, file loading, shell and theme services: user interface and I/O over libraries that are not part of this model.
- `HackerTyperModel.js`, `SourceCatalog.js` and the Alt and Caps counters: index clamping and a static list, easy members only.
- `sources/packet-engine.rs`, `sources/async-observer.py`, `sources/deploy-coordinator.rb`, `sources/workspace-rules.lua`: simpler forms of the buffers, counters and rule loops that are modelled.
- `sources/fleet-bootstrap.sh` and `sources/telemetry-lab.sql`: host commands and queries without state of their own.
- Route patterns, response cache and handlers of `sources/request-router.php`: thin code over PCRE; only the limiter is modelled.
- SyntaxHighlight.BuildScanner: the pattern is a syntax tree, not the text handed to the engine's parser; only the escaping of openers and delimiters is related to text, by `EscapedTextIsLiteral`.
- Tokenizer.Highlighter.Tokenize: texts are sequences of characters rather than UTF-16 code units, and the stray property that a lookup by an inherited name writes on a built-in object is not modelled.
- Markup.MarkupRoundTrip: assumes that the theme's muted colour, which is not escaped, holds no `>`.
- Reconciler.Plan: integers are unbounded, `sort.Slice` is taken as stable (which matters only for equal names), and `Summary` and the formatting of times are left out.
- SnapshotStore.MemoryStore.Commit: the copies made by `cloneSnapshot` are values here, so aliasing of label maps is not captured; the store has no errors of its own besides the conflict.
- Orchestrator.TaskOrchestrator.Submit: task bodies, the journal, the shard choice and the `orchestrator-` prefix of task names are left out; priorities and times are integers; records that callers mutate from outside are not modelled.
- Orchestrator.TaskOrchestrator.ReclaimExpired: one clock reading serves the whole sweep; runs of single reclaims allow one per task.
- Pulse: memory ordering, interrupt state, RCU, wake-ups and watermarks, lane selection, dispatch routes, domain reference counts and the 64-bit wrap of the counters are left out.
- PulseRuns.RecordsAreConserved: one reclaimer per lane, whose loop is a run of steps that each unlink any one retired page; with two of them the saved next pointer of the original would not be safe.
- Pulse.PulsePage.Push: an index is a number below 64 between operations; the masked addition is done on its 32-bit word.
- Pulse.PulseLane.DrainLane: proved with nobody pushing in between; drains among pushes are the single pops of `PulseRuns`.
- Telemetry: relaxed atomics are sequentially consistent steps, condition variables only delay, and formatting and observation times are left out; start and stop come from one owner.
- EventPipeline.EventPipeline.Drain: the field holding a signal's age is set aside, listeners neither call back nor raise, the trace log is left out, and the lane cursor does not overflow.
- PipelineSpec.RouteFailsIff: keys and topics are sequences of characters; for characters outside the basic plane the program hashes and counts two code units each.
- EventPipeline.EventPipeline.Accept: the length limit on topics counts characters, as above.
- Limiter.SlidingWindowLimiter.Check: integers are unbounded.
- Coordinator.CommandCoordinator.DispatchStart: command ids with letters or digits outside ASCII are refused here and accepted by the program.
- Coordinator.CommandCoordinator.AddNode: identifiers with letters or digits outside ASCII are refused here and accepted by the program, and capabilities are names already folded to one case and filtered.
- Coordinator.CommandCoordinator.DispatchResume: the code between two awaits runs without interruption; event times, details and metadata are left out.
- Coordinator.CommandCoordinator.ReapExpiredLeases: one clock reading serves the sweep, and the order of the reaped leases is any order.
