# sendword: a verified model of the execution barriers, the log masker and the text codecs

sendword runs a command when a webhook fires. This project models the parts of it in which several
operations have to agree with each other, and proves what they keep together.

**Execution barriers.** A hook may allow one execution at a time (`mutex`) or line further ones up (`queue`),
and may ask for approval. The lock table, the queue table and the execution rows are changed by the trigger
handler, the running task and its retries, the completion handler, approvals, rejections, the expiry sweep and
the recovery after a crash. There are two models over the same statements (`Database`):

- `Server` takes each handler as one step; `Fifo`, `Drain`, `Sweep` and `Lifecycle` prove order, depth, progress and what the
  rows store.
- `Interleaving` takes one SQL statement of one actor as a step, with a crash possible between any two;
  `Exclusion`, `Statements`, `Recovery`, `Barrier` and `Results` prove mutual exclusion, the approval gate and what the rows store.
  `Solo` proves that a handler whose statements are not interrupted does what its one step does in `Server`.
  `LostHandOver` runs what the barrier does not guarantee at this granularity; `Stranded` and `Overrun` say exactly which
  steps, crashes included, are responsible.

**The live log.** `Masking` is the batch masker, `LogStream` the streaming one, which buffers text and picks a cut
that splits no secret. The stream is proved equal to the batch form for every way of chunking a text, and `StreamExact`
says for exactly which secrets. `Html` escapes what is sent, with a decoder that undoes it.

**Limits and retries.** `RateLimit` (fixed-window counter with a sweep that deletes rows), `Retry` (the retry loop over the
status rows of the barrier, and the backoff arithmetic).

**Texts.** `Shell` and `Placeholders` (quoting and interpolation against a lexer that follows the POSIX Shell Command Language,
sections 2.2 and 2.3, and which texts are placeholders), `Flatten` and `Json` (environment variables from a payload against dotted-path lookup), `Durations`,
`FormText` and `HookForm` (the textareas of the hook form, printed and parsed).

Operations that change state in place in the program are classes and methods here (`Database.Store`, `Server.App`,
`LogStream.LogStreamMasker`, `RateLimit.RateLimiter`, `Flatten.Collector`); each method's contract gives its whole new
state as a function of the old one, and the theorems are about runs of those functions.

`dafny verify dfyconfig.toml` checks the project.

## Where the promises of the original do not hold

- The code says of the sweep's expiry that only a pending approval is affected
  (`src/models/execution.rs:465`), but a row approved between the list and its turn is still followed up.
  `Sweep.SweepRowExact` says exactly when that is harmless, `Sweep.LateSweepRunsTwo` runs two executions of a mutex hook.
- Statement by statement, an execution can wait without a holder. A completion can drop the lock behind an enqueue
  (`LostHandOver.WaitsWithoutHolder`), and the recovery takes the lock from the holder and leaves those who wait
  (`LostHandOver.CrashStrands`). `Stranded.StrandsExact` says for every step exactly when, `Stranded.ServedExact` for whole runs.
- Such an execution is overtaken by the next trigger (`LostHandOver.NextTriggerOvertakes`); `Stranded.OvertakesExact` says that
  nothing else overtakes.
- Statement by statement, more executions can wait than `queue_depth` (`LostHandOver.DepthOverrun`), because the count is not taken again
  before the enqueue. `Overrun.OverrunsExact` and `Overrun.DepthExact` are the exact conditions.
- Masking does not remove every secret that contains the mask character. `Masking.SafeSecretExact` says exactly which secrets
  can never survive.
- The live stream and the batch form can differ for such secrets (`LogStream.StarredSecretDiffers`). `StreamExact.StreamAgreesExact`
  says exactly which secrets may be masked after another one.
- The website promises a token bucket (`website/_data/docs.yaml:675`); the code counts per aligned window. An
  interval of one window length can allow twice the limit (`RateLimit.SlidingReached`), and no more where the sweep does no harm (`RateLimit.SlidingBound`);
  the limit holds for such intervals if and only if the window is one second or nothing is allowed (`RateLimit.SlidingExact`).
- The sweep breaks the limit for windows longer than its time to live plus one second: `RateLimit.LimitExact`.
- The website gives the exponential delay without a cap on the exponent (`website/_data/docs.yaml:896`); the code caps it at 31:
  `Retry.DocumentedExponential`.
- The website says that a mutex lines requests up (`website/_data/docs.yaml:927`); the code rejects them, and so does the model.

## Model

| member | source | states |
|---|---|---|
| Database.Store.TryAcquireLock | src/barriers/execution_lock.rs:8-20 | the lock row is inserted and true returned if the hook had none; otherwise nothing changes |
| Database.Store.ReleaseLock | src/barriers/execution_lock.rs:23-29 | only the hook's lock row disappears |
| Database.Store.HandOffLock | src/barriers/execution_lock.rs:34-43 | an existing lock row gets the new holder in place; a missing one is not created |
| Database.Store.GetHolder | src/barriers/execution_lock.rs:46-53 | the holder if the hook is locked, and none exactly if it is not |
| Database.Store.EnqueueExecution | src/barriers/execution_queue.rs:19-43 | a waiting row is appended with the greatest position plus one, which is returned |
| Database.Store.MarkEntryReady | src/barriers/execution_queue.rs:69-75 | the one waiting row becomes ready |
| Database.Store.ExpireEntryFor | src/barriers/execution_queue.rs:89-98 | waiting rows of the execution, in any queue, become expired, nothing else changes |
| Database.PeekNext | src/barriers/execution_queue.rs:47-66 | a waiting row of least position, and none exactly if no row waits |
| Database.Store.CreateExecution | src/models/execution.rs:87-112 | a fresh row with the given status; a used id is refused |
| Database.Store.TransitionExecution | src/models/execution.rs:129-149 | only a row in the expected status moves, and the caller learns whether it did |
| Database.Store.CompleteExecution | src/models/execution.rs:152-178 | only a running row ends, with its status and exit code |
| Database.Store.IncrementRetries | src/models/execution.rs:200-206 | the retry counter of the row grows by one |
| Database.Store.ResetExecution | src/retry.rs:144-156 | the row becomes pending without an exit code, whatever its status was |
| Database.Store.Recover | src/barriers/mod.rs:209-260 | the three recovery statements, one after the other |
| QueueShape.EnqueueKeepsShape | src/barriers/execution_queue.rs:19-43 | with positions 1..n and waiting rows last, the new row gets position n+1 and joins the end of the line |
| QueueShape.PeekIsSplit | src/barriers/execution_queue.rs:47-66 | the row found is the first of the waiting suffix |
| QueueShape.ReadyKeepsShape | src/barriers/execution_queue.rs:69-75 | marking that row ready takes exactly the head off the line and keeps the shape |
| Server.App.Complete | src/barriers/mod.rs:36-101 | the handler's whole effect: release, or hand over, mark ready, and ask for approval or spawn |
| Server.App.TriggerHook | src/routes/hooks.rs:328-503 | admit, line up or refuse, with the outcome told to the caller |
| Server.App.RunStart | src/executor/shell.rs:16-60 | the task starts its command only from a pending row with log files |
| Server.App.RunExit | src/executor/shell.rs:150-169 | the command's end is stored with its status and exit code, and the task retries or finishes (`Lifecycle.ExitStores` says how in columns) |
| Server.App.RunRetry | src/retry.rs:121-137 | the retry is counted and the row reset before the next start |
| Server.App.RunComplete | src/barriers/mod.rs:123-204 | a finished task calls the completion handler if its hook has a lock |
| Server.App.ApproveExecution | src/routes/executions.rs:501-589 | only an execution that awaits approval becomes pending with a task |
| Server.App.RejectExecution | src/routes/executions.rs:592-626 | only an execution that awaits approval is rejected; its entry expires and, if it is the holder, the lock moves on |
| Server.App.SweepExecution | src/tasks.rs:67-94 | the work on one listed row as written: expire it if it still awaits approval, then expire its entry and pass on a held lock in any case |
| Server.App.ExpirePending | src/tasks.rs:35-97 | an execution that awaits approval on a hook with an approval timeout is listed and worked on; any other is left alone (when the timeout has run out is an input) |
| Lifecycle.StartRuns | src/models/execution.rs:129-149 | a task that is ready marks its pending row running and runs; with a row that moved on or without log files it ends and the row stays |
| Lifecycle.ExitStores | src/executor/shell.rs:150-169 | the row gets exactly the status and exit code of the command's end; the task retries if and only if it failed with an exit code and its attempts are fewer than the hook's retries |
| Lifecycle.RetryResets | src/retry.rs:119-137 | a retry adds one to the counter and makes the row pending without an exit code |
| Lifecycle.ApproveSpawns | src/routes/executions.rs:508-589 | only an execution that awaits approval is approved: it becomes pending with a first attempt, and no other column, row or task changes |
| Lifecycle.RefusalStores | src/routes/executions.rs:592-626 | only an execution that awaits approval is refused: rejected, or expired on a hook with an approval timeout, its other columns unchanged |
| Lifecycle.CompleteKeepsRow | src/barriers/mod.rs:36-101 | the end of a task removes the task and leaves its row alone |
| Lifecycle.StoredResult | src/models/execution.rs:152-178 | after any run a row stores exactly the result of the execution's last exit, or none if it was not run since it was created or retried; its counter counts its retries, which never exceed the hook's |
| Fifo.StepPreserves | src/barriers/mod.rs:36-101 | every handler keeps the invariant that ties lock, queue, tasks and logs together |
| Fifo.FirstInFirstOut | src/barriers/concurrency.rs:12-86 | after any run, the admitted executions are the finished ones, then the holder, then the waiting ones in position order, each once; without a holder nothing waits; whatever ran started in order of admission |
| Fifo.QueueDepthBound | src/barriers/concurrency.rs:41-77 | after any run at most queue_depth executions wait, positions are 1..n with waiting rows last, and a mutex hook has no rows |
| Fifo.TriggerOutcome | src/barriers/concurrency.rs:12-86 | from a reachable state: lined up last with the next position exactly if the lock is held and fewer than queue_depth wait, refused without a trace exactly if it is held and that is not so, otherwise admitted with the lock, to a task or to approval |
| Fifo.GiveUpPreserves | src/barriers/mod.rs:36-101 | the completion handler restores the invariant from a state in which the holder's turn is over |
| Fifo.WithdrawPreserves | src/routes/executions.rs:592-626 | rejection or expiry of an execution that awaits approval keeps the invariant |
| Fifo.ExpireIsIdle | src/barriers/execution_queue.rs:89-98 | in a consistent state expiring the entry of an execution past pending changes no row |
| Drain.DrainByTurns | src/barriers/mod.rs:36-101 | over any run without a trigger of the hook, held plus waiting shrinks by exactly the number of turns that ended; the lock is free and the queue empty exactly when that number reaches the load |
| Drain.TurnEnds | src/barriers/mod.rs:54-99 | each completion, rejection or expiry of the holder lowers the load by exactly one and serves the first in line |
| Drain.CanDrain | src/barriers/mod.rs:36-101 | from every reachable state at most three steps per waiting or holding execution, none a trigger, empty the line |
| Sweep.SweepRowExact | src/tasks.rs:66-94 | the sweep's work on a row keeps the barrier's invariant if and only if the row still awaits approval, or its execution neither holds the lock nor waits |
| Sweep.LateSweepRunsTwo | src/models/execution.rs:465-477 | a run in which a row approved after it was listed leads to two running executions of one mutex hook |
| Statements.TriggerPreserves | src/barriers/concurrency.rs:12-86 | each statement of the trigger keeps the statement-level invariant |
| Statements.RunPreserves | src/retry.rs:80-156 | each statement of a run and its retries keeps it |
| Statements.CompletionPreserves | src/barriers/mod.rs:54-99 | each statement of the completion handler keeps it, under interference by all others |
| Statements.DecisionPreserves | src/routes/executions.rs:508-626 | each statement of an approval, a rejection or an expiry keeps it |
| Statements.ExpireChangesNothing | src/barriers/execution_queue.rs:89-98 | in a reachable world expiring an entry of an execution past pending changes no row |
| Recovery.CrashPreserves | src/barriers/mod.rs:209-260 | a crash at any point followed by the recovery keeps the invariant |
| Recovery.RecoveryIdempotent | src/barriers/mod.rs:209-260 | recovering after a recovery that was cut short after any number of statements gives what one recovery gives |
| Recovery.RecoveryRepairs | src/barriers/mod.rs:209-260 | afterwards what was running is failed with its other columns unchanged, every other row is as before, no lock names a terminal execution, and exactly the other locks stay with their holders |
| Recovery.RecoveryKeepsQueue | src/barriers/mod.rs:244-258 | in a reachable world the recovery changes no queue row, so order and content of the line survive |
| Barrier.MutualExclusion | src/barriers/execution_lock.rs:8-43 | after any run of statements and crashes, every execution of a locking hook that is running, approved, awaiting approval or about to be run by a task is the one in the lock row, so there is at most one, and at most one task |
| Barrier.QueueTable | migrations/20260412000005_create_execution_barriers.sql:7-16 | after any such run positions are 1..n, ready rows first, no execution twice, and whoever waits is pending and never ran |
| Barrier.ApprovalGate | src/routes/hooks.rs:396-430 | whatever ever ran under a hook that requires approval was approved, whether it entered directly or through the queue; what is rejected or expired never ran |
| Barrier.RefusalIsFinal | src/models/execution.rs:444-477 | a rejected or expired execution keeps its status over every continuation and never runs |
| Barrier.RunKeeps | src/barriers/mod.rs:36-260 | every run of statements and crashes keeps the invariant |
| Results.FinishStores | src/executor/shell.rs:150-169 | the statement that ends a command stores exactly its status and exit code, and the actor goes on to a retry if and only if it failed with an exit code and attempts are left |
| Results.StoredResult | src/models/execution.rs:152-178 | after any run of statements and crashes a row stores exactly the result of the last finish, the failure that a recovery gave it, or none |
| Solo.TriggerSolo | src/barriers/concurrency.rs:12-86 | the statements of a trigger, uninterrupted, do to the database and to the task what the trigger handler does |
| Solo.CompletionSolo | src/barriers/mod.rs:36-101 | the same for a completion |
| Solo.StartSolo | src/models/execution.rs:129-149 | the same for the start of a command |
| Solo.ExitSolo | src/retry.rs:88-95 | the same for the end of a command |
| Solo.RetrySolo | src/retry.rs:119-137 | the same for a retry |
| Solo.ApproveSolo | src/routes/executions.rs:508-589 | the same for an approval |
| Solo.RefuseSolo | src/routes/executions.rs:592-626 | the same for a rejection and an expiry, the hand-over of a held lock included |
| LostHandOver.WaitsWithoutHolder | src/barriers/mod.rs:55-63 | a run of statements after which an execution waits, the lock is free and nobody is left to serve it |
| LostHandOver.NextTriggerOvertakes | src/barriers/concurrency.rs:41-68 | its continuation, in which the next trigger takes the lock in front of the execution that waits |
| LostHandOver.CrashStrands | src/barriers/mod.rs:209-260 | a run with a crash after which an execution waits, pending, the lock is free and nobody is left to serve it |
| LostHandOver.DepthOverrun | src/barriers/concurrency.rs:52-68 | a run after which two executions wait at queue depth one |
| Stranded.StrandsExact | src/barriers/concurrency.rs:41-68 | while nobody waits without a holder, a step, crash or not, keeps it so if and only if it neither drops the lock while somebody waits, nor enqueues while the lock is free, nor is a crash that finds the holder running or ended while somebody waits |
| Stranded.ServedExact | src/barriers/mod.rs:36-260 | over a whole run, whoever waits has a holder throughout if and only if no step of the run is one of these |
| Stranded.OvertakesExact | src/barriers/execution_lock.rs:8-20 | the lock goes to an execution that is not the first in line if and only if a trigger finds it free while somebody waits; never while whoever waits has a holder |
| Stranded.CrashTakes | src/barriers/mod.rs:209-260 | a crash keeps the queue and takes the lock exactly from a holder that was running or has ended |
| Overrun.OverrunsExact | src/barriers/concurrency.rs:52-68 | while no more executions wait than queue_depth, a step keeps it so if and only if it is not an enqueue in a full queue |
| Overrun.DepthExact | src/barriers/concurrency.rs:52-68 | over a whole run, crashes included, the depth is respected throughout if and only if nobody enqueues in a full queue |
| Masking.MaskSecrets | src/masking.rs:57-88 | the loop computes the secrets' replacements one after the other; no value that a configured name stands for is left, if it is free of the mask character or quiet |
| Masking.SecretOfName | src/masking.rs:68-77 | a name stands for the hook's value if the hook sets it, empty or not, and else for the server's; an empty or missing value is no secret |
| Masking.SecretsInOrder | src/masking.rs:68-80 | the secrets of the first names come before those of the next |
| Masking.SecretsExact | src/masking.rs:68-80 | the secrets are exactly the values that the configured names stand for |
| Masking.ReplaceLeftmost | src/masking.rs:79 | up to the leftmost occurrence the text stays, there it is three stars, and the rest is masked in turn |
| Masking.NoSecretSurvives | src/masking.rs:66-80 | the masked text contains no secret without the mask character, however secrets overlap, nest or follow each other |
| Masking.SafeSecretExact | src/masking.rs:66-80 | a secret survives in no text and beside no other secrets if and only if it has no star at either end and no mask inside |
| Masking.NothingNewOccurs | src/masking.rs:66-80 | what occurs in the masked text, holding no mask and no star at its ends, occurred before and is no secret |
| Masking.CleanTextUnchanged | src/masking.rs:66-80 | a text without any secret is unchanged |
| Html.HtmlEscape | src/routes/executions.rs:40-52 | the output holds no angle bracket and no quotation mark, each ampersand begins one of the four entities, and decoding it gives the text |
| Html.EscapeIsSafe | src/routes/executions.rs:40-52 | the same for the escaped form of every text |
| Html.UnescapeOfEscape | src/routes/executions.rs:40-52 | replacing each entity by its character gives the text back |
| Html.EscapeConcat | src/routes/executions.rs:40-52 | escaping distributes over concatenation |
| LogStream.MaskAndEscapeLog | src/routes/executions.rs:54-77 | the batch form: mask, then escape |
| LogStream.EmitPrefixLen | src/routes/executions.rs:260-274 | the length of the text without its last tail characters |
| LogStream.AdjustEmitLen | src/routes/executions.rs:240-258 | exactly the longest proper prefix of a secret that ends the text is taken off |
| LogStream.SafeEmitPrefixLen | src/routes/executions.rs:224-238 | terminates with the greatest cut at or below the limit at which the text ends in no proper prefix of any secret |
| LogStream.NothingStraddles | src/routes/executions.rs:224-258 | no occurrence of a secret, in any continuation, straddles such a cut |
| LogStream.SendsAllButTail | src/routes/executions.rs:79-85 | if no proper prefix of a secret ends the text before its last characters, as many as the longest secret has, exactly these are kept back |
| LogStream.LogStreamMasker.Push | src/routes/executions.rs:122-138 | emits the masked text up to the cut, if any, and keeps the rest |
| LogStream.LogStreamMasker.Flush | src/routes/executions.rs:140-151 | emits the rest, if any, and empties the buffer |
| LogStream.ReplaceSplits | src/masking.rs:66-80 | masking one secret distributes over a clean cut |
| LogStream.MaskSplits | src/masking.rs:66-80 | masking all secrets in sequence distributes over a clean cut |
| LogStream.StreamEqualsBatch | src/routes/executions.rs:104-152 | for every way of cutting a text into pushes followed by a flush, the joined events equal the masked and escaped text, when every secret but the first one masked is harmless: the mask itself, a single character, or without a star at its start and a mask before its last character |
| LogStream.StarFreeStream | src/routes/executions.rs:104-152 | in particular for all secrets without the mask character |
| StreamExact.StreamAgreesExact | src/routes/executions.rs:104-152 | stream and batch agree for a secret, whatever other secret is masked before it and however the text arrives, if and only if it is harmless |
| StreamExact.Differs | src/routes/executions.rs:224-258 | a text on which they differ, for every secret that another secret's mask can put together across the cut |
| Html.EscapeInjective | src/routes/executions.rs:40-52 | texts with the same escaped form are the same |
| LogStream.StreamLog | src/routes/executions.rs:748-803 | the loop that pushes and flushes sends what the pushes emit and then the masked rest, which for harmless later secrets is the batch form |
| LogStream.StarredSecretDiffers | src/routes/executions.rs:104-152 | two secrets, one beginning with the mask character, for which stream and batch differ |
| RateLimit.RateLimiter.Evaluate | src/trigger_rules/rate_limit.rs:17-70 | the counter of the aligned window is inserted or incremented and the request allowed exactly if it was below the limit |
| RateLimit.RateLimiter.Sweep | src/tasks.rs:103-133 | exactly the counters older than the time to live are deleted |
| RateLimit.WindowAligned | src/trigger_rules/rate_limit.rs:23-25 | the window of a time starts at the multiple of the configured length, at least one second, at or before it |
| RateLimit.WindowLimit | src/trigger_rules/rate_limit.rs:23-53 | over any run with sweeps, every aligned window of at most 48 hours and a second allows exactly the lesser of its requests and the configured count, and nothing if the count is 2^63 or more |
| RateLimit.FirstRequest | src/trigger_rules/rate_limit.rs:42-48 | on an empty table a request is allowed exactly if the configured count is from 1 to 2^63 - 1 |
| RateLimit.SlidingBound | src/trigger_rules/rate_limit.rs:23-53 | any interval of one window length allows at most twice the limit, for windows the sweep leaves alone |
| RateLimit.SlidingReached | src/trigger_rules/rate_limit.rs:23-53 | for every window above one second, a run and an interval of that length with exactly twice the limit |
| RateLimit.SlidingExact | src/trigger_rules/rate_limit.rs:23-53 | no interval of one window length exceeds the limit, over all runs, if and only if the window is at most one second, the count is zero, or it is 2^63 or more |
| RateLimit.LimitExact | src/tasks.rs:15-118 | the limit holds over all runs if and only if the window is at most 172801 seconds, the count is zero, or it is 2^63 or more |
| RateLimit.LongWindowExceeds | src/tasks.rs:103-118 | for every longer window, a run that allows one request too many in one window |
| Retry.BackoffClosedForm | src/retry.rs:39-56 | saturation never shows: the delay is min(max, initial*attempt) or min(max, initial*2^min(attempt-1,31)) |
| Retry.BackoffMonotone | src/retry.rs:39-56 | a later attempt never waits less, and none longer than the maximum |
| Retry.DocumentedExponential | src/retry.rs:39-56 | the documented formula is met if and only if the attempt is at most 32, the initial delay zero or the maximum reached by then |
| Retry.BackoffGrows | src/retry.rs:39-56 | both kinds begin at the initial delay; linear delays grow by it, exponential ones double up to the 32nd, and all are capped by the maximum |
| Retry.DocumentedDelays | src/retry.rs:39-56 | the delays of the documentation's examples |
| Retry.LastAttempt | src/retry.rs:88-95 | the first attempt that is not failed with an exit code, or else the last one allowed |
| Retry.RunsUntil | src/retry.rs:88-95 | a command that always fails with an exit code runs as often as allowed; a first run that ends in any other way is the only one |
| Retry.RunWithRetries | src/retry.rs:80-156 | the command runs exactly up to that attempt; result, stored row and sleep are those of these attempts |
| Retry.StoredRow | src/models/execution.rs:152-178 | the retry counter grows by the number of retries, and the stored status is the returned one exactly if the last attempt got its log files |
| Retry.SleepBound | src/retry.rs:97-106 | the total sleep is at most count times the maximal delay |
| Retry.LinearSleep | src/retry.rs:97-106 | below the cap the sleeps before n retries sum to initial*n*(n+1)/2 |
| Retry.ExponentialSleep | src/retry.rs:97-106 | below the cap they sum to initial*(2^n-1) |
| Json.ResolveField | src/payload.rs:66-72 | the loop follows the dot-separated segments from the root |
| Json.ResolveFirst | src/payload.rs:66-72 | a path is looked up at its first dot: the field of that key, and the rest in that field |
| Json.GetField | src/payload.rs:66-72 | a key is found exactly in an object that has it, with its value |
| Json.SplitOfJoin | src/payload.rs:66-72 | splitting at a separator undoes joining pieces that do not contain it |
| Json.JoinOfSplit | src/payload.rs:66-72 | joining undoes splitting |
| Shell.EscapedValue | src/interpolation.rs:18-25 | in an unquoted position an escaped value, whatever its characters, contributes exactly its characters, quoted, to one word |
| Shell.SafePositionExact | src/interpolation.rs:18-25 | that holds for all values exactly in the unquoted positions: not in quotes, between backquotes, after a backslash, in a comment, or after the operator of a here-document |
| Shell.InterpolationCommutes | src/interpolation.rs:56-73 | lexing the command gives the tokens of the template with each slot filled by exactly its value; values with braces are not expanded again |
| Shell.SameStructure | src/interpolation.rs:56-73 | two payloads that resolve the same placeholders give commands with the same tokens up to quoted characters: the same operators, and the same unquoted characters in corresponding words |
| Shell.ShortcutIsExact | src/interpolation.rs:56-60 | returning a template without braces unchanged is what replacing would do |
| Shell.Resolved | src/interpolation.rs:61-71 | exactly the placeholders that the payload resolves are replaced, by the text of the value |
| Placeholders.PlaceholderExact | src/interpolation.rs:8-11 | exactly two braces, any white space, a path of word characters and dots, any white space and two braces are a placeholder |
| Placeholders.CommandFirst | src/interpolation.rs:56-73 | up to the leftmost placeholder the command is the template; there it is the quoted text of the value at the path, or the placeholder itself if the payload has none; then the command of the rest |
| Placeholders.CommandWithout | src/interpolation.rs:56-60 | a template without a placeholder is the command |
| Placeholders.ValueTexts | src/interpolation.rs:34-43 | the texts of null, texts, numbers and truth values |
| Shell.UnresolvedUnchanged | src/interpolation.rs:61-71 | a template without a placeholder that the payload resolves is the command |
| Flatten.FlattenJsonFields | src/executor/script.rs:287-336 | the recursion that pushes onto a vector computes the entries of the value |
| Flatten.FlattenMatchesLookup | src/executor/script.rs:287-336 | for payloads without arrays and with ordinary keys, a path is listed exactly once if looking it up gives a non-null scalar, with that scalar's text, and otherwise not at all |
| Flatten.FlattenMatchesPlaces | src/executor/script.rs:293-336 | the same for every payload with ordinary keys, arrays included, with the items of an array looked up by their place, counted from 0 |
| Flatten.TextArray | src/executor/script.rs:293-336 | item i of an array of texts is named after the array, a dot and i |
| Decimal.ReadOfPrint | src/config_writer.rs:493-515 | reading a printed number gives the number |
| Decimal.NoLeadingZero | src/config_writer.rs:493-515 | a printed number begins with a zero only if it is zero |
| Durations.FormatHours | src/config_writer.rs:493-515 | whole hours are printed in hours |
| Durations.FormatMinutes | src/config_writer.rs:493-515 | whole minutes below an hour are printed in minutes |
| Durations.FormatSeconds | src/config_writer.rs:493-515 | all other whole seconds are printed in seconds |
| Durations.FormatMillis | src/config_writer.rs:493-515 | below a second whole milliseconds are printed, and nothing as zero seconds |
| Durations.FormatRoundTrip | src/config_writer.rs:493-515 | print and reparse never lengthens, is exact for whole seconds and for whole milliseconds below one second and for nothing else, and settles after one round |
| FormText.ParseText | src/routes/hooks.rs:868-935 | every line that is not blank is parsed in order; the first problem is reported with its line number, blank lines counted |
| FormText.FirstProblem | src/routes/hooks.rs:868-935 | a text is refused with a problem at a line if and only if that line, counted from 1 with the blank ones, has the problem and every line before it is blank or accepted |
| FormText.AcceptedAll | src/routes/hooks.rs:868-935 | a text is accepted if and only if every line is blank or accepted, and has no items exactly if all are blank |
| FormText.ItemsInOrder | src/routes/hooks.rs:868-935 | the items of lines come after those of the lines before |
| FormText.LinesAre | src/routes/hooks.rs:871 | a line ends at a newline, a carriage return before it dropped; blank lines in between count, an empty last one does not |
| FormText.TrimExact | src/routes/hooks.rs:872 | a trimmed text is the one without white space at its ends from which the text differs by white space around it |
| FormText.LinesOfJoin | src/routes/hooks.rs:1413-1504 | the lines of joined items are the items |
| HookForm.CutTwiceExact | src/routes/hooks.rs:876-884 | a line is cut at its first two colons and no others, so a value may hold colons |
| HookForm.FieldAccepted | src/routes/hooks.rs:884-925 | what a line stands for: a trimmed name, the word of a type, and "required" or "optional", nothing or a bare colon, with white space around each |
| HookForm.FieldRefused | src/routes/hooks.rs:876-921 | why a line is refused, in the order in which the reasons are looked for |
| HookForm.TypeWords | src/routes/hooks.rs:893-905 | the words of the types, and no others |
| HookForm.FilterAccepted | src/routes/hooks.rs:957-1003 | what a line stands for: "exists" without a value whatever follows it, every other operator with a trimmed value that is not empty |
| HookForm.FilterRefused | src/routes/hooks.rs:950-1003 | why a line is refused, in the order in which the reasons are looked for |
| HookForm.OperatorWords | src/routes/hooks.rs:963-979 | the words of the operators |
| HookForm.DaysConcat | src/routes/hooks.rs:1038-1042 | the days of a line are those of its pieces, in order |
| HookForm.OneDay | src/routes/hooks.rs:1038-1042 | a piece is a trimmed day, or none if it is blank |
| HookForm.WindowAccepted | src/routes/hooks.rs:1027-1074 | what a line stands for: its days before the first colon, then a time cut at its first dash, both ends trimmed |
| HookForm.WindowRefused | src/routes/hooks.rs:1029-1060 | why a line is refused |
| HookForm.ParsePayloadText | src/routes/hooks.rs:868-935 | the loop's result, and "none" for a text without fields |
| HookForm.ParseFiltersText | src/routes/hooks.rs:941-1012 | the same for filters |
| HookForm.ParseWindowsText | src/routes/hooks.rs:1018-1081 | the same for time windows |
| HookForm.ParseEnvText | src/routes/hooks.rs:1087-1100 | lines without an equals sign or a key say nothing, later lines win |
| HookForm.LastLineWins | src/routes/hooks.rs:1087-1100 | a key has a value if and only if the last line that names the key gives it |
| HookForm.PayloadRoundTrip | src/routes/hooks.rs:1450-1467 | for every accepted text, what the edit page shows is accepted again with the same fields |
| HookForm.FiltersRoundTrip | src/routes/hooks.rs:1476-1492 | the same for filters, values with colons included |
| HookForm.WindowsRoundTrip | src/routes/hooks.rs:1494-1504 | the same for time windows, end times with dashes included |
| HookForm.EnvRoundTrip | src/routes/hooks.rs:1413-1421 | the same for the environment, in whatever order the page lists the keys |
| HookForm.StorableFields | src/routes/hooks.rs:868-935 | the field lists that some text stands for are exactly the non-empty ones whose names are trimmed, not empty, on one line and free of colons |
| HookForm.StorableFilters | src/routes/hooks.rs:941-1012 | the same for filters: a value exactly if the operator is not "exists", trimmed, not empty, on one line |
| HookForm.StorableWindows | src/routes/hooks.rs:1018-1081 | the same for windows: at least one day, days without colons and commas, start without a dash |

## Left out

- Hook configuration is fixed during a run and database calls succeed: hot reload and the branches for database errors.
- Replay takes no barrier (`src/routes/executions.rs:407-498`) and is not a step.
- Timestamps of rows, log texts, notifications, e-mail, HTTP routing, S3, tarballs, process spawning: I/O. The result of a command, and whether its log files could be made, are arbitrary inputs.
- Ids of executions are handed to the model, and a step that would reuse one does nothing; ids of queue rows are their index in the hook's queue.
- Interleaving takes a sweep row whose status has moved on as skipped, which the code does not check; `Sweep` says what that assumption hides.
- Order, depth bound and drain are claims about whole handlers; statement by statement and across a crash they fail, as listed above.
- Liveness after a crash: a lock held by a pending execution without a task survives the recovery, so only safety is claimed.
- Cooldown, payload filters and time windows as trigger rules: they are checked before the barrier and only drop requests.
- StreamExact.StreamAgreesExact: necessity is proved for a secret masked second; for longer lists that every later secret is harmless is proved sufficient, and an earlier secret may still make a later one that is not harmless impossible to put together.
- Regex masking: library semantics, and the live stream is not used with patterns. Bytes of the log are characters here; a chunk that splits a multi-byte character is dropped by the reader and is not part of this model.
- RateLimit.RateLimiter.Evaluate: insert and increment are one step, and times are whole seconds that are not negative.
- The word class of the placeholder pattern (any without white space and without a closing brace) and the compact printing of arrays and objects are parameters.
- Shell expansions: a command between backquotes, and all text after the operator of a here-document, are taken as opaque and unsafe for values. Parameter and arithmetic expansion and `$(` are not interpreted (a value in double-quotes is unsafe in any case), and operators of several characters are lexed character by character.
- Flatten.FlattenMatchesPlaces: lookup itself does not index arrays, so arrays are compared with the object of their items; keys that are empty or hold dots are outside it.
- Durations.FormatRoundTrip: the duration grammar is cut down to one number with ms, s, m or h, which is all that is printed.
- The sorting of environment keys on the edit page: the round trip is proved for every order.
- Date-filtered paging, HMAC, backup retention, pagination labels, configuration messages: foreign code or easy members.
