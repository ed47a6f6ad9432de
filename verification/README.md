# A verified model of the tool-calling gateway

The gateway lets a language model call tools. A request is looked up, validated and put to a policy; if the
policy allows it the tool runs, its output is masked, and the call is written to an audit log. Long calls go
through a bounded queue and a pool of workers. This project models the parts of the gateway whose behaviour is
hard to see from the code, and proves what they promise for every input, every interleaving and every answer of
the store.

| file | what it models |
|---|---|
| `Calculator.dfy` | the calculator's evaluator: a class with a cursor, and the function each method computes |
| `CalculatorGrammar.dfy` | the grammar it accepts, the syntax tree and the value of every accepted string |
| `CalculatorLocality.dfy`, `CalculatorTokens.dfy`, `CalculatorErrors.dfy` | which bytes decide what the parser returns, that only the tokens do, and what its errors mean |
| `Async.dfy`, `AsyncRuns.dfy`, `AsyncReports.dfy` | submitters, queue, workers and store as a step relation; what holds over its runs; what the rows say |
| `AsyncGateway.dfy` | the code of one submission and of one worker's turn, as sequences of those steps |
| `Executor.dfy`, `Store.dfy` | one call of the pipeline, the books it leaves, and the store that keeps them |
| `Interleaved.dfy` | the books when calls of the pipeline overlap |
| `Gateway.dfy` | the pipeline with the real policy engine and a tool that works on the sanitized input |
| `RateLimit.dfy` | the fixed-window limiter under one key: INCR, EXPIRE and expiry in any order, each able to fail |
| `RateServer.dfy` | the server with all its keys and users, and the client code |
| `Policy.dfy`, `Sql.dfy`, `SqlRules.dfy` | the policy's verdict, its SQL check, the rules an accepted query keeps, and the rewriting of the checked query |
| `Masking.dfy` | the two recursive maskers |
| `Splitting.dfy`, `Chunker.dfy`, `ChunkerShape.dfy` | splitting a text, the Markdown chunker, and where it cuts |
| `Embedder.dfy`, `EmbedderTokens.dfy` | the feature-hashing embedder, and what its tokens are |
| `Text.dfy`, `Wrappers.dfy` | trimming, lower case, search; `Option`, `Result`, the reply of a remote call |

## How the model is built

**The calculator** evaluates in an arbitrary algebra of numbers (`Algebra`): the theorems hold for float64 with
its rounding as for any other choice. Every parser method is tied to a function on the bytes still to be read.
Choosing the algebra of syntax trees turns the same functions into a parser, so that evaluating while parsing
is compared with parsing first and evaluating afterwards inside one definition.

**The asynchronous executor** is a step relation in which each store call and each queue operation is one step, and a
call of `Execute` two: the call itself and the save of its audit. Submitters, workers and other callers of `Execute`
interleave freely. A store call that
reports success has taken effect, one that reports an error may or may not have (`Reply`). `AsyncGateway` holds
the code in its own form, on a real queue, the real `TaskStore` and the real pipeline, and shows that what it
does is a run of the step relation.

**The rate limiter** is a step relation over one key, with a clock that only moves forward. A key past its
expiry may be evicted at any time from the expiry on; removing it at once, or when the next command touches it,
are among these runs. Every call is recorded with the time of its INCR, the incarnation of the counter it met and
the value it saw. `RateServer` puts the keys of all users and tools on one server, where any commands of any calls
interleave, and shows that what one key sees of such a run is a run of the one-key relation.

**The pipeline** is a method on a store; `Entered` says what one call adds to the books, for every answer of the
registry, the validation, the policy, the tool and the store. `Interleaved` takes calls apart into the steps between
which other calls can come, and shows that one undisturbed call adds what `Entered` says.

## Where the code does not do what one would expect

- A window of one TTL can hold `2 * limit - 1` passed calls, not `limit`: `WindowBound` and `WindowBoundIsMet`.
- That bound holds of all runs exactly in fail-closed mode (`BoundedIffFailClosed`). In fail-open mode each failed
  command can let one more call pass, and no others do: `WindowBoundWithErrors`, `FailOpenIsUnbounded`.
- A counter is left without an expiry for good exactly when the INCR that created it took effect without an answer
  or its EXPIRE took no effect (`StrandedIff`, `ExpiryDebt`). It never ends, and once `limit` calls have been
  counted every later one is refused: `StrandedForever`, `StrandedRefusesForever`.
- `SanitizeInput` does not look into lists, `maskSensitive` does. A sensitive field inside a list reaches the
  tool, the reject row and the sanitized column of the audit row as it came: `MaskersAgreeIff`, `ExposedAfter`,
  `AuditShowsNothing`. The repository's README.md (line 10) promises masking without this exception.
- The policy accepts any spaces around the word `limit`, the rewriter looks for `" limit "`: an accepted query
  can get a second LIMIT (`SecondLimit`), and one whose blocked tables are called `limit` or like the row limit
  is no longer acceptable once rewritten (`RewritingStaysAllowed`).
- A task refused by a full queue is stored as failed without a finish time; it is the only kind of ended task
  that has none: `EndedRows`.
- A store fault can leave a task unfinished for good, but only its own: a submitted task fails to end exactly when
  its own Create, Load or MarkRunning failed, or its own MarkFull or Finish took no effect (`EndsIff`,
  `DroppedJob`). A failed audit save is no such fault.
- Some users can make two tools share a rate-limit counter exactly when one tool's name, after a colon, ends in
  `:tool:` and the other's name: `SharedKeyIff`.

## Model

| member | source | states |
|---|---|---|
| `Calculator.EvalExpression` | internal/tool/builtin.go:252-266 | the evaluator with its cursor returns, for every byte string, the result of the functional evaluator that the grammar theorems are about, errors included |
| `Calculator.ExpressionParser.ParseExpression` | internal/tool/builtin.go:268-294 | outcome and cursor are those of `Expression` on the unread bytes; the cursor never goes back or past the end; the recursion terminates by (bytes unread, nonterminal) |
| `Calculator.ExpressionParser.ParseTerm` | internal/tool/builtin.go:296-325 | the same for a term, the zero-divisor error included |
| `Calculator.ExpressionParser.ParseFactor` | internal/tool/builtin.go:327-348 | the same for a factor: unary minus, parentheses, missing parenthesis |
| `Calculator.ExpressionParser.ParseNumber` | internal/tool/builtin.go:350-370 | the same for a number: at most one dot, "." taken and left to the literal conversion |
| `Calculator.ExpressionParser.SkipSpaces` | internal/tool/builtin.go:372-376 | the cursor stops at the first byte that is no Latin-1 space |
| `Calculator.ExpressionParser.PeekByte` | internal/tool/builtin.go:378-383 | the next byte, 0 at the end of the input |
| `CalculatorGrammar.EvalIff` | internal/tool/builtin.go:252-370 | evaluation succeeds with v iff the whole string derives a tree of the grammar whose value is v (every literal converts, no divisor is zero) and v passes the final test |
| `CalculatorGrammar.EvalDerived` | internal/tool/builtin.go:252-370 | completeness: whatever derives is evaluated to the value of its tree, the error included |
| `CalculatorGrammar.EvalSound` | internal/tool/builtin.go:252-370 | soundness: whatever is evaluated has a derivation of the whole input |
| `CalculatorGrammar.FusedIsParseThenValue` | internal/tool/builtin.go:252-370 | evaluating while parsing equals parsing and then evaluating the tree, with the same error; what does not parse has no value |
| `CalculatorGrammar.Unambiguous` | internal/tool/builtin.go:268-348 | no string has two syntax trees |
| `CalculatorGrammar.UnparseDerives` | internal/tool/builtin.go:268-348 | the minimally parenthesized form of every tree derives that tree |
| `CalculatorGrammar.RoundTrip` | internal/tool/builtin.go:252-376 | a tree printed with minimal parentheses and any spaces between tokens parses back to itself and evaluates to its value |
| `CalculatorGrammar.UnparseIsMinimal` | internal/tool/builtin.go:327-348 | no derivation of a tree has fewer parentheses than the printed one |
| `CalculatorGrammar.SpacesDoNotMatter` | internal/tool/builtin.go:372-376 | derivable strings that differ only in the spaces before tokens have the same result |
| `CalculatorTokens.TokensDecide` | internal/tool/builtin.go:252-376 | any two inputs with the same tokens, whether they parse or not, have the same result, the same error included |
| `CalculatorTokens.SpacesBetween` | internal/tool/builtin.go:372-376 | in any input spaces may be put wherever they cut no token, and made fewer or more where there are some, without changing value or error |
| `CalculatorTokens.TokensConcat` | internal/tool/builtin.go:350-370 | an input that cannot go on with a number begins new tokens wherever it stands |
| `CalculatorGrammar.AcceptedBytes` | internal/tool/builtin.go:259-261 | an accepted input holds only token bytes and spaces; a NUL byte, which peek cannot tell from the end, is always refused |
| `CalculatorLocality.OnlyThePrefixMatters` | internal/tool/builtin.go:268-383 | what the parser returns, errors included, depends only on the bytes it consumed and what it peeks at after them; the rest of the input may be any other that begins alike |
| `CalculatorLocality.ExpressionIsLocal` | internal/tool/builtin.go:268-294 | an expression's outcome and the prefix it consumes stay the same in front of any other rest that begins alike |
| `CalculatorLocality.FactorIsLocal` | internal/tool/builtin.go:327-348 | the same for a factor |
| `CalculatorErrors.SyntaxErrors` | internal/tool/builtin.go:252-370 | which error a text that does not parse gets: a number is expected where an operand must follow and none begins, a parenthesis is missing where an operand has ended inside an open one, the expression is invalid where one has ended outside all and something is left; by the consumed bytes these exclude one another |
| `CalculatorErrors.LatinSpaces` | internal/tool/builtin.go:372-376 | the bytes skipped are the Unicode spaces among the Latin-1 characters |
| `Async.StepKeepsInv` | internal/executor/executor.go:196-281 | every step of a submitter, a worker or another caller, with or without a store fault, keeps the queue, ownership, row and audit invariants together |
| `Async.RunKeepsInv` | internal/executor/executor.go:196-281 | so does every run, in any interleaving |
| `Async.StepKeepsFifo` | internal/executor/executor.go:217-223 | a step keeps the queue within its capacity and jobs leaving it in the order they entered |
| `Async.StepKeepsOnceEach` | internal/executor/executor.go:234-262 | a step never executes a job twice, nor one that was not dequeued |
| `Async.HeldJob` | internal/executor/executor.go:234-281 | a job held by a worker was accepted, left the queue, and has a row |
| `AsyncRuns.Ownership` | internal/executor/executor.go:196-281 | in every reachable state: queue within capacity, FIFO, each task with at most one submission, queue slot or worker, Execute at most once per task and only for accepted ones |
| `AsyncRuns.StepAdvances` | internal/executor/executor.go:225-275 | a stored row moves only pending to running or failed, running to success, failed or timeout, always from the row as stored: no update is lost |
| `AsyncRuns.RowsAdvance` | internal/repository/memory.go:134-149 | over any run rows are never lost, never go back, and never change once ended |
| `AsyncRuns.EndedRows` | internal/executor/executor.go:263-296 | a success row is backed by a stored success audit row of the very call it reports; an ended row lacks a finish time iff its task was never accepted, and then it says the queue was full |
| `AsyncReports.EndedRowsTell` | internal/executor/executor.go:207-281 | in every run with any faults: a row keeps the caller, tool and masked input submitted under its id; an ended accepted row says how the run of its task ended, success with the response, timeout iff that is the response's error, failure otherwise with the returned error; and if that run's audit was saved, a stored audit row names the request |
| `AsyncReports.RunKeepsReports` | internal/executor/executor.go:207-281 | the invariants behind it hold over every run |
| `AsyncReports.EndingIsAStep` | internal/executor/executor.go:262-274 | what is recorded as the end of a task's run is the save of its audit by the worker that holds it |
| `AsyncReports.RequestsAreSubmitted` | internal/executor/executor.go:207-217 | request i is that of the i-th submission |
| `AsyncRuns.StepStallsIff` | internal/executor/executor.go:207-281 | a step leaves a task with nobody to work on it, unfinished, exactly if it is one of the task's own store calls and fails in one of five ways |
| `AsyncRuns.StalledIff` | internal/executor/executor.go:207-281 | over any run with any faults a task is stalled, or skipped before its execution, exactly if one of its own calls dropped it |
| `AsyncRuns.StalledForever` | internal/executor/executor.go:254-277 | a stalled task stays stalled, with its row as it is, in everything that may follow |
| `AsyncRuns.EndsIff` | internal/executor/executor.go:207-281 | at rest after any run with any faults, a submitted task has ended iff none of its own calls dropped it, and an accepted one was executed iff its Load and MarkRunning were answered; the faults of other tasks do not matter |
| `AsyncRuns.Drained` | internal/executor/executor.go:217-281 | at rest all submitted tasks have ended iff none was dropped, and then the executed tasks are the accepted ones, each once; failed audit saves are allowed |
| `AsyncRuns.DroppedJob` | internal/executor/executor.go:254-261 | one failed read leaves an accepted task pending, one lost answer to the write that marks it running leaves it running, in every continuation |
| `AsyncRuns.QuiescentIsIdle` | internal/executor/executor.go:234-245 | a state in which nothing can happen but arrivals has an empty queue, idle workers and finished submissions |
| `AsyncRuns.StepDecreases` | internal/executor/executor.go:217-281 | every step but an arrival lowers the ranking of queue, submissions, workers and other callers, whatever the store answers |
| `AsyncRuns.RunsEnd` | internal/executor/executor.go:217-281 | without new submissions every run ends within that ranking |
| `AsyncCode.AsyncGateway.SubmitAsync` | internal/executor/executor.go:196-232 | a submission is refused without effect when it cannot start; otherwise it takes exactly the steps create, try-enqueue, mark-full, returns what its last state says, and appends the job with its very request to the queue iff it returns a task |
| `AsyncCode.AsyncGateway.TryEnqueue` | internal/executor/executor.go:218-224 | the select: the job is appended iff there is room, the queue stays as it is otherwise, and nothing waits |
| `AsyncCode.AsyncGateway.ExecuteJob` | internal/executor/executor.go:262-274 | executing a job is the steps execute and save-audit; the row to write is Success iff the tool succeeded and the audit was saved, TimedOut iff it was not so and the error is "tool timeout", Failed otherwise, with the response of a success or the error Execute returned; the audit row names the request |
| `AsyncCode.AsyncGateway.RunAsyncJob` | internal/executor/executor.go:247-281 | the read-modify-write of one job is a run of that worker's steps; the job is executed iff its row was read and marked running, audited under the caller, tool and masked input of the request it carries, and its stored row says how it ended, as for ExecuteJob |
| `AsyncCode.AsyncGateway.WorkerTurn` | internal/executor/executor.go:234-245 | a worker takes the first job of the queue, treats it as RunAsyncJob says, and ends idle, by steps of its own |
| `AsyncCode.AsyncGateway.constructor` | internal/executor/executor.go:71-89 | a gateway starts in the initial state, without a queue unless both sizes are positive |
| `Executor.GatewayExecutor.Execute` | internal/executor/executor.go:91-194 | for every request and every answer of registry, policy, tool and store: the response and its error text, the error returned beside it (none iff the tool succeeded and the audit was saved) and what is added to the audit rows, the reject rows, the tool runs and the counter; a missing request leaves no trace |
| `Executor.GatewayExecutor.Attempt` | internal/executor/executor.go:116-193 | decision, success, error text, masked data, reject row, tool runs and counter of every branch before the deferred audit |
| `Executor.GatewayExecutor.SaveAudit` | internal/executor/executor.go:283-296 | the row stored falls back on the masked input; the earlier error is kept iff the row was saved |
| `Executor.GatewayExecutor.ExecuteTool` | internal/executor/executor.go:298-305 | the tool runs once, on the input it is given; a panic becomes an error |
| `Executor.GatewayExecutor.RecordMetrics` | internal/executor/executor.go:321-343 | the ToolCalls counter of that tool and status goes up by one, and for an error the ToolErrors counter of its class |
| `Executor.ErrorOfRun` | internal/executor/executor.go:167-192 | the error the caller is told and the class counted, from what the tool itself did: deadline, panic, nil result, its own error, or none |
| `Executor.TimeoutIff` | internal/executor/executor.go:168-171 | an allowed call's error is "tool timeout" iff the tool came back without a result after its deadline, or says so itself |
| `Executor.CountOfRun` | internal/executor/executor.go:173-192 | a run is counted once, under "success" iff the tool returned a success |
| `Interleaved.InterleavedLedger` | internal/executor/executor.go:91-194 | at every moment of every run of overlapping calls, with any answers of the store: no two audit rows have one call id, a call's row is there iff it was saved with effect, and audit rows, reject rows, tool runs and counters are those of the calls that got that far |
| `Interleaved.AllReturned` | internal/executor/executor.go:91-194 | when all of them have returned and the store did not fail: one audit row per call, one reject row per rejected call, tool runs and counted calls equal the calls decided "allowed" |
| `Interleaved.RunKeepsInv` | internal/executor/executor.go:91-194 | the books balance with what the calls owe, calls in flight included, after every step of every run |
| `Interleaved.ExecuteIsSteps` | internal/executor/executor.go:91-194 | what the contract of Execute says one call adds is what its steps add when no other call comes between |
| `Executor.LedgerBalances` | internal/executor/executor.go:91-194 | over calls that follow one another the rows also come in order: one audit row per call with its id, caller, tool, masked input, outcome and error, the reject rows of the rejected calls, and the counts |
| `Executor.RowsBalance` | internal/executor/executor.go:107-114 | the audit-row half of it, for any policy, over calls that follow one another |
| `Executor.CountsBalance` | internal/executor/executor.go:139-193 | the counting half of it, for a policy that always gives a reason, over calls that follow one another |
| `Executor.AuditShowsNothing` | internal/executor/executor.go:105-160 | the input an audit row shows never exposes a sensitive field; its sanitized input does iff the call was allowed or rejected with a reason and the request carries one inside a list |
| `Gateway.Serve` | internal/executor/executor.go:119-194 | with the real engine: a call is allowed iff its tool exists, its input is valid and the engine allows it, and is then safe by the rules of permission and SQL; the tool works on the sanitized input, for which the same holds; the output is masked as if no mask fields had been reported; every rejection has a reason |
| `Store.TaskStore.CreateAsyncTask` | internal/repository/memory.go:134-141 | the row is stored under its id and no other row changes |
| `Store.TaskStore.UpdateAsyncTask` | internal/repository/memory.go:143-149 | the whole row is replaced and no other row changes |
| `Store.TaskStore.GetAsyncTask` | internal/repository/memory.go:151-159 | a copy of the row, or not found |
| `Store.TaskStore.SaveToolAudit` | internal/repository/memory.go:77-82 | the row is appended |
| `Store.TaskStore.SavePolicyReject` | internal/repository/memory.go:90-96 | the row is appended |
| `Store.PagesTile` | internal/repository/memory.go:165-182 | asking for page after page shows every row once and in order, for any limit |
| `Store.PageIs` | internal/repository/memory.go:165-182 | a page holds the rows from the offset on, a negative one counting as 0, as many as the limit asks for or are left; a limit outside 1 to 100 counts as 20 |
| `RateLimit.WindowBound` | internal/repository/redis.go:29-40 | in every interleaving, fail-closed under any errors or in either mode without any, a window of one TTL holds at most 2 * limit - 1 passed calls and one counter at most limit |
| `RateLimit.WindowBoundIsMet` | internal/repository/redis.go:29-40 | for a TTL of at least two time units some run without errors reaches that bound |
| `RateLimit.WindowBoundWithErrors` | internal/repository/redis.go:29-40 | in either mode and under any errors, the passes of a window beyond 2 * limit - 1 are at most the failed commands that fail-open mode forgives |
| `RateLimit.BoundedIffFailClosed` | internal/policy/policy.go:118-123 | the bound 2 * limit - 1 holds of all runs iff the mode is fail-closed |
| `RateLimit.FailOpenIsUnbounded` | internal/policy/policy.go:118-123 | in fail-open mode any number of failing calls pass in one instant |
| `RateLimit.StepKeepsInv` | internal/repository/redis.go:29-40 | every INCR, EXPIRE, eviction and tick keeps: counters begin at least a TTL apart, calls lie within their counter's life, the values seen in one life increase, and an owed EXPIRE lands on the counter whose 1 was seen |
| `RateLimit.RunKeepsInv` | internal/repository/redis.go:29-40 | so does every run |
| `RateLimit.StepStrandsIff` | internal/repository/redis.go:29-40 | a step leaves the counter without an expiry that anybody owes exactly if it is a creating INCR that takes effect without an answer or an owed EXPIRE that takes no effect |
| `RateLimit.StrandedIff` | internal/repository/redis.go:29-40 | over any run the counter is stranded iff some step of it was one of these |
| `RateLimit.ExpiryDebt` | internal/repository/redis.go:34-38 | in every run without such a step, whatever else fails, a live counter without an expiry has exactly one call that owes it, the one that saw 1 |
| `RateLimit.LostExpire` | internal/repository/redis.go:35-37 | one failed EXPIRE leaves a counter that nobody owes an expiry |
| `RateLimit.StrandedForever` | internal/repository/redis.go:30-38 | such a counter never ends; calls pass only on the values still below the limit |
| `RateLimit.StrandedRefusesForever` | internal/policy/policy.go:124-126 | once its limit is used up it refuses every later call |
| `RateLimit.RefusalIff` | internal/policy/policy.go:117-127 | an undisturbed call is refused as unavailable iff fail-closed mode met a failed INCR, or a failed EXPIRE of a new counter, and as exceeded iff the INCR was answered and the counter had reached the limit before |
| `RateServer.SharedKeyIff` | internal/repository/redis.go:50-55 | some users make two tools share a counter iff one tool's name, after a colon, ends in ":tool:" and the other's name |
| `RateServer.KeyInjective` | internal/repository/redis.go:50-55 | for tools without a colon two pairs share a key iff they are the same tool and the same user, the empty user being "guest", whatever the user strings contain |
| `RateServer.GuestIff` | internal/repository/redis.go:50-54 | two names are one user to the limiter iff they are equal or both are among the empty name and "guest" |
| `RateServer.ColonSharesKey` | internal/repository/redis.go:50-55 | with a colon in the tool name two different pairs can share a key |
| `RateServer.StepSeen` | internal/policy/policy.go:117 | a command of any call changes the counter of its own key, by one step of the one-key relation, and no other |
| `RateServer.RunSeen` | internal/policy/policy.go:117 | what one key sees of an interleaving of all users' calls is a run of the one-key relation |
| `RateServer.OthersDoNotMatter` | internal/policy/policy.go:117 | two runs of which a key sees the same leave it in the same state, whatever was done under other keys |
| `RateServer.UserBound` | internal/policy/policy.go:111-128 | whatever other users do and whatever errors they meet, at most 2 * limit - 1 calls of one user for one tool pass in one TTL |
| `RateServer.OwnCallsOnly` | internal/policy/policy.go:117 | where no tool has a colon in its name, what a user's calls for a tool meet is a run of the one-key relation made of those calls alone |
| `RateServer.Limiter.CheckRateLimit` | internal/policy/policy.go:117-127 | one undisturbed call takes its own steps, decided by the counter of its own user and tool, and leaves every other key as it is; it is refused as unavailable iff an error met fail-closed mode, as exceeded iff the count given is above the limit |
| `RateServer.Limiter.IncrWithTTL` | internal/repository/redis.go:29-40 | INCR and, iff it answered 1, EXPIRE, on the key of the user and tool; the count INCR left, or an error |
| `RateServer.Limiter.Increment` | internal/repository/redis.go:30-33 | the INCR step on the stored key |
| `RateServer.Limiter.ExpireKey` | internal/repository/redis.go:35-37 | the EXPIRE step on the stored key |
| `PolicyEngine.Engine.CheckRateLimit` | internal/policy/policy.go:111-128 | without a limiter nothing is refused; with one, the counter of this user and tool decides, and is the only one that changes |
| `PolicyEngine.Engine.Check` | internal/policy/policy.go:88-109 | every decision has a reason, that of the first test that refuses, and "allowed" iff it allows; an allowed request is for a listed tool, its user may use it, and its query is safe; input and masks are those of SanitizeInput; the limiter counts the request under its user and tool iff it got past allowlist and permission |
| `PolicyEngine.Engine.Reason` | internal/policy/policy.go:93-108 | the reason is never empty, and is "allowed" iff allowlist, permission, limiter, SQL and URL tests all pass |
| `PolicyEngine.AllowedIff` | internal/policy/policy.go:88-109 | a request is allowed iff its tool is listed, it is safe, and neither the limiter nor the URL test refuses; safe: a sensitive tool only for "admin" and "system", an admin tool only for "system", and the query, if any, by the rules below |
| `PolicyEngine.FirstReasons` | internal/policy/policy.go:93-101 | which of the reasons before the query's is given, in order |
| `PolicyEngine.ReasonExplains` | internal/policy/policy.go:130-165 | the text given for a refused query names a rule its text breaks |
| `SqlRules.AcceptedIff` | internal/policy/policy.go:130-165 | a query is accepted iff its trimmed text is not empty, has no comment mark, has semicolons only at its end, has no maximal word that is a keyword in any case, begins with select or begins with with and contains select, names no blocked table as a word of its own, and has the word limit and a number if a limit is required |
| `SqlRules.RefusedIff` | internal/policy/policy.go:130-165 | each refusal is given iff its own rule is broken and those before it are kept |
| `SqlRules.WithoutQuery` | internal/policy/policy.go:131-137 | without a query only the SQL tool itself is refused |
| `Text.LowerIff` | internal/policy/policy.go:139 | lower-casing identifies exactly the texts that differ in the case of their letters |
| `PolicyEngine.ExecutedQueryIsAllowed` | internal/policy/policy.go:130-165 | sanitizing leaves the "sql" field as it is, so the text executed is the text checked, and the rewritten query would be accepted too |
| `Sql.RefusedOnlyForTables` | internal/repository/mysql.go:215-224 | for any blocked tables: an accepted query is refused after rewriting iff the rewritten text names a blocked table, and on no other ground |
| `Sql.RewritingStaysAllowed` | internal/repository/mysql.go:215-224 | for blocked tables that are single words: an accepted query is accepted again after rewriting iff it was left alone or no blocked table is one of the two words added |
| `Sql.RewritingIsIdempotent` | internal/repository/mysql.go:215-224 | rewriting a rewritten query changes nothing, for any two row limits |
| `Sql.RewrittenText` | internal/repository/mysql.go:215-224 | a query not left alone becomes its trimmed text without the last semicolons, " LIMIT ", and digits that read as the row limit, or as 100 for one that is not positive |
| `Sql.DecimalReads` | internal/repository/mysql.go:223 | the digits of a number read back as the number, without leading zeros |
| `Sql.UnchangedIff` | internal/repository/mysql.go:219-222 | the rewriter leaves a query alone iff its lower-cased text has " limit " in it |
| `Sql.SecondLimit` | internal/policy/policy.go:161-164 | a query the policy accepts for having a limit, and to which the rewriter adds a second one |
| `Sql.MatchesIffListed` | internal/policy/policy.go:157 | a word-boundary search finds a word iff one pass over the maximal runs of word characters lists it |
| `Sql.DangerousIffListed` | internal/policy/policy.go:57 | the case-insensitive keyword expression matches iff some maximal word, in lower case, is one of the keywords |
| `Masking.SanitizeInput` | internal/policy/policy.go:210-228 | the loop computes the recursive copy, and reports exactly the sensitive fields met on the way |
| `Masking.SensitiveIff` | internal/policy/policy.go:230-238 | a field name is sensitive iff it spells one of the markers somewhere, in any case of its letters |
| `Masking.SensitiveInside` | internal/policy/policy.go:230-238 | neither the case of its letters nor what stands around it hides a sensitive name |
| `Masking.MaskIdempotent` | internal/executor/executor.go:345-366 | masking twice is masking once |
| `Masking.MaskAbsorbsSanitize` | internal/executor/executor.go:345-366 | masking a sanitized input is masking the input |
| `Masking.ReportedMasksAddNothing` | internal/executor/executor.go:184 | the mask fields SanitizeInput reports never change what maskSensitive does |
| `Masking.MaskedAt` | internal/executor/executor.go:345-366 | at every path: up to the first masked field the same place is reached (key sets and list lengths are kept), that field holds "***", nothing lies below it |
| `Masking.MaskFixedIff` | internal/executor/executor.go:345-366 | maskSensitive changes a value iff a sensitive field in it is not masked |
| `Masking.MaskersAgreeIff` | internal/policy/policy.go:210-228 | the two maskers agree iff no unmasked sensitive field lies inside a list |
| `Masking.ExposedAfter` | internal/policy/policy.go:210-228 | a masked value exposes nothing; a sanitized one does iff the input does inside a list |
| `Masking.MaskersDisagree` | internal/policy/policy.go:219-225 | a password in a map in a list, on which they differ |
| `Masking.SanitizeKeepsField` | internal/policy/policy.go:213-226 | a field that is neither sensitive nor a map reaches the tool as it came |
| `Chunker.SplitMarkdown` | internal/rag/chunk.go:18-27 | the chunks are those of all paragraphs of all sections, in order |
| `Chunker.SplitByHeading` | internal/rag/chunk.go:29-44 | the loop with its reused buffer computes the trimmed, non-empty texts of the line groups |
| `Chunker.SplitParagraphs` | internal/rag/chunk.go:46-49 | the trimmed, non-empty parts between blank lines |
| `Chunker.NonEmpty` | internal/rag/chunk.go:81-89 | the trimmed parts that are not empty, in order |
| `Splitting.SplitIff` | internal/rag/chunk.go:30-47 | the parts of a text are those that join to it by the separator, are each cut at the first occurrence, and of which the last has none |
| `Splitting.PartsHaveNone` | internal/rag/chunk.go:30-47 | no part contains the separator |
| `ChunkerShape.SectionsAreCut` | internal/rag/chunk.go:29-44 | no section has a heading line after its first line |
| `ChunkerShape.ParagraphsAreCut` | internal/rag/chunk.go:46-49 | no paragraph contains two newlines in a row; each is trimmed and not empty |
| `ChunkerShape.HeadingIff` | internal/rag/chunk.go:34 | a line is a heading iff a '#' is the first of its characters that is no space |
| `ChunkerShape.LinesAreOneLiners` | internal/rag/chunk.go:30 | no line holds a newline |
| `Chunker.GroupsCutAtHeadings` | internal/rag/chunk.go:29-44 | the groups are all the lines in order, none empty, cut exactly before each heading but the first line's |
| `Chunker.TextIsConserved` | internal/rag/chunk.go:29-49 | the characters of a document that are no spaces equal, in order, those of all its paragraphs |
| `Chunker.SectionsKeepInk` | internal/rag/chunk.go:29-44 | the same for its sections |
| `Chunker.SplitLongText` | internal/rag/chunk.go:51-79 | a trimmed text that fits is one chunk, a longer one the chunks of its windows, an empty one none, for any overlap |
| `Chunker.CutWindows` | internal/rag/chunk.go:60-77 | the loop visits exactly the windows of the text, in order |
| `Chunker.CutAt` | internal/rag/chunk.go:65-77 | window k starts at k steps, is cut off at the end of the text, and is the last iff it reaches the end |
| `Chunker.WindowCount` | internal/rag/chunk.go:60-77 | a text of n > size characters has ceil((n - size) / step) + 1 windows, where the step is size - overlap, or size for an overlap of a whole window or more |
| `Chunker.WindowShape` | internal/rag/chunk.go:65-77 | every window but the last is full and shares exactly the overlap with the next; each is longer than the overlap, so none lies inside another |
| `Chunker.WindowsRebuild` | internal/rag/chunk.go:60-77 | the first window followed by the others without their overlap is the text, for any overlap |
| `Chunker.ChunksAreGood` | internal/rag/chunk.go:18-27 | every chunk is trimmed, not empty and at most 900 characters long, and its token count is the number of its runs of letters and digits, or its length if it has none |
| `Chunker.ChunksKeepText` | internal/rag/chunk.go:18-79 | the chunks laid in a row, each without the at most 120 characters at its beginning that repeat the end of the row before it, hold the document's characters that are no spaces, all of them and in order |
| `Embedder.DeterministicEmbedder.Embed` | internal/rag/embedder.go:32-54 | one vector per text, in order, each the vector of the text's tokens; none when the context is found done |
| `Embedder.DeterministicEmbedder.AddTokens` | internal/rag/embedder.go:41-49 | the in-place loop turns the zero array into the vector of the tokens |
| `Embedder.VectorIsTotal` | internal/rag/embedder.go:41-49 | each coordinate is the sum of the signs of the tokens that hash to it |
| `Embedder.VectorOfMultiset` | internal/rag/embedder.go:41-49 | the vector depends only on how often each token occurs |
| `Embedder.FieldsConcat` | internal/rag/embedder.go:134-138 | a separator parts the tokens before it from those after it |
| `EmbedderTokens.TokensConserve` | internal/rag/embedder.go:134-138 | the tokens put together are the letters and digits of the text, lower-cased, all of them and in order |
| `EmbedderTokens.WordIsToken` | internal/rag/embedder.go:134-138 | a run of letters and digits between separators is one token, itself, and separators alone give none |
| `EmbedderTokens.FieldsStand` | internal/rag/embedder.go:134-138 | every token is a non-empty run of letters and digits of the lower-cased text that stands between separators or the ends |
| `EmbedderTokens.FieldsCount` | internal/rag/chunk.go:91-97 | there are as many tokens as places where such a run begins |
| `Embedder.VectorAdds` | internal/rag/embedder.go:41-49 | joining two texts by a separator adds their vectors |
| `Embedder.NormBound` | internal/rag/embedder.go:41-49 | the L1 norm falls short of the number of tokens by an even number |

## Left out

- Numbers: rounding, overflow and NaN of float64 are not computed; the calculator's theorems hold for every choice of operations, and the tests `right == 0`, `IsInf`/`IsNaN` and `ParseFloat` are parameters of it.
- The calculator tool's four-operation mode, the other built-in tools and the tool registry.
- HTTP handlers, middleware, the web page, configuration, the language-model client and the keyword router.
- Qdrant, OpenAI, MySQL and Redis on the wire: each remote call becomes a reply that says whether it reported success and whether it took effect; Redis data lost by a failover, or keys changed by other programs, are not modelled.
- JSON Schema validation, JSON encoding, URL and address tests, SHA-256 and UUIDs: they are inputs. Call ids and task ids are fresh numbers given out in order.
- Times other than the limiter's clock and a task's finish time, durations, session and message ids, and the metrics other than the ToolCalls and ToolErrors counters (histograms, queue length, active workers); a gateway without metrics.
- Deadlines: a timeout is one of the outcomes a tool can have. A call of the limiter or the store that runs into its deadline is a reply with an error.
- Text outside ASCII in the SQL check and in the lower-casing of field names; regular expressions are modelled by what the ones used here match.
- Sql.RewritingStaysAllowed: requires blocked table names without a space, as single words are; for other names RefusedOnlyForTables says when a rewritten query is refused.
- CalculatorGrammar.SpacesDoNotMatter: speaks of derivable strings only; TokensDecide and SpacesBetween speak of all.
- Executor.LedgerBalances: over calls that follow one another, which adds the order of the rows; overlapping calls are the subject of InterleavedLedger. RowsBalance and CountsBalance are its two halves.
- AsyncCode.AsyncGateway.SubmitAsync: shows one submission that nothing interrupts; the interleavings are those of `Async`, whose steps the smaller methods of the class are shown to be, one by one.
- AsyncCode.AsyncGateway.RunAsyncJob: as for SubmitAsync, one job that nothing interrupts.
- AsyncCode.AsyncGateway.WorkerTurn: as for SubmitAsync, one turn that nothing interrupts.
- RateServer.Limiter.IncrWithTTL: no other command and no time comes between INCR and EXPIRE here, see the next line.
- RateServer.Limiter.CheckRateLimit: one call that nothing interrupts; interleaved calls are runs of the step relation, of which the methods `Increment`, `ExpireKey`, `Tick` and `Evict` are single steps.
- Chunker.SplitLongText: requires a positive size, which its one caller passes; with another size the loop of the original does not end for a text longer than that.
- Embedder.DeterministicEmbedder.Embed: the vectors are integers and are not divided by their length.
- Runs in which the process stops; fairness of the scheduler is not needed, as every run without arrivals ends.
- Retrieval, documents, messages and sessions in the store, except for paging.
