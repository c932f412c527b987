# DataFlowAgentHub control plane: a verified model

DataFlowAgentHub is a conversational data platform: a Go control plane around MySQL, Redis and
NATS, and Python workers that generate SQL and run analysis tasks. This project models the parts
of the control plane that decide what reaches a database, what a client is told and what a row
says afterwards, and proves what those parts guarantee for every input, every interleaving and
every reachable state.

`dafny verify dfyconfig.toml` checks the whole project.

| module | models |
|---|---|
| `Collections`, `Text` | optional values, repetition-free sequences, slices; the Go string functions the code relies on |
| `Lexer`, `LexerLaws`, `TokenLaws` | `tokenize`, its reference automaton and the laws of the word list; what each kind of text contributes to it |
| `Classifier` | `IsReadOnlySQL`, `ClassifySQL` and how far they agree |
| `Executor`, `GateTerms` | roles, system tables, `QueryRows`, `ExecuteWrite`, `Execute`, `InternalNL2SQL`; what each role and each file may send, by verb and first word |
| `SqlFile`, `FileWords` | uploaded SQL files: comment removal, splitting, validation, execution; the splitter against the lexer |
| `SseBus`, `MemoryBus`, `BusRaces` | the event bus as a state machine, the class over Go slices that refines it, and readers that take no lock |
| `TaskProtocol`, `TaskAgreement`, `TaskOutcomes`, `TaskHandlers`, `Consumer` | asynchronous tasks: interleaved steps, their invariants, what the rows hold value by value, the handlers, the worker that calls back |
| `RateLimiter` | the sliding-window limiter over a Redis sorted set |
| `Ddl` | field validation, the `CREATE TABLE` printer and a parser that reads it back |
| `SchemaDiscovery`, `SchemaCache` | the two groupings of column rows, and the cache with a time to live |
| `Migrations`, `PoolRegistry` | the migration runner, the pool registry |
| `UserRoles`, `UserRaces`, `UserSerial`, `UserRows` | users and upgrade requests: handlers run one after the other, the same handlers taken apart and interleaved, the serial run an interleaving comes to, and the rows either puts into the tables |

## Conventions

- A Go string is the sequence of its code points, so it is taken to be valid UTF-8. The byte
  scanner only reacts to ASCII characters, and no byte of a longer code point is one.
- `strings.ToUpper` maps two letters outside ASCII into ASCII, dotless i to I and long s to S. Both
  are modelled, because they are where the classifier and the lexer part. Other letters outside
  ASCII have capitals outside ASCII and are left alone.
- `strings.TrimSpace` strips the characters of `unicode.IsSpace`.
- Each SQL or Redis statement, or Redis pipeline, is one atomic step. What lies between two
  statements of a handler can be interleaved with any other step, with one exception: `UserRoles`
  runs each handler as a whole, and its results are about such serial runs. `UserRaces` splits the
  same handlers into read and write and says what is left of those results, and `UserSerial` which
  serial run of the same handlers an interleaving comes to, if its writes are timely.
- Methods that hold a lock for their whole body (`MemoryBus`, `Manager`) are one step. Readers of the
  bus take no lock; `BusRaces` shows that a receive between two sends of one publish changes nothing.
- What the world answers (database replies, faults, clocks, the SQL generator, the order in which a
  Go map is visited) is a parameter or a free choice.
- Some fields are histories that the code does not keep: `received` and `missed` of a channel,
  `attempts` and `runWrites` of the task tables, the log of writes in `UserRaces`, `found` and
  `stored` of a cache entry, the execution log of the migrations. Statements are about them; no branch reads them.

## Where a property turned out not to hold

- A text classified as a write need not be rejected by the read-only check: an `INSERT` spelled with
  a long s or a dotless i is one word to the classifier and none to the lexer
  (`Classifier.FoldedInsertExample`); `Classifier.ClassifiedWriteVerdict` says exactly when.
- A system table can be named without being noticed, behind a longer name that contains it: a whole
  family of such writes goes out (`Executor.HiddenReferenceExample`); the first occurrence decides
  (`Executor.FirstOccurrenceDecides`).
- A data_admin, who may not create a database, may send a statement that does: the classifier takes any
  other CREATE for a CREATE TABLE, so the statement is refused if and only if a single space stands
  between CREATE and DATABASE (`GateTerms.CreateDatabaseRefusedIff`).
- The limiter counts stamps, not requests, so requests that share one are undercounted
  (`RateLimiter.SharedStampsUndercount`); `RateLimiter.VerdictIsWindowCount` says exactly when the
  verdict is that of the window count. `docs/ISSUES.md` and
  `docs/CODE_QUALITY_AUDIT.md` speak of a fixed window; the code slides.
- A task and its run can end up telling different stories: whenever the worker's acknowledgement fails
  after a delivered success callback (`Consumer.FailedAckSplitsTaskAndRun`), or when the id of an
  inserted task is lost (`TaskAgreement.LostIdSplitsTaskAndRun`);
  `TaskAgreement.AgreementIsFirstEqualsLast` says exactly when they agree.
- A recorded migration can be executed again, because the loop that loads the versions never asks
  whether the rows ended or broke off (`Migrations.RepeatExample`); `Migrations.RepeatsIffMissed` says
  exactly when. The record stays a prefix all the same.
- The DDL does not determine the fields. Field names arrive unchecked, and a name with a backtick can
  swallow whole lines: every validated table of two or more columns prints exactly as some validated
  table of one (`Ddl.EveryTablePrintsAsOneColumn`, `Ddl.NoTableIsDetermined`, and `Ddl.BacktickCollides`
  for one pair). Among all validated tables one free of backticks is determined by its text if and only
  if it has at most one column (`Ddl.DeterminedIffOneColumn`). Of two validated tables with one text, the first free of backticks, the fields are
  the same if and only if the second is free of them as well (`Ddl.Injective`).
- A super_admin, whom `ChangeUserRole` refuses to touch, can lose the role by approval of its own
  upgrade request (`UserRoles.OwnRequestCostsTheRole`); `UserRoles.TopRoleMoves` says exactly when.
- Interleaved, the user handlers do more: a request can be approved and then rejected while its grant
  takes effect (`UserRaces.RejectedAndGranted`), which no serial order of the two reviews does
  (`UserSerial.NoSerialOrder`), and a new super_admin can be deleted (`UserRaces.NewSuperDeleted`). `UserRaces.TopRoleLost` and `UserRaces.DecidedAgain` say exactly when.

The splitter of SQL files promises nothing about words. `FileWords.FileWordsAreStatementWords` gives
conditions under which it keeps them, and both are needed: `FileWords.GluesExactly` says exactly when
a comment after a word can go without a trace, and `FileWords.QuoteIsCut` shows quoted text turn into
words.

Two facts about parts of the code that no input of the program reaches:

- Cache keys collide when a workspace id holds a colon (`SchemaCache.KeysEqualWhen` says exactly when).
  Workspace ids are UUIDs: `internal/handlers/handlers.go:96` signs every token with the constant of
  `internal/seed/seed.go:12`.
- With no room for columns `DiscoverSchema` reports a table once for every row
  (`SchemaDiscovery.BlankIsBounded`). `internal/config/config.go:124` refuses such a configuration and
  `cmd/api/main.go` exits on it.

## Model

| member | source | states |
|---|---|---|
| `Lexer.Tokenize` | internal/sqlrun/classify.go:48-152 | the index-jumping scanner terminates and returns exactly the words of an automaton that reads one character at a time, for every text, unclosed literals and comments and the index one past the end included |
| `Lexer.SkipQuote` | internal/sqlrun/classify.go:81-96 | skipping a single-quoted literal with doubled quotes, closed or not, leaves the automaton's words unchanged |
| `Lexer.SkipDouble` | internal/sqlrun/classify.go:99-112 | the same for a double-quoted text with backslashes, whose index may end one past the end, and then no word is left |
| `Lexer.SkipBacktick` | internal/sqlrun/classify.go:115-125 | the same for a backtick identifier |
| `Lexer.SkipWord` | internal/sqlrun/classify.go:128-136 | the longest run of word characters is one word, followed by the words of the rest |
| `Lexer.SkipNumber` | internal/sqlrun/classify.go:139-146 | a run of digits is no word |
| `Lexer.LineComment` | internal/sqlrun/classify.go:61-68 | jumping to the first line end after `--` agrees with reading the comment character by character; without a line end nothing more is a word |
| `Lexer.BlockComment` | internal/sqlrun/classify.go:71-78 | the same for the first `*/` after `/*` |
| `LexerLaws.WordsOfConcat` | internal/sqlrun/classify.go:48-152 | the words of a concatenation are those emitted in the first part and those of the second from the mode reached |
| `LexerLaws.CommentInsertion` | internal/sqlrun/classify.go:48-152 | a closed block comment inserted at any top-level position changes no word |
| `LexerLaws.StatementTextKeepsWords` | internal/sqlrun/run.go:13-13 | trimming spaces and one trailing semicolon never changes the word list |
| `LexerLaws.WrapWords` | internal/sqlrun/run.go:19-19 | a wrapped query has the words SELECT, FROM, those of the query, AS, _q, LIMIT if and only if the scan of the query ends outside comments and quoted text; otherwise the last three are swallowed |
| `TokenLaws.InsertionKeepsWords` | internal/sqlrun/classify.go:60-125 | a text in backticks, in double quotes with backslashes taking the next character, in single quotes with its quotes doubled, a line comment or a block comment has no words, and put at any top-level position changes none |
| `TokenLaws.OpenSwallows` | internal/sqlrun/classify.go:60-125 | a quote or comment that is never closed leaves no word of anything that follows |
| `TokenLaws.IdentifierIsAWord` | internal/sqlrun/classify.go:128-136 | letters, digits and underscores that start without a digit and are not continued are one word, followed by the words of what comes next |
| `TokenLaws.DigitsThen` | internal/sqlrun/classify.go:139-146 | a run of digits has no words, even right before a word |
| `TokenLaws.SignIsSkipped` | internal/sqlrun/classify.go:148-149 | any other character, and a dash or slash that opens no comment, contributes nothing |
| `Classifier.IsReadOnlySQL` | internal/sqlrun/classify.go:35-44 | nothing is found if and only if no word is a write keyword; else the first such word, capitalised |
| `Classifier.WrapKeepsVerdict` | internal/sqlrun/run.go:13-19 | wrapping never changes the read-only verdict, in either direction |
| `Classifier.StripLeadingParens` | internal/sqlrun/classify.go:208-213 | the loop strips parentheses and spaces as the recursive definition does |
| `Classifier.ClassifiesStem` | internal/sqlrun/classify.go:165-168 | capitalising first and stripping then is the same as stripping first |
| `Classifier.StemKeepsWords` | internal/sqlrun/classify.go:208-213 | what the classifier strips holds no word |
| `Classifier.ClassifiedWriteVerdict` | internal/sqlrun/classify.go:165-205 | a text classified as any write passes the read-only check if and only if it is an INSERT spelled with a folded letter and no write keyword follows the verb |
| `Classifier.FoldedInsertExample` | internal/sqlrun/classify.go:165-176 | a concrete text that is classified as INSERT and passes as read-only |
| `Executor.RoleReadingsAgree` | internal/rbac/roles.go:18-34 | comparing ranks with Go's zero for unknown roles and the closure of `MinRole` agree for every SQL type and role text |
| `Executor.CheckTablesInSQL` | internal/sqlrun/permissions.go:50-67 | a table is reported if and only if some table's leftmost occurrence is a whole identifier, whatever the order of the map |
| `Executor.FirstOccurrenceDecides` | internal/sqlrun/permissions.go:55-64 | a table is found if and only if no letter, digit or underscore adjoins the first occurrence of its name, whatever stands further right |
| `Executor.HiddenReferenceExample` | internal/sqlrun/permissions.go:55-64 | a family of multi-table deletes that go out for a data_admin although the table users stands in each as a whole identifier |
| `Executor.HiddenStatement` | internal/sqlrun/permissions.go:55-64 | one member of the family is a plain MySQL statement |
| `Executor.QueryRows` | internal/sqlrun/run.go:12-23 | the wrapped text is sent if and only if the trimmed text is read-only; else nothing is sent and the call fails |
| `Executor.ExecuteWrite` | internal/sqlrun/run.go:57-66 | exactly the trimmed text is sent |
| `Executor.Execute` | internal/nl2sqlexec/executor.go:55-97 | what is sent is exactly what the gate allows, and the call fails if and only if nothing is sent or the database fails |
| `Executor.InternalNL2SQL` | internal/grpcserver/server.go:127-166 | an empty message sends nothing; any other call sends at most one statement, a read-only query, and answers as the executor fared |
| `Executor.GateIsSafe` | internal/nl2sqlexec/executor.go:64-95 | at most one statement; a query has no write keyword, wrapper included; a write has the words that were checked, one of the three roles that may write its type, and no noticed system table |
| `Executor.GateIsMonotone` | internal/sqlrun/permissions.go:75-84 | a higher role sends whatever a lower role sends, and the same statement |
| `Executor.UnknownRoleOnlyReads` | internal/grpcserver/server.go:137-143 | a caller whose role is none of the four, the empty one included, can only read |
| `GateTerms.SentExactly` | internal/nl2sqlexec/executor.go:64-95 | exactly what goes out for any text and role: the wrapped query if and only if the text opens with SELECT or WITH and has none of the seventeen words; the text itself if and only if it does not, the role may send its verb and none of the fifteen tables is noticed; else nothing |
| `GateTerms.WritersFirstWord` | internal/sqlrun/permissions.go:30-41 | what a normal_user sends for writing starts with the word INSERT or UPDATE, or a folded INSERT; what a data_admin sends starts with one of six words and opens neither with DROP nor with CREATE DATABASE; only a super_admin sends anything else, and no other role writes |
| `GateTerms.TypeByVerb` | internal/sqlrun/classify.go:165-205 | which of the ten types a text has, if and only if by the verb it opens with after spaces and parentheses |
| `GateTerms.StemOfPadded` | internal/sqlrun/classify.go:165-213 | spaces around a text and parentheses before it do not change what is classified |
| `GateTerms.StatementTextPadded` | internal/sqlrun/run.go:13-13 | what is sent for a text with spaces around it is the text |
| `GateTerms.OneSemicolonDropped` | internal/sqlrun/run.go:13-13 | of semicolons at the end exactly one is dropped, with the spaces on both sides of it |
| `GateTerms.CreateDatabaseRefusedIff` | internal/sqlrun/classify.go:183-188 | a data_admin is refused CREATE DATABASE if and only if a single space stands between the two words; with any other blanks the statement goes out |
| `SqlFile.RemoveBlockComments` | internal/handlers/data.go:436-451 | terminates by shrinking, follows the recursive definition, leaves no `/*` |
| `SqlFile.RemovalIsIdempotent` | internal/handlers/data.go:436-451 | a text is left alone if and only if it opens no comment; removing twice is removing once |
| `SqlFile.FirstCommentGoes` | internal/handlers/data.go:436-451 | the first comment goes from its opener to the first closing mark after it, and the text that closes up is looked at again |
| `SqlFile.UnclosedCommentGoes` | internal/handlers/data.go:442-447 | a comment that is never closed takes everything after it |
| `SqlFile.ParseSQL` | internal/handlers/data.go:407-433 | the two loops compute the statements of the file |
| `SqlFile.LinesMeet` | internal/handlers/data.go:410-424 | the lines of a file, with or without line comments, come down to their texts with one space between them |
| `SqlFile.SplitJoin` | internal/handlers/data.go:424-426 | splitting undoes joining for parts without the separator |
| `SqlFile.StatementsAreTidy` | internal/handlers/data.go:407-433 | every statement is trimmed, not empty and free of `/*`, `--`, `;` and line ends |
| `SqlFile.ParseUndoesJoin` | internal/handlers/data.go:407-433 | tidy statements joined with semicolons parse back to themselves |
| `SqlFile.ReparseIsStable` | internal/handlers/data.go:407-433 | the statements of any file, joined with semicolons, parse to themselves |
| `SqlFile.ExecuteFile` | internal/handlers/data.go:480-507 | what reaches the database are the valid statements of the file; succeeded plus failed is the total, one error for each failure, ok if and only if none; rows are the sum over the successes |
| `SqlFile.AttemptsAreTheValid` | internal/handlers/data.go:487-494 | the attempts stand at increasing positions, and these are exactly the positions of the valid statements |
| `SqlFile.FailuresInOrder` | internal/handlers/data.go:487-502 | error numbers increase and stay within the file |
| `SqlFile.FailuresAreExact` | internal/handlers/data.go:487-502 | a statement is reported if and only if it is not an INSERT or UPDATE or the database refuses it |
| `SqlFile.RowsAddUp` | internal/handlers/data.go:487-502 | the rows of a file are those of its parts together; a statement brings the rows answered, or none if it is not executed or fails |
| `GateTerms.PermittedExactly` | internal/handlers/data.go:465-478 | a statement of a file may be executed if and only if it opens with INSERT or UPDATE |
| `GateTerms.FileSendsOnly` | internal/handlers/data.go:480-507 | whatever a file sends is one of its statements as it stands and starts with the word INSERT or UPDATE, or a folded INSERT; and every statement that opens with one of the two is sent |
| `FileWords.RemovalKeepsWords` | internal/handlers/data.go:436-451 | removing comments keeps the word list when each opens at top level and nothing grows together across it |
| `FileWords.FileWordsAreStatementWords` | internal/handlers/data.go:407-433 | when comments stand apart and quoted text is closed and holds no semicolon, line end or double dash, the words of the file are the words of its statements, in order |
| `FileWords.CommentGlues` | internal/handlers/data.go:448-448 | a comment between any two words leaves one word where the lexer sees two |
| `FileWords.GluesExactly` | internal/handlers/data.go:448-448 | after any front that ends in a word, taking out a comment keeps the words if and only if what follows does not go on with that word |
| `FileWords.QuoteIsCut` | internal/handlers/data.go:426-431 | a quoted text of two words around a semicolon, which has no words, is cut into two statements that have one |
| `SseBus.RunIsSound` | internal/ssebus/bus.go:56-102 | in every reachable state the listed channels are exactly the open ones, each once and under its own session, no session has an empty list, no buffer exceeds 32, and nothing was sent on or closed twice on a closed channel |
| `SseBus.CancelIsIdempotent` | internal/ssebus/bus.go:62-79 | a second cancel changes nothing, in any state |
| `SseBus.OfferAllPointwise` | internal/ssebus/bus.go:89-101 | publishing acts once on each listed channel and on no other |
| `SseBus.PublishReaches` | internal/ssebus/bus.go:86-102 | in every reachable state a publish appends its event to every open channel of its session in which fewer than 32 wait, counts a miss where 32 do, and changes no other channel |
| `SseBus.EveryAccountMatches` | internal/ssebus/bus.go:56-102 | over every run each channel's reader, buffer and misses are those of an account kept for that subscriber alone, from the operations only |
| `SseBus.DropsAreMissed` | internal/ssebus/bus.go:92-93 | the drop counter is the sum of the misses of all channels |
| `SseBus.BusDelivers` | internal/ssebus/bus.go:56-102 | what a subscriber received followed by its buffer are the events published to its session while it was subscribed, in order, less those that met a full buffer; the drop counter is the number so omitted over all subscribers |
| `BusRaces.Serialise` | internal/ssebus/bus.go:86-102 | any interleaving of the sends of one publish with receives leads where this order leads: the receives from channels not yet reached, the sends, the other receives, each in its order |
| `BusRaces.EarlyAndLate` | internal/ssebus/bus.go:86-102 | the receives before and those after are together all receives of the interleaving, as often as they occur |
| `BusRaces.PublishIsSerial` | internal/ssebus/bus.go:86-102 | after any run, a publish with receives between its sends leads where a serial run leads: the early receives, the publish, the late receives; so every result about runs applies |
| `MemoryBus.FilterInPlace` | internal/ssebus/bus.go:66-73 | the loop over `list[:0]`, writing where it reads, yields the old list without the channel, in order, and counts the closes |
| `MemoryBus.Append` | internal/ssebus/bus.go:59-59 | appending in place or into a larger copy gives the old list and the new channel |
| `MemoryBus.MemoryBus.Subscribe` | internal/ssebus/bus.go:56-60 | refines the subscribe step; no two sessions ever share a backing array |
| `MemoryBus.MemoryBus.Cancel` | internal/ssebus/bus.go:62-79 | refines the cancel step, in place, without touching another session's list |
| `MemoryBus.MemoryBus.Publish` | internal/ssebus/bus.go:86-102 | refines the publish step |
| `MemoryBus.MemoryBus.Receive` | internal/ssebus/bus.go:57-57 | a reader takes the oldest waiting event, if any |
| `MemoryBus.MemoryBus.TotalDrops` | internal/ssebus/bus.go:84-84 | returns the drop counter of the state machine |
| `TaskProtocol.StepExtends` | internal/grpcserver/server.go:43-47 | no step deletes or renumbers a row, shortens a history or changes a row that has left queued/running |
| `TaskProtocol.TerminalIsFinal` | internal/async/task.go:100-196 | over every continuation of every interleaving, a task that has left queued/running keeps its whole row |
| `TaskProtocol.RowsAlways` | internal/grpcserver/server.go:43-47 | in every reachable state a task row is the freshly queued one changed by the first terminal write aimed at it and by no other |
| `TaskOutcomes.FirstWriteTells` | internal/grpcserver/server.go:36-47 | in every reachable state a task row holds what its first writer brought: a callback its verdict, its result or "null", and its message; a timeout the text "task timed out after" with the limit; the reaper nothing more; and it is as queued while nobody has written |
| `TaskOutcomes.RowChanges` | internal/async/task.go:100-196 | any step changes a row only while it is queued or running, by a callback, a timeout or the reaper, and leaves then exactly that writer's values |
| `TaskOutcomes.AttemptsGrow` | internal/async/task.go:100-196 | the list of writers of a task grows by one at each step that aims a terminal write at it and at no other |
| `TaskOutcomes.RunChanges` | internal/grpcserver/server.go:59-66 | any step changes a run only by a callback for one of its tasks or by its handler, which set completed or failed whatever it was |
| `TaskOutcomes.EnqueuedStays` | internal/async/task.go:55-96 | a task inserted in any reachable state keeps its session, run and expiry for ever after, stays announced if it was, and has a watcher with its limit if there is one |
| `TaskOutcomes.EnqueueAddsOne` | internal/async/task.go:55-96 | an insert adds one queued row with what was asked, its announcement and its watcher and nothing else; a failed one adds nothing |
| `TaskAgreement.RunsAlways` | internal/grpcserver/server.go:59-66 | in every reachable state a run shows the verdict of its last update, by a callback or by the handler that started the run |
| `TaskAgreement.AgreementIsFirstEqualsLast` | internal/grpcserver/server.go:43-66 | in every reachable state a task and a run agree if and only if the first terminal write to the task was a callback's and the last update of the run, whoever made it, brought the same verdict |
| `TaskAgreement.SingleCallbackAgrees` | internal/grpcserver/server.go:43-66 | with one task on the run and at most one callback for it, ahead of timeout and expiry and past its run update, and no update by the handler that started the run, they agree |
| `TaskAgreement.LostIdSplitsTaskAndRun` | internal/handlers/messages.go:125-133 | when the id of an inserted task is lost and the handler gives the run up, the task is queued and the run failed |
| `TaskAgreement.NotesAlways` | internal/grpcserver/server.go:68-87 | in every reachable state each callback has left the messages and events its progress allows, and each message and event stands in the session of its callback's run |
| `TaskAgreement.OneMessageOneEvent` | internal/grpcserver/server.go:68-87 | a callback handled to its end without a fault, for a task with a run, has left exactly one assistant message and one result event |
| `TaskOutcomes.NotesInTheRunsSession` | internal/grpcserver/server.go:68-87 | in every reachable state each message and each event stands in the session of the run of its callback's task |
| `TaskAgreement.WatchersAlways` | internal/async/task.go:100-162 | in every reachable state a watcher past its update has a terminal task, and has announced a timeout only after aiming the update at it |
| `TaskAgreement.WatcherLeavesTerminal` | internal/async/task.go:100-162 | a watcher that ends without a database error leaves its task terminal |
| `TaskAgreement.NoticeMeansTimeout` | internal/async/task.go:129-159 | an announced timeout is the task's outcome if and only if a timeout was the first write aimed at it |
| `TaskOutcomes.WatcherTimesOut` | internal/async/task.go:106-160 | a watcher that fires undisturbed on a queued or running task sets timeout with its limit in the text and announces it if and only if there is a bus and a session |
| `TaskHandlers.Hub.EnqueueTask` | internal/async/task.go:55-96 | a failed insert leaves nothing, a lost id leaves the row alone, else the row is announced or not and watched if there is a time limit; an id comes back only then |
| `TaskHandlers.Hub.FinishRun` | internal/handlers/messages.go:480-510 | the handler's own update of a run is the run-writing step |
| `TaskHandlers.Hub.TaskCallback` | internal/grpcserver/server.go:29-91 | uninterrupted, the handler with its early exits and passed-over errors takes exactly the steps of the protocol, and fails only on the first statement |
| `TaskOutcomes.CallbackLeaves` | internal/grpcserver/server.go:29-57 | whatever fails on the way, an uninterrupted callback leaves its verdict, its result or "null", and its message in the row of an active task unless the first statement fails, and changes no other row |
| `TaskHandlers.Hub.TimeoutWatcher` | internal/async/task.go:106-160 | the same for the watcher: read, guarded update, notice if there is a bus and a session |
| `TaskHandlers.Hub.ReapExpired` | internal/async/task.go:183-187 | the row by row reading of the reaper's statement is the reaper step |
| `TaskHandlers.FinishIsReachable` | internal/grpcserver/server.go:29-91 | an uninterrupted handler leads from a reachable state to a reachable state, so all invariants hold after it |
| `Consumer.ProcessMessage` | services/ai/orchestrator/consumer.py:13-67 | which callbacks one message sends: success if and only if the message parses, the pipeline finishes and a client is found; failure if and only if the message is not acknowledged, has an id and a client is found; both only when the acknowledgement fails |
| `Consumer.HandleEffect` | internal/grpcserver/server.go:43-87 | a handled callback gives an active task its status, its result or "null", and its message, leaves any other as it is, sets the run in any case, and adds one message and one event in the session of the run |
| `Consumer.FailedAckSplitsTaskAndRun` | services/ai/orchestrator/consumer.py:44-61 | success followed by failure leaves an active task succeeded, with the result and message of the success, and its run failed, with two messages and two events |
| `RateLimiter.Limiter.Allow` | internal/ratelimit/limiter.go:13-44 | the set changes exactly when the pipeline takes effect, answered or not; the verdict is the count's when it is answered, else open or closed as asked |
| `RateLimiter.SetIsWindow` | internal/ratelimit/limiter.go:21-30 | pruning and expiry lose nothing, overlapping requests included: a stamp is in the set if and only if it is of some request of the whole history and lies after the current edge |
| `RateLimiter.StampsCount` | internal/ratelimit/limiter.go:24-29 | the set never exceeds the number of requests after the edge, and equals it if and only if no stamp is shared there |
| `RateLimiter.VerdictIsWindowCount` | internal/ratelimit/limiter.go:21-43 | the verdict is, for every limit, that of counting the whole history if and only if no stamp is shared within the window |
| `RateLimiter.SharedStampsUndercount` | internal/ratelimit/limiter.go:24-27 | two requests with one stamp are counted once |
| `RateLimiter.NeverMoreThanLimit` | internal/ratelimit/limiter.go:21-43 | with distinct stamps no half-open interval of the window's length, less the delay between stamp and edge, holds more than the limit of admitted requests, overlapping ones included |
| `RateLimiter.FailuresLeaveNoTrace` | internal/ratelimit/limiter.go:32-38 | over every sequence of calls the set is that of the calls that took effect |
| `RateLimiter.ClosedNeverMoreThanLimit` | internal/ratelimit/limiter.go:13-44 | a limiter that fails closed lets no more than the limit through in such an interval, whatever fails |
| `RateLimiter.OpenLetsAllThrough` | internal/ratelimit/limiter.go:33-38 | one that fails open lets every call through while none is answered |
| `Ddl.ValidateFields` | internal/mysqlmgr/ddl.go:37-53 | no error if and only if every field has a known type, a length where one is needed and a new name; else what is wrong with the first bad field, in the order of the checks |
| `Ddl.AcceptedAlone` | internal/mysqlmgr/ddl.go:11-53 | a single field is accepted if and only if its type, in capitals, is one of ten, with a positive length for VARCHAR and DECIMAL |
| `Ddl.BuildCreateTableSQL` | internal/mysqlmgr/ddl.go:56-80 | the loop prints the text of the table, from the literal head to the literal tail |
| `Ddl.TypeBack` | internal/mysqlmgr/ddl.go:61-72 | every printed type reads back as the capitalised type with its length, BOOLEAN from TINYINT(1) |
| `Ddl.NotNullExactly` | internal/mysqlmgr/ddl.go:73-75 | the printed definition of a field of known type and length ends in NOT NULL if and only if the field is not nullable |
| `Ddl.TextAroundColumns` | internal/mysqlmgr/ddl.go:56-80 | the literal text before, between and after table name and columns |
| `Ddl.RoundTrip` | internal/mysqlmgr/ddl.go:37-80 | for a validated field list a reference parser that shares no constant with the printer recovers names, order, types, printed lengths and nullability if and only if no name holds a backtick, at which it stops reading a name |
| `Ddl.Injective` | internal/mysqlmgr/ddl.go:56-80 | of two validated tables with one text, the first free of backticks, names, types, printed lengths and nullability are the same if and only if the second is free of backticks as well |
| `Ddl.BacktickCollides` | internal/mysqlmgr/ddl.go:56-80 | two validated field lists, of one column and of two, with the same DDL |
| `Ddl.EveryTablePrintsAsOneColumn` | internal/mysqlmgr/ddl.go:37-80 | every validated table with a column prints exactly as some validated table of one column |
| `Ddl.NoTableIsDetermined` | internal/mysqlmgr/ddl.go:37-80 | every validated table of two or more columns shares its text with a validated table of other fields |
| `Ddl.DeterminedIffOneColumn` | internal/mysqlmgr/ddl.go:37-80 | among all validated tables, one free of backticks is determined by its text, up to case and lengths that are not printed, if and only if it has at most one column |
| `SchemaDiscovery.DiscoverSchema` | internal/schema/discovery.go:50-93 | with room for columns: an error if and only if the stream goes wrong and the table limit did not stop the scan before, else the bounded tables of the rows up to the cut, and of all rows if they are contiguous; without: an error if and only if the stream goes wrong and the ordinary rows stay within the table limit, else one blank table for each of them up to the limit |
| `SchemaDiscovery.ScanIsBounded` | internal/schema/discovery.go:56-83 | the map and order filled by skips and break hold the first tables and their first columns of the rows before the cut, and the scan stops early exactly at a cut |
| `SchemaDiscovery.TablesInOrder` | internal/schema/discovery.go:56-83 | the reported tables are not system tables, at most as many as the limit and in the order of their first rows; one is missing only if the limit is reached and it begins later |
| `SchemaDiscovery.ColumnsInOrder` | internal/schema/discovery.go:73-79 | the columns of a table are those of its first rows in order, at most as many as the limit; one is missing only if the limit is reached and it comes later |
| `SchemaDiscovery.CutIsLate` | internal/schema/discovery.go:66-71 | the scan reads all rows if and only if the ordinary tables fit into the limit |
| `SchemaDiscovery.CutLosesNothing` | internal/schema/discovery.go:66-71 | on a contiguous stream stopping at the table limit gives the first tables of the whole stream, each with its first columns |
| `SchemaDiscovery.BlankIsBounded` | internal/schema/discovery.go:65-77 | with no room for columns the answer is the bounded one if and only if the rows looked at are of different tables |
| `SchemaDiscovery.ResolveDatasetSchema` | internal/handlers/messages.go:269-303 | an error if and only if the stream goes wrong; else the maximal runs of rows of one table |
| `SchemaDiscovery.RunsFlatten` | internal/handlers/messages.go:269-303 | the groups flatten back to the rows whatever the rows, none is empty, no two neighbours share a name |
| `SchemaDiscovery.RunsAreTables` | internal/handlers/messages.go:269-303 | on a contiguous stream without system tables the runs are the distinct tables with all their columns |
| `SchemaDiscovery.GroupingsAgree` | internal/schema/discovery.go:50-93 | within the limits, on contiguous rows without system tables, both groupings give the same tables |
| `SchemaCache.KeysInjective` | internal/schema/cache.go:16-18 | keys of workspace ids without a colon are equal if and only if workspace and source are |
| `SchemaCache.KeysEqualWhen` | internal/schema/cache.go:16-18 | two keys are equal if and only if the pairs are, or one workspace id runs on across a colon into the front of the other's source |
| `SchemaCache.KeysCollide` | internal/schema/cache.go:16-18 | two pairs with the same key when a workspace id holds a colon |
| `SchemaCache.Cache.CachedSchema` | internal/schema/cache.go:22-55 | an uninterrupted lookup takes the steps get, discover, store of the interleaved model and answers accordingly |
| `SchemaCache.HitExactly` | internal/schema/cache.go:22-37 | a lookup is answered from the cache if and only if a readable entry under its key has not expired, and with its value; otherwise it discovers |
| `SchemaCache.EntryChanges` | internal/schema/cache.go:38-55 | the entry under a key changes only by a working store for that key, which holds what was discovered and lives for the configured time, or 300 seconds |
| `SchemaCache.SecondLookupHits` | internal/schema/cache.go:22-55 | after a lookup that discovered and stored, a second one gets the same answer from the cache if and only if less than the time to live has passed |
| `SchemaCache.InvAlways` | internal/schema/cache.go:22-55 | in every interleaving each entry holds what its own source showed when it was discovered and lives from its storing |
| `SchemaCache.AnswersAreRecent` | internal/schema/cache.go:22-55 | in every interleaving an answer is what direct discovery of the same workspace and source found less than the time to live plus the gap between discovery and storing ago |
| `SchemaCache.CollisionAnswersWrongly` | internal/schema/cache.go:16-31 | a run in which one source is answered with another's schema |
| `Migrations.Database.Up` | internal/migrate/migrate.go:16-75 | the run with its early returns computes the outcome function, for faults at any statement and any part of the versions loaded |
| `Migrations.UpSucceedsIff` | internal/migrate/migrate.go:16-75 | a run returns nil if and only if it misses no recorded version and the first two statements and the two for each missing file work; then every file that holds SQL is recorded and the missing ones have been executed, each once and in order |
| `Migrations.UpKeeps` | internal/migrate/migrate.go:26-74 | one run keeps the record a prefix, only adds to record and log, executes nothing it saw as applied, and has recorded every file that holds SQL if it returns nil |
| `Migrations.RepeatsIffMissed` | internal/migrate/migrate.go:32-40 | a run executes a recorded file again if and only if the versions were loaded, one was missed, and the first file statement got through |
| `Migrations.RepeatExample` | internal/migrate/migrate.go:32-40 | one recorded file, a load that breaks off before its version and no other fault: the file is executed again |
| `Migrations.RunsAreGood` | internal/migrate/migrate.go:55-74 | the same prefix invariant over any number of runs with any faults |
| `Migrations.RecordsArePrefix` | internal/migrate/migrate.go:55-74 | after any runs the records are a prefix of the files that hold SQL, each has been executed, and the only other file that can have been is the next |
| `PoolRegistry.Manager.Connect` | internal/mysqlmgr/manager.go:57-85 | a registered pool is returned; a pool that fails to open or to answer is neither registered nor left open |
| `PoolRegistry.Manager.GetPool` | internal/mysqlmgr/manager.go:88-93 | the registered pool, if there is one |
| `PoolRegistry.Manager.Close` | internal/mysqlmgr/manager.go:96-106 | closes and removes the dataset's pool and no other |
| `PoolRegistry.Manager.CloseAll` | internal/mysqlmgr/manager.go:109-117 | closes every registered pool, whatever the order of the map |
| `PoolRegistry.RunKeepsSound` | internal/mysqlmgr/manager.go:57-117 | over every run the open pools are exactly the registered ones, one for each dataset |
| `PoolRegistry.HandleStays` | internal/mysqlmgr/manager.go:57-117 | a registered pool stays the same until its dataset is closed |
| `PoolRegistry.SameHandleBetweenCloses` | internal/mysqlmgr/manager.go:57-117 | all callers that obtain a dataset's pool between two closes of it obtain the same handle, and it is open when they do |
| `PoolRegistry.ConnectHandsOut` | internal/mysqlmgr/manager.go:57-93 | a connect whose open and ping work hands out a pool in every reachable state, and every look-up until the dataset is closed finds that pool, open |
| `PoolRegistry.FailedConnect` | internal/mysqlmgr/manager.go:57-85 | one that fails changes nothing registered or open and hands out a pool if and only if the dataset had one |
| `PoolRegistry.CloseReleases` | internal/mysqlmgr/manager.go:96-117 | after a close the dataset has no pool and the old one is closed; every other dataset keeps its own, and with CloseAll nothing is open |
| `UserRoles.Accounts.Register` | internal/handlers/auth.go:33-93 | uninterrupted: refines the registration step with its checks of form, role and phone, a passed-over look-up included; it succeeds only for a super_admin and adds the trimmed phone with the role asked for under the fresh id; a failed statement leaves everything as it was |
| `UserRoles.Accounts.SelfRegister` | internal/handlers/auth.go:96-149 | uninterrupted: refines self-registration; it adds the trimmed phone as a normal_user under the fresh id; a failed statement leaves everything as it was |
| `UserRoles.Accounts.ChangeUserRole` | internal/handlers/auth.go:199-248 | uninterrupted: refines the role change, refused for oneself, unknown roles and a super_admin; a failed statement leaves everything as it was |
| `UserRoles.Accounts.DeleteUser` | internal/handlers/auth.go:251-288 | uninterrupted: refines deletion, refused for oneself and a super_admin; a failed statement leaves everything as it was |
| `UserRoles.Accounts.CreateUpgradeRequest` | internal/handlers/auth.go:291-324 | files a pending request in the caller's name for one of two roles; a failed insert leaves everything as it was |
| `UserRoles.Accounts.ReviewUpgradeRequest` | internal/handlers/auth.go:376-441 | uninterrupted: refines the review of a pending request, a failed grant passed over; a failed statement leaves everything as it was |
| `UserRoles.RunIsSound` | internal/handlers/auth.go:33-441 | over every serial run phones stay unique and roles stay within the four known ones |
| `UserRows.SelfRegisterAddsOne` | internal/handlers/auth.go:96-149 | in every state of a serial run a complete form with a free phone and no failing statement adds exactly one user, under a fresh id, with the trimmed phone and role normal_user; anything else changes nothing |
| `UserRows.RegisterAddsOne` | internal/handlers/auth.go:33-93 | the same for a super_admin who registers a data_admin or a visitor, with that role; anyone else, and any other role, changes nothing |
| `UserRows.UserRowChanges` | internal/handlers/auth.go:199-441 | in any serial run a step removes a user only by a deletion that goes through, sets its role only by a role change or an approved request, to what was asked, and never changes its phone |
| `UserRows.RequestRowsChange` | internal/handlers/auth.go:291-441 | any serial step adds only a pending request in the caller's name for one of two roles, and changes only the status of a pending one a super_admin reviews |
| `UserRoles.TopRoleMoves` | internal/handlers/auth.go:199-441 | in any serial run super_admin is gained if and only if another super_admin sets it by a role change, a super_admin row is never deleted, and the role is lost if and only if a super_admin approves a pending request the same user filed and no statement of it fails |
| `UserRoles.OwnRequestCostsTheRole` | internal/handlers/auth.go:291-441 | the seeded super_admin files a request, it is approved, and the role is gone |
| `UserRoles.ReviewedIsFinal` | internal/handlers/auth.go:376-441 | over every serial continuation a request leaves pending at most once, and no request is lost |
| `UserRoles.SuperAdminStays` | internal/handlers/auth.go:199-441 | over any stretch of any serial run a super_admin has kept the role throughout if and only if none of its own requests was approved and granted on the way |
| `UserRaces.AloneIsSerial` | internal/handlers/auth.go:33-441 | a handler whose statements follow one another undisturbed is the serial step |
| `UserRaces.InvAlways` | internal/handlers/auth.go:33-441 | in every interleaving of reads and writes phones stay unique and roles known, and what a waiting handler has read is off by exactly the writes since |
| `UserRaces.TopRoleLost` | internal/handlers/auth.go:229-280 | in every interleaving a super_admin loses the role if and only if its own approved request is granted or a late role change or deletion is written; such a write meets a super_admin if and only if the last write to the row since its read made it one |
| `UserRaces.TopRoleGained` | internal/handlers/auth.go:229-241 | in every interleaving the role is gained if and only if a role change that another super_admin asked for is written |
| `UserRaces.DecidedAgain` | internal/handlers/auth.go:404-424 | in every interleaving a request changes only by a decision, and a decision meets a decided request if and only if another was written since its read |
| `UserRows.InsertAddsOne` | internal/handlers/auth.go:73-141 | in every interleaving the insert of a registration adds one user under a fresh id with the trimmed phone and the role of the registration if the phone is still free, and changes nothing otherwise |
| `UserRows.UserRowInterleaved` | internal/handlers/auth.go:199-441 | in every interleaving a statement removes a user only by the write of a deletion, sets its role only by a written role change or a grant, to what was asked, and never changes its phone |
| `UserRows.RequestRowsInterleaved` | internal/handlers/auth.go:291-441 | in every interleaving a statement adds only the request a handler filed and changes only the status of the one a review decides |
| `UserRaces.TimelyDoesNoHarm` | internal/handlers/auth.go:199-441 | a write to a row untouched since its read deletes no super_admin, takes the role only by the grant of the user's own request, and changes no decided request |
| `UserRaces.DecidedIsFinal` | internal/handlers/auth.go:376-441 | over any stretch of any interleaving in which all writes are so timed a decided request is final |
| `UserSerial.TimelyRunIsSerial` | internal/handlers/auth.go:33-441 | the tables after any interleaving in which every write is so timed are those after its serial run: each handler in the place of its write, an approval in the place of its grant, and those still under way last with a failed grant |
| `UserSerial.SerialRunIsTheirs` | internal/handlers/auth.go:33-441 | in the serial run of any interleaving every action is what a handler asked for, no handler has two, and a handler has one if and only if its write went through |
| `UserSerial.NoSerialOrder` | internal/handlers/auth.go:404-438 | no order of an approval and a rejection of one pending request, whatever of them fails, leaves it rejected and its user with the role |
| `UserRaces.RejectedAndGranted` | internal/handlers/auth.go:404-438 | from any state with a pending request, two interleaved reviews: the request is approved and granted, and one more write leaves the grant and makes it rejected |
| `UserRaces.NewSuperDeleted` | internal/handlers/auth.go:229-281 | from any state, a deletion interleaved with a promotion deletes a super_admin |

## Left out

- TaskProtocol.StepExtends: leaves out that deleting a user or a session removes its sessions, runs and messages by cascade (`internal/migrate/001_init.sql:41-72`), so that a run can vanish between two statements of a callback; rows are only ever added here.
- The lexical rules of MySQL itself (backslashes in single quotes, `#` comments, comments that are executed): the repository holds no statement of them, so the word list is compared with the scanner's own rules only.
- Text that is not valid UTF-8, and the byte offsets inside longer code points.
- `RedisBus`, NATS delivery, gRPC transport, HTTP routing, JSON, JWT, password hashing, file formats and storage: foreign behaviour. Lost, late and repeated callbacks are modelled.
- How `EnqueueTask` learns the id of the row it inserts: the id is fresh, or it is lost.
- The timers: a watcher or the reaper may act at any time, which covers every time limit.
- The check of a callback's status text, and cancellation of the worker's coroutine.
- The messages and events of `publishSyncResult` and `finishRunFailed`: only their updates of the run are modelled.
- Float rounding of the limiter's scores, a pipeline of which only some commands take effect, and the rounding of sub-second expiry.
- Go channels as such: a channel is a handle into a table of buffers; the log line for every tenth drop is not modelled.
- Scanning of result rows into maps, error texts, and the row limit that MySQL enforces.
- The sorting of migration names: files are given in the order it leaves. A file of several SQL statements is one statement; one that fails half-way counts as executed or not.
- The read-lock of `GetPool`, and callers that keep a handle after `Close`.
- Password hashing and the text of a role name before trimming and lower-casing in the user handlers; the table of upgrade requests has no migration in the repository, so no foreign key of it is modelled.
- `validateSQLTerminal`, knowledge documents, datasets and permissions, the agent graph, charts, reports and the front end: they would add only easy members or depend on libraries that are not part of this model.
